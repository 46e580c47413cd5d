/** ping/result.go: the outcome of one probe. A zero `recv` means the reply never came
    (or came out of order). */
module Ping {
  import opened NetIp
  import opened GoTime
  import opened Config

  datatype PingResult = PingResult(sent: Time, recv: Time, src: Addr, dest: Addr, target: Target) {

    /** `Elapsed`: -1 for a lost probe, otherwise the round trip `recv.Sub(sent)`. */
    function Elapsed(): (d: Duration)
      ensures IsZero(recv) ==> d == -1
      ensures !IsZero(recv) ==> d == Sub(recv, sent)
      ensures !IsZero(recv) && MinDuration <= recv - sent <= MaxDuration ==> d == recv - sent
      ensures !IsZero(recv) && recv == sent ==> d == 0
      ensures d < 0 <==> IsZero(recv) || recv < sent
    {
      if IsZero(recv) then -1 else Sub(recv, sent)
    }
  }
}
