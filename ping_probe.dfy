/** ping/probe.go: the per-source `pinger`. For every destination it keeps a monitor whose
    `wire` is a FIFO of the echoes still waiting for a reply, in a fixed buffer of 100
    entries; a reply reports every older outstanding echo as lost. The socket, the clock, the
    lock and the goroutines are outside the model: the outcome of each send and the current
    time are parameters, and the results channel is the sequence `results`. */
module Probe {
  import opened NetIp
  import opened GoTime
  import opened Config
  import opened Ping
  import ResolveService

  const MaxPendingPackets: nat := 100
  /** How many of the oldest entries a full FIFO drops at once. */
  const DropCount: nat := MaxPendingPackets / 4
  const SequenceModulus: nat := 0x1_0000

  /** Go's `uint16`. */
  type U16 = x: int | 0 <= x < SequenceModulus

  /** `sequence += 1` on a `uint16`: 65535 wraps to 0. */
  function Next(s: U16): (r: U16)
    ensures r == (s + 1) % SequenceModulus
    ensures s < SequenceModulus - 1 ==> r == s + 1
    ensures s == SequenceModulus - 1 ==> r == 0
  {
    if s == SequenceModulus - 1 then 0 else s + 1
  }

  /** The sequence number after n more sends. */
  function After(s: U16, n: nat): U16 {
    if n == 0 then s else Next(After(s, n - 1))
  }

  /** n sends advance the sequence number by n, modulo 2^16. */
  lemma {:induction false} AfterIsModular(s: U16, n: nat)
    ensures After(s, n) == (s + n) % SequenceModulus
  {
    if n > 0 {
      var a: nat := s + n - 1;
      AfterIsModular(s, n - 1);
      NextMod(a);
      assert a + 1 == s + n;
    }
  }

  /** Incrementing a remainder modulo 2^16 gives the remainder of the successor. */
  lemma NextMod(a: nat)
    ensures Next(a % SequenceModulus) == (a + 1) % SequenceModulus
  {
    var q := a / SequenceModulus;
    var r := a % SequenceModulus;
    assert a == q * SequenceModulus + r;
    if r == SequenceModulus - 1 {
      assert a + 1 == (q + 1) * SequenceModulus;
    } else {
      assert a + 1 == q * SequenceModulus + (r + 1);
    }
  }

  lemma {:induction false} AfterAdd(s: U16, m: nat, n: nat)
    ensures After(s, m + n) == After(After(s, m), n)
  {
    if n > 0 {
      AfterAdd(s, m, n - 1);
    }
  }

  datatype OutstandingPacket = OutstandingPacket(seqNo: int, sent: Time)

  /** The echo request handed to the socket (its ID is 0 and its payload fixed). */
  datatype Echo = Echo(seqNo: int, dest: Addr)

  /** The FIFO after one more packet goes out: a full FIFO first drops its oldest quarter. */
  function Pushed(w: seq<OutstandingPacket>, p: OutstandingPacket): (r: seq<OutstandingPacket>)
    ensures |w| <= MaxPendingPackets ==> |r| <= MaxPendingPackets
    ensures |r| > 0 && r[|r| - 1] == p
    ensures |r| - 1 <= |w| && r[..|r| - 1] == w[|w| - (|r| - 1)..]
    ensures |w| < MaxPendingPackets ==> |r| == |w| + 1
    ensures |w| >= MaxPendingPackets ==> |r| == |w| - DropCount + 1
  {
    if |w| >= MaxPendingPackets then
      var kept := w[DropCount..];
      assert (kept + [p])[..|kept|] == kept;
      kept + [p]
    else
      assert (w + [p])[..|w|] == w && w[0..] == w;
      w + [p]
  }

  /** The index of the first packet with sequence number s, or |w| when there is none. */
  function FirstMatch(w: seq<OutstandingPacket>, s: int): (i: nat)
    ensures i <= |w|
    ensures i < |w| ==> w[i].seqNo == s
    ensures forall k :: 0 <= k < i ==> w[k].seqNo != s
  {
    if w == [] then 0
    else if w[0].seqNo == s then 0
    else 1 + FirstMatch(w[1..], s)
  }

  lemma FirstMatchIs(w: seq<OutstandingPacket>, s: int, i: nat)
    requires i <= |w|
    requires i < |w| ==> w[i].seqNo == s
    requires forall k :: 0 <= k < i ==> w[k].seqNo != s
    ensures FirstMatch(w, s) == i
  {
  }

  function LostResult(p: OutstandingPacket, src: Addr, dest: Addr, t: Target): PingResult {
    PingResult(p.sent, 0, src, dest, t)
  }

  function LostResults(w: seq<OutstandingPacket>, src: Addr, dest: Addr, t: Target): (rs: seq<PingResult>)
    ensures |rs| == |w|
    ensures forall k :: 0 <= k < |w| ==> rs[k] == LostResult(w[k], src, dest, t)
  {
    seq(|w|, k requires 0 <= k < |w| => LostResult(w[k], src, dest, t))
  }

  /** What `handleReceive` sends on the results channel for a reply with sequence number s
      received at `when`: a lost result for every packet before the first match, then (if
      there is a match) the answered one. */
  function ReceiveOutput(w: seq<OutstandingPacket>, s: int, when: Time, src: Addr, dest: Addr, t: Target)
    : (rs: seq<PingResult>)
  {
    var i := FirstMatch(w, s);
    LostResults(w[..i], src, dest, t) + (if i < |w| then [PingResult(w[i].sent, when, src, dest, t)] else [])
  }

  /** The FIFO after that reply: everything after the match, or unchanged without one. */
  function WireAfterReceive(w: seq<OutstandingPacket>, s: int): seq<OutstandingPacket> {
    var i := FirstMatch(w, s);
    if i < |w| then w[i + 1..] else w
  }

  /** With a match at index i: i lost results for the packets before it, in order, then the
      answered packet with its send time and the reply's time; the FIFO keeps what follows. */
  lemma ReceiveWithMatch(w: seq<OutstandingPacket>, s: int, when: Time, src: Addr, dest: Addr, t: Target, i: nat)
    requires i < |w| && w[i].seqNo == s
    requires forall k :: 0 <= k < i ==> w[k].seqNo != s
    ensures |ReceiveOutput(w, s, when, src, dest, t)| == i + 1
    ensures forall k :: 0 <= k < i ==>
              ReceiveOutput(w, s, when, src, dest, t)[k] == PingResult(w[k].sent, 0, src, dest, t)
    ensures ReceiveOutput(w, s, when, src, dest, t)[i] == PingResult(w[i].sent, when, src, dest, t)
    ensures WireAfterReceive(w, s) == w[i + 1..]
  {
    FirstMatchIs(w, s, i);
  }

  /** Without a match every outstanding packet is reported lost, in order, and the FIFO is kept. */
  lemma ReceiveWithoutMatch(w: seq<OutstandingPacket>, s: int, when: Time, src: Addr, dest: Addr, t: Target)
    requires forall k :: 0 <= k < |w| ==> w[k].seqNo != s
    ensures ReceiveOutput(w, s, when, src, dest, t) == LostResults(w, src, dest, t)
    ensures WireAfterReceive(w, s) == w
  {
    FirstMatchIs(w, s, |w|);
    assert w[..|w|] == w;
  }

  /** A reply to the newest packet, whose sequence number is not used by an older one,
      reports every older outstanding packet lost and empties the FIFO. */
  lemma ReplyToNewest(w: seq<OutstandingPacket>, p: OutstandingPacket, when: Time, src: Addr, dest: Addr, t: Target)
    requires forall k :: 0 <= k < |w| ==> w[k].seqNo != p.seqNo
    ensures var pushed := Pushed(w, p);
            && ReceiveOutput(pushed, p.seqNo, when, src, dest, t) ==
                 LostResults(pushed[..|pushed| - 1], src, dest, t) + [PingResult(p.sent, when, src, dest, t)]
            && WireAfterReceive(pushed, p.seqNo) == []
  {
    var pushed := Pushed(w, p);
    var n := |pushed| - 1;
    forall k | 0 <= k < n
      ensures pushed[k].seqNo != p.seqNo
    {
      assert pushed[k] == pushed[..n][k] == w[|w| - n + k];
    }
    FirstMatchIs(pushed, p.seqNo, n);
  }

  /** One destination's monitor: the target it was created for and the FIFO `wire` of
      outstanding packets, oldest first. (The `sendErrs` counter is never updated in this
      file and is left out.) */
  datatype Monitor = Monitor(target: Target, wire: seq<OutstandingPacket>)

  /** The monitor `send` uses for `dest`: the existing one, or a new one for target `t`. */
  function MonitorFor(monitors: map<Addr, Monitor>, dest: Addr, t: Target): Monitor {
    if dest in monitors then monitors[dest] else Monitor(t, [])
  }

  /** From `before` to `after` the monitors of `dests` were created or updated: every monitor
      keeps its target, and the monitors of other destinations are untouched. */
  ghost predicate Grown(before: map<Addr, Monitor>, after: map<Addr, Monitor>, dests: set<Addr>) {
    && after.Keys == before.Keys + dests
    && (forall d | d in before :: after[d].target == before[d].target)
    && (forall d | d in before && d !in dests :: after[d] == before[d])
  }

  /** Storing the monitor `send` picked (possibly with a longer FIFO) grows the map by one destination. */
  lemma GrownBySend(m: map<Addr, Monitor>, dest: Addr, t: Target, x: Monitor)
    requires x.target == MonitorFor(m, dest, t).target
    ensures Grown(m, m[dest := x], {dest})
  {
  }

  lemma GrownTrans(a: map<Addr, Monitor>, b: map<Addr, Monitor>, c: map<Addr, Monitor>, d1: set<Addr>, d2: set<Addr>)
    requires Grown(a, b, d1) && Grown(b, c, d2)
    ensures Grown(a, c, d1 + d2)
  {
  }

  /** One send the sender loop performs: a destination and the target it was resolved for. */
  datatype Planned = Planned(dest: Addr, target: Target)

  /** The sends for one resolution: its addresses of the source's family, in order. */
  function Matching(source: Addr, addrs: seq<Addr>, t: Target): seq<Planned> {
    if addrs == [] then []
    else
      var last := addrs[|addrs| - 1];
      Matching(source, addrs[..|addrs| - 1], t) + (if last.Is4() == source.Is4() then [Planned(last, t)] else [])
  }

  /** The sends of one tick of `sender`: every resolution in order, each filtered by family. */
  function SendPlan(source: Addr, targets: seq<ResolveService.Resolution<Target>>): seq<Planned> {
    if targets == [] then []
    else
      var last := targets[|targets| - 1];
      SendPlan(source, targets[..|targets| - 1]) + Matching(source, last.addrs, last.target)
  }

  lemma MatchingSnoc(source: Addr, addrs: seq<Addr>, t: Target, k: nat)
    requires k < |addrs|
    ensures Matching(source, addrs[..k + 1], t) ==
              Matching(source, addrs[..k], t) + (if addrs[k].Is4() == source.Is4() then [Planned(addrs[k], t)] else [])
  {
    assert addrs[..k + 1][..k] == addrs[..k];
  }

  lemma SendPlanSnoc(source: Addr, targets: seq<ResolveService.Resolution<Target>>, j: nat)
    requires j < |targets|
    ensures SendPlan(source, targets[..j + 1]) == SendPlan(source, targets[..j]) + Matching(source, targets[j].addrs, targets[j].target)
  {
    assert targets[..j + 1][..j] == targets[..j];
  }

  /** Every send of a resolution goes to one of its addresses, of the source's family, and
      every such address is sent to. */
  lemma {:induction false} MatchingIsFamilyFilter(source: Addr, addrs: seq<Addr>, t: Target)
    ensures forall p | p in Matching(source, addrs, t) :: p.target == t && p.dest in addrs && p.dest.Is4() == source.Is4()
    ensures forall a | a in addrs && a.Is4() == source.Is4() :: Planned(a, t) in Matching(source, addrs, t)
    ensures |Matching(source, addrs, t)| <= |addrs|
  {
    if addrs != [] {
      var init := addrs[..|addrs| - 1];
      MatchingIsFamilyFilter(source, init, t);
      assert forall a | a in addrs :: a in init || a == addrs[|addrs| - 1];
    }
  }

  /** The sender only sends to addresses of the source's family, each send goes to an address
      of one of the resolutions for its target, and every such address is sent to. */
  lemma {:induction false} SendPlanIsFamilyFilter(source: Addr, targets: seq<ResolveService.Resolution<Target>>)
    ensures forall p | p in SendPlan(source, targets) :: p.dest.Is4() == source.Is4()
    ensures forall p | p in SendPlan(source, targets) ::
              exists j :: 0 <= j < |targets| && p.target == targets[j].target && p.dest in targets[j].addrs
    ensures forall j, a | 0 <= j < |targets| && a in targets[j].addrs && a.Is4() == source.Is4() ::
              Planned(a, targets[j].target) in SendPlan(source, targets)
  {
    if targets != [] {
      var n := |targets| - 1;
      var init := targets[..n];
      SendPlanIsFamilyFilter(source, init);
      MatchingIsFamilyFilter(source, targets[n].addrs, targets[n].target);
      assert forall j | 0 <= j < n :: init[j] == targets[j];
      forall p | p in SendPlan(source, targets)
        ensures exists j :: 0 <= j < |targets| && p.target == targets[j].target && p.dest in targets[j].addrs
      {
        if p in SendPlan(source, init) {
          var j :| 0 <= j < n && p.target == init[j].target && p.dest in init[j].addrs;
          assert targets[j] == init[j];
        } else {
          assert p in Matching(source, targets[n].addrs, targets[n].target);
        }
      }
    }
  }

  /** The echoes of a round that starts after sequence number `start`. */
  function RoundEchoes(start: U16, plan: seq<Planned>): seq<Echo> {
    seq(|plan|, k requires 0 <= k < |plan| => Echo(After(start, k + 1), plan[k].dest))
  }

  /** The destinations a round sends to. */
  function PlanDests(plan: seq<Planned>): set<Addr> {
    set k | 0 <= k < |plan| :: plan[k].dest
  }

  /** A round that continues another continues its sequence numbers. */
  lemma RoundEchoesAppend(start: U16, p: seq<Planned>, q: seq<Planned>)
    ensures RoundEchoes(start, p + q) == RoundEchoes(start, p) + RoundEchoes(After(start, |p|), q)
  {
    var lhs := RoundEchoes(start, p + q);
    var rhs := RoundEchoes(start, p) + RoundEchoes(After(start, |p|), q);
    forall k | |p| <= k < |p| + |q|
      ensures lhs[k] == rhs[k]
    {
      var m := k - |p|;
      assert (p + q)[k] == q[m];
      AfterAdd(start, |p|, m + 1);
    }
    assert lhs == rhs;
  }

  /** The echoes of the next resolution, sent from where the round has got to, continue the round. */
  lemma RoundContinues(start: U16, plan: seq<Planned>, more: seq<Planned>, echoes: seq<Echo>, here: U16, sent: seq<Echo>)
    requires echoes == RoundEchoes(start, plan)
    requires here == After(start, |echoes|)
    requires sent == RoundEchoes(here, more)
    ensures echoes + sent == RoundEchoes(start, plan + more)
    ensures After(here, |sent|) == After(start, |echoes + sent|)
  {
    RoundEchoesAppend(start, plan, more);
    AfterAdd(start, |plan|, |sent|);
  }

  lemma RoundEchoesSnoc(start: U16, p: seq<Planned>, x: Planned)
    ensures RoundEchoes(start, p + [x]) == RoundEchoes(start, p) + [Echo(Next(After(start, |p|)), x.dest)]
  {
    assert (p + [x])[|p|] == x;
  }

  lemma PlanDestsSnoc(p: seq<Planned>, x: Planned)
    ensures PlanDests(p + [x]) == PlanDests(p) + {x.dest}
  {
    PlanDestsAppend(p, [x]);
    assert PlanDests([x]) == {x.dest} by {
      assert [x][0].dest == x.dest;
    }
  }

  lemma PlanDestsAppend(p: seq<Planned>, q: seq<Planned>)
    ensures PlanDests(p + q) == PlanDests(p) + PlanDests(q)
  {
    forall d | d in PlanDests(p + q)
      ensures d in PlanDests(p) + PlanDests(q)
    {
      var k :| 0 <= k < |p + q| && (p + q)[k].dest == d;
      if k >= |p| {
        assert q[k - |p|].dest == d;
      }
    }
    forall d | d in PlanDests(p)
      ensures d in PlanDests(p + q)
    {
      var k :| 0 <= k < |p| && p[k].dest == d;
      assert (p + q)[k].dest == d;
    }
    forall d | d in PlanDests(q)
      ensures d in PlanDests(p + q)
    {
      var k :| 0 <= k < |q| && q[k].dest == d;
      assert (p + q)[|p| + k].dest == d;
    }
  }

  /** A monitor after an echo with sequence number `s` went out at time `now`: when the
      socket took it (`ok`) the packet joins the FIFO, otherwise nothing changes. */
  function Recorded(mon: Monitor, s: U16, now: Time, ok: bool): Monitor {
    if ok then mon.(wire := Pushed(mon.wire, OutstandingPacket(s, now))) else mon
  }

  /** The monitors after one `send` of `p` with sequence number `s` at time `now`: the monitor
      of `p.dest` is created if missing and then records the send. */
  function SentTo(m: map<Addr, Monitor>, p: Planned, s: U16, now: Time, ok: bool): map<Addr, Monitor> {
    m[p.dest := Recorded(MonitorFor(m, p.dest, p.target), s, now, ok)]
  }

  /** The monitors after the sends of `plan`, one `send` after another: the first send
      carries sequence number `Next(start)`, happens at `clock(first)` and is taken by the
      socket when `delivered(first)`; the rest continue from there. */
  function SentAll(m: map<Addr, Monitor>, start: U16, plan: seq<Planned>, first: nat,
                   clock: nat -> Time, delivered: nat -> bool): map<Addr, Monitor>
    decreases |plan|
  {
    if plan == [] then m
    else SentAll(SentTo(m, plan[0], Next(start), clock(first), delivered(first)), Next(start), plan[1..], first + 1, clock, delivered)
  }

  /** Sending `p` and then `q` from where `p` left off is sending `p + q`. */
  lemma {:induction false} SentAllAppend(m: map<Addr, Monitor>, start: U16, p: seq<Planned>, q: seq<Planned>,
                                         first: nat, clock: nat -> Time, delivered: nat -> bool)
    ensures SentAll(m, start, p + q, first, clock, delivered) ==
              SentAll(SentAll(m, start, p, first, clock, delivered), After(start, |p|), q, first + |p|, clock, delivered)
    decreases |p|
  {
    if p == [] {
      assert p + q == q;
    } else {
      var m' := SentTo(m, p[0], Next(start), clock(first), delivered(first));
      assert (p + q)[0] == p[0] && (p + q)[1..] == p[1..] + q;
      SentAllAppend(m', Next(start), p[1..], q, first + 1, clock, delivered);
      AfterAdd(start, 1, |p| - 1);
      assert After(start, 1) == Next(start);
    }
  }

  /** The last send of a plan is one more `send` after the others, with sequence number
      `After(start, |p| + 1)`. */
  lemma SentAllSnoc(m: map<Addr, Monitor>, start: U16, p: seq<Planned>, x: Planned, first: nat,
                    clock: nat -> Time, delivered: nat -> bool)
    ensures SentAll(m, start, p + [x], first, clock, delivered) ==
              SentTo(SentAll(m, start, p, first, clock, delivered), x,
                     After(start, |p| + 1), clock(first + |p|), delivered(first + |p|))
  {
    SentAllAppend(m, start, p, [x], first, clock, delivered);
    assert [x][1..] == [];
  }

  /** One more `send` continues the round's monitors. */
  lemma SentAllStep(m0: map<Addr, Monitor>, start: U16, plan: seq<Planned>, x: Planned, first: nat,
                    clock: nat -> Time, delivered: nat -> bool,
                    before: map<Addr, Monitor>, after: map<Addr, Monitor>, s: U16, now: Time, ok: bool)
    requires before == SentAll(m0, start, plan, first, clock, delivered)
    requires after == SentTo(before, x, s, now, ok)
    requires s == After(start, |plan| + 1) && now == clock(first + |plan|) && ok == delivered(first + |plan|)
    ensures after == SentAll(m0, start, plan + [x], first, clock, delivered)
  {
    SentAllSnoc(m0, start, plan, x, first, clock, delivered);
  }

  /** A round creates the monitors of the destinations it sends to, keeps every monitor's
      target and leaves the monitors of other destinations alone. */
  lemma {:induction false} SentAllGrows(m: map<Addr, Monitor>, start: U16, plan: seq<Planned>, first: nat,
                                        clock: nat -> Time, delivered: nat -> bool)
    ensures Grown(m, SentAll(m, start, plan, first, clock, delivered), PlanDests(plan))
    decreases |plan|
  {
    if plan == [] {
      assert PlanDests(plan) == {};
    } else {
      var x := plan[0];
      var m' := SentTo(m, x, Next(start), clock(first), delivered(first));
      GrownBySend(m, x.dest, x.target, m'[x.dest]);
      SentAllGrows(m', Next(start), plan[1..], first + 1, clock, delivered);
      GrownTrans(m, m', SentAll(m, start, plan, first, clock, delivered), {x.dest}, PlanDests(plan[1..]));
      assert plan == [x] + plan[1..];
      PlanDestsAppend([x], plan[1..]);
      assert PlanDests([x]) == {x.dest} by {
        assert [x][0].dest == x.dest;
      }
    }
  }

  /** A destination a round sends to once, by the send `x` after the sends `pre`, ends with
      the monitor `send` picked for it recording that send: the packet with sequence number
      `After(start, |pre| + 1)` and time `clock(first + |pre|)` is at the end of its FIFO when
      `delivered(first + |pre|)`. */
  lemma SentAllOnce(m: map<Addr, Monitor>, start: U16, pre: seq<Planned>, x: Planned, post: seq<Planned>,
                    first: nat, clock: nat -> Time, delivered: nat -> bool)
    requires x.dest !in PlanDests(pre) && x.dest !in PlanDests(post)
    ensures var all := SentAll(m, start, pre + [x] + post, first, clock, delivered);
            && x.dest in all
            && all[x.dest] == Recorded(MonitorFor(m, x.dest, x.target), After(start, |pre| + 1),
                                       clock(first + |pre|), delivered(first + |pre|))
  {
    var s := After(start, |pre| + 1);
    var m1 := SentAll(m, start, pre, first, clock, delivered);
    SentAllGrows(m, start, pre, first, clock, delivered);
    assert MonitorFor(m1, x.dest, x.target) == MonitorFor(m, x.dest, x.target);
    var m2 := SentTo(m1, x, s, clock(first + |pre|), delivered(first + |pre|));
    SentAllSnoc(m, start, pre, x, first, clock, delivered);
    SentAllAppend(m, start, pre + [x], post, first, clock, delivered);
    assert |pre + [x]| == |pre| + 1;
    SentAllGrows(m2, s, post, first + |pre| + 1, clock, delivered);
  }

  /** The pinger of one source address. `pinger.monitors` maps each destination to a
      `*monitor`; no two destinations share a monitor, so `monitors` holds them by value and
      an update of a monitor is an update of its entry. */
  class Pinger {
    const source: Addr
    var monitors: map<Addr, Monitor>
    /** The sequence number of the last echo sent. */
    var sequence: U16
    /** Everything sent on the results channel so far. */
    var results: seq<PingResult>

    /** No FIFO holds more than `MaxPendingPackets` packets. */
    ghost predicate Valid()
      reads this
    {
      forall d | d in monitors :: |monitors[d].wire| <= MaxPendingPackets
    }

    constructor (source: Addr)
      ensures Valid()
      ensures this.source == source && monitors == map[] && sequence == 0 && results == []
    {
      this.source := source;
      monitors := map[];
      sequence := 0;
      results := [];
    }

    /** `remove`: forget the monitor of `addr`, if there is one. */
    method Remove(addr: Addr)
      requires Valid()
      modifies this
      ensures Valid()
      ensures monitors == old(monitors) - {addr}
      ensures sequence == old(sequence) && results == old(results)
    {
      if addr in monitors {
        monitors := monitors - {addr};
      }
    }

    /** `send`: create the monitor of `dest` if it has none, advance the sequence number
        (wrapping at 2^16) whether or not the send succeeds, hand the echo to the socket and,
        if the socket took it (`delivered`), record it as outstanding at time `now`. */
    method Send(dest: Addr, t: Target, now: Time, delivered: bool) returns (ok: bool, echo: Echo)
      requires Valid()
      modifies this
      ensures Valid()
      ensures sequence == Next(old(sequence))
      ensures echo == Echo(sequence, dest)
      ensures ok == delivered
      ensures monitors == SentTo(old(monitors), Planned(dest, t), sequence, now, delivered)
      ensures results == old(results)
    {
      sequence := Next(sequence);
      echo := Echo(sequence, dest);
      monitors := SentTo(monitors, Planned(dest, t), sequence, now, delivered);
      ok := delivered;
    }

    /** `handleReceive` of a reply from `from` with sequence number `s`, received at `when`. */
    method HandleReceive(from: Addr, s: int, when: Time) returns (ok: bool)
      requires Valid()
      modifies this
      ensures Valid()
      ensures sequence == old(sequence)
      ensures ok <==> from in old(monitors)
      ensures !ok ==> results == old(results) && monitors == old(monitors)
      ensures ok ==> var mon := old(monitors)[from];
                     && results == old(results) + ReceiveOutput(mon.wire, s, when, source, from, mon.target)
                     && monitors == old(monitors)[from := mon.(wire := WireAfterReceive(mon.wire, s))]
    {
      if from !in monitors {
        return false;
      }
      var mon := monitors[from];
      var sent: seq<PingResult> := [];
      var found := false;
      var i := 0;
      while i < |mon.wire|
        invariant 0 <= i <= |mon.wire|
        invariant forall k :: 0 <= k < i ==> mon.wire[k].seqNo != s
        invariant sent == LostResults(mon.wire[..i], source, from, mon.target)
      {
        var outstanding := mon.wire[i];
        if outstanding.seqNo == s {
          sent := sent + [PingResult(outstanding.sent, when, source, from, mon.target)];
          found := true;
          break;
        }
        sent := sent + [PingResult(outstanding.sent, 0, source, from, mon.target)];
        assert LostResults(mon.wire[..i + 1], source, from, mon.target)
            == LostResults(mon.wire[..i], source, from, mon.target) + [LostResult(mon.wire[i], source, from, mon.target)];
        i := i + 1;
      }
      results := results + sent;
      FirstMatchIs(mon.wire, s, i);
      if found {
        monitors := monitors[from := mon.(wire := mon.wire[i + 1..])];
      } else {
        assert mon.wire[..i] == mon.wire;
      }
      ok := true;
    }

    /** The inner loop of `sender` for one resolution `t`: each address of the source's
        family is sent an echo, in order. The i-th of these sends happens at `clock(first + i)`
        and succeeds when `delivered(first + i)` holds. */
    method SendResolution(t: ResolveService.Resolution<Target>, first: nat, clock: nat -> Time, delivered: nat -> bool)
      returns (echoes: seq<Echo>)
      requires Valid()
      modifies this
      ensures Valid()
      ensures echoes == RoundEchoes(old(sequence), Matching(source, t.addrs, t.target))
      ensures sequence == After(old(sequence), |echoes|)
      ensures monitors == SentAll(old(monitors), old(sequence), Matching(source, t.addrs, t.target), first, clock, delivered)
      ensures Grown(old(monitors), monitors, PlanDests(Matching(source, t.addrs, t.target)))
      ensures results == old(results)
    {
      ghost var start := sequence;
      ghost var plan: seq<Planned> := [];
      echoes := [];
      for k := 0 to |t.addrs|
        invariant Valid()
        invariant SentSoFar(t, k, first, clock, delivered, start, old(monitors), plan, echoes)
        invariant results == old(results)
      {
        plan, echoes := SendAddress(t, k, first, clock, delivered, start, old(monitors), plan, echoes);
      }
      assert t.addrs[..|t.addrs|] == t.addrs;
      SentAllGrows(old(monitors), start, plan, first, clock, delivered);
    }

    /** The state after the first k addresses of `t` have been visited by `SendResolution`. */
    ghost predicate SentSoFar(t: ResolveService.Resolution<Target>, k: nat, first: nat, clock: nat -> Time,
                              delivered: nat -> bool, start: U16, m0: map<Addr, Monitor>,
                              plan: seq<Planned>, echoes: seq<Echo>)
      reads this
    {
      && k <= |t.addrs|
      && plan == Matching(source, t.addrs[..k], t.target)
      && echoes == RoundEchoes(start, plan)
      && sequence == After(start, |echoes|)
      && monitors == SentAll(m0, start, plan, first, clock, delivered)
    }

    /** One turn of the inner loop of `sender`: address k of `t` is sent an echo if it is of
        the source's family, and skipped otherwise. */
    method SendAddress(t: ResolveService.Resolution<Target>, k: nat, first: nat, clock: nat -> Time, delivered: nat -> bool,
                       ghost start: U16, ghost m0: map<Addr, Monitor>, ghost plan: seq<Planned>, echoes: seq<Echo>)
      returns (ghost plan': seq<Planned>, echoes': seq<Echo>)
      requires Valid() && k < |t.addrs|
      requires SentSoFar(t, k, first, clock, delivered, start, m0, plan, echoes)
      modifies this
      ensures Valid() && SentSoFar(t, k + 1, first, clock, delivered, start, m0, plan', echoes')
      ensures results == old(results)
    {
      var dest := t.addrs[k];
      MatchingSnoc(source, t.addrs, t.target, k);
      plan', echoes' := plan, echoes;
      if dest.Is4() == source.Is4() {
        var n := |echoes|;
        ghost var here := Planned(dest, t.target);
        RoundEchoesSnoc(start, plan, here);
        assert n == |plan| && After(start, |plan| + 1) == Next(sequence);
        ghost var before := monitors;
        var _, echo := Send(dest, t.target, clock(first + n), delivered(first + n));
        SentAllStep(m0, start, plan, here, first, clock, delivered, before, monitors, sequence, clock(first + n), delivered(first + n));
        echoes' := echoes + [echo];
        plan' := plan + [here];
      }
    }

    /** One tick of `sender` over the snapshot `targets`: every address of the source's family
        is sent an echo, in order. `clock(n)` is the time of the n-th send of the round and
        `delivered(n)` whether the socket took it. */
    method SendRound(targets: seq<ResolveService.Resolution<Target>>, clock: nat -> Time, delivered: nat -> bool)
      returns (echoes: seq<Echo>)
      requires Valid()
      modifies this
      ensures Valid()
      ensures echoes == RoundEchoes(old(sequence), SendPlan(source, targets))
      ensures sequence == (old(sequence) + |echoes|) % SequenceModulus
      ensures monitors == SentAll(old(monitors), old(sequence), SendPlan(source, targets), 0, clock, delivered)
      ensures Grown(old(monitors), monitors, PlanDests(SendPlan(source, targets)))
      ensures results == old(results)
    {
      ghost var start := sequence;
      ghost var plan: seq<Planned> := [];
      echoes := [];
      for j := 0 to |targets|
        invariant Valid()
        invariant RoundSoFar(targets, j, clock, delivered, start, old(monitors), plan, echoes)
        invariant results == old(results)
      {
        plan, echoes := SendTarget(targets, j, clock, delivered, start, old(monitors), plan, echoes);
      }
      assert targets[..|targets|] == targets;
      AfterIsModular(start, |echoes|);
      SentAllGrows(old(monitors), start, plan, 0, clock, delivered);
    }

    /** The state after the first j resolutions of `targets` have been visited by `SendRound`. */
    ghost predicate RoundSoFar(targets: seq<ResolveService.Resolution<Target>>, j: nat, clock: nat -> Time,
                               delivered: nat -> bool, start: U16, m0: map<Addr, Monitor>,
                               plan: seq<Planned>, echoes: seq<Echo>)
      reads this
    {
      && j <= |targets|
      && plan == SendPlan(source, targets[..j])
      && echoes == RoundEchoes(start, plan)
      && sequence == After(start, |echoes|)
      && monitors == SentAll(m0, start, plan, 0, clock, delivered)
    }

    /** One turn of the outer loop of `sender`: resolution j of `targets` is sent its echoes,
        numbered on from the sends of the resolutions before it. */
    method SendTarget(targets: seq<ResolveService.Resolution<Target>>, j: nat, clock: nat -> Time, delivered: nat -> bool,
                      ghost start: U16, ghost m0: map<Addr, Monitor>, ghost plan: seq<Planned>, echoes: seq<Echo>)
      returns (ghost plan': seq<Planned>, echoes': seq<Echo>)
      requires Valid() && j < |targets|
      requires RoundSoFar(targets, j, clock, delivered, start, m0, plan, echoes)
      modifies this
      ensures Valid() && RoundSoFar(targets, j + 1, clock, delivered, start, m0, plan', echoes')
      ensures results == old(results)
    {
      ghost var more := Matching(source, targets[j].addrs, targets[j].target);
      SendPlanSnoc(source, targets, j);
      ghost var before := sequence;
      assert |echoes| == |plan|;
      var sent := SendResolution(targets[j], |echoes|, clock, delivered);
      RoundContinues(start, plan, more, echoes, before, sent);
      SentAllAppend(m0, start, plan, more, 0, clock, delivered);
      echoes' := echoes + sent;
      plan' := plan + more;
    }
  }
}
