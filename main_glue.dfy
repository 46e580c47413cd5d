/** main.go: `glue`, which turns each resolution result into probe registrations, and
    `prFromIp`. One turn of `glue`'s outer loop is `GlueStep`: it receives the addresses
    tracked so far and one `resolve.Result`, and returns the requests it hands to the manager.
    The calls into the manager are collected in order as sequences; the context, the channel
    and the logging are not modelled. */
module MainGlue {
  import opened NetIp
  import opened Manager

  /** One entry of the `resolve.Result` that `glue` receives: the addresses and whether the
      resolution reported an error. The target itself is only logged. */
  datatype Resolution = Resolution(addrs: seq<Addr>, failed: bool)

  /** `prFromIp`: probe `ip` from the unspecified address of its own family. */
  function PrFromIp(ip: Addr): (pr: ProbeRequest)
    ensures pr.destination == ip
    ensures ip.Is4() ==> pr.source == IPv4Unspecified
    ensures !ip.Is4() ==> pr.source == IPv6Unspecified
    ensures pr.source.Is4() == ip.Is4()
  {
    if ip.Is4() then ProbeRequest(IPv4Unspecified, ip) else ProbeRequest(IPv6Unspecified, ip)
  }

  /** The valid addresses of a list. */
  function ValidIn(addrs: seq<Addr>): set<Addr>
  {
    set a | a in addrs && a.IsValid()
  }

  /** The addresses `glue` collects into `newIps`, resolution by resolution. */
  function Collected(rs: seq<Resolution>): set<Addr>
  {
    if rs == [] then {}
    else
      var last := rs[|rs| - 1];
      Collected(rs[..|rs| - 1]) + (if last.failed then {} else ValidIn(last.addrs))
  }

  /** An address is collected exactly when it is a valid address of a resolution without error:
      failed resolutions and invalid addresses contribute nothing. */
  lemma {:induction false} CollectedIff(rs: seq<Resolution>, a: Addr)
    ensures a in Collected(rs) <==>
            exists i :: 0 <= i < |rs| && !rs[i].failed && a in rs[i].addrs && a.IsValid()
  {
    if rs != [] {
      var init := rs[..|rs| - 1];
      CollectedIff(init, a);
      if a in Collected(rs) && a !in Collected(init) {
        assert !rs[|rs| - 1].failed && a in rs[|rs| - 1].addrs && a.IsValid();
      }
      if exists i :: 0 <= i < |rs| && !rs[i].failed && a in rs[i].addrs && a.IsValid() {
        var i :| 0 <= i < |rs| && !rs[i].failed && a in rs[i].addrs && a.IsValid();
        if i < |init| {
          assert init[i] == rs[i];
        }
      }
    }
  }

  lemma ValidInSnoc(addrs: seq<Addr>, j: nat)
    requires j < |addrs|
    ensures ValidIn(addrs[..j + 1]) == ValidIn(addrs[..j]) + (if addrs[j].IsValid() then {addrs[j]} else {})
  {
    assert addrs[..j + 1] == addrs[..j] + [addrs[j]];
  }

  /** The destinations of a list of requests. */
  function Dests(prs: seq<ProbeRequest>): set<Addr>
  {
    set k | 0 <= k < |prs| :: prs[k].destination
  }

  /** Every request is the one `prFromIp` builds for its destination. */
  predicate FromIps(prs: seq<ProbeRequest>)
  {
    forall k | 0 <= k < |prs| :: prs[k] == PrFromIp(prs[k].destination)
  }

  lemma DestsSnoc(prs: seq<ProbeRequest>, pr: ProbeRequest)
    ensures Dests(prs + [pr]) == Dests(prs) + {pr.destination}
  {
    var longer := prs + [pr];
    forall a | a in Dests(prs)
      ensures a in Dests(longer)
    {
      var k :| 0 <= k < |prs| && prs[k].destination == a;
      assert longer[k] == prs[k];
    }
    assert longer[|prs|] == pr;
  }

  /** One more address visited by the loop of `RequestsFor`. */
  lemma RequestsStep(prs: seq<ProbeRequest>, done: set<Addr>, other: set<Addr>, ip: Addr)
    requires FromIps(prs) && Dests(prs) == done - other && |prs| == |done - other|
    requires ip !in done
    ensures var next := if ip in other then prs else prs + [PrFromIp(ip)];
            FromIps(next) && Dests(next) == (done + {ip}) - other && |next| == |(done + {ip}) - other|
  {
    if ip !in other {
      DestsSnoc(prs, PrFromIp(ip));
      assert (done + {ip}) - other == (done - other) + {ip};
    } else {
      assert (done + {ip}) - other == done - other;
    }
  }

  /** The first loop of a turn of `glue`: the valid addresses of every resolution without error. */
  method CollectIps(result: seq<Resolution>) returns (newIps: set<Addr>)
    ensures newIps == Collected(result)
  {
    newIps := {};
    for i := 0 to |result|
      invariant newIps == Collected(result[..i])
    {
      assert result[..i + 1][..i] == result[..i];
      var resolution := result[i];
      if !resolution.failed {
        for j := 0 to |resolution.addrs|
          invariant newIps == Collected(result[..i]) + ValidIn(resolution.addrs[..j])
        {
          ValidInSnoc(resolution.addrs, j);
          var addr := resolution.addrs[j];
          if addr.IsValid() {
            newIps := newIps + {addr};
          }
        }
        assert resolution.addrs[..|resolution.addrs|] == resolution.addrs;
      }
    }
    assert result[..|result|] == result;
  }

  /** The second and third loops of a turn of `glue`: one `prFromIp` request for every address
      of `from` that is not in `other`, in map iteration order (which is left open). */
  method RequestsFor(from: set<Addr>, other: set<Addr>) returns (prs: seq<ProbeRequest>)
    ensures FromIps(prs) && Dests(prs) == from - other && |prs| == |from - other|
  {
    prs := [];
    var todo := from;
    ghost var done: set<Addr> := {};
    while todo != {}
      invariant todo + done == from && todo !! done
      invariant FromIps(prs) && Dests(prs) == done - other
      invariant |prs| == |done - other|
      decreases todo
    {
      var ip :| ip in todo;
      RequestsStep(prs, done, other, ip);
      if ip !in other {
        prs := prs + [PrFromIp(ip)];
      }
      todo := todo - {ip};
      done := done + {ip};
    }
  }

  /** One turn of `glue`: collect `newIps`, ask the manager to remove every tracked address
      that is gone and to add every new one, and track `newIps` from then on. `count` is the
      number of endpoints logged as updated. A second turn on the same result changes nothing. */
  method GlueStep(ips: set<Addr>, result: seq<Resolution>)
    returns (newIps: set<Addr>, removes: seq<ProbeRequest>, adds: seq<ProbeRequest>, count: nat)
    ensures newIps == Collected(result)
    ensures FromIps(removes) && Dests(removes) == ips - newIps && |removes| == |ips - newIps|
    ensures FromIps(adds) && Dests(adds) == newIps - ips && |adds| == |newIps - ips|
    ensures Dests(removes) !! Dests(adds)
    ensures count == |ips - newIps| + |newIps - ips|
    ensures ips == Collected(result) ==> removes == [] && adds == [] && count == 0
  {
    newIps := CollectIps(result);
    removes := RequestsFor(ips, newIps);
    adds := RequestsFor(newIps, ips);
    count := |removes| + |adds|;
  }
}
