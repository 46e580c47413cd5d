/** resolve/service.go, lines 103-122 of `ResolverService.Run`: one round of merging fresh
    resolutions into the address cache and building the `Result` sent downstream. The
    concurrent fan-out that produces the attempts, the timers and the channel send are not
    part of this model. Targets are any type with equality (Go compares the interface values). */
module ResolveService {
  import opened Wrappers
  import opened NetIp

  /** One `resolution`: the target, its addresses (`None` is a nil slice) and whether an error came back. */
  datatype Attempt<T> = Attempt(target: T, addrs: Option<seq<Addr>>, failed: bool)

  /** One entry of `Result.Resolved`. */
  datatype Resolution<T> = Resolution(target: T, addrs: seq<Addr>)

  type Cache<T> = map<T, Option<seq<Addr>>>

  /** What `newCache[res.target]` holds right after attempt `a`: its addresses on success,
      otherwise the previous round's entry (nil if there was none). */
  function Outcome<T>(cache: Cache<T>, a: Attempt<T>): (o: Option<seq<Addr>>)
    ensures !a.failed ==> o == a.addrs
    ensures a.failed ==> o == Lookup(cache, a.target)
  {
    if a.failed then Lookup(cache, a.target) else a.addrs
  }

  function Targets<T>(attempts: seq<Attempt<T>>): set<T> {
    set a | a in attempts :: a.target
  }

  /** The rebuilt cache: one entry per target attempted this round, from its last attempt. */
  function NewCache<T>(cache: Cache<T>, attempts: seq<Attempt<T>>): (nc: Cache<T>)
    ensures nc.Keys == Targets(attempts)
    decreases |attempts|
  {
    if attempts == [] then map[]
    else
      var last := attempts[|attempts| - 1];
      var before := attempts[..|attempts| - 1];
      assert Targets(attempts) == Targets(before) + {last.target} by {
        assert attempts == before + [last];
      }
      NewCache(cache, before)[last.target := Outcome(cache, last)]
  }

  /** `Result.Resolved`: the attempts whose outcome is non-nil, in attempt order. */
  function Reported<T>(cache: Cache<T>, attempts: seq<Attempt<T>>): (rs: seq<Resolution<T>>)
    ensures |rs| <= |attempts|
    ensures forall j :: 0 <= j < |rs| ==>
              exists i :: 0 <= i < |attempts| && attempts[i].target == rs[j].target &&
                          Outcome(cache, attempts[i]) == Some(rs[j].addrs)
    decreases |attempts|
  {
    if attempts == [] then []
    else
      var last := attempts[|attempts| - 1];
      var before := attempts[..|attempts| - 1];
      var rest := Reported(cache, before);
      assert forall i :: 0 <= i < |before| ==> before[i] == attempts[i];
      match Outcome(cache, last)
      case Some(addrs) => rest + [Resolution(last.target, addrs)]
      case None => rest
  }

  /** The loop of `Run` that builds `newCache` and `R.Resolved`. */
  method MergeRound<T>(cache: Cache<T>, attempts: seq<Attempt<T>>)
    returns (newCache: Cache<T>, resolved: seq<Resolution<T>>)
    ensures newCache == NewCache(cache, attempts)
    ensures resolved == Reported(cache, attempts)
    ensures newCache.Keys == Targets(attempts)
    ensures |resolved| <= |attempts|
  {
    newCache := map[];
    resolved := [];
    for i := 0 to |attempts|
      invariant newCache == NewCache(cache, attempts[..i])
      invariant resolved == Reported(cache, attempts[..i])
    {
      var res := attempts[i];
      if !res.failed {
        newCache := newCache[res.target := res.addrs];
      } else {
        newCache := newCache[res.target := Lookup(cache, res.target)];
      }
      var addrs := newCache[res.target];
      if addrs.Some? {
        resolved := resolved + [Resolution(res.target, addrs.value)];
      }
      assert attempts[..i + 1][..i] == attempts[..i];
    }
    assert attempts[..|attempts|] == attempts;
  }

  /** The entry a target has in the new cache comes from its last attempt this round. */
  lemma {:induction false} LastAttemptWins<T>(cache: Cache<T>, attempts: seq<Attempt<T>>, i: nat)
    requires i < |attempts|
    requires forall j :: i < j < |attempts| ==> attempts[j].target != attempts[i].target
    ensures attempts[i].target in NewCache(cache, attempts)
    ensures NewCache(cache, attempts)[attempts[i].target] == Outcome(cache, attempts[i])
    decreases |attempts|
  {
    if i < |attempts| - 1 {
      var before := attempts[..|attempts| - 1];
      LastAttemptWins(cache, before, i);
    }
  }

  /** A target not attempted this round is dropped from the cache. */
  lemma StaleTargetsDropped<T>(cache: Cache<T>, attempts: seq<Attempt<T>>, t: T)
    requires forall i :: 0 <= i < |attempts| ==> attempts[i].target != t
    ensures t !in NewCache(cache, attempts)
  {
    assert t !in Targets(attempts);
  }

  /** Rounds split anywhere report the concatenation of their parts: the order of the
      attempts is kept. */
  lemma {:induction false} ReportedAppend<T>(cache: Cache<T>, xs: seq<Attempt<T>>, ys: seq<Attempt<T>>)
    ensures Reported(cache, xs + ys) == Reported(cache, xs) + Reported(cache, ys)
    decreases |ys|
  {
    if ys == [] {
      assert xs + ys == xs;
    } else {
      var ys' := ys[..|ys| - 1];
      assert (xs + ys)[..|xs + ys| - 1] == xs + ys';
      ReportedAppend(cache, xs, ys');
    }
  }

  /** A single attempt is reported exactly when its outcome is non-nil; a failure with
      nothing cached is omitted. */
  lemma ReportedSingle<T>(cache: Cache<T>, a: Attempt<T>)
    ensures Outcome(cache, a).None? ==> Reported(cache, [a]) == []
    ensures Outcome(cache, a).Some? ==> Reported(cache, [a]) == [Resolution(a.target, Outcome(cache, a).value)]
  {
    assert [a][..0] == [];
  }

  predicate DistinctTargets<T(==)>(attempts: seq<Attempt<T>>) {
    forall i, j :: 0 <= i < j < |attempts| ==> attempts[i].target != attempts[j].target
  }

  /** Attempt `second[i]` is a failed retry of `first[i]`. */
  predicate AllFailedRetries<T(==)>(first: seq<Attempt<T>>, second: seq<Attempt<T>>) {
    |first| == |second| &&
    forall i :: 0 <= i < |second| ==> second[i].target == first[i].target && second[i].failed
  }

  /** When every target of a round fails in the next round, the next round reports exactly
      what the earlier round reported: the cache carries the addresses over. */
  lemma {:induction false} FailedRoundRepeatsResult<T>(cache: Cache<T>, first: seq<Attempt<T>>, second: seq<Attempt<T>>)
    requires DistinctTargets(first)
    requires AllFailedRetries(first, second)
    ensures Reported(NewCache(cache, first), second) == Reported(cache, first)
  {
    FailedPrefixRepeats(cache, first, second, |first|);
    assert second[..|first|] == second;
    assert first[..|first|] == first;
  }

  /** The first `k` failed retries report what the first `k` attempts reported. */
  lemma {:induction false} FailedPrefixRepeats<T>(cache: Cache<T>, first: seq<Attempt<T>>, second: seq<Attempt<T>>, k: nat)
    requires DistinctTargets(first)
    requires AllFailedRetries(first, second)
    requires k <= |first|
    ensures Reported(NewCache(cache, first), second[..k]) == Reported(cache, first[..k])
  {
    if k > 0 {
      var nc := NewCache(cache, first);
      FailedPrefixRepeats(cache, first, second, k - 1);
      LastAttemptWins(cache, first, k - 1);
      ReportedStep(nc, second, cache, first, k - 1);
    }
  }

  /** Two rounds whose first `k` attempts report the same keep doing so after attempts with
      the same target and outcome. */
  lemma ReportedStep<T>(c1: Cache<T>, xs: seq<Attempt<T>>, c2: Cache<T>, ys: seq<Attempt<T>>, k: nat)
    requires k < |xs| && k < |ys|
    requires Reported(c1, xs[..k]) == Reported(c2, ys[..k])
    requires xs[k].target == ys[k].target && Outcome(c1, xs[k]) == Outcome(c2, ys[k])
    ensures Reported(c1, xs[..k + 1]) == Reported(c2, ys[..k + 1])
  {
    assert xs[..k + 1][..k] == xs[..k];
    assert ys[..k + 1][..k] == ys[..k];
  }

  /** The scenario of resolve/service_test.go: a successful round, then a round in which the
      same target fails, report the same single resolution. */
  lemma ErrorAfterSuccessKeepsResult<T>(t: T, addr: Addr)
    ensures Reported(map[], [Attempt(t, Some([addr]), false)]) == [Resolution(t, [addr])]
    ensures Reported(NewCache(map[], [Attempt(t, Some([addr]), false)]), [Attempt(t, None, true)])
              == [Resolution(t, [addr])]
  {
    ReportedSingle(map[], Attempt(t, Some([addr]), false));
    var nc := NewCache(map[], [Attempt(t, Some([addr]), false)]);
    assert nc == map[t := Some([addr])];
    ReportedSingle(nc, Attempt(t, None, true));
  }
}
