/** resolve/resolve.go: `netresolver.Resolve` dispatching on the kind of target and the hop
    selection of `resolveHops`. The traceroute and the DNS lookup are parameters. This file's
    copy of `noMixIp` is the same code as config/config.go's and is modelled once, by
    `Config.NoMixIp`. */
module Resolve {
  import opened Wrappers
  import opened NetIp
  import opened Config

  /** `resolveHops`: traceroute to the destination asking for `Hop + 1` hops, then pick one. */
  function ResolveHops(dest: Addr, hop: int, trace: (Addr, TraceRouteOptions) -> Result<seq<Addr>, string>)
    : (r: Result<seq<Addr>, ResolveError>)
    ensures trace(dest, TraceOptions(hop)).Failure? ==> r == Failure(TraceFailed(trace(dest, TraceOptions(hop)).error))
    ensures trace(dest, TraceOptions(hop)).Success? ==> r == SelectHop(hop, trace(dest, TraceOptions(hop)).value)
  {
    var res := trace(dest, TraceRouteOptions(hop + 1, 5, 2 * GoTime.Second));
    if res.Failure? then Failure(TraceFailed(res.error))
    else
      var hops := res.value;
      var index := if hop < 0 then hop + |hops| else hop;
      if index < 0 || |hops| <= index then Failure(TooFewHops(hop))
      else Success([hops[index].Unmap()])
  }

  /** This file's hop resolution and config/config.go's `TraceHops.Resolve` agree. */
  lemma ResolveHopsAgreesWithConfig(dest: Addr, hop: int, trace: (Addr, TraceRouteOptions) -> Result<seq<Addr>, string>)
    ensures ResolveHops(dest, hop, trace) == TraceHopsResolve(dest, hop, trace)
  {
  }

  /** `netresolver.Resolve`: a hop target is traced, a host is looked up (without `noMixIp`
      in this revision), a static address resolves to itself and any other kind is an error. */
  function ResolveTarget(
    t: Target,
    trace: (Addr, TraceRouteOptions) -> Result<seq<Addr>, string>,
    lookup: string -> Result<seq<Addr>, string>)
    : (r: Result<seq<Addr>, ResolveError>)
    ensures t.StaticIP? ==> r == Success([t.ip])
    ensures t.OtherTarget? ==> r == Failure(UnknownTargetKind)
    ensures t.TraceHops? ==> r == ResolveHops(t.dest, t.hop, trace)
    ensures t.HostnameTarget? && lookup(t.host).Success? ==> r == Success(lookup(t.host).value)
    ensures t.HostnameTarget? && lookup(t.host).Failure? ==> r == Failure(LookupFailed(lookup(t.host).error))
    ensures r.Success? && t.TraceHops? ==> |r.value| == 1 && !r.value[0].Is4In6()
  {
    match t
    case TraceHops(_, dest, hop) => ResolveHops(dest, hop, trace)
    case HostnameTarget(_, host) =>
      (match lookup(host)
       case Success(addrs) => Success(addrs)
       case Failure(e) => Failure(LookupFailed(e)))
    case StaticIP(_, ip) => Success([ip])
    case OtherTarget(_) => Failure(UnknownTargetKind)
  }
}
