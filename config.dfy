/** config/config.go: the latency targets, the configuration record and its minimum intervals,
    the per-target resolution logic that does not need the network, and `noMixIp`. */
module Config {
  import opened Wrappers
  import opened NetIp
  import opened GoTime

  const SmallestResolveInterval: Duration := Minute
  const SmallestPingInterval: Duration := 10 * Millisecond

  /** A `LatencyTarget`. The name carried by `StaticIP` and `HostnameTarget` is the one
      config/json.go assigns; `OtherTarget` stands for any other implementation of the
      interface, with the metric name that implementation reports. */
  datatype Target =
    | TraceHops(name: string, dest: Addr, hop: int)
    | StaticIP(name: string, ip: Addr)
    | HostnameTarget(name: string, host: string)
    | OtherTarget(metric: string)

  /** The configuration; `ParseConfig` and `LoadConfig` assign its fields one by one. */
  class Config {
    var targets: seq<Target>
    var resolveInterval: Duration
    var pingInterval: Duration

    constructor (targets: seq<Target>, resolveInterval: Duration, pingInterval: Duration)
      ensures this.targets == targets
      ensures this.resolveInterval == resolveInterval && this.pingInterval == pingInterval
    {
      this.targets := targets;
      this.resolveInterval := resolveInterval;
      this.pingInterval := pingInterval;
    }
  }

  /** The clamping step of `LoadConfig`: both intervals are raised to their minimums. */
  method ClampIntervals(c: Config)
    modifies c
    ensures c.resolveInterval >= SmallestResolveInterval
    ensures c.pingInterval >= SmallestPingInterval
    ensures old(c.resolveInterval) >= SmallestResolveInterval ==> c.resolveInterval == old(c.resolveInterval)
    ensures old(c.resolveInterval) < SmallestResolveInterval ==> c.resolveInterval == SmallestResolveInterval
    ensures old(c.pingInterval) >= SmallestPingInterval ==> c.pingInterval == old(c.pingInterval)
    ensures old(c.pingInterval) < SmallestPingInterval ==> c.pingInterval == SmallestPingInterval
    ensures c.targets == old(c.targets)
  {
    if c.resolveInterval < SmallestResolveInterval {
      c.resolveInterval := SmallestResolveInterval;
    }
    if c.pingInterval < SmallestPingInterval {
      c.pingInterval := SmallestPingInterval;
    }
  }

  /** `LoadConfig` after the file has been read and parsed: `parsed` is what `ParseConfig`
      returned (or the failure to open the file). */
  method LoadConfig<E>(parsed: Result<Config, E>) returns (r: Result<Config, E>)
    modifies if parsed.Success? then {parsed.value} else {}
    ensures r == parsed
    ensures r.Success? ==> r.value.resolveInterval >= SmallestResolveInterval
    ensures r.Success? ==> r.value.pingInterval >= SmallestPingInterval
    ensures r.Success? ==> r.value.targets == old(r.value.targets)
    ensures r.Success? && old(r.value.resolveInterval) >= SmallestResolveInterval ==>
              r.value.resolveInterval == old(r.value.resolveInterval)
    ensures r.Success? && old(r.value.pingInterval) >= SmallestPingInterval ==>
              r.value.pingInterval == old(r.value.pingInterval)
    ensures r.Success? && old(r.value.resolveInterval) < SmallestResolveInterval ==>
              r.value.resolveInterval == SmallestResolveInterval
    ensures r.Success? && old(r.value.pingInterval) < SmallestPingInterval ==>
              r.value.pingInterval == SmallestPingInterval
  {
    if parsed.Failure? {
      return parsed;
    }
    ClampIntervals(parsed.value);
    r := parsed;
  }

  /** The options `TraceHops.Resolve` passes to the traceroute. */
  datatype TraceRouteOptions = TraceRouteOptions(maxHops: int, retries: int, hopTimeout: Duration)

  datatype ResolveError =
    | TraceFailed(reason: string)    // the traceroute itself failed
    | TooFewHops(hop: int)           // "traceroute has less than %d hops"
    | LookupFailed(reason: string)   // the DNS lookup failed
    | UnknownTargetKind              // "could not resolve target of type %v"

  function TraceOptions(hop: int): (o: TraceRouteOptions)
    ensures o.maxHops == hop + 1 && o.retries == 5 && o.hopTimeout == 2 * Second
  {
    TraceRouteOptions(hop + 1, 5, 2 * Second)
  }

  /** The index a hop number selects in a route of n hops: negative numbers count from the end. */
  function HopIndex(hop: int, n: nat): (index: int)
    ensures hop >= 0 ==> index == hop
    ensures hop < 0 ==> index == n + hop
  {
    if hop < 0 then hop + n else hop
  }

  /** The index logic of `TraceHops.Resolve` over the hops the traceroute returned. */
  function SelectHop(hop: int, hops: seq<Addr>): (r: Result<seq<Addr>, ResolveError>)
    ensures r.Success? <==> -|hops| <= hop < |hops|
    ensures r.Success? ==> |r.value| == 1 && !r.value[0].Is4In6()
    ensures r.Success? && hop >= 0 ==> r.value == [hops[hop].Unmap()]
    ensures r.Success? && hop < 0 ==> r.value == [hops[|hops| + hop].Unmap()]
    ensures r.Failure? ==> r.error == TooFewHops(hop)
  {
    var index := HopIndex(hop, |hops|);
    if index < 0 || |hops| <= index then Failure(TooFewHops(hop))
    else Success([hops[index].Unmap()])
  }

  /** `TraceHops.Resolve`: `trace` is the traceroute, run with the options given to it. */
  function TraceHopsResolve(dest: Addr, hop: int, trace: (Addr, TraceRouteOptions) -> Result<seq<Addr>, string>)
    : (r: Result<seq<Addr>, ResolveError>)
    ensures trace(dest, TraceOptions(hop)).Failure? ==> r == Failure(TraceFailed(trace(dest, TraceOptions(hop)).error))
    ensures trace(dest, TraceOptions(hop)).Success? ==> r == SelectHop(hop, trace(dest, TraceOptions(hop)).value)
  {
    match trace(dest, TraceOptions(hop))
    case Failure(e) => Failure(TraceFailed(e))
    case Success(hops) => SelectHop(hop, hops)
  }

  /** `StaticIP.Resolve`: exactly the configured address, never an error. */
  function StaticResolve(ip: Addr): (r: Result<seq<Addr>, ResolveError>)
    ensures r.Success? && r.value == [ip]
  {
    Success([ip])
  }

  /** The metric name of a target; `show` is `netip.Addr.String`. */
  function MetricName(t: Target, show: Addr -> string): (name: string)
    ensures t.TraceHops? ==> name == t.name
    ensures t.StaticIP? ==> name == "static-ip:" + show(t.ip)
    ensures t.HostnameTarget? ==> name == "host:" + t.host
  {
    match t
    case TraceHops(name, _, _) => name
    case StaticIP(_, ip) => "static-ip:" + show(ip)
    case HostnameTarget(_, host) => "host:" + host
    case OtherTarget(metric) => metric
  }

  /** A static address and a host name never report the same metric name. */
  lemma StaticAndHostNamesDiffer(ip: Addr, host: string, show: Addr -> string, n1: string, n2: string)
    ensures MetricName(StaticIP(n1, ip), show) != MetricName(HostnameTarget(n2, host), show)
  {
    var a := MetricName(StaticIP(n1, ip), show);
    var b := MetricName(HostnameTarget(n2, host), show);
    assert a[0] == 's' && b[0] == 'h';
  }

  /** Every address with IPv4-in-IPv6 addresses unmapped; the specification of `noMixIp`. */
  function Unmixed(addrs: seq<Addr>): (r: seq<Addr>)
    ensures |r| == |addrs|
    ensures forall i :: 0 <= i < |r| ==> r[i] == addrs[i].Unmap()
  {
    seq(|addrs|, i requires 0 <= i < |addrs| => addrs[i].Unmap())
  }

  predicate NoneMapped(addrs: seq<Addr>) {
    forall i :: 0 <= i < |addrs| ==> !addrs[i].Is4In6()
  }

  /** Without IPv4-in-IPv6 addresses there is nothing to unmap, and unmapping twice is unmapping once. */
  lemma UnmixedProperties(addrs: seq<Addr>)
    ensures NoneMapped(addrs) ==> Unmixed(addrs) == addrs
    ensures NoneMapped(Unmixed(addrs))
    ensures Unmixed(Unmixed(addrs)) == Unmixed(addrs)
  {
  }

  /** `noMixIp` as written in config/config.go: a scan for a mapped address, then a copy. */
  method NoMixIp(addrs: seq<Addr>) returns (r: seq<Addr>)
    ensures r == Unmixed(addrs)
    ensures NoneMapped(addrs) ==> r == addrs
    ensures NoneMapped(r)
  {
    if |addrs| == 0 {
      return addrs;
    }
    var mixed := false;
    var i := 0;
    while i < |addrs|
      invariant 0 <= i <= |addrs|
      invariant !mixed ==> forall k :: 0 <= k < i ==> !addrs[k].Is4In6()
    {
      if addrs[i].Is4In6() {
        mixed := true;
        break;
      }
      i := i + 1;
    }
    if !mixed {
      return addrs;
    }
    var unmix: seq<Addr> := [];
    var j := 0;
    while j < |addrs|
      invariant 0 <= j <= |addrs|
      invariant |unmix| == j
      invariant forall k :: 0 <= k < j ==> unmix[k] == addrs[k].Unmap()
    {
      if addrs[j].Is4In6() {
        unmix := unmix + [addrs[j].Unmap()];
      } else {
        unmix := unmix + [addrs[j]];
      }
      j := j + 1;
    }
    r := unmix;
  }

  /** `HostnameTarget.Resolve`: the lookup's addresses (an error passes through) with `noMixIp` applied. */
  method HostnameResolve(lookup: Result<seq<Addr>, string>) returns (r: Result<seq<Addr>, ResolveError>)
    ensures lookup.Failure? ==> r == Failure(LookupFailed(lookup.error))
    ensures lookup.Success? ==> r == Success(Unmixed(lookup.value))
  {
    match lookup
    case Failure(e) =>
      r := Failure(LookupFailed(e));
    case Success(addrs) =>
      var unmixed := NoMixIp(addrs);
      r := Success(unmixed);
  }
}
