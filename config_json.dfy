/** config/json.go: building a `Config` from the decoded JSON document. Decoding itself,
    `time.ParseDuration`, `netip.ParseAddr` and `netip.Addr.String` are given as parameters. */
module ConfigJson {
  import opened Wrappers
  import opened NetIp
  import opened GoTime
  import opened Config

  const DefaultResolveInterval: Duration := 15 * Minute
  const DefaultPingInterval: Duration := 1 * Second

  datatype JsonTraceHop = JsonTraceHop(name: string, destination: string, hop: int)
  datatype JsonStaticIp = JsonStaticIp(name: string, ip: string)
  datatype JsonHostname = JsonHostname(name: string, host: string)

  datatype JsonConfig = JsonConfig(
    hops: seq<JsonTraceHop>,
    statics: seq<JsonStaticIp>,
    hosts: seq<JsonHostname>,
    resolveInterval: string,
    pingInterval: string)

  /** The external parsers: `time.ParseDuration`, `netip.ParseAddr` and `netip.Addr.String`. */
  datatype Parsers = Parsers(
    duration: string -> Option<Duration>,
    addr: string -> Option<Addr>,
    show: Addr -> string)

  datatype ConfigError =
    | BadResolveInterval        // "failed to parse 'resolve-interval'"
    | BadPingInterval           // "failed to parse 'ping-interval'"
    | BadHop(index: nat)        // "failed to parse 'hops[%d]'"
    | MissingHopName(index: nat) // "hops[%d] missing 'name'"
    | BadStatic(index: nat)     // "failed to parse 'static[%d]'"

  /** A non-empty interval that does not parse; an empty one keeps the default. */
  predicate BadInterval(s: string, p: Parsers) {
    |s| > 0 && p.duration(s).None?
  }

  function IntervalOr(s: string, p: Parsers, default: Duration): Duration {
    if |s| > 0 && p.duration(s).Some? then p.duration(s).value else default
  }

  predicate HopOk(h: JsonTraceHop, p: Parsers) {
    p.addr(h.destination).Some? && |h.name| > 0
  }

  /** The error a bad hop reports: the address is checked before the name. */
  function HopError(h: JsonTraceHop, index: nat, p: Parsers): ConfigError {
    if p.addr(h.destination).None? then BadHop(index) else MissingHopName(index)
  }

  predicate StaticOk(s: JsonStaticIp, p: Parsers) {
    p.addr(s.ip).Some?
  }

  /** The target a well-formed hop entry becomes. */
  function HopTarget(h: JsonTraceHop, p: Parsers): Target {
    TraceHops(h.name, p.addr(h.destination).GetOr(Invalid), h.hop)
  }

  /** The target a well-formed static entry becomes; an empty name defaults to "static-ip:<addr>". */
  function StaticTarget(s: JsonStaticIp, p: Parsers): Target {
    var ip := p.addr(s.ip).GetOr(Invalid);
    StaticIP(if |s.name| == 0 then "static-ip:" + p.show(ip) else s.name, ip)
  }

  /** The target a host entry becomes; an empty name defaults to "host:<host>". */
  function HostTarget(h: JsonHostname): Target {
    HostnameTarget(if |h.name| == 0 then "host:" + h.host else h.name, h.host)
  }

  function HopTargets(hs: seq<JsonTraceHop>, p: Parsers): (ts: seq<Target>)
    ensures |ts| == |hs| && forall i :: 0 <= i < |hs| ==> ts[i] == HopTarget(hs[i], p)
  {
    seq(|hs|, i requires 0 <= i < |hs| => HopTarget(hs[i], p))
  }

  function StaticTargets(ss: seq<JsonStaticIp>, p: Parsers): (ts: seq<Target>)
    ensures |ts| == |ss| && forall i :: 0 <= i < |ss| ==> ts[i] == StaticTarget(ss[i], p)
  {
    seq(|ss|, i requires 0 <= i < |ss| => StaticTarget(ss[i], p))
  }

  function HostTargets(hs: seq<JsonHostname>): (ts: seq<Target>)
    ensures |ts| == |hs| && forall i :: 0 <= i < |hs| ==> ts[i] == HostTarget(hs[i])
  {
    seq(|hs|, i requires 0 <= i < |hs| => HostTarget(hs[i]))
  }

  /** A default name is the metric name config/config.go gives the same target. */
  lemma DefaultNamesAreMetricNames(s: JsonStaticIp, h: JsonHostname, p: Parsers)
    ensures |s.name| == 0 ==> StaticTarget(s, p).name == MetricName(StaticTarget(s, p), p.show)
    ensures |h.name| == 0 ==> HostTarget(h).name == MetricName(HostTarget(h), p.show)
    ensures |s.name| > 0 ==> StaticTarget(s, p).name == s.name
    ensures |h.name| > 0 ==> HostTarget(h).name == h.name
  {
  }

  predicate IntervalsOk(j: JsonConfig, p: Parsers) {
    !BadInterval(j.resolveInterval, p) && !BadInterval(j.pingInterval, p)
  }

  predicate AllHopsOk(hs: seq<JsonTraceHop>, p: Parsers) {
    forall i :: 0 <= i < |hs| ==> HopOk(hs[i], p)
  }

  predicate AllStaticOk(ss: seq<JsonStaticIp>, p: Parsers) {
    forall i :: 0 <= i < |ss| ==> StaticOk(ss[i], p)
  }

  /** The hop loop of `ParseConfig`: appends one `TraceHops` per entry to `c.targets`, or
      stops at the first entry whose destination does not parse or whose name is empty. */
  method AppendHops(c: Config, hs: seq<JsonTraceHop>, p: Parsers) returns (err: Option<ConfigError>)
    modifies c
    ensures c.resolveInterval == old(c.resolveInterval) && c.pingInterval == old(c.pingInterval)
    ensures err.None? <==> AllHopsOk(hs, p)
    ensures err.None? ==> c.targets == old(c.targets) + HopTargets(hs, p)
    ensures forall i :: 0 <= i < |hs| && AllHopsOk(hs[..i], p) && !HopOk(hs[i], p) ==>
              err == Some(HopError(hs[i], i, p))
  {
    var index := 0;
    while index < |hs|
      invariant 0 <= index <= |hs|
      invariant AllHopsOk(hs[..index], p)
      invariant c.targets == old(c.targets) + HopTargets(hs[..index], p)
      invariant c.resolveInterval == old(c.resolveInterval) && c.pingInterval == old(c.pingInterval)
    {
      var th := hs[index];
      var dest := p.addr(th.destination);
      if dest.None? || |th.name| == 0 {
        forall i | 0 <= i < |hs|
          ensures AllHopsOk(hs[..i], p) && !HopOk(hs[i], p) ==> i == index
        {
          if i < index {
            assert hs[..index][i] == hs[i];
          } else if i > index {
            assert hs[..i][index] == hs[index];
          }
        }
        if dest.None? {
          return Some(BadHop(index));
        }
        return Some(MissingHopName(index));
      }
      c.targets := c.targets + [TraceHops(th.name, dest.value, th.hop)];
      assert hs[..index + 1] == hs[..index] + [th];
      index := index + 1;
    }
    assert hs[..index] == hs;
    return None;
  }

  /** The static-entry loop of `ParseConfig`: appends one `StaticIP` per entry, naming an
      unnamed one "static-ip:<addr>", or stops at the first address that does not parse. */
  method AppendStatics(c: Config, ss: seq<JsonStaticIp>, p: Parsers) returns (err: Option<ConfigError>)
    modifies c
    ensures c.resolveInterval == old(c.resolveInterval) && c.pingInterval == old(c.pingInterval)
    ensures err.None? <==> AllStaticOk(ss, p)
    ensures err.None? ==> c.targets == old(c.targets) + StaticTargets(ss, p)
    ensures forall i :: 0 <= i < |ss| && AllStaticOk(ss[..i], p) && !StaticOk(ss[i], p) ==>
              err == Some(BadStatic(i))
  {
    var index := 0;
    while index < |ss|
      invariant 0 <= index <= |ss|
      invariant AllStaticOk(ss[..index], p)
      invariant c.targets == old(c.targets) + StaticTargets(ss[..index], p)
      invariant c.resolveInterval == old(c.resolveInterval) && c.pingInterval == old(c.pingInterval)
    {
      var entry := ss[index];
      var dest := p.addr(entry.ip);
      if dest.None? {
        forall i | 0 <= i < |ss|
          ensures AllStaticOk(ss[..i], p) && !StaticOk(ss[i], p) ==> i == index
        {
          if i < index {
            assert ss[..index][i] == ss[i];
          } else if i > index {
            assert ss[..i][index] == ss[index];
          }
        }
        return Some(BadStatic(index));
      }
      if |entry.name| == 0 {
        entry := entry.(name := "static-ip:" + p.show(dest.value));
      }
      c.targets := c.targets + [StaticIP(entry.name, dest.value)];
      assert ss[..index + 1] == ss[..index] + [ss[index]];
      index := index + 1;
    }
    assert ss[..index] == ss;
    return None;
  }

  /** The host loop of `ParseConfig`: appends one `HostnameTarget` per entry, naming an
      unnamed one "host:<host>"; it cannot fail. */
  method AppendHosts(c: Config, hs: seq<JsonHostname>)
    modifies c
    ensures c.resolveInterval == old(c.resolveInterval) && c.pingInterval == old(c.pingInterval)
    ensures c.targets == old(c.targets) + HostTargets(hs)
  {
    var index := 0;
    while index < |hs|
      invariant 0 <= index <= |hs|
      invariant c.targets == old(c.targets) + HostTargets(hs[..index])
      invariant c.resolveInterval == old(c.resolveInterval) && c.pingInterval == old(c.pingInterval)
    {
      var h := hs[index];
      if |h.name| == 0 {
        h := h.(name := "host:" + h.host);
      }
      c.targets := c.targets + [HostnameTarget(h.name, h.host)];
      assert hs[..index + 1] == hs[..index] + [hs[index]];
      index := index + 1;
    }
    assert hs[..index] == hs;
  }

  /** `ParseConfig` after decoding. The error is the first check to fail, in the order
      resolve interval, ping interval, hops by index, static entries by index; host entries
      cannot fail. On success the targets are the hops, then the static entries, then the
      hosts, each in input order. */
  method ParseConfig(j: JsonConfig, p: Parsers) returns (r: Result<Config, ConfigError>)
    ensures BadInterval(j.resolveInterval, p) ==> r == Failure(BadResolveInterval)
    ensures !BadInterval(j.resolveInterval, p) && BadInterval(j.pingInterval, p) ==>
              r == Failure(BadPingInterval)
    ensures forall i :: IntervalsOk(j, p) && 0 <= i < |j.hops| && AllHopsOk(j.hops[..i], p) && !HopOk(j.hops[i], p) ==>
              r == Failure(HopError(j.hops[i], i, p))
    ensures forall i :: IntervalsOk(j, p) && AllHopsOk(j.hops, p) &&
                        0 <= i < |j.statics| && AllStaticOk(j.statics[..i], p) && !StaticOk(j.statics[i], p) ==>
              r == Failure(BadStatic(i))
    ensures r.Success? <==> IntervalsOk(j, p) && AllHopsOk(j.hops, p) && AllStaticOk(j.statics, p)
    ensures r.Success? ==>
              && r.value.targets == HopTargets(j.hops, p) + StaticTargets(j.statics, p) + HostTargets(j.hosts)
              && |r.value.targets| == |j.hops| + |j.statics| + |j.hosts|
              && r.value.resolveInterval == IntervalOr(j.resolveInterval, p, DefaultResolveInterval)
              && r.value.pingInterval == IntervalOr(j.pingInterval, p, DefaultPingInterval)
  {
    var c := new Config([], DefaultResolveInterval, DefaultPingInterval);

    if |j.resolveInterval| > 0 {
      var d := p.duration(j.resolveInterval);
      if d.None? {
        return Failure(BadResolveInterval);
      }
      c.resolveInterval := d.value;
    }

    if |j.pingInterval| > 0 {
      var d := p.duration(j.pingInterval);
      if d.None? {
        return Failure(BadPingInterval);
      }
      c.pingInterval := d.value;
    }

    var err := AppendHops(c, j.hops, p);
    if err.Some? {
      return Failure(err.value);
    }
    err := AppendStatics(c, j.statics, p);
    if err.Some? {
      return Failure(err.value);
    }
    AppendHosts(c, j.hosts);
    return Success(c);
  }

  /** The empty JSON object. */
  const EmptyJson: JsonConfig := JsonConfig([], [], [], "", "")

  /** An empty object is valid: no targets and the default intervals. */
  lemma EmptyObjectIsValid(p: Parsers)
    ensures IntervalsOk(EmptyJson, p) && AllHopsOk(EmptyJson.hops, p) && AllStaticOk(EmptyJson.statics, p)
    ensures HopTargets([], p) + StaticTargets([], p) + HostTargets([]) == []
    ensures IntervalOr(EmptyJson.resolveInterval, p, DefaultResolveInterval) == 15 * Minute
    ensures IntervalOr(EmptyJson.pingInterval, p, DefaultPingInterval) == Second
  {
  }
}
