/** latency-summary.py: parse a probe log of `date,time,interface,destination,latency` lines,
    feed every accepted latency into one accumulator per interface and one per (interface,
    destination) pair, and print a percentile block per pair. The file is given as its lines,
    the t-digest is modelled by the values added to it, and Python's `float()`, the digest's
    `percentile` and `str` of a float are function parameters. */
module LatencySummary {
  import opened Wrappers

  type Pair = (string, string)

  datatype Record = Record(date: string, time: string, iface: string, ping: string, latency: string)

  datatype ParseError = MalformedLine(line: string) | InvalidLatency(value: string)

  /** The literal the logger writes for a probe that got no reply. */
  const LostMarker: string := "lost"

  /** The number of comma-separated fields of a line. */
  const FieldCount: nat := 5

  predicate IsLineEnd(c: char) { c == '\n' || c == '\r' }

  /** `rstrip("\n\r")`: drop every trailing newline and carriage return. */
  function RStrip(s: string): (r: string)
    ensures |r| <= |s| && r == s[..|r|]
    ensures r == [] || !IsLineEnd(r[|r| - 1])
    ensures forall k | |r| <= k < |s| :: IsLineEnd(s[k])
  {
    if s != [] && IsLineEnd(s[|s| - 1]) then RStrip(s[..|s| - 1]) else s
  }

  /** `split(",")`: the pieces between commas, empty pieces included. */
  function Split(s: string): seq<string>
  {
    if s == [] then [[]]
    else
      var rest := Split(s[1..]);
      if s[0] == ',' then [[]] + rest else [[s[0]] + rest[0]] + rest[1..]
  }

  /** `",".join(parts)`. */
  function Join(parts: seq<string>): string
    requires parts != []
  {
    if |parts| == 1 then parts[0] else parts[0] + [','] + Join(parts[1..])
  }

  /** There is one more piece than there are commas, and no piece contains a comma. */
  lemma {:induction false} SplitShape(s: string)
    ensures |Split(s)| == multiset(s)[','] + 1
    ensures forall k | 0 <= k < |Split(s)| :: ',' !in Split(s)[k]
  {
    if s != [] {
      SplitShape(s[1..]);
      assert s == [s[0]] + s[1..];
      assert multiset(s) == multiset{s[0]} + multiset(s[1..]);
      var rest := Split(s[1..]);
      if s[0] != ',' {
        assert forall k | 1 <= k < |Split(s)| :: Split(s)[k] == rest[k];
      }
    }
  }

  /** Joining the pieces with commas gives the string back. */
  lemma {:induction false} JoinSplit(s: string)
    ensures Join(Split(s)) == s
  {
    if s != [] {
      JoinSplit(s[1..]);
      var rest := Split(s[1..]);
      assert s == [s[0]] + s[1..];
      if s[0] != ',' && |rest| > 1 {
        assert Join(rest) == rest[0] + [','] + Join(rest[1..]);
        assert Split(s)[1..] == rest[1..];
      }
    }
  }

  /** `_lines` for one line: exactly five fields after the line end is stripped, or the run
      aborts (the tuple unpacking raises). */
  function ParseLine(line: string): Result<Record, ParseError>
  {
    var fields := Split(RStrip(line));
    if |fields| != FieldCount then Failure(MalformedLine(line))
    else Success(Record(fields[0], fields[1], fields[2], fields[3], fields[4]))
  }

  /** A line parses exactly when it has four commas once its line end is stripped. */
  lemma ParseLineIff(line: string)
    ensures ParseLine(line).Success? <==> multiset(RStrip(line))[','] == FieldCount - 1
    ensures ParseLine(line).Failure? ==> ParseLine(line).error == MalformedLine(line)
  {
    SplitShape(RStrip(line));
  }

  /** The fields of a parsed line, joined with commas, give the stripped line back, and the
      key fields hold no comma. */
  lemma ParseLineJoin(line: string)
    requires ParseLine(line).Success?
    ensures var r := ParseLine(line).value;
            Join([r.date, r.time, r.iface, r.ping, r.latency]) == RStrip(line) &&
            ',' !in r.date && ',' !in r.time && ',' !in r.iface && ',' !in r.ping && ',' !in r.latency
  {
    var fields := Split(RStrip(line));
    var r := ParseLine(line).value;
    SplitShape(RStrip(line));
    JoinSplit(RStrip(line));
    assert [r.date, r.time, r.iface, r.ping, r.latency] == fields;
  }

  /** `_lines` over a whole file: the records in file order, or the first malformed line. */
  function ParseAll(lines: seq<string>): Result<seq<Record>, ParseError>
  {
    if lines == [] then Success([])
    else
      match ParseLine(lines[0])
      case Failure(e) => Failure(e)
      case Success(r) =>
        match ParseAll(lines[1..])
        case Failure(e) => Failure(e)
        case Success(rs) => Success([r] + rs)
  }

  /** A file parses exactly when every line does, and then record `k` is line `k`'s. */
  lemma {:induction false} ParseAllSuccess(lines: seq<string>)
    ensures ParseAll(lines).Success? <==> forall k | 0 <= k < |lines| :: ParseLine(lines[k]).Success?
    ensures ParseAll(lines).Success? ==>
              |ParseAll(lines).value| == |lines| &&
              forall k | 0 <= k < |lines| :: ParseAll(lines).value[k] == ParseLine(lines[k]).value
  {
    if lines != [] {
      ParseAllSuccess(lines[1..]);
      assert forall k | 1 <= k < |lines| :: lines[1..][k - 1] == lines[k];
    }
  }

  /** A file that does not parse reports its first malformed line. */
  lemma {:induction false} ParseAllFailure(lines: seq<string>)
    requires ParseAll(lines).Failure?
    ensures exists k | 0 <= k < |lines| :: ParseAll(lines).error == MalformedLine(lines[k]) &&
                                           forall j | 0 <= j < k :: ParseLine(lines[j]).Success?
  {
    if ParseLine(lines[0]).Success? {
      var tail := lines[1..];
      ParseAllFailure(tail);
      var k :| 0 <= k < |tail| && ParseAll(tail).error == MalformedLine(tail[k]) &&
               forall j | 0 <= j < k :: ParseLine(tail[j]).Success?;
      forall j | 0 <= j < k + 1
        ensures ParseLine(lines[j]).Success?
      {
        if j > 0 {
          assert lines[j] == tail[j - 1];
        }
      }
      assert ParseAll(lines).error == MalformedLine(lines[k + 1]);
    } else {
      assert ParseAll(lines).error == MalformedLine(lines[0]);
    }
  }

  /** `detect`: the interfaces, and the (interface, destination) pairs, of every record, lost
      ones included. */
  method Detect(records: seq<Record>) returns (interfaces: set<string>, pairs: set<Pair>)
    ensures interfaces == (set r | r in records :: r.iface)
    ensures pairs == (set r | r in records :: (r.iface, r.ping))
  {
    interfaces := {};
    pairs := {};
    for k := 0 to |records|
      invariant interfaces == (set r | r in records[..k] :: r.iface)
      invariant pairs == (set r | r in records[..k] :: (r.iface, r.ping))
    {
      assert records[..k + 1] == records[..k] + [records[k]];
      interfaces := interfaces + {records[k].iface};
      pairs := pairs + {(records[k].iface, records[k].ping)};
    }
    assert records[..|records|] == records;
  }

  /** The accumulator: a t-digest of the given compression, modelled by the values added to it
      in order. */
  datatype Digest = Digest(compression: nat, observations: seq<real>) {
    function Add(x: real): Digest {
      this.(observations := observations + [x])
    }
  }

  /** `TDigest(1000)`. */
  const Compression: nat := 1000

  /** One accepted latency: the key it belongs to and its value. */
  datatype Obs = Obs(iface: string, ping: string, value: real)

  /** The loss policy and `float()` for one record: `None` means the record is skipped. */
  function Latency(r: Record, lost: Option<real>, parse: string -> Option<real>): Result<Option<real>, ParseError>
  {
    if r.latency == LostMarker then
      match lost
      case Some(l) => Success(Some(l))
      case None => Success(None)
    else
      match parse(r.latency)
      case Some(x) => Success(Some(x))
      case None => Failure(InvalidLatency(r.latency))
  }

  /** The accepted latencies of a list of records in file order, or the first invalid one. */
  function Observations(records: seq<Record>, lost: Option<real>, parse: string -> Option<real>): Result<seq<Obs>, ParseError>
  {
    if records == [] then Success([])
    else
      var last := records[|records| - 1];
      match Observations(records[..|records| - 1], lost, parse)
      case Failure(e) => Failure(e)
      case Success(obs) =>
        match Latency(last, lost, parse)
        case Failure(e) => Failure(e)
        case Success(None) => Success(obs)
        case Success(Some(x)) => Success(obs + [Obs(last.iface, last.ping, x)])
  }

  /** The file order of `Observations`: one more record extends the result by its latency. */
  lemma ObservationsStep(records: seq<Record>, k: nat, lost: Option<real>, parse: string -> Option<real>, obs: seq<Obs>)
    requires k < |records|
    requires Observations(records[..k], lost, parse) == Success(obs)
    ensures var r := records[k];
            match Latency(r, lost, parse)
            case Failure(e) => Observations(records[..k + 1], lost, parse) == Failure(e)
            case Success(None) => Observations(records[..k + 1], lost, parse) == Success(obs)
            case Success(Some(x)) => Observations(records[..k + 1], lost, parse) == Success(obs + [Obs(r.iface, r.ping, x)])
  {
    assert records[..k + 1][..k] == records[..k];
  }

  /** The values an interface's accumulator receives. */
  function ForIface(obs: seq<Obs>, i: string): seq<real>
  {
    if obs == [] then []
    else
      var last := obs[|obs| - 1];
      ForIface(obs[..|obs| - 1], i) + (if last.iface == i then [last.value] else [])
  }

  /** The values a pair's accumulator receives. */
  function ForPair(obs: seq<Obs>, p: Pair): seq<real>
  {
    if obs == [] then []
    else
      var last := obs[|obs| - 1];
      ForPair(obs[..|obs| - 1], p) + (if (last.iface, last.ping) == p then [last.value] else [])
  }

  /** A lost record under the skip policy adds nothing. */
  lemma SkipAddsNothing(records: seq<Record>, r: Record, parse: string -> Option<real>)
    requires r.latency == LostMarker
    ensures Observations(records + [r], None, parse) == Observations(records, None, parse)
  {
    assert (records + [r])[..|records|] == records;
  }

  /** A lost record under the substitute policy adds exactly the substitute latency, to its own
      interface and pair. */
  lemma SubstituteAddsLatency(records: seq<Record>, r: Record, l: real, parse: string -> Option<real>)
    requires r.latency == LostMarker
    requires Observations(records, Some(l), parse).Success?
    ensures Observations(records + [r], Some(l), parse) ==
            Success(Observations(records, Some(l), parse).value + [Obs(r.iface, r.ping, l)])
  {
    assert (records + [r])[..|records|] == records;
  }

  /** A latency that is neither the lost marker nor a number stops the run with that value. */
  lemma InvalidLatencyAborts(records: seq<Record>, r: Record, lost: Option<real>, parse: string -> Option<real>)
    requires r.latency != LostMarker && parse(r.latency).None?
    requires Observations(records, lost, parse).Success?
    ensures Observations(records + [r], lost, parse) == Failure(InvalidLatency(r.latency))
  {
    assert (records + [r])[..|records|] == records;
  }

  /** Once a prefix of the file has failed, the whole file fails with the same error. */
  lemma {:induction false} FailureSticks(records: seq<Record>, n: nat, lost: Option<real>, parse: string -> Option<real>)
    requires n <= |records|
    requires Observations(records[..n], lost, parse).Failure?
    ensures Observations(records, lost, parse) == Observations(records[..n], lost, parse)
    decreases |records| - n
  {
    if n < |records| {
      assert records[..n + 1][..n] == records[..n];
      FailureSticks(records, n + 1, lost, parse);
    } else {
      assert records[..n] == records;
    }
  }

  /** Every accepted value comes from a record of the file with the same key. */
  lemma {:induction false} ObservationsFromRecords(records: seq<Record>, lost: Option<real>, parse: string -> Option<real>)
    requires Observations(records, lost, parse).Success?
    ensures forall o | o in Observations(records, lost, parse).value ::
              exists r | r in records :: r.iface == o.iface && r.ping == o.ping
  {
    if records != [] {
      var init := records[..|records| - 1];
      ObservationsFromRecords(init, lost, parse);
      assert forall r | r in init :: r in records;
    }
  }

  /** A pair all of whose records are lost receives nothing under the skip policy. */
  lemma {:induction false} AllLostPairIsEmpty(records: seq<Record>, p: Pair, parse: string -> Option<real>)
    requires forall r | r in records && (r.iface, r.ping) == p :: r.latency == LostMarker
    requires Observations(records, None, parse).Success?
    ensures ForPair(Observations(records, None, parse).value, p) == []
  {
    if records != [] {
      var init := records[..|records| - 1];
      assert forall r | r in init :: r in records;
      AllLostPairIsEmpty(init, p, parse);
      var obs := Observations(init, None, parse).value;
      var last := records[|records| - 1];
      if Latency(last, None, parse).value.Some? {
        var o := Obs(last.iface, last.ping, Latency(last, None, parse).value.value);
        assert (obs + [o])[..|obs|] == obs;
      }
    }
  }

  /** How many accepted values of interface `i` go to a destination in `ds`. */
  function CountFor(obs: seq<Obs>, i: string, ds: set<string>): nat
  {
    if obs == [] then 0
    else
      var last := obs[|obs| - 1];
      CountFor(obs[..|obs| - 1], i, ds) + (if last.iface == i && last.ping in ds then 1 else 0)
  }

  lemma {:induction false} ForIfaceCount(obs: seq<Obs>, i: string, ds: set<string>)
    requires forall o | o in obs && o.iface == i :: o.ping in ds
    ensures |ForIface(obs, i)| == CountFor(obs, i, ds)
  {
    if obs != [] {
      ForIfaceCount(obs[..|obs| - 1], i, ds);
    }
  }

  lemma {:induction false} ForPairCount(obs: seq<Obs>, i: string, d: string)
    ensures |ForPair(obs, (i, d))| == CountFor(obs, i, {d})
  {
    if obs != [] {
      ForPairCount(obs[..|obs| - 1], i, d);
    }
  }

  lemma {:induction false} CountSplit(obs: seq<Obs>, i: string, ds: set<string>, d: string)
    requires d in ds
    ensures CountFor(obs, i, ds) == CountFor(obs, i, {d}) + CountFor(obs, i, ds - {d})
  {
    if obs != [] {
      CountSplit(obs[..|obs| - 1], i, ds, d);
    }
  }

  /** The sum, over the destinations in `ds`, of the number of values pair (`i`, destination) receives. */
  ghost function PairSum(obs: seq<Obs>, i: string, ds: set<string>): nat
    decreases ds
  {
    if ds == {} then 0
    else
      var d :| d in ds;
      |ForPair(obs, (i, d))| + PairSum(obs, i, ds - {d})
  }

  lemma {:induction false} PairSumIsCount(obs: seq<Obs>, i: string, ds: set<string>)
    ensures PairSum(obs, i, ds) == CountFor(obs, i, ds)
    decreases ds
  {
    if ds == {} {
      CountNone(obs, i);
    } else {
      var d :| d in ds && PairSum(obs, i, ds) == |ForPair(obs, (i, d))| + PairSum(obs, i, ds - {d});
      PairSumIsCount(obs, i, ds - {d});
      ForPairCount(obs, i, d);
      CountSplit(obs, i, ds, d);
    }
  }

  lemma {:induction false} CountNone(obs: seq<Obs>, i: string)
    ensures CountFor(obs, i, {}) == 0
  {
    if obs != [] {
      CountNone(obs[..|obs| - 1], i);
    }
  }

  /** The destinations seen with interface `i`. */
  function DestsOf(records: seq<Record>, i: string): set<string>
  {
    set r | r in records && r.iface == i :: r.ping
  }

  /** Every accepted value enters both its interface's and its pair's accumulator, so an
      interface's count is the sum of the counts of its pairs. */
  lemma InterfaceCountIsPairSum(records: seq<Record>, lost: Option<real>, parse: string -> Option<real>, i: string)
    requires Observations(records, lost, parse).Success?
    ensures var obs := Observations(records, lost, parse).value;
            |ForIface(obs, i)| == PairSum(obs, i, DestsOf(records, i))
  {
    var obs := Observations(records, lost, parse).value;
    ObservationsFromRecords(records, lost, parse);
    forall o | o in obs && o.iface == i
      ensures o.ping in DestsOf(records, i)
    {
      var r :| r in records && r.iface == o.iface && r.ping == o.ping;
    }
    ForIfaceCount(obs, i, DestsOf(records, i));
    PairSumIsCount(obs, i, DestsOf(records, i));
  }

  /** The accumulators after aggregation. */
  datatype Summary = Summary(interfaces: map<string, Digest>, pairs: map<Pair, Digest>)

  /** The state the aggregation loop keeps after the accepted values `obs`. */
  ghost predicate Holds(interfaces: map<string, Digest>, pairs: map<Pair, Digest>, obs: seq<Obs>)
  {
    && (forall i | i in interfaces :: interfaces[i] == Digest(Compression, ForIface(obs, i)))
    && (forall p | p in pairs :: pairs[p] == Digest(Compression, ForPair(obs, p)))
  }

  /** `main` up to the printing: detect the keys, give each key a fresh accumulator, then feed
      every record through the loss policy (`lost` is the `--lost-latency` flag) into its
      interface's and its pair's accumulator. */
  method Summarize(lines: seq<string>, lost: Option<real>, parse: string -> Option<real>)
    returns (out: Result<Summary, ParseError>)
    ensures ParseAll(lines).Failure? ==> out == Failure(ParseAll(lines).error)
    ensures ParseAll(lines).Success? ==>
              var records := ParseAll(lines).value;
              match Observations(records, lost, parse)
              case Failure(e) => out == Failure(e)
              case Success(obs) =>
                && out.Success?
                && out.value.interfaces.Keys == (set r | r in records :: r.iface)
                && out.value.pairs.Keys == (set r | r in records :: (r.iface, r.ping))
                && Holds(out.value.interfaces, out.value.pairs, obs)
  {
    var parsed := ParseAll(lines);
    if parsed.Failure? {
      return Failure(parsed.error);
    }
    var records := parsed.value;
    var interfaces, pairs := FreshAccumulators(records);
    out := Aggregate(records, lost, parse, interfaces, pairs);
  }

  /** The start of `main`: `detect`, then a fresh accumulator for every key it found. */
  method FreshAccumulators(records: seq<Record>) returns (interfaces: map<string, Digest>, pairs: map<Pair, Digest>)
    ensures interfaces.Keys == (set r | r in records :: r.iface)
    ensures pairs.Keys == (set r | r in records :: (r.iface, r.ping))
    ensures Holds(interfaces, pairs, [])
  {
    var ifaceKeys, pairKeys := Detect(records);
    interfaces := map i | i in ifaceKeys :: Digest(Compression, []);
    pairs := map p | p in pairKeys :: Digest(Compression, []);
  }

  /** The second loop of `main`: every record through the loss policy into its two accumulators. */
  method Aggregate(records: seq<Record>, lost: Option<real>, parse: string -> Option<real>,
                   interfaces0: map<string, Digest>, pairs0: map<Pair, Digest>)
    returns (out: Result<Summary, ParseError>)
    requires forall r | r in records :: r.iface in interfaces0 && (r.iface, r.ping) in pairs0
    requires Holds(interfaces0, pairs0, [])
    ensures match Observations(records, lost, parse)
            case Failure(e) => out == Failure(e)
            case Success(obs) =>
              && out.Success?
              && out.value.interfaces.Keys == interfaces0.Keys
              && out.value.pairs.Keys == pairs0.Keys
              && Holds(out.value.interfaces, out.value.pairs, obs)
  {
    var interfaces := interfaces0;
    var pairs := pairs0;
    ghost var obs: seq<Obs> := [];
    for k := 0 to |records|
      invariant interfaces.Keys == interfaces0.Keys && pairs.Keys == pairs0.Keys
      invariant Observations(records[..k], lost, parse) == Success(obs)
      invariant Holds(interfaces, pairs, obs)
    {
      var r := records[k];
      ObservationsStep(records, k, lost, parse, obs);
      var latency: real;
      if r.latency == LostMarker {
        if lost.Some? {
          latency := lost.value;
        } else {
          continue;
        }
      } else {
        var x := parse(r.latency);
        if x.None? {
          FailureSticks(records, k + 1, lost, parse);
          return Failure(InvalidLatency(r.latency));
        }
        latency := x.value;
      }
      assert r in records;
      AddStep(interfaces, pairs, obs, Obs(r.iface, r.ping, latency));
      interfaces := interfaces[r.iface := interfaces[r.iface].Add(latency)];
      pairs := pairs[(r.iface, r.ping) := pairs[(r.iface, r.ping)].Add(latency)];
      obs := obs + [Obs(r.iface, r.ping, latency)];
    }
    assert records[..|records|] == records;
    out := Success(Summary(interfaces, pairs));
  }

  /** Adding one accepted value to its two accumulators keeps the loop's state. */
  lemma AddStep(interfaces: map<string, Digest>, pairs: map<Pair, Digest>, obs: seq<Obs>, o: Obs)
    requires Holds(interfaces, pairs, obs)
    requires o.iface in interfaces && (o.iface, o.ping) in pairs
    ensures Holds(interfaces[o.iface := interfaces[o.iface].Add(o.value)],
                  pairs[(o.iface, o.ping) := pairs[(o.iface, o.ping)].Add(o.value)], obs + [o])
  {
    assert (obs + [o])[..|obs|] == obs;
  }

  /** One entry of the `percentiles` list: how `str` prints it and its value. */
  datatype Percentile = Percentile(name: string, percent: real)

  const Percentiles: seq<Percentile> :=
    [Percentile("50", 50.0), Percentile("90.0", 90.0), Percentile("95.0", 95.0),
     Percentile("99.0", 99.0), Percentile("99.9", 99.9)]

  /** The three columns of an `aggregate_block` (the spacing column is left to rendering). */
  datatype Block = Block(labels: seq<string>, rules: seq<string>, values: seq<string>)

  /** `aggregate_block`: per percentile, its label, a "=" and the digest's value at `p/100`. */
  function AggregateBlock(d: Digest, ps: seq<Percentile>, quantile: (seq<real>, real) -> real, show: real -> string): (b: Block)
    ensures |b.labels| == |ps| && |b.rules| == |ps| && |b.values| == |ps|
    ensures forall k | 0 <= k < |ps| ::
              b.labels[k] == ps[k].name && b.rules[k] == "=" &&
              b.values[k] == show(quantile(d.observations, ps[k].percent / 100.0))
  {
    Block(seq(|ps|, k requires 0 <= k < |ps| => ps[k].name),
          seq(|ps|, k => "="),
          seq(|ps|, k requires 0 <= k < |ps| => show(quantile(d.observations, ps[k].percent / 100.0))))
  }

  /** Every quantile the report asks for lies strictly between 0 and 1. */
  lemma QuantilesInRange()
    ensures forall k | 0 <= k < |Percentiles| :: 0.0 < Percentiles[k].percent / 100.0 < 1.0
  {
  }

  datatype Entry = Entry(header: string, block: Block)

  /** What `main` prints: one block per pair, headed `interface => destination`; the interface
      accumulators are never printed. */
  function Report(s: Summary, quantile: (seq<real>, real) -> real, show: real -> string): (r: map<Pair, Entry>)
    ensures r.Keys == s.pairs.Keys
    ensures forall p | p in r :: r[p].header == p.0 + " => " + p.1 &&
                                 |r[p].block.labels| == |Percentiles| && |r[p].block.values| == |Percentiles|
    ensures forall p, k | p in r && 0 <= k < |Percentiles| ::
              r[p].block.labels[k] == Percentiles[k].name &&
              r[p].block.values[k] == show(quantile(s.pairs[p].observations, Percentiles[k].percent / 100.0))
  {
    map p | p in s.pairs :: Entry(p.0 + " => " + p.1, AggregateBlock(s.pairs[p], Percentiles, quantile, show))
  }
}
