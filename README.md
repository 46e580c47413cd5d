# network-monitor, modelled in Dafny

network-monitor measures network latency to a configured set of targets. It has six parts:

- **Targets.** A target is a traceroute hop, a static address or a host name. They are read from a JSON configuration.
- **Resolver service.** Resolves every target periodically. When a resolution fails, it keeps serving the last successful result.
- **Glue.** Turns each resolution round into probe registrations for a manager.
- **Probe manager.** Keeps one pinger per source address.
- **Pingers.** Each pinger sends ICMP echoes, one FIFO per destination. A reply reports every older outstanding echo as lost.
- **Offline summary script.** Reads the probe log and feeds every latency into one accumulator per interface and one per (interface, destination) pair. It prints a percentile block per pair.

The model follows the source file by file, one Dafny module each:

| module | source |
|---|---|
| `Ping` | `ping/result.go` |
| `Probe` | `ping/probe.go` |
| `Manager` | `ping/manager.go` |
| `MainGlue` | `main.go` (`glue`, `prFromIp`) |
| `ResolveService` | `resolve/service.go` (the merge of one round with the cache) |
| `Resolve` | `resolve/resolve.go` |
| `ResolveIps` | `resolve/ips.go` |
| `Config` | `config/config.go` |
| `ConfigJson` | `config/json.go` |
| `LatencySummary` | `latency-summary.py` |

There are three small support modules:

- `Wrappers`: `Option` and `Result`, and `Lookup` for Go's zero value on a missing map key.
- `NetIp`: `netip.Addr`, as invalid, IPv4 or IPv6 with a zone.
- `GoTime`: `time.Time` as an integer of nanoseconds, where 0 is the zero time. `time.Duration` is a 64-bit integer; `Sub` saturates as Go's does.

State the source updates in place is modelled as classes:

- `Config.Config`
- `Probe.Pinger`, whose monitors are values in a map
- `Manager.ProbeManager`

Loops are methods with invariants, proved against specification functions. The network, the clock, the socket's success, traceroutes, DNS lookups, `time.ParseDuration`, `netip.ParseAddr`, `netip.Addr.String`, Python's `float()` and the t-digest quantile become parameters.

## Model

| member | source | states |
|---|---|---|
| `NetIp.Addr.Unmap` | config/config.go:125-127 | Unmapping never leaves an IPv4-in-IPv6 address. It keeps validity and turns a mapped address into its IPv4 address. It leaves every other address as it is. |
| `GoTime.Sub` | ping/result.go:27 | `t.Sub(u)` is `t - u` when that fits a duration and saturates otherwise. It is negative exactly when `t` is before `u`. |
| `Ping.PingResult.Elapsed` | ping/result.go:22-28 | A lost packet (zero receive time) gives -1. Otherwise the result is the receive time minus the send time, 0 when they are equal. It is negative exactly when the packet was lost or received before it was sent. |
| `ResolveIps.AllowedAddr` | resolve/ips.go:13-15 | An invalid address is never allowed. An IPv4 address is allowed iff `allow-ip4` is set, and an IPv6 address, mapped ones included, iff `allow-ip6` is set. With both set, exactly the valid addresses are allowed. |
| `ResolveIps.DefaultsAllowEveryValidAddr` | resolve/ips.go:8-15 | Under the flags' defaults, an address is allowed iff it is valid. |
| `Config.ClampIntervals` | config/config.go:39-47 | Each interval below its minimum (1 minute for resolving, 10 ms for pinging) is raised to the minimum. Every other interval and the targets are unchanged. |
| `Config.LoadConfig` | config/config.go:27-50 | A failure to open or parse is returned unchanged. A parsed configuration comes back with its targets unchanged. Each interval below its minimum is raised to exactly the minimum, and every other interval is kept. |
| `Config.TraceOptions` | config/config.go:104-108 | The traceroute is asked for `Hop + 1` hops, 5 retries and a 2-second hop timeout. |
| `Config.HopIndex` | config/config.go:113-116 | A non-negative hop is used as the index. A negative hop counts back from the number of hops. |
| `Config.SelectHop` | config/config.go:113-127 | Hop selection succeeds iff `-len <= Hop < len`. It then yields exactly one address, the selected hop unmapped, and otherwise the `less than Hop hops` error. |
| `Config.TraceHopsResolve` | config/config.go:103-128 | A traceroute failure is passed on. Otherwise the result is the hop selection over the returned hops. |
| `Config.StaticResolve` | config/config.go:144-146 | A static target resolves to exactly its address and never fails. |
| `Config.MetricName` | config/config.go:130-166 | A hop target reports its name, a static address `static-ip:<ip>` and a host `host:<host>`. |
| `Config.StaticAndHostNamesDiffer` | config/config.go:147-166 | A static address and a host name never share a metric name. |
| `Config.Unmixed` | config/config.go:187-196 | The length is kept and element `i` is address `i` unmapped. |
| `Config.UnmixedProperties` | config/config.go:171-197 | A list without mapped addresses is left as it is. No result contains a mapped address. Applying the function twice is the same as applying it once. |
| `Config.NoMixIp` | config/config.go:171-197 | The scan-then-copy loop returns every address unmapped: the input itself when nothing is mapped, and never a mapped address. |
| `Config.HostnameResolve` | config/config.go:160-163 | A lookup error is passed on. Otherwise the result is the looked-up addresses with `noMixIp` applied. |
| `ConfigJson.HopTargets` | config/json.go:74-91 | One `TraceHops` target per hop entry, in order, carrying its name, parsed destination and hop. |
| `ConfigJson.StaticTargets` | config/json.go:93-105 | One `StaticIP` target per static entry, in order. |
| `ConfigJson.HostTargets` | config/json.go:107-115 | One `HostnameTarget` per host entry, in order. |
| `ConfigJson.HopTarget` | config/json.go:86-90 | The `TraceHops` target of one hop entry. `ConfigJson.HopTargets` and `ConfigJson.AppendHops` state its use. |
| `ConfigJson.StaticTarget` | config/json.go:94-104 | The `StaticIP` target of one static entry. `ConfigJson.DefaultNamesAreMetricNames` states its name. |
| `ConfigJson.HostTarget` | config/json.go:108-114 | The `HostnameTarget` of one host entry. `ConfigJson.DefaultNamesAreMetricNames` states its name. |
| `ConfigJson.HopError` | config/json.go:75-85 | The error of a bad hop entry: an unparseable destination is reported before a missing name. `ConfigJson.AppendHops` states which entry decides it. |
| `ConfigJson.DefaultNamesAreMetricNames` | config/json.go:98-110 | An entry without a name is named after its metric name (`static-ip:<ip>`, `host:<host>`). A given name is kept. |
| `ConfigJson.AppendHops` | config/json.go:74-91 | Succeeds iff every hop entry has a parseable destination and a name, and then appends their targets. The first bad entry decides the error: an unparseable address or a missing name at that index. The intervals are unchanged. |
| `ConfigJson.AppendStatics` | config/json.go:93-105 | Succeeds iff every static address parses, and then appends their targets. The first bad entry's index is reported. |
| `ConfigJson.AppendHosts` | config/json.go:107-115 | Appends one target per host entry and never fails. |
| `ConfigJson.ParseConfig` | config/json.go:42-118 | Checks in the code's order: a bad resolve interval, then a bad ping interval, then the first bad hop, then the first bad static entry. It succeeds iff none is bad. Empty intervals default to 15 minutes and 1 second. On success the targets are the hops, then the statics, then the hosts. |
| `ConfigJson.EmptyObjectIsValid` | config/json_test.go:18-27 | `{}` parses to no targets with the default intervals. |
| `Resolve.ResolveHops` | resolve/resolve.go:48-73 | A traceroute failure is passed on. Otherwise the result is the hop selection over the returned hops. |
| `Resolve.ResolveHopsAgreesWithConfig` | resolve/resolve.go:48-73 | This file's hop resolution gives the same result as `TraceHops.Resolve` in config/config.go for every traceroute. |
| `Resolve.ResolveTarget` | resolve/resolve.go:35-46 | Dispatches on the target's kind. A static address gives itself. A host gives its lookup's addresses, or the lookup error. A hop target gives one unmapped hop or an error. Any other kind gives the unknown-type error. |
| `ResolveService.Outcome` | resolve/service.go:108-112 | A successful attempt gives its addresses. A failed one gives the previous round's cached addresses for its target, if there are any. |
| `ResolveService.NewCache` | resolve/service.go:106-122 | The new cache holds exactly the targets attempted in this round. Targets no longer configured are dropped. |
| `ResolveService.Reported` | resolve/service.go:115-120 | Each reported resolution is the target of an attempt of the round with that attempt's outcome. There are at most as many as there are attempts. That they come in attempt order is stated by `ResolveService.ReportedAppend` and `ResolveService.ReportedSingle`. |
| `ResolveService.MergeRound` | resolve/service.go:103-122 | The round's loop computes exactly the new cache and the reported resolutions. |
| `ResolveService.LastAttemptWins` | resolve/service.go:107-111 | The cache entry of a target is the outcome of its last attempt in the round. |
| `ResolveService.StaleTargetsDropped` | resolve/service.go:106-122 | A target not attempted this round is not in the new cache. |
| `ResolveService.ReportedAppend` | resolve/service.go:107-121 | Reporting is computed attempt by attempt: the report of two runs of attempts is the two reports concatenated. |
| `ResolveService.ReportedSingle` | resolve/service.go:115-120 | One attempt is reported iff it has an outcome, and then with that outcome. |
| `ResolveService.FailedRoundRepeatsResult` | resolve/service.go:106-122 | Take a round whose attempts have distinct targets, followed by a round that retries the same targets in the same order and fails every time. The second round reports exactly what the first reported. |
| `ResolveService.ErrorAfterSuccessKeepsResult` | resolve/service_test.go:92-136 | After one successful round, a failing round still reports the cached address. |
| `Probe.Next` | ping/probe.go:128 | `sequence += 1` on a `uint16`: one more, except that 65535 wraps to 0. |
| `Probe.AfterIsModular` | ping/probe.go:128 | n increments advance the sequence number by n modulo 2^16. |
| `Probe.Pushed` | ping/probe.go:140-150 | The new packet is at the end of the FIFO, and before it is a suffix of the old FIFO. A full FIFO (100 packets) first drops its oldest 25. A FIFO within the bound stays within it. |
| `Probe.FirstMatch` | ping/probe.go:199-213 | The index of the first outstanding packet with the reply's sequence number, or the length when none matches. |
| `Probe.ReceiveWithMatch` | ping/probe.go:199-213 | With a match at index i, the reply reports: (1) the i older packets lost, in order, with a zero receive time; (2) the matched packet received at the reply's time. The FIFO keeps only what was after the match. |
| `Probe.ReceiveWithoutMatch` | ping/probe.go:199-229 | Without a match, every outstanding packet is reported lost, in order, and the FIFO is kept. |
| `Probe.ReplyToNewest` | ping/probe.go:140-213 | A reply to the packet just sent, whose sequence number is unique, reports every older packet lost and empties the FIFO. |
| `Probe.ReceiveOutput` | ping/probe.go:199-229 | What one reply sends on the results channel. `Probe.ReceiveWithMatch`, `Probe.ReceiveWithoutMatch` and `Probe.ReplyToNewest` state its content. |
| `Probe.WireAfterReceive` | ping/probe.go:199-213 | The FIFO after one reply. The same three lemmas state it: everything after the match, or the FIFO unchanged without one. |
| `Probe.MonitorFor` | ping/probe.go:119-126 | The monitor `send` uses: the destination's own, or a new one for the target with an empty FIFO. `Probe.SentAllGrows` and `Probe.SentAllOnce` state what a round leaves in it. |
| `Probe.Recorded` | ping/probe.go:135-150 | A send the socket took pushes its packet onto the FIFO. A failed send leaves the monitor alone. `Probe.SentAllOnce` states the result for a destination sent to once. |
| `Probe.SentTo` | ping/probe.go:115-153 | The monitors after one `send`. It is the reference that `Probe.Pinger.Send` is proved against. |
| `Probe.SentAll` | ping/probe.go:100-153 | The monitors after the sends of a plan, one `send` after another. Send k carries sequence number `After(start, k + 1)` and happens at `clock(first + k)`, as `Probe.SentAllSnoc` states. |
| `Probe.SentAllSnoc` | ping/probe.go:100-153 | The last send of a plan is one more `send` after the rest, whose sequence number is one more than the last of the rest. |
| `Probe.SentAllAppend` | ping/probe.go:100-111 | Sending two plans one after the other, the second numbered on from where the first stopped, is sending the concatenation. |
| `Probe.SentAllGrows` | ping/probe.go:115-126 | A round creates exactly the monitors of the destinations it sends to and keeps every monitor's target. The monitors of other destinations are untouched. |
| `Probe.SentAllOnce` | ping/probe.go:115-150 | Take a destination sent to exactly once in a round, with n sends before it. It ends with its monitor from before the round (or a fresh one) recording that send. If the socket took it, the FIFO ends with the packet numbered `After(start, n + 1)` sent at `clock(first + n)`. |
| `Probe.MatchingIsFamilyFilter` | ping/probe.go:102-105 | For one resolution, sends go only to its addresses of the source's family, and every such address is sent to. |
| `Probe.SendPlanIsFamilyFilter` | ping/probe.go:100-111 | In one tick, each send goes to an address of the source's family of a resolution for its target. Every such address of every resolution is sent to. |
| `Probe.Matching` | ping/probe.go:102-105 | The sends for one resolution. `Probe.MatchingIsFamilyFilter` states them. |
| `Probe.SendPlan` | ping/probe.go:100-111 | The sends of one tick. `Probe.SendPlanIsFamilyFilter` states them. |
| `Probe.Pinger.constructor` | ping/probe.go:28-44 | A new pinger has no monitors, sequence number 0 and no results. |
| `Probe.Pinger.Remove` | ping/probe.go:78-85 | The destination's monitor is gone. Everything else is unchanged. |
| `Probe.Pinger.Send` | ping/probe.go:115-153 | Advances the sequence number with wrap-around, even when the send fails, and the echo carries the new number. The monitors become `Probe.SentTo` of the old ones: the destination's monitor is created if missing, and only a delivered echo is pushed onto its FIFO, with its send time. |
| `Probe.Pinger.HandleReceive` | ping/probe.go:188-232 | Fails, changing nothing, iff the sender has no monitor. Otherwise it appends the reply's outcomes (the lost packets and the matched one) to the results and leaves the FIFO as the match determines. |
| `Probe.Pinger.SendResolution` | ping/probe.go:102-110 | One echo per address of the source's family, in order, with consecutive sequence numbers. The monitors become `Probe.SentAll` of the old ones: each send in turn, with its own time and socket outcome. Monitors exist for exactly the old destinations plus those sent to. Untouched monitors are unchanged and no target is overwritten. |
| `Probe.Pinger.SendRound` | ping/probe.go:100-111 | One tick sends the echoes of every resolution in turn, so the sequence number advances by the number of echoes modulo 2^16. The monitors become `Probe.SentAll` of the old ones over the whole tick's sends, the n-th at `clock(n)` and kept when `delivered(n)`. Monitors exist for exactly the old destinations plus those sent to, and untouched ones are unchanged. |
| `Probe.Pinger.SendTarget` | ping/probe.go:101-111 | One turn of the outer loop. The sends of resolution j continue the round's numbering and its send count, so the state after it is the round's state on the first j + 1 resolutions. |
| `Probe.Pinger.SendAddress` | ping/probe.go:102-110 | One turn of the inner loop. An address of the other family is skipped and changes nothing. An address of the source's family gets one `send`, which extends the echoes, the sequence number and `Probe.SentAll` by that send. |
| `Manager.WellformedWithDest` | ping/manager.go:91-130 | Adding keeps every entry filed under its own source with at least one destination. |
| `Manager.WellformedWithoutDest` | ping/manager.go:131-147 | Removing keeps the registry well formed: a source whose last destination goes is deleted. |
| `Manager.PairsWithDest` | ping/manager.go:91-130 | After an add, the registered pairs are the old ones plus exactly the new pair. |
| `Manager.PairsWithoutDest` | ping/manager.go:131-147 | After a remove, the registered pairs are the old ones minus exactly that pair. |
| `Manager.WithDest` | ping/manager.go:91-130 | The registry after an add. `Manager.PairsWithDest` and `Manager.WellformedWithDest` state it. |
| `Manager.WithoutDest` | ping/manager.go:131-147 | The registry after a remove. `Manager.PairsWithoutDest` and `Manager.WellformedWithoutDest` state it. |
| `Manager.ProbeManager.constructor` | ping/manager.go:33-40 | A new manager has no interfaces. |
| `Manager.ProbeManager.Add` | ping/manager.go:91-130 | A new source that cannot listen is refused and nothing changes. A destination already registered is refused and nothing changes. Otherwise the pair is added. A new source's entry starts at sequence number 1 with just that destination. |
| `Manager.ProbeManager.Remove` | ping/manager.go:131-147 | An unknown source is ignored. Otherwise the destination is removed, and the source too once it has none left. |
| `Manager.ProbeManager.List` | ping/manager.go:148-163 | Lists every registered (source, destination) pair exactly once. |
| `Manager.ProbeManager.Handle` | ping/manager.go:69-89 | An add takes precedence over a remove, and a remove over a list. Only a list gets a non-empty response. A list leaves the registry unchanged. |
| `MainGlue.PrFromIp` | main.go:168-177 | The request probes the address from the unspecified address of its own family. |
| `MainGlue.Collected` | main.go:133-144 | The addresses the first loop of `glue` collects. `MainGlue.CollectedIff` states them. |
| `MainGlue.CollectedIff` | main.go:133-144 | An address is collected iff it is a valid address of a resolution without error. |
| `MainGlue.CollectIps` | main.go:133-144 | The first loop collects exactly those addresses. |
| `MainGlue.RequestsFor` | main.go:146-161 | One `prFromIp` request per address of one set missing from the other, each exactly once. |
| `MainGlue.GlueStep` | main.go:120-166 | One round removes exactly the addresses gone and adds exactly the new ones. The two never overlap. The logged count is their total. A repeated round changes nothing. |
| `LatencySummary.RStrip` | latency-summary.py:13 | The result is a prefix of the line. Everything removed is a newline or carriage return, and the result does not end with one. |
| `LatencySummary.SplitShape` | latency-summary.py:13 | `split(",")` yields one more piece than there are commas, none containing a comma. |
| `LatencySummary.JoinSplit` | latency-summary.py:13 | Joining the pieces with commas restores the string. |
| `LatencySummary.Split` | latency-summary.py:13 | `split(",")`. `LatencySummary.SplitShape` and `LatencySummary.JoinSplit` state it. |
| `LatencySummary.ParseLine` | latency-summary.py:10-14 | `_lines` for one line. `LatencySummary.ParseLineIff` and `LatencySummary.ParseLineJoin` state it. |
| `LatencySummary.ParseLineIff` | latency-summary.py:10-14 | A line parses iff its stripped form has exactly four commas. Otherwise the run stops on that line. |
| `LatencySummary.ParseLineJoin` | latency-summary.py:13-14 | The five fields of a parsed line, joined with commas, are the stripped line, and none of the five contains a comma. |
| `LatencySummary.ParseAll` | latency-summary.py:10-14 | `_lines` over the file. `LatencySummary.ParseAllSuccess` and `LatencySummary.ParseAllFailure` state it. |
| `LatencySummary.ParseAllSuccess` | latency-summary.py:10-14 | A file parses iff every line does, and then record k is line k's. |
| `LatencySummary.ParseAllFailure` | latency-summary.py:10-14 | A file that fails reports its first malformed line. |
| `LatencySummary.Detect` | latency-summary.py:17-26 | Collects exactly the interfaces and the (interface, destination) pairs of the records, lost ones included. |
| `LatencySummary.Latency` | latency-summary.py:46-51 | The loss policy and `float()` for one record. `LatencySummary.SkipAddsNothing`, `LatencySummary.SubstituteAddsLatency` and `LatencySummary.InvalidLatencyAborts` state it. |
| `LatencySummary.Observations` | latency-summary.py:44-53 | The accepted latencies in file order, or the first invalid one. `LatencySummary.ObservationsStep`, `LatencySummary.FailureSticks` and `LatencySummary.ObservationsFromRecords` state it. |
| `LatencySummary.ObservationsStep` | latency-summary.py:44-53 | One more record extends the accepted latencies by its own: nothing when it is skipped, its value when accepted, and the run fails with it when its latency is invalid. |
| `LatencySummary.SkipAddsNothing` | latency-summary.py:46-50 | Without `--lost-latency`, a lost record adds nothing. |
| `LatencySummary.SubstituteAddsLatency` | latency-summary.py:46-53 | With `--lost-latency`, a lost record adds exactly the substitute value under its own key. |
| `LatencySummary.InvalidLatencyAborts` | latency-summary.py:46-51 | A latency that is neither `lost` nor a number stops the run with that value. |
| `LatencySummary.FailureSticks` | latency-summary.py:44-51 | Once a prefix of the file fails, the whole run fails with the same error. |
| `LatencySummary.ObservationsFromRecords` | latency-summary.py:44-53 | Every accepted value comes from a record with the same interface and destination. |
| `LatencySummary.AllLostPairIsEmpty` | latency-summary.py:40-50 | Under the skip policy, a pair whose records are all lost gets an empty accumulator. |
| `LatencySummary.InterfaceCountIsPairSum` | latency-summary.py:52-53 | An interface's accumulator receives exactly as many values as its pairs' accumulators together. |
| `LatencySummary.FreshAccumulators` | latency-summary.py:37-40 | One empty accumulator of compression 1000 for every detected interface and pair. |
| `LatencySummary.Aggregate` | latency-summary.py:43-53 | The loop stops with the first invalid latency. Otherwise every accumulator holds exactly the accepted values of its key, in file order. |
| `LatencySummary.Summarize` | latency-summary.py:36-53 | A malformed line stops the run with that line. An invalid latency stops it with that value. Otherwise the accumulator keys are exactly the detected keys, and each holds its key's accepted values in file order. |
| `LatencySummary.AggregateBlock` | latency-summary.py:29-33 | One label, one `=` and one quantile value per percentile, in order, each value taken at `p/100`. |
| `LatencySummary.QuantilesInRange` | latency-summary.py:31-55 | Every requested quantile `p/100` lies strictly between 0 and 1. |
| `LatencySummary.Report` | latency-summary.py:29-62 | One printed block per detected pair and no other, headed `interface => destination`. Row k of a pair's block is labelled with percentile k and shows the quantile of that pair's observations at `p/100`. The interface accumulators are not printed. |

## Left out

- Sockets, ICMP encoding (`ping/icmp.go`, `icmp/base.go`), goroutines, locks, channels, timers and contexts. What they deliver is a parameter: whether a send was delivered, its time, whether `icmp.Listen` succeeds, the replies to handle.
- `Probe.Pinger`: `pinger.monitors` maps each destination to a `*monitor`, and `send` reuses the FIFO's backing array (`append(wire[:0], ...)`). The model keeps monitors as values in a map and the FIFO as a sequence. The buffer capacity is not modelled, and neither is aliasing: no two destinations share a monitor, so none can arise.
- `Probe.Pinger`: the `sendErrs` counter is never updated in ping/probe.go and is not modelled. Neither are `start`, `sender`'s timer and `receiver`'s read loop.
- `Probe.Pinger.SendRound`: `targets` is never assigned in ping/probe.go, so the snapshot the tick reads is a parameter.
- `Probe.Pinger.constructor`: starts with an empty monitor map and sequence number 0. ping/probe.go has no constructor. The zero value of `pinger.monitors` is a nil map, so `send` would panic when it stores a new monitor (ping/probe.go:125). The model assumes the map was initialised empty. ping/manager.go's `monitorsByInterface` starts the sequence at 1; the two files come from different revisions of the pinger.
- `Manager.ProbeManager.Handle`: for an add, it states only that the registry is unchanged or gains exactly the pair. The case split is stated by `Manager.ProbeManager.Add`. The response channel is the return value.
- `Manager.ProbeManager`: the per-interface `pinger` and `receiver` goroutines and the socket are not modelled. An interface is represented by its destinations and starting sequence number.
- Map and set iteration order in `list`, `glue` and the summary's printing loop is left open. `list` and `glue` are modelled as sequences whose elements are specified but whose order is not. The summary's printed blocks are modelled by `LatencySummary.Report` as a map from pair to block, which has no order.
- `MainGlue`: `glue` reads `resolution.Error`, a field that resolve/service.go's `Resolution` does not have in this revision. The model gives every resolution a `failed` flag. The manager calls are collected as sequences rather than performed, and the log lines are not modelled.
- resolve/manager.go and `ResolverService.resolve` (resolve/service.go:147-173), the concurrent fan-out over targets, are not modelled. The attempts of a round are an input in arbitrary order.
- `ResolverService.Run`'s timers, timeouts and the writing of results to the channel are not modelled beyond the merge of one round.
- `Resolve.ResolveTarget`: the host lookup in resolve/resolve.go does not apply `noMixIp`, while config/config.go's `HostnameTarget.Resolve` does. Both are modelled as written. The copy of `noMixIp` in resolve/resolve.go is the same code as config/config.go's and is modelled once, as `Config.NoMixIp`.
- `Config.Target`: the `Name` field of `StaticIP` and `HostnameTarget` follows config/json.go, which assigns it. The config/config.go revision declares no such field.
- JSON decoding (including unknown fields), `os.Open` and the `-config` flag are not modelled: `ParseConfig` starts from the decoded record. `time.ParseDuration`, `netip.ParseAddr` and `netip.Addr.String` are parameters.
- `String()` methods and log messages, including the text of error messages, are not modelled. Errors are datatype values.
- trace/trace.go (traceroute), ip/ip.go and telemetry/setup.go are not part of this model.
- `LatencySummary`: the t-digest is modelled by the values added to it. The percentile computation is a parameter. `Block` rendering and spacing are left out, as are the printed number formatting (`str` of a float) and Python's float rounding (latencies are reals). Reading the file is not modelled: it is given as a list of lines.
- `LatencySummary`: the model follows the script's code. It has two loss policies (skip, or substitute `--lost-latency`). It strips only trailing `\n` and `\r`. It stops on the first malformed line or invalid latency. It prints only the per-pair blocks, because the per-interface print is commented out.
