/** The probe registry of `ping.Manager`: for every source address (an interface with its own
    listening socket) the set of destinations probed from it. Sockets, goroutines, locks and
    the rpc channel are not modelled; whether `icmp.Listen` succeeds is a parameter. */
module Manager {
  import opened Wrappers
  import opened NetIp

  datatype ProbeRequest = ProbeRequest(source: Addr, destination: Addr)

  /** `monitorsByInterface`: its source address, the destinations it monitors and the sequence
      number it starts from. */
  datatype Interface = Interface(source: Addr, dests: set<Addr>, sequence: int)

  /** The sequence number a freshly created interface starts from. */
  const InitialSequence: int := 1

  datatype AddError = CouldNotListen | AlreadyAdded(dest: Addr)

  /** One request on the rpc channel; at most one of the three operations is carried out. */
  datatype Rpc = Rpc(add: Option<ProbeRequest>, remove: Option<ProbeRequest>, list: bool)

  /** Every entry is filed under its own source and monitors at least one destination. */
  predicate Wellformed(ifaces: map<Addr, Interface>)
  {
    forall s | s in ifaces :: ifaces[s].source == s && ifaces[s].dests != {}
  }

  /** The (source, destination) pairs of a registry. */
  function Pairs(ifaces: map<Addr, Interface>): set<ProbeRequest>
  {
    set s, d | s in ifaces && d in ifaces[s].dests :: ProbeRequest(ifaces[s].source, d)
  }

  /** The registry after `p.destination` is added under `p.source`, creating the source's
      entry with the initial sequence number if it has none. */
  function WithDest(ifaces: map<Addr, Interface>, p: ProbeRequest): map<Addr, Interface>
  {
    var iface := if p.source in ifaces then ifaces[p.source] else Interface(p.source, {}, InitialSequence);
    ifaces[p.source := iface.(dests := iface.dests + {p.destination})]
  }

  /** The registry after `p.destination` is removed from under `p.source`, dropping the
      source's entry once it has no destination left. */
  function WithoutDest(ifaces: map<Addr, Interface>, p: ProbeRequest): map<Addr, Interface>
  {
    if p.source !in ifaces then ifaces
    else
      var rest := ifaces[p.source].dests - {p.destination};
      if rest == {} then ifaces - {p.source} else ifaces[p.source := ifaces[p.source].(dests := rest)]
  }

  /** Adding keeps the registry well formed. */
  lemma WellformedWithDest(ifaces: map<Addr, Interface>, p: ProbeRequest)
    requires Wellformed(ifaces)
    ensures Wellformed(WithDest(ifaces, p))
  {
  }

  /** Removing keeps the registry well formed: no source is left without destinations. */
  lemma WellformedWithoutDest(ifaces: map<Addr, Interface>, p: ProbeRequest)
    requires Wellformed(ifaces)
    ensures Wellformed(WithoutDest(ifaces, p))
  {
  }

  /** Adding to a well-formed registry adds exactly the one pair. */
  lemma PairsWithDest(ifaces: map<Addr, Interface>, p: ProbeRequest)
    requires Wellformed(ifaces)
    ensures Pairs(WithDest(ifaces, p)) == Pairs(ifaces) + {p}
  {
    var after := WithDest(ifaces, p);
    forall r | r in Pairs(after)
      ensures r in Pairs(ifaces) + {p}
    {
      var s, d :| s in after && d in after[s].dests && r == ProbeRequest(after[s].source, d);
      if s != p.source || d != p.destination {
        assert s in ifaces && d in ifaces[s].dests;
      }
    }
    forall r | r in Pairs(ifaces) + {p}
      ensures r in Pairs(after)
    {
      if r == p {
        assert p.destination in after[p.source].dests;
      } else {
        var s, d :| s in ifaces && d in ifaces[s].dests && r == ProbeRequest(ifaces[s].source, d);
        assert d in after[s].dests;
      }
    }
  }

  /** Removing from a well-formed registry removes exactly the one pair (if it was there). */
  lemma PairsWithoutDest(ifaces: map<Addr, Interface>, p: ProbeRequest)
    requires Wellformed(ifaces)
    ensures Pairs(WithoutDest(ifaces, p)) == Pairs(ifaces) - {p}
  {
    var after := WithoutDest(ifaces, p);
    forall r | r in Pairs(after)
      ensures r in Pairs(ifaces) - {p}
    {
      var s, d :| s in after && d in after[s].dests && r == ProbeRequest(after[s].source, d);
      assert s in ifaces && d in ifaces[s].dests;
    }
    forall r | r in Pairs(ifaces) - {p}
      ensures r in Pairs(after)
    {
      var s, d :| s in ifaces && d in ifaces[s].dests && r == ProbeRequest(ifaces[s].source, d);
      if s == p.source {
        assert d in ifaces[s].dests - {p.destination};
      }
      assert s in after && d in after[s].dests;
    }
  }

  /** The elements of a list of requests, as a set. */
  function Elems(reqs: seq<ProbeRequest>): set<ProbeRequest>
  {
    set r | r in reqs
  }

  /** No request is listed twice. */
  predicate Distinct(reqs: seq<ProbeRequest>)
  {
    forall i, j | 0 <= i < j < |reqs| :: reqs[i] != reqs[j]
  }

  lemma ElemsSnoc(reqs: seq<ProbeRequest>, r: ProbeRequest)
    ensures Elems(reqs + [r]) == Elems(reqs) + {r}
  {
    assert forall x | x in reqs + [r] :: x in reqs || x == r;
  }

  /** A `Manager`: the registry of interfaces, keyed by source address. */
  class ProbeManager {
    var interfaces: map<Addr, Interface>

    ghost predicate Valid()
      reads this
    {
      Wellformed(interfaces)
    }

    /** `NewManager`: an empty registry. */
    constructor ()
      ensures Valid() && interfaces == map[]
    {
      interfaces := map[];
    }

    /** `add`: register `p.destination` under `p.source`. A source without an entry first
        gets one, provided its socket can be opened (`listening`); a destination already
        registered under that source is refused. */
    method Add(p: ProbeRequest, listening: bool) returns (err: Option<AddError>)
      requires Valid()
      modifies this
      ensures Valid()
      ensures p.source !in old(interfaces) && !listening ==>
                err == Some(CouldNotListen) && interfaces == old(interfaces)
      ensures p.source in old(interfaces) && p.destination in old(interfaces)[p.source].dests ==>
                err == Some(AlreadyAdded(p.destination)) && interfaces == old(interfaces)
      ensures (p.source in old(interfaces) || listening) &&
              (p.source in old(interfaces) ==> p.destination !in old(interfaces)[p.source].dests) ==>
                err == None && interfaces == WithDest(old(interfaces), p)
      ensures err == None && p.source !in old(interfaces) ==>
                interfaces[p.source] == Interface(p.source, {p.destination}, InitialSequence)
    {
      if p.source !in interfaces {
        if !listening {
          return Some(CouldNotListen);
        }
        interfaces := interfaces[p.source := Interface(p.source, {}, InitialSequence)];
      }
      var mon := interfaces[p.source];
      if p.destination in mon.dests {
        return Some(AlreadyAdded(p.destination));
      }
      interfaces := interfaces[p.source := mon.(dests := mon.dests + {p.destination})];
      err := None;
    }

    /** `remove`: forget `p.destination` under `p.source`; the source's entry goes once it
        has no destination left. An unknown source is ignored. */
    method Remove(p: ProbeRequest)
      requires Valid()
      modifies this
      ensures Valid()
      ensures p.source !in old(interfaces) ==> interfaces == old(interfaces)
      ensures interfaces == WithoutDest(old(interfaces), p)
    {
      if p.source !in interfaces {
        return;
      }
      var mon := interfaces[p.source];
      var rest := mon.dests - {p.destination};
      if rest == {} {
        interfaces := interfaces - {p.source};
      } else {
        interfaces := interfaces[p.source := mon.(dests := rest)];
      }
    }

    /** `list`: every registered (source, destination) pair once, in map iteration order
        (which is left open). */
    method List() returns (reqs: seq<ProbeRequest>)
      requires Valid()
      ensures Elems(reqs) == Pairs(interfaces)
      ensures Distinct(reqs)
    {
      reqs := [];
      var todo := interfaces.Keys;
      ghost var done: set<Addr> := {};
      while todo != {}
        invariant todo + done == interfaces.Keys && todo * done == {}
        invariant Elems(reqs) == Pairs(interfaces - todo)
        invariant Distinct(reqs)
        invariant forall r | r in reqs :: r.source in done
        decreases todo
      {
        var s :| s in todo;
        var mon := interfaces[s];
        var dests := mon.dests;
        ghost var taken: set<Addr> := {};
        while dests != {}
          invariant dests + taken == mon.dests && dests * taken == {}
          invariant Elems(reqs) == Pairs(interfaces - todo) + set d | d in taken :: ProbeRequest(s, d)
          invariant Distinct(reqs)
          invariant forall r | r in reqs :: r.source in done || (r.source == s && r.destination in taken)
          decreases dests
        {
          var d :| d in dests;
          ElemsSnoc(reqs, ProbeRequest(mon.source, d));
          reqs := reqs + [ProbeRequest(mon.source, d)];
          dests := dests - {d};
          taken := taken + {d};
        }
        assert taken == mon.dests;
        ghost var before := todo;
        todo := todo - {s};
        done := done + {s};
        assert todo + {s} == before;
        PairsInsert(interfaces, todo, s);
      }
      assert interfaces - todo == interfaces;
    }

    /** One turn of `Run`: an add takes precedence over a remove, a remove over a list, and only
        a list is answered with something other than the empty response. */
    method Handle(req: Rpc, listening: bool) returns (resp: seq<ProbeRequest>)
      requires Valid()
      modifies this
      ensures Valid()
      ensures req.add.Some? ==>
                resp == [] &&
                (interfaces == old(interfaces) || interfaces == WithDest(old(interfaces), req.add.value))
      ensures req.add.None? && req.remove.Some? ==>
                resp == [] && interfaces == WithoutDest(old(interfaces), req.remove.value)
      ensures req.add.None? && req.remove.None? ==> interfaces == old(interfaces)
      ensures req.add.None? && req.remove.None? && req.list ==>
                Elems(resp) == Pairs(interfaces) && Distinct(resp)
      ensures !(req.add.None? && req.remove.None? && req.list) ==> resp == []
    {
      resp := [];
      if req.add.Some? {
        var _ := Add(req.add.value, listening);
      } else if req.remove.Some? {
        Remove(req.remove.value);
      } else if req.list {
        resp := List();
      }
    }
  }

  /** Moving one more source into the listed part adds exactly its pairs. */
  lemma PairsInsert(ifaces: map<Addr, Interface>, todo: set<Addr>, s: Addr)
    requires Wellformed(ifaces) && s in ifaces && s !in todo
    ensures Pairs(ifaces - todo) == Pairs(ifaces - (todo + {s})) + set d | d in ifaces[s].dests :: ProbeRequest(s, d)
  {
    var big := ifaces - todo;
    var small := ifaces - (todo + {s});
    forall r | r in Pairs(big)
      ensures r in Pairs(small) + set d | d in ifaces[s].dests :: ProbeRequest(s, d)
    {
      var t, d :| t in big && d in big[t].dests && r == ProbeRequest(big[t].source, d);
      if t != s {
        assert t in small && d in small[t].dests;
      }
    }
    forall r | r in Pairs(small) + set d | d in ifaces[s].dests :: ProbeRequest(s, d)
      ensures r in Pairs(big)
    {
      if r in Pairs(small) {
        var t, d :| t in small && d in small[t].dests && r == ProbeRequest(small[t].source, d);
        assert t in big && d in big[t].dests;
      } else {
        var d :| d in ifaces[s].dests && r == ProbeRequest(s, d);
        assert s in big && d in big[s].dests;
      }
    }
  }
}
