/** The RPC health-probe protocol of the local signer daemon.

    Callers that want to know whether the RPC endpoint is healthy share one probe
    per URL.  A probe is a small record of flags written by its runner thread and
    by the callers that wait for it; a lock guards the dictionary of current probes.
    This module holds the data and the five critical sections, first as functions on
    values and then as the methods of the mutable dictionary and probe objects. */
module HealthProbe {
  type Url = string

  /** A probe object's identity: its position in the order of creation. */
  type ProbeId = nat

  /** `response` after inspection: absent, an object with `result == "ok"`, or anything else. */
  datatype Response = NoResponse | HealthOk | Unhealthy

  datatype Probe = Probe(done: bool, response: Response, failed: bool, expired: bool)

  /** The dictionary of current probes, beside every probe object created so far. */
  datatype Registry = Registry(current: map<Url, ProbeId>, probes: seq<Probe>)

  const NEW_PROBE := Probe(false, NoResponse, false, false)

  predicate Knows(r: Registry, p: ProbeId) {
    p < |r.probes|
  }

  predicate Closed(r: Registry) {
    forall u :: u in r.current ==> Knows(r, r.current[u])
  }

  /** "The registered probe is this very object", the test that guards every removal. */
  predicate IsCurrent(r: Registry, url: Url, p: ProbeId) {
    url in r.current && r.current[url] == p
  }

  function Unregister(r: Registry, url: Url): Registry {
    r.(current := r.current - {url})
  }

  function Expire(r: Registry, p: ProbeId): Registry
    requires Knows(r, p)
  {
    r.(probes := r.probes[p := r.probes[p].(expired := true)])
  }

  predicate Reusable(r: Registry, url: Url)
    requires Closed(r)
  {
    url in r.current && !(r.probes[r.current[url]].expired && r.probes[r.current[url]].done)
  }

  /** The lookup: join the registered probe, unless it is both expired and done, or
      register a new one, whose runner is then to be started. */
  function LookUp(r: Registry, url: Url): (res: (Registry, ProbeId))
    requires Closed(r)
  {
    if Reusable(r, url) then (r, r.current[url])
    else (Registry(r.current[url := |r.probes|], r.probes + [NEW_PROBE]), |r.probes|)
  }

  /** What a caller does under the lock when its wait has timed out. */
  function GiveUp(r: Registry, url: Url, p: ProbeId): Registry
    requires Knows(r, p)
  {
    if r.probes[p].done && IsCurrent(r, url, p) then Unregister(Expire(r, p), url) else Expire(r, p)
  }

  /** What a woken caller does under the lock; the expiry it saw decides its answer. */
  function Claim(r: Registry, url: Url, p: ProbeId): Registry
    requires Knows(r, p)
  {
    if IsCurrent(r, url, p) then Unregister(r, url) else r
  }

  /** What the runner does under the lock after signalling completion. */
  function Retire(r: Registry, url: Url, p: ProbeId): Registry
    requires Knows(r, p)
  {
    if r.probes[p].expired && IsCurrent(r, url, p) then Unregister(r, url) else r
  }

  class RpcHealthProbe {
    ghost const id: ProbeId
    var done: bool
    var response: Response
    var failed: bool
    var expired: bool

    constructor (ghost id: ProbeId)
      ensures this.id == id && View() == NEW_PROBE
    {
      this.id := id;
      done, response, failed, expired := false, NoResponse, false, false;
    }

    function View(): Probe
      reads this
    {
      Probe(done, response, failed, expired)
    }
  }

  class ProbeRegistry {
    var current: map<Url, RpcHealthProbe>
    ghost var created: seq<RpcHealthProbe>

    ghost predicate Valid()
      reads this
    {
      && (forall i :: 0 <= i < |created| ==> created[i].id == i)
      && (forall u :: u in current ==> Owns(current[u]))
    }

    ghost predicate Owns(p: RpcHealthProbe)
      reads this
    {
      p.id < |created| && created[p.id] == p
    }

    ghost function View(): (r: Registry)
      requires Valid()
      reads this, created
      ensures Closed(r)
    {
      Registry(map u | u in current :: current[u].id,
               seq(|created|, i requires 0 <= i < |created| reads this, created => created[i].View()))
    }

    constructor ()
      ensures Valid() && View() == Registry(map[], [])
    {
      current, created := map[], [];
    }

    /** Creates a probe and makes it the current one of its URL. */
    method Register(url: Url) returns (probe: RpcHealthProbe)
      requires Valid()
      modifies this
      ensures Valid() && Owns(probe) && probe.id == |old(created)|
      ensures View().current == old(View()).current[url := probe.id]
      ensures View().probes == old(View()).probes + [NEW_PROBE]
    {
      probe := new RpcHealthProbe(|created|);
      current := current[url := probe];
      created := created + [probe];
    }

    /** Returns the probe to wait for, and whether its runner thread must be started. */
    method GetOrStart(url: Url) returns (probe: RpcHealthProbe, starts: bool)
      requires Valid()
      modifies this
      ensures Valid() && Owns(probe)
      ensures (View(), probe.id) == LookUp(old(View()), url)
      ensures starts <==> probe.id == |old(View()).probes|
    {
      if url in current {
        probe := current[url];
        assert View().probes[probe.id] == probe.View();
        if !probe.expired || !probe.done {
          return probe, false;
        }
        current := current - {url};
        assert View().probes == old(View()).probes;
        assert View().current == old(View()).current - {url};
      }
      probe := Register(url);
      starts := true;
      assert View().current == old(View()).current[url := probe.id];
    }

    /** The first critical section of a caller: it leaves at once from an expired probe. */
    method SeesExpired(probe: RpcHealthProbe) returns (expired: bool)
      requires Valid() && Owns(probe)
      ensures expired == View().probes[probe.id].expired
    {
      expired := probe.expired;
    }

    method RemoveIfCurrent(url: Url, probe: RpcHealthProbe)
      requires Valid() && Owns(probe)
      modifies this`current
      ensures Valid() && created == old(created)
      ensures View() == if IsCurrent(old(View()), url, probe.id)
                        then Unregister(old(View()), url) else old(View())
    {
      if url in current && current[url] == probe {
        current := current - {url};
      }
      assert View().probes == old(View()).probes;
    }

    method TimeOut(url: Url, probe: RpcHealthProbe)
      requires Valid() && Owns(probe)
      modifies this`current, probe`expired
      ensures Valid() && created == old(created)
      ensures View() == GiveUp(old(View()), url, probe.id)
    {
      probe.expired := true;
      assert View() == Expire(old(View()), probe.id);
      if probe.done {
        RemoveIfCurrent(url, probe);
      }
    }

    method Collect(url: Url, probe: RpcHealthProbe) returns (expired: bool)
      requires Valid() && Owns(probe)
      modifies this`current
      ensures Valid() && created == old(created)
      ensures expired == old(View()).probes[probe.id].expired
      ensures View() == Claim(old(View()), url, probe.id)
    {
      expired := probe.expired;
      RemoveIfCurrent(url, probe);
    }

    method Finish(url: Url, probe: RpcHealthProbe)
      requires Valid() && Owns(probe)
      modifies this`current
      ensures Valid() && created == old(created)
      ensures View() == Retire(old(View()), url, probe.id)
    {
      if probe.expired {
        RemoveIfCurrent(url, probe);
      }
    }
  }
}
