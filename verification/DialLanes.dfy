/**
 The admission lane of a dial address: refcounted by leases, newest configuration generation first, strictest
 lane within it.

 As with the destination limiters, each method is one section under the registry's shard lock, so every interleaving of
 leases and releases is some sequence of these calls.
 */
module DialLanes {
  import opened Basics

  /** Ordered strictest first: by cap, then by policy port. */
  datatype Lane = Lane(cap: nat, policyPort: nat)

  predicate Stricter(a: Lane, b: Lane) { a.cap < b.cap || (a.cap == b.cap && a.policyPort < b.policyPort) }

  datatype Publication = Publication(generation: nat, lane: Lane)

  /** The lane that should govern: among the publications of the highest generation, none is stricter. */
  ghost predicate Governs(published: seq<Publication>, generation: nat, lane: Lane) {
    && Publication(generation, lane) in published
    && forall p :: p in published ==>
         p.generation < generation || (p.generation == generation && !Stricter(p.lane, lane))
  }

  /** Which lane governs depends on what was published, not on the order. */
  lemma OrderDoesNotMatter(xs: seq<Publication>, ys: seq<Publication>, g: nat, lane: Lane, g': nat, lane': Lane)
    requires (forall p :: p in xs <==> p in ys) && Governs(xs, g, lane) && Governs(ys, g', lane')
    ensures g == g' && lane == lane'
  {
    assert Publication(g, lane) in ys && Publication(g', lane') in xs;
  }

  lemma SomethingGoverns(published: seq<Publication>) returns (generation: nat, lane: Lane)
    requires published != []
    ensures Governs(published, generation, lane)
  {
    var (front, last) := (published[..|published| - 1], published[|published| - 1]);
    assert published == front + [last];
    if front == [] {
      generation, lane := last.generation, last.lane;
    } else {
      generation, lane := SomethingGoverns(front);
      if last.generation > generation || (last.generation == generation && Stricter(last.lane, lane)) {
        generation, lane := last.generation, last.lane;
      }
    }
  }

  class Entry {
    const key: string
    var generation: nat
    var lane: Lane
    var leases: nat
    /** Everything leased since the entry came alive. */
    ghost var published: seq<Publication>

    ghost predicate Valid()
      reads this
    {
      if published == [] then leases == 0 else Governs(published, generation, lane)
    }

    constructor (key: string, generation: nat, lane: Lane)
      ensures this.key == key && Valid() && published == [] && leases == 0
    {
      this.key, this.generation, this.lane := key, generation, lane;
      leases, published := 0, [];
    }

    /** Fold one publication into the lane and take a lease. */
    method Acquire(generation: nat, lane: Lane)
      requires Valid() && (published != [] ==> leases > 0)
      modifies this
      ensures Valid() && published == old(published) + [Publication(generation, lane)] && leases == old(leases) + 1
    {
      leases := leases + 1;
      if leases == 1 || generation > this.generation {
        this.generation, this.lane := generation, lane;
      } else if generation == this.generation && Stricter(lane, this.lane) {
        this.lane := lane;
      }
      published := published + [Publication(generation, lane)];
    }

    /** Releasing never touches the lane. */
    method ReleaseIsIdle() returns (idle: bool)
      requires Valid() && leases > 0
      modifies this`leases
      ensures Valid() && leases == old(leases) - 1 && idle == (leases == 0)
    {
      leases := leases - 1;
      idle := leases == 0;
    }
  }

  class Lease {
    const entry: Entry

    constructor (entry: Entry)
      ensures this.entry == entry
    {
      this.entry := entry;
    }
  }

  ghost function Held(leases: set<Lease>, key: string): set<Lease> { set l | l in leases && l.entry.key == key }

  lemma HeldAfterLease(leases: set<Lease>, l: Lease, key: string)
    requires l !in leases
    ensures |Held(leases + {l}, key)| == |Held(leases, key)| + if l.entry.key == key then 1 else 0
  {
    if l.entry.key == key {
      assert Held(leases + {l}, key) == Held(leases, key) + {l};
    } else {
      assert Held(leases + {l}, key) == Held(leases, key);
    }
  }

  lemma HeldAfterDrop(leases: set<Lease>, l: Lease, key: string)
    requires l in leases
    ensures |Held(leases - {l}, key)| + (if l.entry.key == key then 1 else 0) == |Held(leases, key)|
  {
    HeldAfterLease(leases - {l}, l, key);
    assert leases - {l} + {l} == leases;
  }

  class Registry {
    var lanes: map<string, Entry>
    /** The leases taken and not yet dropped. */
    ghost var leases: set<Lease>

    /** An entry exists exactly while leased, is the one its leases hold, and carries the governing lane. */
    ghost predicate Valid()
      reads this, lanes.Values
    {
      && (forall k :: k in lanes ==>
            && lanes[k].key == k && lanes[k].leases == |Held(leases, k)| > 0
            && Governs(lanes[k].published, lanes[k].generation, lanes[k].lane))
      && (forall l :: l in leases ==> l.entry.key in lanes && lanes[l.entry.key] == l.entry)
    }

    constructor ()
      ensures Valid() && lanes == map[] && leases == {}
    {
      lanes := map[];
      leases := {};
    }

    lemma LaneIffLeased(key: string)
      requires Valid()
      ensures key in lanes <==> exists l :: l in leases && l.entry.key == key
      ensures key in lanes <==> |Held(leases, key)| > 0
    {
      if key in lanes {
        var l :| l in Held(leases, key);
        assert l in leases;
      }
      if |Held(leases, key)| > 0 {
        var l :| l in Held(leases, key);
      }
    }

    /** Fold a publication into an entry of the registry and hand out its lease. */
    method Fold(e: Entry, generation: nat, lane: Lane) returns (l: Lease)
      requires e.key in lanes && lanes[e.key] == e && e.Valid() && e.leases == |Held(leases, e.key)|
               && (e.published != [] ==> e.leases > 0)
      requires forall k :: k in lanes && k != e.key ==>
                 && lanes[k].key == k && lanes[k].leases == |Held(leases, k)| > 0
                 && Governs(lanes[k].published, lanes[k].generation, lanes[k].lane)
      requires forall l :: l in leases ==> l.entry.key in lanes && lanes[l.entry.key] == l.entry
      modifies this`leases, e
      ensures Valid() && lanes == old(lanes) && fresh(l) && l.entry == e && leases == old(leases) + {l}
      ensures e.published == old(e.published) + [Publication(generation, lane)]
    {
      e.Acquire(generation, lane);
      l := new Lease(e);
      forall k ensures |Held(leases + {l}, k)| == |Held(leases, k)| + if e.key == k then 1 else 0 {
        HeldAfterLease(leases, l, k);
      }
      leases := leases + {l};
    }

    /** A lease on a live entry. */
    method LeaseHit(key: string, generation: nat, lane: Lane) returns (r: Option<Lease>)
      requires Valid()
      modifies this`leases, if key in lanes then {lanes[key]} else {}
      ensures Valid() && lanes == old(lanes)
      ensures r.None? <==> key !in lanes
      ensures r.None? ==> leases == old(leases) && forall k :: k in lanes ==>
                lanes[k].published == old(lanes[k].published)
      ensures r.Some? ==> && fresh(r.value) && r.value.entry.key == key && leases == old(leases) + {r.value}
                          && lanes[key].published == old(lanes[key].published) + [Publication(generation, lane)]
                          && forall k :: k in lanes && k != key ==>
                               lanes[k].published == old(lanes[k].published) && lanes[k].lane == old(lanes[k].lane)
    {
      if key !in lanes {
        return None;
      }
      var l := Fold(lanes[key], generation, lane);
      r := Some(l);
    }

    /** The first lease of an address: its entry comes alive. */
    method LeaseNew(key: string, generation: nat, lane: Lane) returns (l: Lease)
      requires Valid() && key !in lanes
      modifies this
      ensures Valid() && fresh(l) && fresh(l.entry) && l.entry.key == key && leases == old(leases) + {l}
      ensures lanes == old(lanes)[key := l.entry] && l.entry.published == [Publication(generation, lane)]
    {
      LaneIffLeased(key);
      var e := new Entry(key, generation, lane);
      lanes := lanes[key := e];
      l := Fold(e, generation, lane);
    }

    /** The lease after a miss: the entry is resolved again, and created when it is still absent. */
    method LeaseCold(key: string, generation: nat, lane: Lane) returns (l: Lease)
      requires Valid()
      modifies this, if key in lanes then {lanes[key]} else {}
      ensures Valid() && fresh(l) && l.entry.key == key && leases == old(leases) + {l}
      ensures lanes.Keys == old(lanes.Keys) + {key} && forall k :: k in old(lanes) ==> lanes[k] == old(lanes)[k]
      ensures lanes[key].published
              == (if key in old(lanes) then old(lanes[key].published) else []) + [Publication(generation, lane)]
      ensures forall k :: k in old(lanes) && k != key ==>
                lanes[k].published == old(lanes[k].published) && lanes[k].lane == old(lanes[k].lane)
    {
      if key in lanes {
        var r := LeaseHit(key, generation, lane);
        l := r.value;
      } else {
        l := LeaseNew(key, generation, lane);
      }
    }

    /** Dropping a lease: release, and evict when idle, under one lock; no lane changes. */
    method Drop(l: Lease)
      requires Valid() && l in leases
      modifies this, l.entry
      ensures Valid() && leases == old(leases) - {l}
      ensures lanes == if |Held(leases, l.entry.key)| == 0 then old(lanes) - {l.entry.key} else old(lanes)
      ensures l.entry.lane == old(l.entry.lane) && l.entry.published == old(l.entry.published)
    {
      var key := l.entry.key;
      forall k ensures |Held(leases - {l}, k)| + (if key == k then 1 else 0) == |Held(leases, k)| {
        HeldAfterDrop(leases, l, k);
      }
      if key in lanes {
        var idle := lanes[key].ReleaseIsIdle();
        if idle {
          lanes := lanes - {key};
        }
      }
      leases := leases - {l};
      forall o | o in leases ensures o.entry.key in lanes && lanes[o.entry.key] == o.entry {
        if o.entry.key == key {
          assert o in Held(leases, key);
        }
      }
    }

    /** What the connector sees: a lane exactly while leased, and then the governing one. */
    method LaneFor(key: string) returns (r: Option<Lane>)
      requires Valid()
      ensures r.Some? <==> |Held(leases, key)| > 0
      ensures r.Some? ==> key in lanes && Governs(lanes[key].published, lanes[key].generation, r.value)
    {
      LaneIffLeased(key);
      r := if key in lanes then Some(lanes[key].lane) else None;
    }
  }
}
