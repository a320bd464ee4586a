/**
 The per-destination counter map shared by the connection, pending-request and active-request limiters.

 Each method that touches the map is one section under the map's shard lock, so every interleaving of concurrent
 callers is some sequence of these calls. An acquire that misses does so in two sections, `TryHit` and then `EnterCold`,
 between which anything may happen; neither relies on the other. `K` is the destination key of the limiter.
 */
module DestinationLimiter {
  import opened Basics

  class Counter<K> {
    const key: K
    var count: nat

    constructor (key: K)
      ensures this.key == key && count == 0
    {
      this.key := key;
      count := 0;
    }
  }

  /** Holds one slot of the counter it was granted from. */
  class Guard<K> {
    const counter: Counter<K>

    constructor (counter: Counter<K>)
      ensures this.counter == counter
    {
      this.counter := counter;
    }
  }

  datatype Outcome<K> = Missing | Exceeded(current: nat, cap: nat) | Granted(guard: Guard<K>) | Unlimited

  /** A section some caller may run: either lookup of an acquire, or a drop. */
  datatype Section<K> = Hit(key: K, cap: nat) | Cold(key: K, cap: nat) | Dropping(guard: Guard<K>)

  ghost function Held<K>(guards: set<Guard<K>>, key: K): set<Guard<K>> { set g | g in guards && g.counter.key == key }

  lemma HeldAfterGrant<K>(guards: set<Guard<K>>, g: Guard<K>, key: K)
    requires g !in guards
    ensures |Held(guards + {g}, key)| == |Held(guards, key)| + if g.counter.key == key then 1 else 0
  {
    if g.counter.key == key {
      assert Held(guards + {g}, key) == Held(guards, key) + {g};
    } else {
      assert Held(guards + {g}, key) == Held(guards, key);
    }
  }

  lemma HeldAfterDrop<K>(guards: set<Guard<K>>, g: Guard<K>, key: K)
    requires g in guards
    ensures |Held(guards - {g}, key)| + (if g.counter.key == key then 1 else 0) == |Held(guards, key)|
  {
    HeldAfterGrant(guards - {g}, g, key);
    assert guards - {g} + {g} == guards;
  }

  class Limiter<K(==)> {
    var counters: map<K, Counter<K>>
    /**
     The guards granted and not yet dropped. No section reads them; they are not ghost because `Interleave`, which plays
     the other callers, drops only guards that are out, as ownership has it in the source.
     */
    var guards: set<Guard<K>>

    /** Resident exactly while guarded, by the very counter the guards hold, which counts them. */
    ghost predicate Valid()
      reads this, counters.Values
    {
      && (forall k :: k in counters ==> counters[k].key == k && counters[k].count == |Held(guards, k)| > 0)
      && (forall g :: g in guards ==> g.counter.key in counters && counters[g.counter.key] == g.counter)
    }

    ghost function Live(key: K): nat
      reads this
    {
      |Held(guards, key)|
    }

    constructor ()
      ensures Valid() && counters == map[] && guards == {}
    {
      counters := map[];
      guards := {};
    }

    /** Residency both ways, for any valid state. */
    lemma ResidentIffGuarded(key: K)
      requires Valid()
      ensures key in counters <==> exists g :: g in guards && g.counter.key == key
      ensures key in counters ==>
                && counters[key].count == Live(key)
                && forall g :: g in guards && g.counter.key == key ==> g.counter == counters[key]
    {
      if key in counters {
        assert Held(guards, key) != {};
        var g :| g in Held(guards, key);
        assert g in guards;
      }
    }

    /** `current`: the number of live guards of the destination. */
    method Current(key: K) returns (n: nat)
      requires Valid()
      ensures n == Live(key)
    {
      ResidentIffGuarded(key);
      if key in counters {
        n := counters[key].count;
      } else {
        assert Held(guards, key) == {};
        n := 0;
      }
    }

    /** One more guard on a counter of the map, below the cap. */
    method Grant(c: Counter<K>) returns (g: Guard<K>)
      requires c.key in counters && counters[c.key] == c
      requires forall k :: k in counters ==> counters[k].key == k && counters[k].count == |Held(guards, k)|
      requires forall k :: k in counters && k != c.key ==> counters[k].count > 0
      requires forall g :: g in guards ==> g.counter.key in counters && counters[g.counter.key] == g.counter
      modifies c, this`guards
      ensures Valid() && counters == old(counters)
      ensures fresh(g) && g.counter == c && guards == old(guards) + {g} && c.count == old(c.count) + 1
    {
      g := new Guard<K>(c);
      forall k ensures |Held(guards + {g}, k)| == |Held(guards, k)| + if c.key == k then 1 else 0 {
        HeldAfterGrant(guards, g, k);
      }
      c.count := c.count + 1;
      guards := guards + {g};
    }

    /** First section: a resident counter is checked and reserved from under one lock. */
    method TryHit(key: K, cap: nat) returns (r: Outcome<K>)
      requires Valid() && cap > 0
      modifies this`guards, counters.Values
      ensures Valid() && counters == old(counters)
      ensures r.Missing? <==> old(Live(key)) == 0
      ensures !r.Granted? ==> guards == old(guards)
      ensures !r.Missing? ==> if old(Live(key)) < cap then r.Granted? else r == Exceeded(old(Live(key)), cap)
      ensures r.Granted? ==>
                && fresh(r.guard) && r.guard.counter.key == key && guards == old(guards) + {r.guard}
                && Live(key) == old(Live(key)) + 1 <= cap
    {
      ResidentIffGuarded(key);
      if key !in counters {
        assert Held(guards, key) == {};
        return Missing;
      }
      var current := counters[key].count;
      if current >= cap {
        return Exceeded(current, cap);
      }
      var g := Grant(counters[key]);
      r := Granted(g);
    }

    /** Second section: the entry is resolved again, and created when it is still absent. */
    method EnterCold(key: K, cap: nat) returns (r: Outcome<K>)
      requires Valid() && cap > 0
      modifies this, counters.Values
      ensures Valid()
      ensures if old(Live(key)) < cap then r.Granted? else r == Exceeded(old(Live(key)), cap)
      ensures r.Exceeded? ==> guards == old(guards) && counters == old(counters)
      ensures r.Granted? ==>
                && fresh(r.guard) && r.guard.counter.key == key && guards == old(guards) + {r.guard}
                && Live(key) == old(Live(key)) + 1 <= cap
      ensures forall k :: k in old(counters) ==> k in counters && counters[k] == old(counters)[k]
      ensures counters.Keys == old(counters.Keys) + if r.Granted? then {key} else {}
      ensures forall k :: k in counters && k !in old(counters) ==> fresh(counters[k])
    {
      ResidentIffGuarded(key);
      if key !in counters {
        assert Held(guards, key) == {};
        var c := new Counter<K>(key);
        counters := counters[key := c];
      }
      var current := counters[key].count;
      if current >= cap {
        return Exceeded(current, cap);
      }
      var g := Grant(counters[key]);
      r := Granted(g);
    }

    /** Dropping a guard: decrement, and evict at zero, under one lock. */
    method Drop(g: Guard<K>)
      requires Valid() && g in guards
      modifies this, g.counter
      ensures Valid() && guards == old(guards) - {g}
      ensures Live(g.counter.key) == old(Live(g.counter.key)) - 1
      ensures counters == if Live(g.counter.key) == 0 then old(counters) - {g.counter.key} else old(counters)
    {
      var key := g.counter.key;
      forall k ensures |Held(guards - {g}, k)| + (if key == k then 1 else 0) == |Held(guards, k)| {
        HeldAfterDrop(guards, g, k);
      }
      if key in counters {
        var current := counters[key];
        var last := current.count == 1;
        current.count := current.count - 1;
        if last {
          counters := counters - {key};
        }
      }
      guards := guards - {g};
      forall o | o in guards ensures o.counter.key in counters && counters[o.counter.key] == o.counter {
        if o.counter.key == key {
          assert o in Held(guards, key);
        }
      }
    }

    /** Any run of other callers' sections; dropping a guard that is not out is no call at all. */
    method Interleave(sections: seq<Section<K>>)
      requires Valid()
      modifies this, counters.Values
      ensures Valid() && (sections == [] ==> counters == old(counters) && guards == old(guards))
      ensures forall k :: k in counters ==> counters[k] in old(counters.Values) || fresh(counters[k])
    {
      for i := 0 to |sections|
        invariant Valid() && (i == 0 ==> counters == old(counters) && guards == old(guards))
        invariant forall k :: k in counters ==> counters[k] in old(counters.Values) || fresh(counters[k])
      {
        match sections[i] {
          case Hit(key, cap) =>
            if cap > 0 {
              var r := TryHit(key, cap);
            }
          case Cold(key, cap) =>
            if cap > 0 {
              var r := EnterCold(key, cap);
            }
          case Dropping(g) =>
            if g in guards {
              Drop(g);
            }
        }
      }
    }

    /**
     A whole acquire, with whatever other callers do between its two lookups: unlimited without a cap, refused with the
     map untouched by a zero one, decided by the first lookup if that hits, and otherwise by the second.
     */
    method TryAcquire(key: K, cap: Option<nat>, between: seq<Section<K>>) returns (r: Outcome<K>)
      requires Valid()
      modifies this, counters.Values
      ensures Valid() && (r.Unlimited? <==> cap.None?) && !r.Missing?
      ensures cap.None? || cap.value == 0 ==>
                guards == old(guards) && counters == old(counters) && (cap.Some? ==> r == Exceeded(0, 0))
      ensures cap.Some? && cap.value > 0 ==>
                match r
                case Granted(g) => fresh(g) && g in guards && g.counter.key == key && Live(key) <= cap.value
                case Exceeded(current, n) => n == cap.value <= current == Live(key)
                case _ => false
      ensures cap.Some? && cap.value > 0 && (old(Live(key)) > 0 || between == []) ==>
                && (r.Granted? <==> old(Live(key)) < cap.value)
                && guards == old(guards) + if r.Granted? then {r.guard} else {}
    {
      if cap.None? {
        return Unlimited;
      }
      if cap.value == 0 {
        return Exceeded(0, 0);
      }
      r := TryHit(key, cap.value);
      if r.Missing? {
        Interleave(between);
        r := EnterCold(key, cap.value);
      }
    }
  }
}
