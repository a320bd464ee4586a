/**
 Which resources changed between two configuration snapshots, and that patching the consumer index by the difference
 answers like rebuilding it.

 Identity is (namespace, id); change detection compares timestamps and, for some kinds, persisted content.
 */
module ConfigDelta {
  import opened Basics
  import opened Index = ConsumerIndex

  // ----- generic differences -----

  function Filter<T>(p: T -> bool, xs: seq<T>): seq<T> {
    if xs == [] then [] else Filter(p, xs[..|xs| - 1]) + if p(xs[|xs| - 1]) then [xs[|xs| - 1]] else []
  }

  function Keys<T(==)>(key: T -> ResourceId, xs: seq<T>): set<ResourceId> { set x | x in xs :: key(x) }

  function KeyList<T>(key: T -> ResourceId, xs: seq<T>): seq<ResourceId> {
    seq(|xs|, i requires 0 <= i < |xs| => key(xs[i]))
  }

  /** A map collected from the list: a later resource of the same key wins. */
  function ByKey<T>(key: T -> ResourceId, xs: seq<T>): map<ResourceId, T> {
    if xs == [] then map[] else ByKey(key, xs[..|xs| - 1])[key(xs[|xs| - 1]) := xs[|xs| - 1]]
  }

  function DiffAdded<T(==)>(key: T -> ResourceId, before: seq<T>, after: seq<T>): seq<T> {
    Filter(x => key(x) !in Keys(key, before), after)
  }

  function DiffRemovedIds<T(==)>(key: T -> ResourceId, before: seq<T>, after: seq<T>): seq<ResourceId> {
    KeyList(key, Filter(x => key(x) !in Keys(key, after), before))
  }

  /** `changed(n, o)`: the timestamp differs, or the resource's own persisted content does. */
  function DiffModified<T>(key: T -> ResourceId, changed: (T, T) -> bool, before: seq<T>, after: seq<T>): seq<T> {
    var known := ByKey(key, before);
    Filter(x => key(x) in known && changed(x, known[key(x)]), after)
  }

  ghost predicate Unique<T>(key: T -> ResourceId, xs: seq<T>) {
    xs == [] || (key(xs[|xs| - 1]) !in Keys(key, xs[..|xs| - 1]) && Unique(key, xs[..|xs| - 1]))
  }

  lemma {:induction false} FilterKeeps<T>(p: T -> bool, xs: seq<T>, x: T)
    ensures x in Filter(p, xs) <==> x in xs && p(x)
  {
    if xs != [] {
      FilterKeeps(p, xs[..|xs| - 1], x);
      assert xs == xs[..|xs| - 1] + [xs[|xs| - 1]];
    }
  }

  lemma {:induction false} FilterIsUnique<T>(key: T -> ResourceId, p: T -> bool, xs: seq<T>)
    requires Unique(key, xs)
    ensures Unique(key, Filter(p, xs)) && Keys(key, Filter(p, xs)) <= Keys(key, xs)
  {
    forall x | x in Filter(p, xs) ensures x in xs { FilterKeeps(p, xs, x); }
    if xs != [] {
      var (front, x) := (xs[..|xs| - 1], xs[|xs| - 1]);
      FilterIsUnique(key, p, front);
      if p(x) {
        assert (Filter(p, front) + [x])[..|Filter(p, front)|] == Filter(p, front);
      } else {
        assert Filter(p, xs) == Filter(p, front);
      }
    }
  }

  lemma {:induction false} ByKeyFinds<T>(key: T -> ResourceId, xs: seq<T>, k: ResourceId)
    ensures k in ByKey(key, xs) <==> k in Keys(key, xs)
    ensures k in ByKey(key, xs) ==> ByKey(key, xs)[k] in xs && key(ByKey(key, xs)[k]) == k
  {
    if xs != [] {
      ByKeyFinds(key, xs[..|xs| - 1], k);
      assert xs == xs[..|xs| - 1] + [xs[|xs| - 1]];
    }
  }

  lemma {:induction false} SameKeySameResource<T>(key: T -> ResourceId, xs: seq<T>, x: T, y: T)
    requires Unique(key, xs) && x in xs && y in xs && key(x) == key(y)
    ensures x == y
  {
    var (front, last) := (xs[..|xs| - 1], xs[|xs| - 1]);
    assert xs == front + [last];
    if x in front && y in front {
      SameKeySameResource(key, front, x, y);
    } else {
      assert x in front ==> key(x) in Keys(key, front);
      assert y in front ==> key(y) in Keys(key, front);
    }
  }

  lemma {:induction false} UniqueConcat<T>(key: T -> ResourceId, xs: seq<T>, ys: seq<T>)
    requires Unique(key, xs) && Unique(key, ys) && Keys(key, xs) !! Keys(key, ys)
    ensures Unique(key, xs + ys)
  {
    if ys == [] {
      assert xs + ys == xs;
    } else {
      var (front, y) := (ys[..|ys| - 1], ys[|ys| - 1]);
      assert Keys(key, front) <= Keys(key, ys);
      UniqueConcat(key, xs, front);
      assert (xs + ys)[..|xs + ys| - 1] == xs + front;
      assert key(y) in Keys(key, ys);
      assert Keys(key, xs + front) == Keys(key, xs) + Keys(key, front);
    }
  }

  lemma KeyHolder<T>(key: T -> ResourceId, xs: seq<T>, k: ResourceId) returns (x: T)
    requires k in Keys(key, xs)
    ensures x in xs && key(x) == k
  {
    x :| x in xs && key(x) == k;
  }

  /** The old version of a key, if there is one. */
  predicate Known<T>(key: T -> ResourceId, before: seq<T>, k: ResourceId) { k in ByKey(key, before) }

  function Version<T>(key: T -> ResourceId, before: seq<T>, k: ResourceId): T
    requires Known(key, before, k)
  {
    ByKey(key, before)[k]
  }

  lemma VersionIs<T>(key: T -> ResourceId, before: seq<T>, k: ResourceId)
    ensures Known(key, before, k) <==> k in Keys(key, before)
    ensures Known(key, before, k) ==> Version(key, before, k) in before && key(Version(key, before, k)) == k
  {
    ByKeyFinds(key, before, k);
  }

  /** Every resource of the new snapshot is added, modified, or unchanged against its old version. */
  lemma DiffsAre<T>(key: T -> ResourceId, changed: (T, T) -> bool, before: seq<T>, after: seq<T>, x: T)
    ensures x in DiffAdded(key, before, after) <==> x in after && !Known(key, before, key(x))
    ensures x in DiffModified(key, changed, before, after) <==>
            x in after && Known(key, before, key(x)) && changed(x, Version(key, before, key(x)))
    ensures Known(key, before, key(x)) <==> key(x) in Keys(key, before)
  {
    var known := ByKey(key, before);
    FilterKeeps(y => key(y) !in Keys(key, before), after, x);
    FilterKeeps(y => key(y) in known && changed(y, known[key(y)]), after, x);
    VersionIs(key, before, key(x));
  }

  lemma DiffsAreUnique<T>(key: T -> ResourceId, changed: (T, T) -> bool, before: seq<T>, after: seq<T>)
    requires Unique(key, after)
    ensures Unique(key, DiffAdded(key, before, after)) && Unique(key, DiffModified(key, changed, before, after))
  {
    var known := ByKey(key, before);
    FilterIsUnique(key, y => key(y) !in Keys(key, before), after);
    FilterIsUnique(key, y => key(y) in known && changed(y, known[key(y)]), after);
  }

  lemma RemovedAre<T>(key: T -> ResourceId, before: seq<T>, after: seq<T>, k: ResourceId)
    ensures k in DiffRemovedIds(key, before, after) <==> k in Keys(key, before) && k !in Keys(key, after)
  {
    var p := (x: T) => key(x) !in Keys(key, after);
    var left := Filter(p, before);
    if k in DiffRemovedIds(key, before, after) {
      var i :| 0 <= i < |left| && KeyList(key, left)[i] == k;
      FilterKeeps(p, before, left[i]);
    }
    if k in Keys(key, before) && k !in Keys(key, after) {
      var x :| x in before && key(x) == k;
      FilterKeeps(p, before, x);
      var i :| 0 <= i < |left| && left[i] == x;
      assert KeyList(key, left)[i] == k;
    }
  }

  // ----- consumers: delta then patch agrees with rebuild -----

  predicate ConsumerChanged(n: Consumer, o: Consumer) {
    n.updatedAt != o.updatedAt || n.(createdAt := 0, updatedAt := 0) != o.(createdAt := 0, updatedAt := 0)
  }

  /** A consumer up to its creation time. */
  function Erased(c: Consumer): Consumer { c.(createdAt := 0) }

  function ErasedAll(cs: seq<Consumer>): seq<Consumer> { seq(|cs|, i requires 0 <= i < |cs| => Erased(cs[i])) }

  /** The consumer list the delta between two snapshots leads to. */
  function PatchedBy(before: seq<Consumer>, after: seq<Consumer>): seq<Consumer> {
    Patched(before, DiffAdded(IdOf, before, after), DiffRemovedIds(IdOf, before, after),
            DiffModified(IdOf, ConsumerChanged, before, after))
  }

  lemma {:induction false} SurvivorsAre(cs: seq<Consumer>, gone: set<ResourceId>, c: Consumer)
    ensures c in Survivors(cs, gone) <==> c in cs && IdOf(c) !in gone
  {
    if cs != [] {
      SurvivorsAre(cs[..|cs| - 1], gone, c);
      assert cs == cs[..|cs| - 1] + [cs[|cs| - 1]];
    }
  }

  lemma {:induction false} SurvivorsAreUnique(cs: seq<Consumer>, gone: set<ResourceId>)
    requires Unique(IdOf, cs)
    ensures Unique(IdOf, Survivors(cs, gone))
  {
    if cs != [] {
      var (left, c) := (Survivors(cs[..|cs| - 1], gone), cs[|cs| - 1]);
      SurvivorsAreUnique(cs[..|cs| - 1], gone);
      forall x | x in left ensures IdOf(x) in Keys(IdOf, cs[..|cs| - 1]) { SurvivorsAre(cs[..|cs| - 1], gone, x); }
      if IdOf(c) in gone {
        assert Survivors(cs, gone) == left;
      } else {
        assert (left + [c])[..|left|] == left;
      }
    }
  }

  lemma LeavingAre(before: seq<Consumer>, after: seq<Consumer>, k: ResourceId)
    ensures k in Leaving(DiffRemovedIds(IdOf, before, after), DiffModified(IdOf, ConsumerChanged, before, after)) <==>
            (k in Keys(IdOf, before) && k !in Keys(IdOf, after))
              || k in Keys(IdOf, DiffModified(IdOf, ConsumerChanged, before, after))
  {
    RemovedAre(IdOf, before, after, k);
  }

  lemma UnchangedIsSame(n: Consumer, o: Consumer)
    requires !ConsumerChanged(n, o)
    ensures Erased(n) == Erased(o)
  {
    assert n.(createdAt := 0, updatedAt := 0).(updatedAt := n.updatedAt) == Erased(n);
    assert o.(createdAt := 0, updatedAt := 0).(updatedAt := o.updatedAt) == Erased(o);
  }

  /** A survivor has an unchanged version in the new snapshot. */
  lemma SurvivorIsInNew(before: seq<Consumer>, after: seq<Consumer>, c: Consumer) returns (n: Consumer)
    requires Unique(IdOf, before) && c in before
    requires IdOf(c) !in Leaving(DiffRemovedIds(IdOf, before, after),
                                 DiffModified(IdOf, ConsumerChanged, before, after))
    ensures n in after && Erased(n) == Erased(c)
  {
    LeavingAre(before, after, IdOf(c));
    assert IdOf(c) in Keys(IdOf, before);
    n := KeyHolder(IdOf, after, IdOf(c));
    DiffsAre(IdOf, ConsumerChanged, before, after, n);
    VersionIs(IdOf, before, IdOf(n));
    SameKeySameResource(IdOf, before, Version(IdOf, before, IdOf(n)), c);
    UnchangedIsSame(n, c);
  }

  /** What the patch kept or took in is in the new snapshot. */
  lemma PatchedIsInNew(before: seq<Consumer>, after: seq<Consumer>, c: Consumer) returns (n: Consumer)
    requires Unique(IdOf, before) && c in PatchedBy(before, after)
    ensures n in after && Erased(n) == Erased(c)
  {
    var gone := Leaving(DiffRemovedIds(IdOf, before, after), DiffModified(IdOf, ConsumerChanged, before, after));
    DiffsAre(IdOf, ConsumerChanged, before, after, c);
    SurvivorsAre(before, gone, c);
    if c in after {
      n := c;
    } else {
      n := SurvivorIsInNew(before, after, c);
    }
  }

  lemma NotModified(before: seq<Consumer>, after: seq<Consumer>, n: Consumer)
    requires Unique(IdOf, after) && n in after && n !in DiffModified(IdOf, ConsumerChanged, before, after)
    ensures IdOf(n) !in Keys(IdOf, DiffModified(IdOf, ConsumerChanged, before, after))
  {
    var modified := DiffModified(IdOf, ConsumerChanged, before, after);
    if IdOf(n) in Keys(IdOf, modified) {
      var m := KeyHolder(IdOf, modified, IdOf(n));
      DiffsAre(IdOf, ConsumerChanged, before, after, m);
      SameKeySameResource(IdOf, after, m, n);
    }
  }

  /** And every consumer of the new snapshot is kept or taken in. */
  lemma NewIsInPatched(before: seq<Consumer>, after: seq<Consumer>, n: Consumer) returns (c: Consumer)
    requires Unique(IdOf, after) && n in after
    ensures c in PatchedBy(before, after) && Erased(n) == Erased(c)
  {
    var modified := DiffModified(IdOf, ConsumerChanged, before, after);
    DiffsAre(IdOf, ConsumerChanged, before, after, n);
    if !Known(IdOf, before, IdOf(n)) || n in modified {
      c := n;
    } else {
      VersionIs(IdOf, before, IdOf(n));
      c := Version(IdOf, before, IdOf(n));
      UnchangedIsSame(n, c);
      LeavingAre(before, after, IdOf(c));
      NotModified(before, after, n);
      SurvivorsAre(before, Leaving(DiffRemovedIds(IdOf, before, after), modified), c);
    }
  }

  lemma PatchedIsUnique(before: seq<Consumer>, after: seq<Consumer>)
    requires Unique(IdOf, before) && Unique(IdOf, after)
    ensures Unique(IdOf, PatchedBy(before, after))
  {
    var added := DiffAdded(IdOf, before, after);
    var modified := DiffModified(IdOf, ConsumerChanged, before, after);
    var gone := Leaving(DiffRemovedIds(IdOf, before, after), modified);
    var left := Survivors(before, gone);
    SurvivorsAreUnique(before, gone);
    DiffsAreUnique(IdOf, ConsumerChanged, before, after);
    forall x | x in added ensures IdOf(x) !in Keys(IdOf, before) { DiffsAre(IdOf, ConsumerChanged, before, after, x); }
    forall x | x in modified ensures IdOf(x) in Keys(IdOf, before) {
      DiffsAre(IdOf, ConsumerChanged, before, after, x);
    }
    forall x | x in left ensures IdOf(x) in Keys(IdOf, before) && IdOf(x) !in gone { SurvivorsAre(before, gone, x); }
    UniqueConcat(IdOf, left, added);
    KeysOfConcat(IdOf, left, added);
    UniqueConcat(IdOf, left + added, modified);
  }

  lemma KeysOfConcat<T>(key: T -> ResourceId, xs: seq<T>, ys: seq<T>)
    ensures Keys(key, xs + ys) == Keys(key, xs) + Keys(key, ys)
  {
    forall x | x in xs + ys ensures key(x) in Keys(key, xs) + Keys(key, ys) {
    }
    forall x | x in xs ensures key(x) in Keys(key, xs + ys) { assert x in xs + ys; }
    forall x | x in ys ensures key(x) in Keys(key, xs + ys) { assert x in xs + ys; }
  }

  lemma {:induction false} UniqueCounts(xs: seq<Consumer>, x: Consumer)
    requires Unique(IdOf, xs)
    ensures multiset(xs)[x] == if x in xs then 1 else 0
  {
    if xs != [] {
      var (front, last) := (xs[..|xs| - 1], xs[|xs| - 1]);
      assert xs == front + [last];
      UniqueCounts(front, x);
      assert last in front ==> IdOf(last) in Keys(IdOf, front);
    }
  }

  lemma {:induction false} ErasedIsUnique(cs: seq<Consumer>)
    requires Unique(IdOf, cs)
    ensures Unique(IdOf, ErasedAll(cs))
  {
    if cs != [] {
      var (front, last) := (cs[..|cs| - 1], cs[|cs| - 1]);
      ErasedIsUnique(front);
      assert ErasedAll(cs)[..|cs| - 1] == ErasedAll(front);
      forall x | x in ErasedAll(front) ensures IdOf(x) in Keys(IdOf, front) {
        var i :| 0 <= i < |front| && ErasedAll(front)[i] == x;
        assert front[i] in front && IdOf(front[i]) == IdOf(x);
      }
    }
  }

  lemma ErasedHas(cs: seq<Consumer>, x: Consumer)
    ensures x in ErasedAll(cs) <==> exists c :: c in cs && Erased(c) == x
  {
    if i :| 0 <= i < |cs| && ErasedAll(cs)[i] == x {
      assert cs[i] in cs;
    }
    if c :| c in cs && Erased(c) == x {
      var i :| 0 <= i < |cs| && cs[i] == c;
      assert ErasedAll(cs)[i] == x;
    }
  }

  /** The patched list is the new snapshot in another order, up to creation times. */
  lemma PatchedIsNewSnapshot(before: seq<Consumer>, after: seq<Consumer>)
    requires Unique(IdOf, before) && Unique(IdOf, after)
    ensures multiset(ErasedAll(PatchedBy(before, after))) == multiset(ErasedAll(after))
  {
    var patched := PatchedBy(before, after);
    PatchedIsUnique(before, after);
    ErasedIsUnique(patched);
    ErasedIsUnique(after);
    forall x ensures multiset(ErasedAll(patched))[x] == multiset(ErasedAll(after))[x] {
      UniqueCounts(ErasedAll(patched), x);
      UniqueCounts(ErasedAll(after), x);
      ErasedHas(patched, x);
      ErasedHas(after, x);
      if c :| c in patched && Erased(c) == x {
        var n := PatchedIsInNew(before, after, c);
      }
      if n :| n in after && Erased(n) == x {
        var c := NewIsInPatched(before, after, n);
      }
    }
  }

  /** No two consumers of the list share a key. */
  ghost predicate Exclusive<K(!new)>(keys: Consumer -> seq<K>, cs: seq<Consumer>) {
    forall a, b, k :: a in cs && b in cs && k in keys(a) && k in keys(b) ==> IdOf(a) == IdOf(b)
  }

  /** The keys do not depend on the creation time. */
  ghost predicate Timeless<K(!new)>(keys: Consumer -> seq<K>) { forall c :: keys(Erased(c)) == keys(c) }

  predicate SameHolder(x: Option<Consumer>, y: Option<Consumer>) {
    match (x, y)
    case (Some(c), Some(n)) => Erased(c) == Erased(n)
    case (None, None) => true
    case _ => false
  }

  lemma {:induction false} HolderIs<K>(keys: Consumer -> seq<K>, cs: seq<Consumer>, k: K)
    ensures match LastHolder(keys, cs, k)
            case Some(c) => c in cs && k in keys(c)
            case None => forall c :: c in cs ==> k !in keys(c)
  {
    if cs != [] {
      HolderIs(keys, cs[..|cs| - 1], k);
      assert cs == cs[..|cs| - 1] + [cs[|cs| - 1]];
    }
  }

  /** Looking a key up in the patched list finds the same consumer as looking it up in the new snapshot. */
  lemma SameLookup<K(!new)>(keys: Consumer -> seq<K>, before: seq<Consumer>, after: seq<Consumer>, k: K)
    requires Unique(IdOf, before) && Unique(IdOf, after) && Exclusive(keys, after) && Timeless(keys)
    ensures SameHolder(LastHolder(keys, PatchedBy(before, after), k), LastHolder(keys, after, k))
  {
    var patched := PatchedBy(before, after);
    HolderIs(keys, patched, k);
    HolderIs(keys, after, k);
    match LastHolder(keys, patched, k)
    case Some(c) =>
      var n := PatchedIsInNew(before, after, c);
      assert keys(Erased(n)) == keys(n) && keys(Erased(c)) == keys(c);
      SameKeySameResource(IdOf, after, n, LastHolder(keys, after, k).value);
    case None =>
      forall n | n in after ensures k !in keys(n) {
        var c := NewIsInPatched(before, after, n);
        assert keys(Erased(n)) == keys(n) && keys(Erased(c)) == keys(c);
      }
  }

  lemma {:induction false} TotalOfConcat(kind: string, xs: seq<Consumer>, ys: seq<Consumer>)
    ensures Total(kind, xs + ys) == Total(kind, xs) + Total(kind, ys)
  {
    if ys == [] {
      assert xs + ys == xs;
    } else {
      assert (xs + ys)[..|xs + ys| - 1] == xs + ys[..|ys| - 1];
      TotalOfConcat(kind, xs, ys[..|ys| - 1]);
    }
  }

  function Dropped<T>(xs: seq<T>, i: nat): seq<T>
    requires i < |xs|
  {
    xs[..i] + xs[i + 1..]
  }

  lemma MultisetDropped<T>(xs: seq<T>, i: nat)
    requires i < |xs|
    ensures multiset(Dropped(xs, i)) == multiset(xs) - multiset{xs[i]}
  {
    assert xs == xs[..i] + [xs[i]] + xs[i + 1..];
  }

  lemma TotalDropped(kind: string, xs: seq<Consumer>, i: nat)
    requires i < |xs|
    ensures Total(kind, xs) == Total(kind, Dropped(xs, i)) + |CredentialEntries(xs[i], kind)|
  {
    assert xs == xs[..i] + [xs[i]] + xs[i + 1..];
    TotalOfConcat(kind, xs[..i], xs[i + 1..]);
    TotalOfConcat(kind, xs[..i] + [xs[i]], xs[i + 1..]);
    TotalAfter(kind, xs[..i], xs[i]);
  }

  lemma {:induction false} TotalIgnoresOrder(kind: string, xs: seq<Consumer>, ys: seq<Consumer>)
    requires multiset(xs) == multiset(ys)
    ensures Total(kind, xs) == Total(kind, ys)
    decreases |xs|
  {
    if xs == [] {
      assert |multiset(ys)| == 0;
    } else {
      var n := |xs| - 1;
      assert xs[n] in multiset(ys);
      var i :| 0 <= i < |ys| && ys[i] == xs[n];
      MultisetDropped(xs, n);
      MultisetDropped(ys, i);
      TotalIgnoresOrder(kind, Dropped(xs, n), Dropped(ys, i));
      TotalDropped(kind, xs, n);
      TotalDropped(kind, ys, i);
    }
  }

  lemma {:induction false} TotalIgnoresCreation(kind: string, cs: seq<Consumer>)
    ensures Total(kind, ErasedAll(cs)) == Total(kind, cs)
  {
    if cs != [] {
      TotalIgnoresCreation(kind, cs[..|cs| - 1]);
      assert ErasedAll(cs)[..|cs| - 1] == ErasedAll(cs[..|cs| - 1]);
    }
  }

  lemma SameTotal(kind: string, before: seq<Consumer>, after: seq<Consumer>)
    requires Unique(IdOf, before) && Unique(IdOf, after)
    ensures Total(kind, PatchedBy(before, after)) == Total(kind, after)
  {
    PatchedIsNewSnapshot(before, after);
    TotalIgnoresCreation(kind, PatchedBy(before, after));
    TotalIgnoresCreation(kind, after);
    TotalIgnoresOrder(kind, ErasedAll(PatchedBy(before, after)), ErasedAll(after));
  }

  ghost predicate SameMap<K(!new)>(x: map<K, Consumer>, y: map<K, Consumer>) {
    forall k :: SameHolder(Get(x, k), Get(y, k))
  }

  lemma SameMaps<K(!new)>(keys: Consumer -> seq<K>, before: seq<Consumer>, after: seq<Consumer>)
    requires Unique(IdOf, before) && Unique(IdOf, after) && Exclusive(keys, after) && Timeless(keys)
    ensures SameMap(Latest(keys, PatchedBy(before, after)), Latest(keys, after))
  {
    forall k ensures SameHolder(Get(Latest(keys, PatchedBy(before, after)), k), Get(Latest(keys, after), k)) {
      LookupIsLastHolder(keys, PatchedBy(before, after), k);
      LookupIsLastHolder(keys, after, k);
      SameLookup(keys, before, after, k);
    }
  }

  ghost predicate NoSharedKeys(cs: seq<Consumer>) {
    && Exclusive(KeyauthKeys, cs) && Exclusive(BasicKeys, cs) && Exclusive(Names, cs)
    && Exclusive(HmacKeys, cs) && Exclusive(MtlsKeys, cs) && Exclusive(MtlsDnsKeys, cs)
  }

  /** Two indexes that answer every lookup alike, up to creation times, and count alike. */
  ghost predicate SameIndex(x: Inner, y: Inner) {
    && SameMap(x.keyauth, y.keyauth) && SameMap(x.basic, y.basic) && SameMap(x.identity, y.identity)
    && SameMap(x.mtls, y.mtls) && SameMap(x.mtlsDns, y.mtlsDns)
    && (forall p :: SameHolder(At(x.hmac, p), At(y.hmac, p)))
    && multiset(ErasedAll(x.all)) == multiset(ErasedAll(y.all))
    && x.jwtCount == y.jwtCount && x.hmacCount == y.hmacCount
  }

  lemma KeysAreTimeless()
    ensures Timeless(KeyauthKeys) && Timeless(BasicKeys) && Timeless(Names) && Timeless(MtlsKeys)
    ensures Timeless(HmacKeys) && Timeless(MtlsDnsKeys)
  {
    forall c: Consumer
      ensures KeyauthKeys(Erased(c)) == KeyauthKeys(c) && BasicKeys(Erased(c)) == BasicKeys(c)
              && Names(Erased(c)) == Names(c)
      ensures MtlsKeys(Erased(c)) == MtlsKeys(c) && HmacKeys(Erased(c)) == HmacKeys(c)
              && MtlsDnsKeys(Erased(c)) == MtlsDnsKeys(c)
    {
      assert forall kind :: CredentialEntries(Erased(c), kind) == CredentialEntries(c, kind);
    }
  }

  lemma SameNested(x: Nested, y: Nested, fx: map<ResourceId, Consumer>, fy: map<ResourceId, Consumer>)
    requires Represents(x, fx) && Represents(y, fy) && SameMap(fx, fy)
    ensures forall p :: SameHolder(At(x, p), At(y, p))
  {
    forall p ensures SameHolder(At(x, p), At(y, p)) {
      assert SameHolder(Get(fx, p), Get(fy, p));
    }
  }

  /** Computing the delta and patching the old index answers like rebuilding from the new snapshot. */
  lemma DeltaAgreesWithRebuild(before: seq<Consumer>, after: seq<Consumer>, patched: Inner, rebuilt: Inner)
    requires Unique(IdOf, before) && Unique(IdOf, after)
    ensures NoSharedKeys(after) && IsIndexOf(patched, PatchedBy(before, after)) && IsIndexOf(rebuilt, after) ==>
              SameIndex(patched, rebuilt)
  {
    if NoSharedKeys(after) && IsIndexOf(patched, PatchedBy(before, after)) && IsIndexOf(rebuilt, after) {
      KeysAreTimeless();
      SameMaps(KeyauthKeys, before, after);
      SameMaps(BasicKeys, before, after);
      SameMaps(Names, before, after);
      SameMaps(MtlsKeys, before, after);
      SameMaps(MtlsDnsKeys, before, after);
      SameMaps(HmacKeys, before, after);
      SameNested(patched.hmac, rebuilt.hmac, Latest(HmacKeys, PatchedBy(before, after)), Latest(HmacKeys, after));
      PatchedIsNewSnapshot(before, after);
      SameTotal("jwt", before, after);
      SameTotal("hmac_auth", before, after);
    }
  }

  // ----- and exactly when no key is shared -----

  lemma SomeMember<T>(xs: seq<T>) returns (x: T)
    requires xs != []
    ensures x in xs
  {
    x := xs[0];
  }

  lemma NoMember<T>(xs: seq<T>)
    requires forall x :: x !in xs
    ensures xs == []
  {
    if xs != [] {
      var x := SomeMember(xs);
    }
  }

  lemma MemberOfFront(xs: seq<Consumer>) returns (y: Consumer)
    requires |xs| > 1
    ensures y in xs && xs[|xs| - 1] in xs && IdOf(y) in Keys(IdOf, xs[..|xs| - 1])
  {
    y := SomeMember(xs[..|xs| - 1]);
  }

  lemma SoleMember(xs: seq<Consumer>, x: Consumer)
    requires Unique(IdOf, xs) && x in xs && forall y :: y in xs ==> y == x
    ensures xs == [x]
  {
    if |xs| > 1 {
      var y := MemberOfFront(xs);
    }
  }

  /** A snapshot that lacks just `x` differs from the new one by adding `x`. */
  lemma DiffOfOne(after: seq<Consumer>, x: Consumer)
    requires Unique(IdOf, after) && x in after
    ensures var before := Survivors(after, {IdOf(x)});
            && Unique(IdOf, before) && DiffAdded(IdOf, before, after) == [x]
            && DiffModified(IdOf, ConsumerChanged, before, after) == [] && DiffRemovedIds(IdOf, before, after) == []
  {
    var before := Survivors(after, {IdOf(x)});
    SurvivorsAreUnique(after, {IdOf(x)});
    DiffsAreUnique(IdOf, ConsumerChanged, before, after);
    forall y ensures y in before <==> y in after && IdOf(y) != IdOf(x) { SurvivorsAre(after, {IdOf(x)}, y); }
    forall y ensures y in DiffAdded(IdOf, before, after) <==> y == x { OnlyAdded(before, after, x, y); }
    SoleMember(DiffAdded(IdOf, before, after), x);
    forall y ensures y !in DiffModified(IdOf, ConsumerChanged, before, after) { NoneModified(before, after, y); }
    NoMember(DiffModified(IdOf, ConsumerChanged, before, after));
    forall k ensures k !in DiffRemovedIds(IdOf, before, after) { NoneRemoved(before, after, k); }
    NoMember(DiffRemovedIds(IdOf, before, after));
  }

  lemma OnlyAdded(before: seq<Consumer>, after: seq<Consumer>, x: Consumer, y: Consumer)
    requires Unique(IdOf, after) && x in after && forall z :: z in before <==> z in after && IdOf(z) != IdOf(x)
    ensures y in DiffAdded(IdOf, before, after) <==> y == x
  {
    DiffsAre(IdOf, ConsumerChanged, before, after, y);
    if y in after && IdOf(y) == IdOf(x) {
      SameKeySameResource(IdOf, after, x, y);
    }
  }

  lemma NoneModified(before: seq<Consumer>, after: seq<Consumer>, y: Consumer)
    requires Unique(IdOf, after) && forall z :: z in before ==> z in after
    ensures y !in DiffModified(IdOf, ConsumerChanged, before, after)
  {
    DiffsAre(IdOf, ConsumerChanged, before, after, y);
    VersionIs(IdOf, before, IdOf(y));
    if y in after && Known(IdOf, before, IdOf(y)) {
      SameKeySameResource(IdOf, after, Version(IdOf, before, IdOf(y)), y);
    }
  }

  lemma NoneRemoved(before: seq<Consumer>, after: seq<Consumer>, k: ResourceId)
    requires forall z :: z in before ==> z in after
    ensures k !in DiffRemovedIds(IdOf, before, after)
  {
    RemovedAre(IdOf, before, after, k);
  }

  /** A consumer that shares a key without being its last holder takes the key over when a patch adds it. */
  lemma SharerTakesOver<K>(keys: Consumer -> seq<K>, after: seq<Consumer>, x: Consumer, k: K)
    requires Unique(IdOf, after) && x in after && k in keys(x)
    ensures var before := Survivors(after, {IdOf(x)});
            Unique(IdOf, before) && LastHolder(keys, PatchedBy(before, after), k) == Some(x)
  {
    var before := Survivors(after, {IdOf(x)});
    DiffOfOne(after, x);
    assert Leaving([], []) == {};
    NobodyLeaves(before);
    var patched := PatchedBy(before, after);
    assert patched == before + [x] && patched[|patched| - 1] == x;
  }

  /** Whatever the old snapshot was, the patched list answers like the new one. */
  ghost predicate AlwaysAgrees<K(!new)>(keys: Consumer -> seq<K>, after: seq<Consumer>) {
    forall before, k ::
      Unique(IdOf, before) ==> SameHolder(LastHolder(keys, PatchedBy(before, after), k), LastHolder(keys, after, k))
  }

  /**
   The side condition is exact: patching answers like rebuilding, from every old snapshot, only if no key is shared.
   */
  lemma AgreesIffExclusive<K(!new)>(keys: Consumer -> seq<K>, after: seq<Consumer>)
    requires Unique(IdOf, after) && Timeless(keys)
    ensures AlwaysAgrees(keys, after) <==> Exclusive(keys, after)
  {
    if Exclusive(keys, after) {
      forall before, k | Unique(IdOf, before)
        ensures SameHolder(LastHolder(keys, PatchedBy(before, after), k), LastHolder(keys, after, k))
      {
        SameLookup(keys, before, after, k);
      }
    } else {
      var a, b, k :| a in after && b in after && k in keys(a) && k in keys(b) && IdOf(a) != IdOf(b);
      HolderIs(keys, after, k);
      var holder := LastHolder(keys, after, k).value;
      var sharer := if IdOf(a) == IdOf(holder) then b else a;
      SharerTakesOver(keys, after, sharer, k);
      var before := Survivors(after, {IdOf(sharer)});
      assert !SameHolder(LastHolder(keys, PatchedBy(before, after), k), LastHolder(keys, after, k));
    }
  }

  // ----- end to end -----

  /** The old index patched by the computed delta, beside the index rebuilt from the new snapshot. */
  method ReloadBothWays(before: seq<Consumer>, after: seq<Consumer>) returns (patched: Inner, rebuilt: Inner)
    ensures IsIndexOf(patched, PatchedBy(before, after)) && IsIndexOf(rebuilt, after)
    ensures Unique(IdOf, before) && Unique(IdOf, after) && NoSharedKeys(after) ==> SameIndex(patched, rebuilt)
  {
    var index := BuildIndex(before);
    var added := DiffAdded(IdOf, before, after);
    var removed := DiffRemovedIds(IdOf, before, after);
    var modified := DiffModified(IdOf, ConsumerChanged, before, after);
    patched := ApplyDelta(index, added, removed, modified);
    rebuilt := BuildIndex(after);
    if Unique(IdOf, before) && Unique(IdOf, after) {
      DeltaAgreesWithRebuild(before, after, patched, rebuilt);
    }
  }
}
