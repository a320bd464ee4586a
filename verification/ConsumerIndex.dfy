/**
 The consumer credential index: built from a consumer list, or patched from a delta.

 A consumer contributes keys to six maps, later consumers overwriting earlier ones. Patching collects the keys of the
 consumers that go, removes what they own, re-exposes shadowed survivors and inserts the newcomers.
 */
module ConsumerIndex {
  import opened Basics

  datatype Json =
    | Null | Bool(flag: bool) | Number(value: int) | Str(text: string) | Array(items: seq<Json>)
    | Object(fields: map<string, Json>)

  datatype Consumer = Consumer(id: string, username: string, namespace: string, customId: Option<string>,
                               credentials: map<string, Json>, aclGroups: seq<string>, createdAt: int, updatedAt: int)

  type ResourceId = (string, string)

  function IdOf(c: Consumer): ResourceId { (c.namespace, c.id) }

  // ----- the keys a consumer contributes -----

  function Objects(items: seq<Json>): seq<Json> {
    if items == [] then [] else (if items[0].Object? then [items[0]] else []) + Objects(items[1..])
  }

  function CredentialEntries(c: Consumer, kind: string): seq<Json> {
    if kind in c.credentials && c.credentials[kind].Array? then Objects(c.credentials[kind].items) else []
  }

  predicate HasCredential(c: Consumer, kind: string) {
    kind in c.credentials && c.credentials[kind].Array? && exists v :: v in c.credentials[kind].items && v.Object?
  }

  /** The string values of `field` among the entries. */
  function Texts(entries: seq<Json>, field: string): seq<string> {
    if entries == [] then []
    else
      var e := entries[0];
      (if e.Object? && field in e.fields && e.fields[field].Str? then [e.fields[field].text] else [])
        + Texts(entries[1..], field)
  }

  function AsciiLower(s: string): string {
    seq(|s|, i requires 0 <= i < |s| => if 'A' <= s[i] <= 'Z' then s[i] - 'A' + 'a' else s[i])
  }

  function Lowered(ss: seq<string>): seq<string> { seq(|ss|, i requires 0 <= i < |ss| => AsciiLower(ss[i])) }

  function Names(c: Consumer): seq<string> {
    [c.username, c.id] + match c.customId { case Some(custom) => [custom] case None => [] }
  }

  function KeyauthKeys(c: Consumer): seq<string> { Texts(CredentialEntries(c, "keyauth"), "key") }
  function BasicKeys(c: Consumer): seq<string> { if HasCredential(c, "basicauth") then [c.username] else [] }
  function MtlsKeys(c: Consumer): seq<string> { Texts(CredentialEntries(c, "mtls_auth"), "identity") }
  function MtlsDnsKeys(c: Consumer): seq<string> { Lowered(MtlsKeys(c)) }
  function HmacNames(c: Consumer): seq<string> { if CredentialEntries(c, "hmac_auth") == [] then [] else Names(c) }
  function HmacKeys(c: Consumer): seq<ResourceId> { Scoped(c.namespace, HmacNames(c)) }
  function Scoped(namespace: string, names: seq<string>): seq<ResourceId> {
    seq(|names|, i requires 0 <= i < |names| => (namespace, names[i]))
  }

  // ----- the index of a consumer list -----

  function Entries<K>(ks: seq<K>, c: Consumer): map<K, Consumer> { map k | k in ks :: c }

  /** Every consumer inserted in turn. */
  function Latest<K>(keys: Consumer -> seq<K>, cs: seq<Consumer>): map<K, Consumer> {
    if cs == [] then map[] else Latest(keys, cs[..|cs| - 1]) + Entries(keys(cs[|cs| - 1]), cs[|cs| - 1])
  }

  /** The reference meaning: the last consumer of the list that has the key. */
  function LastHolder<K(==)>(keys: Consumer -> seq<K>, cs: seq<Consumer>, k: K): Option<Consumer> {
    if cs == [] then None
    else if k in keys(cs[|cs| - 1]) then Some(cs[|cs| - 1])
    else LastHolder(keys, cs[..|cs| - 1], k)
  }

  function Get<K(==)>(m: map<K, Consumer>, k: K): Option<Consumer> { if k in m then Some(m[k]) else None }

  lemma {:induction false} LookupIsLastHolder<K>(keys: Consumer -> seq<K>, cs: seq<Consumer>, k: K)
    ensures Get(Latest(keys, cs), k) == LastHolder(keys, cs, k)
  {
    if cs != [] {
      LookupIsLastHolder(keys, cs[..|cs| - 1], k);
    }
  }

  function Total(kind: string, cs: seq<Consumer>): nat {
    if cs == [] then 0 else Total(kind, cs[..|cs| - 1]) + |CredentialEntries(cs[|cs| - 1], kind)|
  }

  type Nested = map<string, map<string, Consumer>>

  function At(nested: Nested, p: ResourceId): Option<Consumer> {
    if p.0 in nested && p.1 in nested[p.0] then Some(nested[p.0][p.1]) else None
  }

  /** A flat map kept as one map per namespace; `Represents` adds that no namespace is empty. */
  ghost predicate Covers(nested: Nested, flat: map<ResourceId, Consumer>) {
    forall p :: At(nested, p) == Get(flat, p)
  }

  ghost predicate Represents(nested: Nested, flat: map<ResourceId, Consumer>) {
    Covers(nested, flat) && forall ns :: ns in nested ==> nested[ns] != map[]
  }

  datatype Inner = Inner(keyauth: map<string, Consumer>, basic: map<string, Consumer>, identity: map<string, Consumer>,
                         hmac: Nested, mtls: map<string, Consumer>, mtlsDns: map<string, Consumer>,
                         all: seq<Consumer>, jwtCount: nat, hmacCount: nat)

  ghost predicate MapsOf(x: Inner, cs: seq<Consumer>) {
    && x.all == cs
    && x.keyauth == Latest(KeyauthKeys, cs) && x.basic == Latest(BasicKeys, cs) && x.identity == Latest(Names, cs)
    && x.mtls == Latest(MtlsKeys, cs) && x.mtlsDns == Latest(MtlsDnsKeys, cs)
    && Represents(x.hmac, Latest(HmacKeys, cs))
  }

  /** All seven structures and both counts are those of the list. */
  ghost predicate IsIndexOf(x: Inner, cs: seq<Consumer>) {
    MapsOf(x, cs) && x.jwtCount == Total("jwt", cs) && x.hmacCount == Total("hmac_auth", cs)
  }

  lemma NestedIsUnique(a: Nested, b: Nested, flat: map<ResourceId, Consumer>)
    requires Represents(a, flat) && Represents(b, flat)
    ensures a == b
  {
    NestedIncludes(a, b, flat);
    NestedIncludes(b, a, flat);
  }

  lemma NestedIncludes(a: Nested, b: Nested, flat: map<ResourceId, Consumer>)
    requires Represents(a, flat) && Represents(b, flat)
    ensures forall ns :: ns in a ==> ns in b && a[ns] == b[ns]
  {
    forall ns | ns in a ensures ns in b && a[ns] == b[ns] {
      var id :| id in a[ns];
      assert At(b, (ns, id)) == At(a, (ns, id));
      forall i ensures Get(a[ns], i) == Get(b[ns], i) {
        assert At(b, (ns, i)) == At(a, (ns, i));
      }
      SameLookups(a[ns], b[ns]);
    }
  }

  /** A consumer list has one index only, so two that satisfy `IsIndexOf` answer every lookup alike. */
  lemma IndexIsUnique(x: Inner, y: Inner, cs: seq<Consumer>)
    requires IsIndexOf(x, cs) && IsIndexOf(y, cs)
    ensures x == y
  {
    NestedIsUnique(x.hmac, y.hmac, Latest(HmacKeys, cs));
  }

  // ----- patching one map -----

  function Survivors(cs: seq<Consumer>, gone: set<ResourceId>): seq<Consumer> {
    if cs == [] then []
    else Survivors(cs[..|cs| - 1], gone) + if IdOf(cs[|cs| - 1]) in gone then [] else [cs[|cs| - 1]]
  }

  /** The keys of the consumers that go, in list order. */
  function OldKeys<K>(keys: Consumer -> seq<K>, cs: seq<Consumer>, gone: set<ResourceId>): seq<K> {
    if cs == [] then []
    else OldKeys(keys, cs[..|cs| - 1], gone) + if IdOf(cs[|cs| - 1]) in gone then keys(cs[|cs| - 1]) else []
  }

  /** Those of the keys removed that a departing consumer owns. */
  function Pruned<K>(m: map<K, Consumer>, ks: seq<K>, gone: set<ResourceId>): map<K, Consumer> {
    map k | k in m && !(k in ks && IdOf(m[k]) in gone) :: m[k]
  }

  function Matching<K>(ks: seq<K>, exposed: seq<K>, c: Consumer): map<K, Consumer> {
    map k | k in ks && k in exposed :: c
  }

  /** The listed keys inserted again from the survivors. */
  function Restored<K>(m: map<K, Consumer>, keys: Consumer -> seq<K>, cs: seq<Consumer>, ks: seq<K>): map<K, Consumer> {
    if cs == [] then m
    else Restored(m, keys, cs[..|cs| - 1], ks) + Matching(keys(cs[|cs| - 1]), ks, cs[|cs| - 1])
  }

  lemma {:induction false} RestoredAt<K>(m: map<K, Consumer>, keys: Consumer -> seq<K>, cs: seq<Consumer>, ks: seq<K>,
                                         k: K)
    ensures Get(Restored(m, keys, cs, ks), k) ==
            if k in ks && LastHolder(keys, cs, k).Some? then LastHolder(keys, cs, k) else Get(m, k)
  {
    if cs != [] {
      RestoredAt(m, keys, cs[..|cs| - 1], ks, k);
    }
  }

  lemma HolderAfter<K>(keys: Consumer -> seq<K>, cs: seq<Consumer>, gone: set<ResourceId>, k: K)
    requires cs != []
    ensures var (front, c) := (cs[..|cs| - 1], cs[|cs| - 1]);
            LastHolder(keys, Survivors(cs, gone), k) ==
            if IdOf(c) !in gone && k in keys(c) then Some(c) else LastHolder(keys, Survivors(front, gone), k)
  {
    var (left, c) := (Survivors(cs[..|cs| - 1], gone), cs[|cs| - 1]);
    if IdOf(c) in gone {
      assert Survivors(cs, gone) == left;
    } else {
      assert (left + [c])[..|left|] == left;
    }
  }

  /** A key no departing consumer has keeps its last holder. */
  lemma {:induction false} UntouchedKey<K>(keys: Consumer -> seq<K>, cs: seq<Consumer>, gone: set<ResourceId>, k: K)
    requires k !in OldKeys(keys, cs, gone)
    ensures LastHolder(keys, Survivors(cs, gone), k) == LastHolder(keys, cs, k)
  {
    if cs != [] {
      UntouchedKey(keys, cs[..|cs| - 1], gone, k);
      HolderAfter(keys, cs, gone, k);
    }
  }

  /** A last holder that stays is still the last holder among the survivors. */
  lemma {:induction false} StayingHolder<K>(keys: Consumer -> seq<K>, cs: seq<Consumer>, gone: set<ResourceId>, k: K)
    requires LastHolder(keys, cs, k).Some? && IdOf(LastHolder(keys, cs, k).value) !in gone
    ensures LastHolder(keys, Survivors(cs, gone), k) == LastHolder(keys, cs, k)
  {
    HolderAfter(keys, cs, gone, k);
    if k !in keys(cs[|cs| - 1]) {
      StayingHolder(keys, cs[..|cs| - 1], gone, k);
    }
  }

  /** Prune, then restore: exactly the index of the survivors, shadowed entries re-exposed. */
  lemma PatchIsRebuild<K>(keys: Consumer -> seq<K>, cs: seq<Consumer>, gone: set<ResourceId>)
    ensures var ks := OldKeys(keys, cs, gone);
            Restored(Pruned(Latest(keys, cs), ks, gone), keys, Survivors(cs, gone), ks)
              == Latest(keys, Survivors(cs, gone))
  {
    var ks := OldKeys(keys, cs, gone);
    var (pruned, left) := (Pruned(Latest(keys, cs), ks, gone), Survivors(cs, gone));
    var (x, y) := (Restored(pruned, keys, left, ks), Latest(keys, left));
    forall k ensures Get(x, k) == Get(y, k) {
      RestoredAt(pruned, keys, left, ks, k);
      LookupIsLastHolder(keys, left, k);
      LookupIsLastHolder(keys, cs, k);
      if k !in ks {
        UntouchedKey(keys, cs, gone, k);
      } else if k in pruned {
        StayingHolder(keys, cs, gone, k);
      }
    }
    SameLookups(x, y);
  }

  lemma SameLookups<K>(x: map<K, Consumer>, y: map<K, Consumer>)
    requires forall k :: Get(x, k) == Get(y, k)
    ensures x == y
  {
    forall k ensures k in x <==> k in y {
      assert Get(x, k) == Get(y, k);
    }
    forall k | k in x ensures x[k] == y[k] {
      assert Get(x, k) == Get(y, k);
    }
  }

  // ----- the loops -----

  lemma InsertedOneMore<K>(m: map<K, Consumer>, ks: seq<K>, i: nat, c: Consumer)
    requires i < |ks|
    ensures m + Entries(ks[..i + 1], c) == (m + Entries(ks[..i], c))[ks[i] := c]
  {
    assert ks[..i + 1] == ks[..i] + [ks[i]];
  }

  lemma RestoredOneMore<K>(m: map<K, Consumer>, ks: seq<K>, exposed: seq<K>, i: nat, c: Consumer)
    requires i < |ks|
    ensures var before := m + Matching(ks[..i], exposed, c);
            m + Matching(ks[..i + 1], exposed, c) == if ks[i] in exposed then before[ks[i] := c] else before
  {
    assert ks[..i + 1] == ks[..i] + [ks[i]];
  }

  lemma PrunedOneMore<K>(m: map<K, Consumer>, ks: seq<K>, gone: set<ResourceId>, i: nat)
    requires i < |ks|
    ensures var before := Pruned(m, ks[..i], gone);
            Pruned(m, ks[..i + 1], gone)
            == if ks[i] in before && IdOf(before[ks[i]]) in gone then before - {ks[i]} else before
  {
    assert ks[..i + 1] == ks[..i] + [ks[i]];
  }

  /** The keys of one consumer inserted one by one. */
  method InsertAll<K(==)>(m: map<K, Consumer>, ks: seq<K>, c: Consumer) returns (r: map<K, Consumer>)
    ensures r == m + Entries(ks, c)
  {
    r := m;
    for i := 0 to |ks|
      invariant r == m + Entries(ks[..i], c)
    {
      InsertedOneMore(m, ks, i, c);
      r := r[ks[i] := c];
    }
    assert ks[..|ks|] == ks;
  }

  /** The same, restricted to the keys that lost an owner. */
  method RestoreAll<K(==)>(m: map<K, Consumer>, ks: seq<K>, exposed: seq<K>, c: Consumer) returns (r: map<K, Consumer>)
    ensures r == m + Matching(ks, exposed, c)
  {
    r := m;
    for i := 0 to |ks|
      invariant r == m + Matching(ks[..i], exposed, c)
    {
      RestoredOneMore(m, ks, exposed, i, c);
      if ks[i] in exposed {
        r := r[ks[i] := c];
      }
    }
    assert ks[..|ks|] == ks;
  }

  method PruneAll<K(==)>(m: map<K, Consumer>, ks: seq<K>, gone: set<ResourceId>) returns (r: map<K, Consumer>)
    ensures r == Pruned(m, ks, gone)
  {
    r := m;
    for i := 0 to |ks|
      invariant r == Pruned(m, ks[..i], gone)
    {
      PrunedOneMore(m, ks, gone, i);
      if ks[i] in r && IdOf(r[ks[i]]) in gone {
        r := r - {ks[i]};
      }
    }
    assert ks[..|ks|] == ks;
  }

  /** `entry(ns).or_default().insert(id, c)`. */
  function Put(nested: Nested, p: ResourceId, c: Consumer): Nested {
    nested[p.0 := (if p.0 in nested then nested[p.0] else map[])[p.1 := c]]
  }

  lemma PutRepresents(nested: Nested, flat: map<ResourceId, Consumer>, p: ResourceId, c: Consumer)
    requires Represents(nested, flat)
    ensures Represents(Put(nested, p, c), flat[p := c])
  {
    var r := Put(nested, p, c);
    forall q ensures At(r, q) == Get(flat[p := c], q) {
      assert At(nested, q) == Get(flat, q);
    }
    assert p.1 in r[p.0];
  }

  method InsertHmac(nested: Nested, c: Consumer, ghost flat: map<ResourceId, Consumer>) returns (r: Nested)
    requires Represents(nested, flat)
    ensures Represents(r, flat + Entries(HmacKeys(c), c))
  {
    r := nested;
    var ks := HmacKeys(c);
    assert flat + Entries(ks[..0], c) == flat;
    for i := 0 to |ks|
      invariant Represents(r, flat + Entries(ks[..i], c))
    {
      PutRepresents(r, flat + Entries(ks[..i], c), ks[i], c);
      InsertedOneMore(flat, ks, i, c);
      r := Put(r, ks[i], c);
    }
    assert ks[..|ks|] == ks;
  }

  method RestoreHmac(nested: Nested, exposed: seq<ResourceId>, c: Consumer, ghost flat: map<ResourceId, Consumer>)
    returns (r: Nested)
    requires Represents(nested, flat)
    ensures Represents(r, flat + Matching(HmacKeys(c), exposed, c))
  {
    r := nested;
    var ks := HmacKeys(c);
    assert flat + Matching(ks[..0], exposed, c) == flat;
    for i := 0 to |ks|
      invariant Represents(r, flat + Matching(ks[..i], exposed, c))
    {
      RestoredOneMore(flat, ks, exposed, i, c);
      if ks[i] in exposed {
        PutRepresents(r, flat + Matching(ks[..i], exposed, c), ks[i], c);
        r := Put(r, ks[i], c);
      }
    }
    assert ks[..|ks|] == ks;
  }

  function Without(nested: Nested, p: ResourceId): Nested
    requires p.0 in nested
  {
    nested[p.0 := nested[p.0] - {p.1}]
  }

  lemma WithoutCovers(nested: Nested, flat: map<ResourceId, Consumer>, p: ResourceId)
    requires Covers(nested, flat) && p.0 in nested
    ensures Covers(Without(nested, p), flat - {p})
  {
    forall q ensures At(Without(nested, p), q) == Get(flat - {p}, q) {
      assert At(nested, q) == Get(flat, q);
    }
  }

  lemma RetainedRepresents(nested: Nested, flat: map<ResourceId, Consumer>)
    requires Covers(nested, flat)
    ensures Represents(map ns | ns in nested && nested[ns] != map[] :: nested[ns], flat)
  {
    var r := map ns | ns in nested && nested[ns] != map[] :: nested[ns];
    forall q ensures At(r, q) == Get(flat, q) {
      assert At(nested, q) == Get(flat, q);
    }
  }

  method PruneHmac(nested: Nested, ks: seq<ResourceId>, gone: set<ResourceId>, ghost flat: map<ResourceId, Consumer>)
    returns (r: Nested)
    requires Represents(nested, flat)
    ensures Represents(r, Pruned(flat, ks, gone))
  {
    r := nested;
    assert Pruned(flat, ks[..0], gone) == flat;
    for i := 0 to |ks|
      invariant Covers(r, Pruned(flat, ks[..i], gone))
    {
      var p := ks[i];
      ghost var before := Pruned(flat, ks[..i], gone);
      PrunedOneMore(flat, ks, gone, i);
      assert At(r, p) == Get(before, p);
      if p.0 in r && p.1 in r[p.0] && IdOf(r[p.0][p.1]) in gone {
        WithoutCovers(r, before, p);
        r := Without(r, p);
      }
    }
    assert ks[..|ks|] == ks;
    RetainedRepresents(r, Pruned(flat, ks, gone));
    r := map ns | ns in r && r[ns] != map[] :: r[ns];
  }

  // ----- building and patching -----

  lemma LatestAfter<K>(keys: Consumer -> seq<K>, cs: seq<Consumer>, c: Consumer)
    ensures Latest(keys, cs + [c]) == Latest(keys, cs) + Entries(keys(c), c)
  {
    assert (cs + [c])[..|cs|] == cs;
  }

  lemma TotalAfter(kind: string, cs: seq<Consumer>, c: Consumer)
    ensures Total(kind, cs + [c]) == Total(kind, cs) + |CredentialEntries(c, kind)|
  {
    assert (cs + [c])[..|cs|] == cs;
  }

  /** One consumer indexed after those already there. */
  method AddConsumer(x: Inner, c: Consumer) returns (r: Inner)
    requires MapsOf(x, x.all)
    ensures MapsOf(r, x.all + [c]) && r.jwtCount == x.jwtCount && r.hmacCount == x.hmacCount
  {
    var keyauth := InsertAll(x.keyauth, KeyauthKeys(c), c);
    var basic := InsertAll(x.basic, BasicKeys(c), c);
    var mtls := InsertAll(x.mtls, MtlsKeys(c), c);
    var mtlsDns := InsertAll(x.mtlsDns, MtlsDnsKeys(c), c);
    var identity := InsertAll(x.identity, Names(c), c);
    var hmac := InsertHmac(x.hmac, c, Latest(HmacKeys, x.all));
    LatestAfter(KeyauthKeys, x.all, c);
    LatestAfter(BasicKeys, x.all, c);
    LatestAfter(MtlsKeys, x.all, c);
    LatestAfter(MtlsDnsKeys, x.all, c);
    LatestAfter(Names, x.all, c);
    LatestAfter(HmacKeys, x.all, c);
    r := Inner(keyauth, basic, identity, hmac, mtls, mtlsDns, x.all + [c], x.jwtCount, x.hmacCount);
  }

  method BuildIndex(consumers: seq<Consumer>) returns (r: Inner)
    ensures IsIndexOf(r, consumers)
  {
    r := Inner(map[], map[], map[], map[], map[], map[], [], 0, 0);
    for i := 0 to |consumers|
      invariant IsIndexOf(r, consumers[..i])
    {
      var c := consumers[i];
      assert consumers[..i + 1] == consumers[..i] + [c];
      TotalAfter("jwt", consumers[..i], c);
      TotalAfter("hmac_auth", consumers[..i], c);
      r := AddConsumer(r.(jwtCount := r.jwtCount + |CredentialEntries(c, "jwt")|,
                          hmacCount := r.hmacCount + |CredentialEntries(c, "hmac_auth")|), c);
    }
    assert consumers[..|consumers|] == consumers;
  }

  /** The keys of the departing consumers, per map. */
  datatype Departed = Departed(keyauth: seq<string>, basic: seq<string>, identity: seq<string>, hmac: seq<ResourceId>,
                               mtls: seq<string>, mtlsDns: seq<string>)

  ghost predicate DepartedFrom(d: Departed, cs: seq<Consumer>, gone: set<ResourceId>) {
    && d.keyauth == OldKeys(KeyauthKeys, cs, gone) && d.basic == OldKeys(BasicKeys, cs, gone)
    && d.identity == OldKeys(Names, cs, gone) && d.hmac == OldKeys(HmacKeys, cs, gone)
    && d.mtls == OldKeys(MtlsKeys, cs, gone) && d.mtlsDns == OldKeys(MtlsDnsKeys, cs, gone)
  }

  lemma OldKeysAfter<K>(keys: Consumer -> seq<K>, cs: seq<Consumer>, gone: set<ResourceId>, i: nat)
    requires i < |cs|
    ensures OldKeys(keys, cs[..i + 1], gone)
            == OldKeys(keys, cs[..i], gone) + if IdOf(cs[i]) in gone then keys(cs[i]) else []
  {
    assert cs[..i + 1][..i] == cs[..i];
  }

  lemma TotalsAfter(kind: string, cs: seq<Consumer>, gone: set<ResourceId>, i: nat)
    requires i < |cs|
    ensures Total(kind, cs[..i + 1]) == Total(kind, cs[..i]) + |CredentialEntries(cs[i], kind)|
    ensures Total(kind, Survivors(cs[..i + 1], gone))
            == Total(kind, Survivors(cs[..i], gone))
               + if IdOf(cs[i]) in gone then 0 else |CredentialEntries(cs[i], kind)|
  {
    assert cs[..i + 1][..i] == cs[..i];
    if IdOf(cs[i]) in gone {
      assert Survivors(cs[..i + 1], gone) == Survivors(cs[..i], gone);
    } else {
      TotalAfter(kind, Survivors(cs[..i], gone), cs[i]);
    }
  }

  /** One scan of the list for the departing consumers' keys and credential counts. */
  method CollectDeparted(all: seq<Consumer>, gone: set<ResourceId>) returns (d: Departed, jwtDelta: int, hmacDelta: int)
    ensures DepartedFrom(d, all, gone)
    ensures jwtDelta == Total("jwt", Survivors(all, gone)) - Total("jwt", all)
    ensures hmacDelta == Total("hmac_auth", Survivors(all, gone)) - Total("hmac_auth", all)
  {
    d, jwtDelta, hmacDelta := Departed([], [], [], [], [], []), 0, 0;
    for i := 0 to |all|
      invariant DepartedFrom(d, all[..i], gone)
      invariant jwtDelta == Total("jwt", Survivors(all[..i], gone)) - Total("jwt", all[..i])
      invariant hmacDelta == Total("hmac_auth", Survivors(all[..i], gone)) - Total("hmac_auth", all[..i])
    {
      var c := all[i];
      DepartedAfter(d, all, gone, i);
      TotalsAfter("jwt", all, gone, i);
      TotalsAfter("hmac_auth", all, gone, i);
      if IdOf(c) in gone {
        jwtDelta := jwtDelta - |CredentialEntries(c, "jwt")|;
        hmacDelta := hmacDelta - |CredentialEntries(c, "hmac_auth")|;
        d := Joined(d, c);
      }
    }
    assert all[..|all|] == all;
  }

  function Joined(d: Departed, c: Consumer): Departed {
    Departed(d.keyauth + KeyauthKeys(c), d.basic + BasicKeys(c), d.identity + Names(c), d.hmac + HmacKeys(c),
             d.mtls + MtlsKeys(c), d.mtlsDns + MtlsDnsKeys(c))
  }

  lemma DepartedAfter(d: Departed, cs: seq<Consumer>, gone: set<ResourceId>, i: nat)
    requires i < |cs| && DepartedFrom(d, cs[..i], gone)
    ensures DepartedFrom(if IdOf(cs[i]) in gone then Joined(d, cs[i]) else d, cs[..i + 1], gone)
  {
    OldKeysAfter(KeyauthKeys, cs, gone, i);
    OldKeysAfter(BasicKeys, cs, gone, i);
    OldKeysAfter(Names, cs, gone, i);
    OldKeysAfter(HmacKeys, cs, gone, i);
    OldKeysAfter(MtlsKeys, cs, gone, i);
    OldKeysAfter(MtlsDnsKeys, cs, gone, i);
  }

  /** The pruned maps of list `cs` with `d` restored from `left`, for `flat` the pruned namespaced map. */
  ghost predicate RestoredMaps(r: Inner, x: Inner, flat: map<ResourceId, Consumer>, left: seq<Consumer>, d: Departed) {
    && r.keyauth == Restored(x.keyauth, KeyauthKeys, left, d.keyauth)
    && r.basic == Restored(x.basic, BasicKeys, left, d.basic)
    && r.identity == Restored(x.identity, Names, left, d.identity)
    && Represents(r.hmac, Restored(flat, HmacKeys, left, d.hmac))
    && r.mtls == Restored(x.mtls, MtlsKeys, left, d.mtls)
    && r.mtlsDns == Restored(x.mtlsDns, MtlsDnsKeys, left, d.mtlsDns)
    && r.all == x.all && r.jwtCount == x.jwtCount && r.hmacCount == x.hmacCount
  }

  lemma {:induction false} NothingToRestore<K>(m: map<K, Consumer>, keys: Consumer -> seq<K>, cs: seq<Consumer>)
    ensures Restored(m, keys, cs, []) == m
  {
    if cs != [] {
      NothingToRestore(m, keys, cs[..|cs| - 1]);
    }
  }

  /** One survivor's keys re-exposed in all six maps. */
  method RestoreOne(r: Inner, x: Inner, ghost flat: map<ResourceId, Consumer>, left: seq<Consumer>, d: Departed, i: nat)
    returns (r': Inner)
    requires i < |left| && RestoredMaps(r, x, flat, left[..i], d)
    ensures RestoredMaps(r', x, flat, left[..i + 1], d)
  {
    var c := left[i];
    assert left[..i + 1][..i] == left[..i];
    var keyauth := RestoreAll(r.keyauth, KeyauthKeys(c), d.keyauth, c);
    var basic := RestoreAll(r.basic, BasicKeys(c), d.basic, c);
    var identity := RestoreAll(r.identity, Names(c), d.identity, c);
    var hmac := RestoreHmac(r.hmac, d.hmac, c, Restored(flat, HmacKeys, left[..i], d.hmac));
    var mtls := RestoreAll(r.mtls, MtlsKeys(c), d.mtls, c);
    var mtlsDns := RestoreAll(r.mtlsDns, MtlsDnsKeys(c), d.mtlsDns, c);
    r' := r.(keyauth := keyauth, basic := basic, identity := identity, hmac := hmac, mtls := mtls, mtlsDns := mtlsDns);
  }

  method RestoreShadowed(x: Inner, ghost flat: map<ResourceId, Consumer>, left: seq<Consumer>, d: Departed)
    returns (r: Inner)
    requires Represents(x.hmac, flat)
    ensures RestoredMaps(r, x, flat, left, d)
  {
    r := x;
    if d == Departed([], [], [], [], [], []) {
      NothingToRestore(x.keyauth, KeyauthKeys, left);
      NothingToRestore(x.basic, BasicKeys, left);
      NothingToRestore(x.identity, Names, left);
      NothingToRestore(flat, HmacKeys, left);
      NothingToRestore(x.mtls, MtlsKeys, left);
      NothingToRestore(x.mtlsDns, MtlsDnsKeys, left);
      return;
    }
    for i := 0 to |left|
      invariant RestoredMaps(r, x, flat, left[..i], d)
    {
      r := RestoreOne(r, x, flat, left, d, i);
    }
    assert left[..|left|] == left;
  }

  /** Everything owned by departing consumers leaves the maps, and what it shadowed comes back. */
  method RemoveDeparted(x: Inner, gone: set<ResourceId>, d: Departed) returns (r: Inner)
    requires MapsOf(x, x.all) && DepartedFrom(d, x.all, gone)
    ensures MapsOf(r, Survivors(x.all, gone)) && r.jwtCount == x.jwtCount && r.hmacCount == x.hmacCount
  {
    var cs, left := x.all, Survivors(x.all, gone);
    var keyauth := PruneAll(x.keyauth, d.keyauth, gone);
    var basic := PruneAll(x.basic, d.basic, gone);
    var identity := PruneAll(x.identity, d.identity, gone);
    var hmac := PruneHmac(x.hmac, d.hmac, gone, Latest(HmacKeys, cs));
    var mtls := PruneAll(x.mtls, d.mtls, gone);
    var mtlsDns := PruneAll(x.mtlsDns, d.mtlsDns, gone);
    var pruned := Inner(keyauth, basic, identity, hmac, mtls, mtlsDns, left, x.jwtCount, x.hmacCount);
    r := RestoreShadowed(pruned, Pruned(Latest(HmacKeys, cs), d.hmac, gone), left, d);
    PatchIsRebuild(KeyauthKeys, cs, gone);
    PatchIsRebuild(BasicKeys, cs, gone);
    PatchIsRebuild(Names, cs, gone);
    PatchIsRebuild(HmacKeys, cs, gone);
    PatchIsRebuild(MtlsKeys, cs, gone);
    PatchIsRebuild(MtlsDnsKeys, cs, gone);
  }

  function IdsOf(cs: seq<Consumer>): set<ResourceId> { set c | c in cs :: IdOf(c) }

  /** Removed and modified consumers alike leave the old list. */
  function Leaving(removed: seq<ResourceId>, modified: seq<Consumer>): set<ResourceId> {
    (set k | k in removed) + IdsOf(modified)
  }

  /** The consumer list a delta leads to. */
  function Patched(cs: seq<Consumer>, added: seq<Consumer>, removed: seq<ResourceId>,
                   modified: seq<Consumer>): seq<Consumer>
  {
    Survivors(cs, Leaving(removed, modified)) + added + modified
  }

  lemma {:induction false} NobodyLeaves(cs: seq<Consumer>)
    ensures Survivors(cs, {}) == cs
  {
    if cs != [] {
      NobodyLeaves(cs[..|cs| - 1]);
    }
  }

  lemma EmptyDelta(cs: seq<Consumer>)
    ensures Patched(cs, [], [], []) == cs
  {
    assert Leaving([], []) == {};
    NobodyLeaves(cs);
  }

  lemma PatchedSplits(cs: seq<Consumer>, added: seq<Consumer>, removed: seq<ResourceId>, modified: seq<Consumer>)
    ensures Survivors(cs, Leaving(removed, modified)) + (added + modified) == Patched(cs, added, removed, modified)
  {
  }

  lemma JoinedOneMore(all: seq<Consumer>, joining: seq<Consumer>, i: nat, kind: string)
    requires i < |joining|
    ensures all + joining[..i + 1] == all + joining[..i] + [joining[i]]
    ensures Total(kind, all + joining[..i + 1])
            == Total(kind, all + joining[..i]) + |CredentialEntries(joining[i], kind)|
  {
    assert all + joining[..i + 1] == all + joining[..i] + [joining[i]];
    TotalAfter(kind, all + joining[..i], joining[i]);
  }

  ghost predicate Adds(kind: string, all: seq<Consumer>, all': seq<Consumer>, n: int) {
    Total(kind, all') == Total(kind, all) + n
  }

  /** The newcomers indexed and their credentials counted. */
  method AddNewcomers(x: Inner, joining: seq<Consumer>) returns (r: Inner, jwt: nat, hmac: nat)
    requires MapsOf(x, x.all)
    ensures MapsOf(r, x.all + joining)
    ensures Adds("jwt", x.all, x.all + joining, jwt) && Adds("hmac_auth", x.all, x.all + joining, hmac)
  {
    r, jwt, hmac := x, 0, 0;
    assert x.all + joining[..0] == x.all;
    for i := 0 to |joining|
      invariant MapsOf(r, x.all + joining[..i])
      invariant Adds("jwt", x.all, x.all + joining[..i], jwt) && Adds("hmac_auth", x.all, x.all + joining[..i], hmac)
    {
      var c := joining[i];
      JoinedOneMore(x.all, joining, i, "jwt");
      JoinedOneMore(x.all, joining, i, "hmac_auth");
      jwt := jwt + |CredentialEntries(c, "jwt")|;
      hmac := hmac + |CredentialEntries(c, "hmac_auth")|;
      r := AddConsumer(r, c);
    }
    assert joining[..|joining|] == joining;
  }

  /** The old list without those that leave; nothing to do when nobody does. */
  method RemoveLeaving(x: Inner, gone: set<ResourceId>) returns (r: Inner, jwt: int, hmac: int)
    requires MapsOf(x, x.all)
    ensures MapsOf(r, Survivors(x.all, gone))
    ensures Adds("jwt", x.all, Survivors(x.all, gone), jwt) && Adds("hmac_auth", x.all, Survivors(x.all, gone), hmac)
  {
    if gone == {} {
      NobodyLeaves(x.all);
      return x, 0, 0;
    }
    var d, j, h := CollectDeparted(x.all, gone);
    r := RemoveDeparted(x, gone, d);
    jwt, hmac := j, h;
  }

  function AtLeastZero(n: int): nat { if n < 0 then 0 else n }

  /** The patched index is the index of the patched list, whatever the delta. */
  method ApplyDelta(x: Inner, added: seq<Consumer>, removed: seq<ResourceId>, modified: seq<Consumer>)
    returns (r: Inner)
    requires IsIndexOf(x, x.all)
    ensures IsIndexOf(r, Patched(x.all, added, removed, modified))
  {
    if added == [] && removed == [] && modified == [] {
      EmptyDelta(x.all);
      return x;
    }
    var left, jwtGone, hmacGone := RemoveLeaving(x, Leaving(removed, modified));
    var y, jwtNew, hmacNew := AddNewcomers(left, added + modified);
    PatchedSplits(x.all, added, removed, modified);
    r := y.(jwtCount := AtLeastZero(x.jwtCount + jwtGone + jwtNew),
            hmacCount := AtLeastZero(x.hmacCount + hmacGone + hmacNew));
  }

  /** The published index; readers see one snapshot, writers replace it whole. */
  class ConsumerIndex {
    var inner: Inner

    ghost predicate Valid() reads this { IsIndexOf(inner, inner.all) }

    constructor (consumers: seq<Consumer>)
      ensures Valid() && inner.all == consumers
    {
      inner := Inner(map[], map[], map[], map[], map[], map[], [], 0, 0);
      new;
      inner := BuildIndex(consumers);
    }

    method Rebuild(consumers: seq<Consumer>)
      modifies this
      ensures Valid() && inner.all == consumers
    {
      inner := BuildIndex(consumers);
    }

    method Apply(added: seq<Consumer>, removed: seq<ResourceId>, modified: seq<Consumer>)
      requires Valid()
      modifies this
      ensures Valid() && inner.all == Patched(old(inner.all), added, removed, modified)
    {
      inner := ApplyDelta(inner, added, removed, modified);
    }

    // Each lookup finds the last consumer of the list that has the key, and nobody else.

    function FindByApiKey(key: string): (r: Option<Consumer>)
      requires Valid()
      reads this
      ensures r == LastHolder(KeyauthKeys, inner.all, key)
    {
      LookupIsLastHolder(KeyauthKeys, inner.all, key);
      Get(inner.keyauth, key)
    }

    function FindByUsername(name: string): (r: Option<Consumer>)
      requires Valid()
      reads this
      ensures r == LastHolder(BasicKeys, inner.all, name)
    {
      LookupIsLastHolder(BasicKeys, inner.all, name);
      Get(inner.basic, name)
    }

    function FindByIdentity(identity: string): (r: Option<Consumer>)
      requires Valid()
      reads this
      ensures r == LastHolder(Names, inner.all, identity)
    {
      LookupIsLastHolder(Names, inner.all, identity);
      Get(inner.identity, identity)
    }

    function FindHmacByIdentity(namespace: string, identity: string): (r: Option<Consumer>)
      requires Valid()
      reads this
      ensures r == LastHolder(HmacKeys, inner.all, (namespace, identity))
    {
      LookupIsLastHolder(HmacKeys, inner.all, (namespace, identity));
      At(inner.hmac, (namespace, identity))
    }

    function FindByMtlsIdentity(identity: string): (r: Option<Consumer>)
      requires Valid()
      reads this
      ensures r == LastHolder(MtlsKeys, inner.all, identity)
    {
      LookupIsLastHolder(MtlsKeys, inner.all, identity);
      Get(inner.mtls, identity)
    }

    function FindByMtlsDnsIdentity(identity: string): (r: Option<Consumer>)
      requires Valid()
      reads this
      ensures r == LastHolder(MtlsDnsKeys, inner.all, identity)
    {
      LookupIsLastHolder(MtlsDnsKeys, inner.all, identity);
      Get(inner.mtlsDns, identity)
    }
  }
}
