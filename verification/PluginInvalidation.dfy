/** Which proxies must rebuild their plugin lists after a configuration change, and why no other proxy needs to. */
module PluginInvalidation {
  import opened Basics
  import opened Index = ConsumerIndex
  import opened ConfigDelta

  datatype Scope = Global | Proxied | ProxyGroup

  /** `rest` stands for the remaining operator-owned fields. */
  datatype PluginConfig = PluginConfig(id: string, namespace: string, scope: Scope, proxyId: Option<string>, rest: Json,
                                       createdAt: int, updatedAt: int)

  /** `plugins` are association ids; `stream` is derived and never serialized; `rest` is the persisted row. */
  datatype Proxy = Proxy(id: string, namespace: string, plugins: seq<string>, stream: bool, rest: Json, createdAt: int,
                         updatedAt: int)

  datatype Snapshot = Snapshot(proxies: seq<Proxy>, configs: seq<PluginConfig>)

  function ConfigKey(c: PluginConfig): ResourceId { (c.namespace, c.id) }
  function ProxyKey(p: Proxy): ResourceId { (p.namespace, p.id) }

  predicate ConfigChanged(n: PluginConfig, o: PluginConfig) {
    n.updatedAt != o.updatedAt || n.(createdAt := 0, updatedAt := 0) != o.(createdAt := 0, updatedAt := 0)
  }

  /** Only stream-family proxies compare their own row, associations and derived state aside. */
  predicate ProxyChanged(n: Proxy, o: Proxy) {
    || n.updatedAt != o.updatedAt
    || ((n.stream || o.stream) && Row(n) != Row(o))
  }

  function Row(p: Proxy): Proxy { p.(plugins := [], stream := false, createdAt := 0, updatedAt := 0) }

  /** Equal as sorted lists. */
  predicate SameAssociations(p: Proxy, q: Proxy) { multiset(p.plugins) == multiset(q.plugins) }

  predicate Reassociated(before: seq<Proxy>, p: Proxy) {
    Known(ProxyKey, before, ProxyKey(p)) && !SameAssociations(Version(ProxyKey, before, ProxyKey(p)), p)
  }

  function ReassociatedIds(before: seq<Proxy>, after: seq<Proxy>): seq<ResourceId> {
    KeyList(ProxyKey, Filter((p: Proxy) => Reassociated(before, p), after))
  }

  datatype Delta = Delta(addedProxies: seq<Proxy>, modifiedProxies: seq<Proxy>, reassociated: seq<ResourceId>,
                         added: seq<PluginConfig>, removed: seq<ResourceId>, modified: seq<PluginConfig>,
                         globalsChanged: bool)

  function Globals(configs: seq<PluginConfig>): set<ResourceId> {
    set c | c in configs && c.scope == Global :: ConfigKey(c)
  }

  function Compute(before: Snapshot, after: Snapshot): Delta {
    var added := DiffAdded(ConfigKey, before.configs, after.configs);
    var removed := DiffRemovedIds(ConfigKey, before.configs, after.configs);
    var modified := DiffModified(ConfigKey, ConfigChanged, before.configs, after.configs);
    var globals := Globals(before.configs);
    Delta(DiffAdded(ProxyKey, before.proxies, after.proxies),
          DiffModified(ProxyKey, ProxyChanged, before.proxies, after.proxies),
          ReassociatedIds(before.proxies, after.proxies),
          added, removed, modified,
          || (exists c :: c in added && c.scope == Global)
          || (exists c :: c in modified && (c.scope == Global || ConfigKey(c) in globals))
          || (exists k :: k in removed && k in globals))
  }

  // ----- the rebuild set -----

  predicate ConfigsChanged(d: Delta) { d.added != [] || d.removed != [] || d.modified != [] }

  function ChangedKeys(d: Delta): set<ResourceId> {
    Keys(ConfigKey, d.added) + (set k | k in d.removed) + Keys(ConfigKey, d.modified)
  }

  /** The proxy a configuration names directly, in its own namespace. */
  predicate Targets(c: PluginConfig, k: ResourceId) { c.proxyId.Some? && (c.namespace, c.proxyId.value) == k }

  predicate Refers(p: Proxy, keys: set<ResourceId>) { exists id :: id in p.plugins && (p.namespace, id) in keys }

  predicate Touched(d: Delta, before: Snapshot, p: Proxy) {
    var (k, keys) := (ProxyKey(p), ChangedKeys(d));
    || Refers(p, keys)
    || (Known(ProxyKey, before.proxies, k) && Refers(Version(ProxyKey, before.proxies, k), keys))
    || (exists c :: c in before.configs && ConfigKey(c) in keys && Targets(c, k))
    || (exists c :: c in d.added + d.modified && Targets(c, k))
  }

  predicate RebuildAll(d: Delta) { d.globalsChanged || d.removed != [] }

  /** The set a reader would write down. */
  function RebuildSet(d: Delta, before: Snapshot, after: Snapshot): set<ResourceId> {
    Keys(ProxyKey, d.addedProxies) + Keys(ProxyKey, d.modifiedProxies) + (set k | k in d.reassociated) +
    if !ConfigsChanged(d) then {}
    else set p | p in after.proxies && (RebuildAll(d) || Touched(d, before, p)) :: ProxyKey(p)
  }

  method InsertKeys(ids: set<ResourceId>, proxies: seq<Proxy>) returns (r: set<ResourceId>)
    ensures r == ids + Keys(ProxyKey, proxies)
  {
    r := ids;
    for i := 0 to |proxies|
      invariant r == ids + Keys(ProxyKey, proxies[..i])
    {
      KeysGrow(ProxyKey, proxies, i);
      r := r + {ProxyKey(proxies[i])};
    }
    assert proxies[..|proxies|] == proxies;
  }

  method InsertTouched(ids: set<ResourceId>, d: Delta, before: Snapshot, proxies: seq<Proxy>)
    returns (r: set<ResourceId>)
    ensures r == ids + set p | p in proxies && Touched(d, before, p) :: ProxyKey(p)
  {
    r := ids;
    for i := 0 to |proxies|
      invariant r == ids + set p | p in proxies[..i] && Touched(d, before, p) :: ProxyKey(p)
    {
      assert proxies[..i + 1] == proxies[..i] + [proxies[i]];
      if Touched(d, before, proxies[i]) {
        r := r + {ProxyKey(proxies[i])};
      }
    }
    assert proxies[..|proxies|] == proxies;
  }

  /** The same set grown list by list. */
  method RebuildIds(d: Delta, before: Snapshot, after: Snapshot) returns (ids: set<ResourceId>)
    ensures ids == RebuildSet(d, before, after)
  {
    ids := InsertKeys({}, d.addedProxies);
    ids := InsertKeys(ids, d.modifiedProxies);
    ids := ids + set k | k in d.reassociated;
    if ConfigsChanged(d) {
      ids := InsertTouched(ids, d, before, after.proxies);
      if RebuildAll(d) {
        ids := InsertKeys(ids, after.proxies);
      }
    }
  }

  lemma KeysGrow<T>(key: T -> ResourceId, xs: seq<T>, i: nat)
    requires i < |xs|
    ensures Keys(key, xs[..i + 1]) == Keys(key, xs[..i]) + {key(xs[i])}
  {
    assert xs[..i + 1] == xs[..i] + [xs[i]];
    KeysOfConcat(key, xs[..i], [xs[i]]);
    assert xs[i] in [xs[i]];
  }

  // ----- soundness -----

  function Undated(c: PluginConfig): PluginConfig { c.(createdAt := 0) }

  /** What a proxy's plugin list is made of, up to creation times. */
  datatype Inputs = Inputs(globals: set<PluginConfig>, associations: multiset<string>, associated: set<PluginConfig>,
                           direct: set<PluginConfig>)

  function InputsOf(s: Snapshot, p: Proxy): Inputs {
    Inputs(set c | c in s.configs && c.scope == Global :: Undated(c),
           multiset(p.plugins),
           set c | c in s.configs && c.namespace == p.namespace && c.id in p.plugins :: Undated(c),
           set c | c in s.configs && Targets(c, ProxyKey(p)) :: Undated(c))
  }

  /** A property of a configuration that creation times do not affect and a rebuild would have noticed a change of. */
  ghost predicate Stable(d: Delta, before: Snapshot, after: Snapshot, p: PluginConfig -> bool) {
    && (forall c :: p(Undated(c)) == p(c))
    && (forall c :: c in d.added + d.modified ==> !p(c))
    && (forall c :: c in before.configs && ConfigKey(c) in ChangedKeys(d) ==> !p(c))
  }

  lemma UnchangedConfig(n: PluginConfig, o: PluginConfig)
    requires !ConfigChanged(n, o)
    ensures Undated(n) == Undated(o)
  {
    assert n.(createdAt := 0, updatedAt := 0).(updatedAt := n.updatedAt) == Undated(n);
    assert o.(createdAt := 0, updatedAt := 0).(updatedAt := o.updatedAt) == Undated(o);
  }

  /** Such configurations are the same in both snapshots. */
  lemma StableIsForward(before: Snapshot, after: Snapshot, p: PluginConfig -> bool, n: PluginConfig)
    returns (o: PluginConfig)
    requires Stable(Compute(before, after), before, after, p) && n in after.configs && p(n)
    ensures o in before.configs && p(o) && Undated(o) == Undated(n)
  {
    var d := Compute(before, after);
    DiffsAre(ConfigKey, ConfigChanged, before.configs, after.configs, n);
    assert n !in d.added + d.modified;
    VersionIs(ConfigKey, before.configs, ConfigKey(n));
    o := Version(ConfigKey, before.configs, ConfigKey(n));
    UnchangedConfig(n, o);
    assert p(Undated(o)) == p(o) && p(Undated(n)) == p(n);
  }

  lemma StableIsBackward(before: Snapshot, after: Snapshot, p: PluginConfig -> bool, o: PluginConfig)
    returns (n: PluginConfig)
    requires Unique(ConfigKey, before.configs) && Stable(Compute(before, after), before, after, p)
             && o in before.configs && p(o)
    ensures n in after.configs && p(n) && Undated(o) == Undated(n)
  {
    var d := Compute(before, after);
    RemovedAre(ConfigKey, before.configs, after.configs, ConfigKey(o));
    assert ConfigKey(o) in Keys(ConfigKey, before.configs);
    n := KeyHolder(ConfigKey, after.configs, ConfigKey(o));
    DiffsAre(ConfigKey, ConfigChanged, before.configs, after.configs, n);
    VersionIs(ConfigKey, before.configs, ConfigKey(n));
    SameKeySameResource(ConfigKey, before.configs, Version(ConfigKey, before.configs, ConfigKey(n)), o);
    assert n in d.modified ==> ConfigKey(o) in Keys(ConfigKey, d.modified);
    UnchangedConfig(n, o);
    assert p(Undated(o)) == p(o) && p(Undated(n)) == p(n);
  }

  function Selected(configs: seq<PluginConfig>, p: PluginConfig -> bool): set<PluginConfig> {
    set c | c in configs && p(c) :: Undated(c)
  }

  lemma StableIsSame(before: Snapshot, after: Snapshot, p: PluginConfig -> bool)
    requires Unique(ConfigKey, before.configs) && Stable(Compute(before, after), before, after, p)
    ensures Selected(before.configs, p) == Selected(after.configs, p)
  {
    forall x | x in Selected(before.configs, p) ensures x in Selected(after.configs, p) {
      var o :| o in before.configs && p(o) && Undated(o) == x;
      var n := StableIsBackward(before, after, p, o);
    }
    forall x | x in Selected(after.configs, p) ensures x in Selected(before.configs, p) {
      var n :| n in after.configs && p(n) && Undated(n) == x;
      var o := StableIsForward(before, after, p, n);
    }
  }

  lemma ReassociatedAre(before: seq<Proxy>, after: seq<Proxy>, p: Proxy)
    requires p in after && Reassociated(before, p)
    ensures ProxyKey(p) in ReassociatedIds(before, after)
  {
    var f := (p: Proxy) => Reassociated(before, p);
    FilterKeeps(f, after, p);
    var kept := Filter(f, after);
    var i :| 0 <= i < |kept| && kept[i] == p;
    assert KeyList(ProxyKey, kept)[i] == ProxyKey(p);
  }

  function IsGlobal(): PluginConfig -> bool { (c: PluginConfig) => c.scope == Global }
  function IsAssociated(p: Proxy): PluginConfig -> bool {
    (c: PluginConfig) => c.namespace == p.namespace && c.id in p.plugins
  }
  function IsDirect(k: ResourceId): PluginConfig -> bool { (c: PluginConfig) => Targets(c, k) }

  /** An old configuration whose key changed, when none was removed, has a modified new version. */
  lemma ChangedIsModified(before: Snapshot, after: Snapshot, c: PluginConfig) returns (n: PluginConfig)
    requires c in before.configs && ConfigKey(c) in ChangedKeys(Compute(before, after))
             && Compute(before, after).removed == []
    ensures n in Compute(before, after).modified && ConfigKey(n) == ConfigKey(c)
  {
    var d := Compute(before, after);
    assert ConfigKey(c) in Keys(ConfigKey, before.configs);
    if ConfigKey(c) in Keys(ConfigKey, d.added) {
      var x := KeyHolder(ConfigKey, d.added, ConfigKey(c));
      DiffsAre(ConfigKey, ConfigChanged, before.configs, after.configs, x);
    }
    n := KeyHolder(ConfigKey, d.modified, ConfigKey(c));
  }

  lemma GlobalsAreStable(before: Snapshot, after: Snapshot)
    requires var d := Compute(before, after); !ConfigsChanged(d) || !RebuildAll(d)
    ensures Stable(Compute(before, after), before, after, IsGlobal())
  {
    var d := Compute(before, after);
    forall c | c in before.configs && ConfigKey(c) in ChangedKeys(d) ensures !IsGlobal()(c) {
      var n := ChangedIsModified(before, after, c);
      assert c.scope == Global ==> ConfigKey(n) in Globals(before.configs);
    }
  }

  lemma KeysHold(xs: seq<PluginConfig>, c: PluginConfig)
    requires c in xs
    ensures ConfigKey(c) in Keys(ConfigKey, xs)
  {
  }

  lemma AssociatedAreStable(before: Snapshot, after: Snapshot, p: Proxy)
    requires var d := Compute(before, after); !ConfigsChanged(d) || !Refers(p, ChangedKeys(d))
    ensures Stable(Compute(before, after), before, after, IsAssociated(p))
  {
    var d := Compute(before, after);
    forall c | c in d.added + d.modified ensures ConfigKey(c) in ChangedKeys(d) {
      if c in d.added { KeysHold(d.added, c); } else { KeysHold(d.modified, c); }
    }
    forall c | ConfigKey(c) in ChangedKeys(d) ensures !IsAssociated(p)(c) {
      assert (p.namespace, c.id) in ChangedKeys(d) || c.namespace != p.namespace;
    }
  }

  lemma DirectAreStable(before: Snapshot, after: Snapshot, p: Proxy)
    requires var d := Compute(before, after); !ConfigsChanged(d) || !Touched(d, before, p)
    ensures Stable(Compute(before, after), before, after, IsDirect(ProxyKey(p)))
  {
  }

  /** The proxy has an unchanged old version with the same associations and the same plugin inputs. */
  predicate SameInputs(before: Snapshot, after: Snapshot, p: Proxy) {
    && Known(ProxyKey, before.proxies, ProxyKey(p))
    && var q := Version(ProxyKey, before.proxies, ProxyKey(p));
       q in before.proxies && !ProxyChanged(p, q) && InputsOf(before, q) == InputsOf(after, p)
  }

  /** Every proxy of the new snapshot is in the rebuild set, or its plugin inputs are what they were. */
  lemma InvalidationIsSound(before: Snapshot, after: Snapshot, p: Proxy)
    requires Unique(ConfigKey, before.configs) && p in after.proxies
    ensures ProxyKey(p) in RebuildSet(Compute(before, after), before, after) || SameInputs(before, after, p)
  {
    if ProxyKey(p) !in RebuildSet(Compute(before, after), before, after) {
      DiffsAre(ProxyKey, ProxyChanged, before.proxies, after.proxies, p);
      VersionIs(ProxyKey, before.proxies, ProxyKey(p));
      var q := Version(ProxyKey, before.proxies, ProxyKey(p));
      if Reassociated(before.proxies, p) {
        ReassociatedAre(before.proxies, after.proxies, p);
      }
      GlobalsAreStable(before, after);
      AssociatedAreStable(before, after, p);
      DirectAreStable(before, after, p);
      StableIsSame(before, after, IsGlobal());
      StableIsSame(before, after, IsAssociated(p));
      StableIsSame(before, after, IsDirect(ProxyKey(p)));
      InputsAreSelections(after, p, p);
      InputsAreSelections(before, q, p);
    }
  }

  lemma InputsAreSelections(s: Snapshot, q: Proxy, p: Proxy)
    requires ProxyKey(q) == ProxyKey(p) && SameAssociations(q, p)
    ensures InputsOf(s, q) == Inputs(Selected(s.configs, IsGlobal()), multiset(p.plugins),
                                     Selected(s.configs, IsAssociated(p)),
                                     Selected(s.configs, IsDirect(ProxyKey(p))))
  {
    forall id ensures id in q.plugins <==> id in p.plugins {
      assert id in multiset(q.plugins) <==> id in multiset(p.plugins);
    }
  }
}
