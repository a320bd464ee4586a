/**
 The data plane's stale-configuration fence.

 One applier records applied snapshots at non-decreasing times, any number of evaluators compute verdicts at times of
 their own, and control-plane events change the authority; every atomic access is one step.
 */
module ConfigFreshness {
  import opened Basics
  import opened Traces

  datatype Authority = Connected | Reconnecting | Lost

  /** `maxStale` in nanoseconds, zero disabling the bound. */
  datatype Config = Config(maxStale: nat, failClosed: bool, publishes: bool)

  const NANOS_PER_MILLI: nat := 1_000_000

  /** Monotonic offset from the epoch in milliseconds, plus one. */
  function Stamp(now: nat): nat { now / NANOS_PER_MILLI + 1 }

  /** Age of the snapshot applied at `stamp`; zero means none yet, aged from the epoch. */
  function AgeFrom(stamp: nat, now: nat): nat {
    if stamp == 0 then now else SaturatingSub(now, (stamp - 1) * NANOS_PER_MILLI)
  }

  // ----- words: generation << 1 | bit -----

  function GenOf(word: nat): nat { word / 2 }
  predicate Marked(word: nat) { word % 2 == 1 }
  function Unmarked(word: nat): nat { word / 2 * 2 }
  /** The admission word a state word stands for. */
  function Verdict(cfg: Config, word: nat): nat {
    Unmarked(word) + (if Marked(word) && cfg.failClosed then 1 else 0)
  }

  // ----- shared memory -----

  /** Why a generation was latched stale (history). */
  datatype Latch = Latch(gen: nat, authority: Authority, now: nat)

  /** `stamps[g]` is the stamp of generation `g` and `latches` what was latched; both are history. */
  datatype Shared = Shared(word: nat, applied: nat, authority: Authority, admission: nat, global: nat,
                           stamps: seq<nat>, latches: set<Latch>)

  datatype Pc =
    | Load | LoadApplied(seen: nat) | LoadAuthority(seen: nat, stamp: nat) | TryLatch(seen: nat, authority: Authority)
    | Reload(state: nat)
    | Publish(word: nat) | PublishCas(word: nat, seen: nat)
    | PublishGlobal(word: nat) | PublishGlobalCas(word: nat, seen: nat)
    | Finished

  /** An evaluation at time `now`; `start` is the generation when it began (history). */
  datatype Eval = Eval(pc: Pc, now: nat, start: nat)

  datatype ApplierPc = Resting | Storing(stamp: nat) | Bumping(now: nat) | Evaluating

  /** Evaluation 0 belongs to the applier; `clock` and `returned` are history of its calls. */
  datatype State = State(shared: Shared, evals: map<nat, Eval>, applier: ApplierPc, clock: nat, returned: nat)

  // ----- steps -----

  /** `should_latch`, after the loads of `applied` and of the authority. */
  function Judge(cfg: Config, s: Shared, e: Eval, seen: nat, stamp: nat): Pc {
    if cfg.maxStale != 0 && s.authority == Lost && AgeFrom(stamp, e.now) >= cfg.maxStale
    then TryLatch(seen, s.authority) else Reload(seen)
  }

  /** `publish_monotonic` having observed `seen`. */
  function PublishSeen(cfg: Config, word: nat, seen: nat): Pc {
    if word > seen then PublishCas(word, seen) else if cfg.publishes then PublishGlobal(word) else Finished
  }

  function PublishGlobalSeen(word: nat, seen: nat): Pc {
    if word > seen then PublishGlobalCas(word, seen) else Finished
  }

  function MoveEval(cfg: Config, s: Shared, e: Eval, spurious: bool): (Shared, Eval) {
    match e.pc
    case Load => (s, e.(pc := if Marked(s.word) then Reload(s.word) else LoadApplied(s.word)))
    case LoadApplied(seen) => (s, e.(pc := LoadAuthority(seen, s.applied)))
    case LoadAuthority(seen, stamp) => (s, e.(pc := Judge(cfg, s, e, seen, stamp)))
    case TryLatch(seen, authority) =>
      if s.word == seen
      then (s.(word := seen + 1, latches := s.latches + {Latch(GenOf(seen), authority, e.now)}),
            e.(pc := Reload(seen + 1)))
      else (s, e.(pc := Load))
    case Reload(state) => (s, e.(pc := Publish(Verdict(cfg, Max(state, s.word)))))
    case Publish(word) => (s, e.(pc := PublishSeen(cfg, word, s.admission)))
    case PublishCas(word, seen) =>
      if s.admission == seen && !spurious
      then (s.(admission := word), e.(pc := if cfg.publishes then PublishGlobal(word) else Finished))
      else (s, e.(pc := PublishSeen(cfg, word, s.admission)))
    case PublishGlobal(word) => (s, e.(pc := PublishGlobalSeen(word, s.global)))
    case PublishGlobalCas(word, seen) =>
      if s.global == seen && !spurious then (s.(global := word), e.(pc := Finished))
      else (s, e.(pc := PublishGlobalSeen(word, s.global)))
    case Finished => (s, e)
  }

  datatype Action =
    | Applies(now: nat) | ApplierMoves
    | Evaluates(t: nat, now: nat) | EvalMoves(t: nat, spurious: bool)
    | Connects | Reconnects | Loses

  function Initial(): State { State(Shared(0, 0, Lost, 0, 0, [0], {}), map[], Resting, 0, 0) }

  function MoveApplier(s: State): State {
    match s.applier
    case Resting => s
    case Storing(stamp) => s.(shared := s.shared.(applied := stamp), applier := Bumping(s.clock))
    case Bumping(now) =>
      var b := s.shared.(word := (GenOf(s.shared.word) + 1) * 2, stamps := s.shared.stamps + [s.shared.applied]);
      s.(shared := b, applier := Evaluating, evals := s.evals[0 := Eval(Load, now, GenOf(b.word))])
    case Evaluating =>
      if 0 in s.evals && s.evals[0].pc == Finished then s.(applier := Resting, returned := s.evals[0].start) else s
  }

  function Step(cfg: Config, s: State, a: Action): State {
    match a
    case Applies(now) =>
      if s.applier == Resting && s.clock <= now then s.(applier := Storing(Stamp(now)), clock := now) else s
    case ApplierMoves => MoveApplier(s)
    case Evaluates(t, now) =>
      if t == 0 || t in s.evals then s else s.(evals := s.evals[t := Eval(Load, now, GenOf(s.shared.word))])
    case EvalMoves(t, spurious) =>
      if t !in s.evals then s
      else
        var (b, e) := MoveEval(cfg, s.shared, s.evals[t], spurious);
        s.(shared := b, evals := s.evals[t := e])
    case Connects => s.(shared := s.shared.(authority := Connected))
    case Reconnects =>
      if s.shared.authority == Connected then s.(shared := s.shared.(authority := Reconnecting)) else s
    case Loses => s.(shared := s.shared.(authority := Lost))
  }

  function Run(cfg: Config, acts: seq<Action>): State {
    if acts == [] then Initial() else Step(cfg, Run(cfg, acts[..|acts| - 1]), acts[|acts| - 1])
  }

  // ----- invariant -----

  /** The latched generation had outlived the bound, seen with no authoritative control plane. */
  predicate Justified(cfg: Config, s: Shared, l: Latch) {
    && l.gen < |s.stamps| && l.authority == Lost
    && cfg.maxStale != 0 && AgeFrom(s.stamps[l.gen], l.now) >= cfg.maxStale
  }

  /** A published or publishable word: not above the state, and blocking only for a latched generation. */
  ghost predicate WordOk(s: Shared, word: nat) {
    word <= s.word && (Marked(word) ==> exists l :: l in s.latches && l.gen == GenOf(word))
  }

  ghost predicate EvalOk(cfg: Config, s: Shared, e: Eval) {
    && e.start <= GenOf(s.word)
    && match e.pc
       case Load => true
       case LoadApplied(seen) => Seen(s, e, seen)
       case LoadAuthority(seen, stamp) => Seen(s, e, seen) && s.stamps[GenOf(seen)] <= stamp
       case TryLatch(seen, authority) => Seen(s, e, seen) && Justified(cfg, s, Latch(GenOf(seen), authority, e.now))
       case Reload(state) => e.start <= GenOf(state) && WordOk(s, state)
       case Publish(word) => e.start <= GenOf(word) && WordOk(s, word)
       case PublishCas(word, seen) => e.start <= GenOf(word) && WordOk(s, word) && seen < word
       case PublishGlobal(word) => Recovered(s.admission, e) && WordOk(s, word) && e.start <= GenOf(word)
       case PublishGlobalCas(word, seen) =>
         Recovered(s.admission, e) && WordOk(s, word) && e.start <= GenOf(word) && seen < word
       case Finished => Recovered(s.admission, e) && (cfg.publishes ==> Recovered(s.global, e))
  }

  /** The slot already speaks about the generation the evaluation started from, or a newer one. */
  predicate Recovered(slot: nat, e: Eval) { e.start * 2 <= slot }

  predicate Seen(s: Shared, e: Eval, seen: nat) {
    !Marked(seen) && seen <= s.word && e.start <= GenOf(seen) < |s.stamps|
  }

  ghost predicate SharedOk(cfg: Config, s: Shared) {
    && |s.stamps| == GenOf(s.word) + 1
    && (forall i :: 0 <= i < |s.stamps| ==> s.stamps[i] <= s.applied)
    && WordOk(s, s.word) && WordOk(s, s.admission) && WordOk(s, s.global)
    && (forall l :: l in s.latches ==> Justified(cfg, s, l))
  }

  predicate ApplierOk(s: State) {
    match s.applier
    case Resting => s.shared.applied <= Stamp(s.clock)
    case Storing(stamp) => stamp == Stamp(s.clock) && s.shared.applied <= stamp
    case Bumping(now) => s.shared.applied <= Stamp(s.clock)
    case Evaluating => s.shared.applied <= Stamp(s.clock)
  }

  ghost predicate Inv(cfg: Config, s: State) {
    && SharedOk(cfg, s.shared)
    && ApplierOk(s)
    && (forall t :: t in s.evals ==> EvalOk(cfg, s.shared, s.evals[t]))
    && s.returned * 2 <= s.shared.admission
    && (cfg.publishes ==> s.returned * 2 <= s.shared.global)
  }

  /** How shared memory may change under an evaluation that is not moving. */
  ghost predicate Grows(s: Shared, s': Shared) {
    && s.word <= s'.word && s.admission <= s'.admission && s.global <= s'.global
    && s.stamps <= s'.stamps && s.latches <= s'.latches
  }

  lemma GrowthKeepsEval(cfg: Config, s: Shared, s': Shared, e: Eval)
    requires EvalOk(cfg, s, e) && Grows(s, s')
    ensures EvalOk(cfg, s', e)
  {
  }

  lemma AgeIsAntitone(stamp: nat, stamp': nat, now: nat)
    requires stamp <= stamp'
    ensures AgeFrom(stamp', now) <= AgeFrom(stamp, now)
  {
  }

  lemma VerdictOk(cfg: Config, s: Shared, state: nat)
    requires WordOk(s, state)
    ensures WordOk(s, Verdict(cfg, state)) && GenOf(Verdict(cfg, state)) == GenOf(state)
  {
  }

  ghost predicate EvalStep(cfg: Config, s: Shared, s': Shared, e': Eval) {
    SharedOk(cfg, s') && EvalOk(cfg, s', e') && Grows(s, s') && s'.stamps == s.stamps && s'.applied == s.applied
  }

  lemma LatchKept(cfg: Config, s: Shared, e: Eval, seen: nat, authority: Authority)
    requires SharedOk(cfg, s) && EvalOk(cfg, s, e) && e.pc == TryLatch(seen, authority) && s.word == seen
    ensures var l := Latch(GenOf(seen), authority, e.now);
            EvalStep(cfg, s, s.(word := seen + 1, latches := s.latches + {l}), e.(pc := Reload(seen + 1)))
  {
    var l := Latch(GenOf(seen), authority, e.now);
    var s' := s.(word := seen + 1, latches := s.latches + {l});
    assert GenOf(seen + 1) == GenOf(seen) && l in s'.latches;
  }

  lemma PublishKept(cfg: Config, s: Shared, e: Eval, spurious: bool)
    requires SharedOk(cfg, s) && EvalOk(cfg, s, e) && (e.pc.Publish? || e.pc.PublishCas?)
    ensures var (s', e') := MoveEval(cfg, s, e, spurious); EvalStep(cfg, s, s', e')
  {
  }

  lemma PublishGlobalKept(cfg: Config, s: Shared, e: Eval, spurious: bool)
    requires SharedOk(cfg, s) && EvalOk(cfg, s, e) && (e.pc.PublishGlobal? || e.pc.PublishGlobalCas?)
    ensures var (s', e') := MoveEval(cfg, s, e, spurious); EvalStep(cfg, s, s', e')
  {
  }

  lemma LoadKept(cfg: Config, s: Shared, e: Eval, spurious: bool)
    requires SharedOk(cfg, s) && EvalOk(cfg, s, e)
    requires e.pc.Load? || e.pc.LoadApplied? || e.pc.LoadAuthority? || e.pc.Reload?
    ensures MoveEval(cfg, s, e, spurious).0 == s && EvalOk(cfg, s, MoveEval(cfg, s, e, spurious).1)
  {
    if e.pc.LoadAuthority? {
      AgeIsAntitone(s.stamps[GenOf(e.pc.seen)], e.pc.stamp, e.now);
    } else if e.pc.Reload? {
      VerdictOk(cfg, s, Max(e.pc.state, s.word));
    }
  }

  lemma EvalKept(cfg: Config, s: Shared, e: Eval, spurious: bool)
    requires SharedOk(cfg, s) && EvalOk(cfg, s, e)
    ensures var (s', e') := MoveEval(cfg, s, e, spurious); EvalStep(cfg, s, s', e')
  {
    if e.pc.TryLatch? {
      if s.word == e.pc.seen {
        LatchKept(cfg, s, e, e.pc.seen, e.pc.authority);
      }
    } else if e.pc.Publish? || e.pc.PublishCas? {
      PublishKept(cfg, s, e, spurious);
    } else if e.pc.PublishGlobal? || e.pc.PublishGlobalCas? {
      PublishGlobalKept(cfg, s, e, spurious);
    } else if e.pc != Finished {
      LoadKept(cfg, s, e, spurious);
    }
  }

  lemma BumpKept(cfg: Config, s: Shared)
    requires SharedOk(cfg, s)
    ensures var s' := s.(word := (GenOf(s.word) + 1) * 2, stamps := s.stamps + [s.applied]);
            SharedOk(cfg, s') && Grows(s, s')
  {
    var s' := s.(word := (GenOf(s.word) + 1) * 2, stamps := s.stamps + [s.applied]);
    assert forall i :: 0 <= i < |s.stamps| ==> s'.stamps[i] == s.stamps[i];
  }

  /** A step that grows shared memory and leaves the other evaluations alone keeps the invariant. */
  lemma Replaced(cfg: Config, s: State, s': State)
    requires Inv(cfg, s) && Grows(s.shared, s'.shared)
    requires SharedOk(cfg, s'.shared) && ApplierOk(s')
    requires forall t :: t in s'.evals ==>
             EvalOk(cfg, s'.shared, s'.evals[t]) || (t in s.evals && s'.evals[t] == s.evals[t])
    requires s'.returned * 2 <= s'.shared.admission && (cfg.publishes ==> s'.returned * 2 <= s'.shared.global)
    ensures Inv(cfg, s')
  {
    forall t | t in s'.evals ensures EvalOk(cfg, s'.shared, s'.evals[t]) {
      if t in s.evals && s'.evals[t] == s.evals[t] {
        GrowthKeepsEval(cfg, s.shared, s'.shared, s.evals[t]);
      }
    }
  }

  lemma ApplierKept(cfg: Config, s: State)
    requires Inv(cfg, s)
    ensures Inv(cfg, MoveApplier(s)) && Grows(s.shared, MoveApplier(s).shared)
  {
    BumpKept(cfg, s.shared);
    Replaced(cfg, s, MoveApplier(s));
  }

  lemma StepKeepsInv(cfg: Config, s: State, a: Action)
    requires Inv(cfg, s)
    ensures Inv(cfg, Step(cfg, s, a)) && Grows(s.shared, Step(cfg, s, a).shared)
  {
    if a.ApplierMoves? {
      ApplierKept(cfg, s);
    } else {
      if a.EvalMoves? && a.t in s.evals {
        EvalKept(cfg, s.shared, s.evals[a.t], a.spurious);
      }
      Replaced(cfg, s, Step(cfg, s, a));
    }
  }

  lemma {:induction false} Reachable(cfg: Config, acts: seq<Action>)
    ensures Inv(cfg, Run(cfg, acts))
  {
    if acts != [] {
      Reachable(cfg, acts[..|acts| - 1]);
      StepKeepsInv(cfg, Run(cfg, acts[..|acts| - 1]), acts[|acts| - 1]);
    }
  }

  // ----- main results -----

  /** Every generation ever latched had outlived the bound, by its own stamp, under Lost authority. */
  lemma LatchesAreJustified(cfg: Config, acts: seq<Action>, l: Latch)
    requires l in Run(cfg, acts).shared.latches
    ensures Justified(cfg, Run(cfg, acts).shared, l)
  {
    Reachable(cfg, acts);
  }

  /** A stale state word, or a blocking admission word, always rests on such a latch of the generation it carries. */
  lemma StaleMeansLatched(cfg: Config, acts: seq<Action>, word: nat)
    requires var s := Run(cfg, acts).shared; word == s.word || word == s.admission || word == s.global
    requires Marked(word)
    ensures exists l ::
              && l in Run(cfg, acts).shared.latches && l.gen == GenOf(word)
              && Justified(cfg, Run(cfg, acts).shared, l)
  {
    Reachable(cfg, acts);
    var l :| l in Run(cfg, acts).shared.latches && l.gen == GenOf(word);
  }

  /** Over any run the words only grow, the history only extends, and the published words never pass the state word. */
  lemma {:induction false} WordsOnlyGrow(cfg: Config, acts: seq<Action>, i: nat, j: nat)
    requires i <= j <= |acts|
    ensures Grows(Run(cfg, acts[..i]).shared, Run(cfg, acts[..j]).shared)
    ensures var s := Run(cfg, acts[..j]).shared; s.admission <= s.word && s.global <= s.word
    decreases j
  {
    Reachable(cfg, acts[..j]);
    if i < j {
      WordsOnlyGrow(cfg, acts, i, j - 1);
      Reachable(cfg, acts[..j - 1]);
      assert acts[..j][..j - 1] == acts[..j - 1];
      StepKeepsInv(cfg, Run(cfg, acts[..j - 1]), acts[j - 1]);
    }
  }

  /** A stale generation stays stale, reconnects included, until a snapshot is applied. */
  lemma StaleIsSticky(cfg: Config, acts: seq<Action>, i: nat, j: nat)
    requires i <= j <= |acts| && Marked(Run(cfg, acts[..i]).shared.word)
    ensures var (w, w') := (Run(cfg, acts[..i]).shared.word, Run(cfg, acts[..j]).shared.word);
            w' == w || GenOf(w) < GenOf(w')
  {
    WordsOnlyGrow(cfg, acts, i, j);
  }

  /** Once an apply has returned, no verdict about an older generation can ever block traffic again. */
  lemma RecoveryCannotBeUndone(cfg: Config, acts: seq<Action>, i: nat, j: nat)
    requires i <= j <= |acts|
    ensures var (gen, s) := (Run(cfg, acts[..i]).returned, Run(cfg, acts[..j]).shared);
            && (Marked(s.admission) ==> gen <= GenOf(s.admission))
            && (cfg.publishes && Marked(s.global) ==> gen <= GenOf(s.global))
  {
    Reachable(cfg, acts[..i]);
    WordsOnlyGrow(cfg, acts, i, j);
  }

  /** One evaluation with nothing else moving. */
  function Alone(cfg: Config): ((Shared, Eval)) -> (Shared, Eval) {
    (x: (Shared, Eval)) => MoveEval(cfg, x.0, x.1, false)
  }

  /** The verdict published undisturbed into both slots. */
  lemma PublishAlone(cfg: Config, before: seq<(Shared, Eval)>, s: Shared, e: Eval, word: nat)
    returns (path: seq<(Shared, Eval)>)
    requires Path(Alone(cfg), before) && before[|before| - 1] == (s, e) && e.pc == Publish(word)
    ensures Path(Alone(cfg), path) && path[0] == before[0]
    ensures path[|path| - 1] == (s.(admission := Max(s.admission, word),
                                    global := if cfg.publishes then Max(s.global, word) else s.global),
                                 e.(pc := Finished))
  {
    path := Then(Alone(cfg), before, (s, e.(pc := PublishSeen(cfg, word, s.admission))));
    var s1 := s.(admission := Max(s.admission, word));
    if word > s.admission {
      path := Then(Alone(cfg), path, (s1, e.(pc := if cfg.publishes then PublishGlobal(word) else Finished)));
    }
    if cfg.publishes {
      path := Then(Alone(cfg), path, (s1, e.(pc := PublishGlobalSeen(word, s.global))));
      if word > s.global {
        path := Then(Alone(cfg), path, (s1.(global := word), e.(pc := Finished)));
      }
    }
  }

  predicate OverAge(cfg: Config, s: Shared, now: nat) {
    cfg.maxStale != 0 && s.authority == Lost && AgeFrom(s.applied, now) >= cfg.maxStale
  }

  /**
   An undisturbed evaluation latches exactly when the bound is enabled, authority is Lost and the snapshot is over age,
   and publishes the resulting verdict unless something newer is published.
   */
  lemma EvaluateAlone(cfg: Config, s: Shared, e: Eval) returns (path: seq<(Shared, Eval)>)
    requires e.pc == Load
    ensures Path(Alone(cfg), path) && path[0] == (s, e) && path[|path| - 1].1.pc == Finished
    ensures var s' := path[|path| - 1].0;
            && s'.word == (if Marked(s.word) || !OverAge(cfg, s, e.now) then s.word else s.word + 1)
            && s'.admission == Max(s.admission, Verdict(cfg, s'.word))
            && s'.global == (if cfg.publishes then Max(s.global, Verdict(cfg, s'.word)) else s.global)
  {
    var (s1, seen) := (s, s.word);
    if Marked(seen) {
      path := Then(Alone(cfg), [(s, e)], (s, e.(pc := Reload(seen))));
    } else {
      path := Then(Alone(cfg), [(s, e)], (s, e.(pc := LoadApplied(seen))));
      path := Then(Alone(cfg), path, (s, e.(pc := LoadAuthority(seen, s.applied))));
      if OverAge(cfg, s, e.now) {
        path := Then(Alone(cfg), path, (s, e.(pc := TryLatch(seen, Lost))));
        s1 := s.(word := seen + 1, latches := s.latches + {Latch(GenOf(seen), Lost, e.now)});
      }
      path := Then(Alone(cfg), path, (s1, e.(pc := Reload(s1.word))));
    }
    var word := Verdict(cfg, s1.word);
    path := Then(Alone(cfg), path, (s1, e.(pc := Publish(word))));
    path := PublishAlone(cfg, path, s1, e.(pc := Publish(word)), word);
  }
}
