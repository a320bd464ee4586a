/**
 One adaptive-concurrency target: the in-flight counter, the adaptive limit and the recovery epoch.

 Admission attempts and permit callbacks interleave at the level of single loads, stores and compare-exchanges under
 one fixed configuration.  Latency statistics are an input: a callback's verdict is chosen by the schedule.
 */
module AdaptiveLimit {
  import opened Basics
  import opened Counting
  import opened Traces

  datatype Config = Config(minLimit: nat, initialLimit: nat, maxLimit: nat, ratio: real, step: nat, shadow: bool)

  ghost predicate Valid(cfg: Config) {
    0 < cfg.minLimit <= cfg.initialLimit <= cfg.maxLimit && 0.0 < cfg.ratio < 1.0
  }

  function Clamp(cfg: Config, x: nat): (r: nat)
  {
    var low := if x < cfg.minLimit then cfg.minLimit else x;
    if low > cfg.maxLimit then cfg.maxLimit else low
  }

  /** `base` times the ratio, rounded down. */
  function Scaled(base: nat, ratio: real): nat
    requires 0.0 < ratio
  {
    (base as real * ratio).Floor
  }

  /** The multiplicative decrease from `base`. */
  function Decreased(cfg: Config, base: nat): nat
    requires 0.0 < cfg.ratio
  {
    Clamp(cfg, Scaled(base, cfg.ratio))
  }

  function Increased(cfg: Config, base: nat): nat { Clamp(cfg, base + cfg.step) }

  // ----- threads -----

  datatype BackoffPc = Observe | Invalidate(ceiling: nat) | DecreaseLoad(ceiling: nat)
                     | DecreaseCas(ceiling: nat, seen: nat, next: nat)

  datatype RaisePc = RaiseLoadLimit | RaiseLoadFlight(limit: nat) | RaiseLoad | RaiseEpoch(seen: nat)
                   | RaiseCas(seen: nat, next: nat)

  datatype Pc =
    | LoadFlight | LoadLimit(flight: nat) | Reserve(flight: nat) | Recheck | Rollback | LoadEpoch
    | Held | BackingOff(backoff: BackoffPc) | Raising(raise: RaisePc) | Settled
    | Refused | Dropped

  /** `epoch` is the recovery cohort captured with the permit. */
  datatype Thread = Thread(pc: Pc, epoch: nat)

  datatype Shared = Shared(inFlight: nat, limit: nat, epoch: nat)

  datatype State = State(shared: Shared, threads: map<nat, Thread>)

  /** What a callback's outcome means to the limiter. */
  datatype Verdict = Ignore | Fault | Healthy

  /** Scheduling choices: the generation re-check, a spurious CAS failure, the callback's verdict. */
  datatype Env = Env(admitted: bool, spurious: bool, verdict: Verdict)

  datatype Action = Arrives(t: nat) | Moves(t: nat, env: Env)

  function Initial(cfg: Config): State { State(Shared(0, cfg.initialLimit, 1), map[]) }

  /** `decrease_limit` having observed `seen`: nothing to do, or try to store the recomputed value. */
  function DecreaseSeen(cfg: Config, ceiling: nat, seen: nat): Pc
    requires 0.0 < cfg.ratio
  {
    var next := Decreased(cfg, Min(seen, ceiling));
    if next >= seen then Settled else BackingOff(DecreaseCas(ceiling, seen, next))
  }

  function MoveBackoff(cfg: Config, s: Shared, at: BackoffPc): (Shared, Pc)
    requires 0.0 < cfg.ratio
  {
    match at
    case Observe => (s, BackingOff(Invalidate(s.limit)))
    case Invalidate(ceiling) => (s.(epoch := s.epoch + 1), BackingOff(DecreaseLoad(ceiling)))
    case DecreaseLoad(ceiling) => (s, DecreaseSeen(cfg, ceiling, s.limit))
    case DecreaseCas(ceiling, seen, next) =>
      if s.limit == seen then (s.(limit := next), Settled) else (s, DecreaseSeen(cfg, ceiling, s.limit))
  }

  function MoveRaise(cfg: Config, s: Shared, at: RaisePc, epoch: nat): (Shared, Pc) {
    match at
    case RaiseLoadLimit => (s, Raising(RaiseLoadFlight(s.limit)))
    case RaiseLoadFlight(limit) => (s, if s.inFlight >= limit then Raising(RaiseLoad) else Settled)
    case RaiseLoad => (s, Raising(RaiseEpoch(s.limit)))
    case RaiseEpoch(seen) =>
      (s, if s.epoch != epoch || seen >= cfg.maxLimit || Increased(cfg, seen) == seen then Settled
          else Raising(RaiseCas(seen, Increased(cfg, seen))))
    case RaiseCas(seen, next) =>
      if s.limit == seen then (s.(limit := next), Settled) else (s, Raising(RaiseEpoch(s.limit)))
  }

  function Move(cfg: Config, s: Shared, th: Thread, env: Env): (Shared, Thread)
    requires 0.0 < cfg.ratio
  {
    match th.pc
    case LoadFlight => (s, th.(pc := LoadLimit(s.inFlight)))
    case LoadLimit(flight) =>
      (s, th.(pc := if flight >= Clamp(cfg, s.limit) && !cfg.shadow then Refused else Reserve(flight)))
    case Reserve(flight) =>
      if s.inFlight == flight && !env.spurious then (s.(inFlight := flight + 1), th.(pc := Recheck))
      else (s, th.(pc := LoadFlight))
    case Recheck => (s, th.(pc := if env.admitted then LoadEpoch else Rollback))
    case Rollback => (s.(inFlight := if s.inFlight > 0 then s.inFlight - 1 else 0), th.(pc := Refused))
    case LoadEpoch => (s, th.(pc := Held, epoch := s.epoch))
    case Held =>
      (s, th.(pc := match env.verdict
                    case Ignore => Settled
                    case Fault => BackingOff(Observe)
                    case Healthy => Raising(RaiseLoadLimit)))
    case BackingOff(at) =>
      var (s', pc) := MoveBackoff(cfg, s, at);
      (s', th.(pc := pc))
    case Raising(at) =>
      var (s', pc) := MoveRaise(cfg, s, at, th.epoch);
      (s', th.(pc := pc))
    case Settled => (s.(inFlight := if s.inFlight > 0 then s.inFlight - 1 else 0), th.(pc := Dropped))
    case Refused => (s, th)
    case Dropped => (s, th)
  }

  function Step(cfg: Config, s: State, a: Action): State
    requires 0.0 < cfg.ratio
  {
    match a
    case Arrives(t) => if t in s.threads then s else s.(threads := s.threads[t := Thread(LoadFlight, 0)])
    case Moves(t, env) =>
      if t !in s.threads then s
      else
        var (b, th) := Move(cfg, s.shared, s.threads[t], env);
        State(b, s.threads[t := th])
  }

  function Run(cfg: Config, acts: seq<Action>): State
    requires 0.0 < cfg.ratio
  {
    if acts == [] then Initial(cfg) else Step(cfg, Run(cfg, acts[..|acts| - 1]), acts[|acts| - 1])
  }

  // ----- invariant -----

  /** The thread is counted in `in_flight`: a live permit, or an attempt not yet rolled back. */
  predicate Counted(pc: Pc) {
    !pc.LoadFlight? && !pc.LoadLimit? && !pc.Reserve? && !pc.Refused? && !pc.Dropped?
  }

  /** The thread has captured its cohort. */
  predicate HasEpoch(pc: Pc) { Counted(pc) && !pc.Recheck? && !pc.Rollback? && !pc.LoadEpoch? }

  predicate InRange(cfg: Config, x: nat) { cfg.minLimit <= x <= cfg.maxLimit }

  predicate PcOk(cfg: Config, pc: Pc)
    requires 0.0 < cfg.ratio
  {
    match pc
    case Reserve(flight) => cfg.shadow || flight < cfg.maxLimit
    case BackingOff(DecreaseCas(ceiling, seen, next)) =>
      InRange(cfg, next) && next == Decreased(cfg, Min(seen, ceiling)) && next < seen
    case Raising(RaiseCas(seen, next)) => InRange(cfg, next) && seen < next
    case _ => true
  }

  predicate ThreadOk(cfg: Config, s: Shared, th: Thread)
    requires 0.0 < cfg.ratio
  {
    PcOk(cfg, th.pc) && (HasEpoch(th.pc) ==> th.epoch <= s.epoch)
  }

  function CountedThreads(): Thread -> bool { (th: Thread) => Counted(th.pc) }

  ghost function CountedIds(s: State): set<nat> { Those(s.threads, CountedThreads()) }

  ghost predicate Inv(cfg: Config, s: State)
    requires 0.0 < cfg.ratio
  {
    && InRange(cfg, s.shared.limit)
    && s.shared.inFlight == |CountedIds(s)|
    && (cfg.shadow || s.shared.inFlight <= cfg.maxLimit)
    && (forall t :: t in s.threads ==> ThreadOk(cfg, s.shared, s.threads[t]))
  }

  lemma ClampInRange(cfg: Config, x: nat)
    requires Valid(cfg)
    ensures InRange(cfg, Clamp(cfg, x)) && (InRange(cfg, x) ==> Clamp(cfg, x) == x)
  {
  }

  lemma MoveOk(cfg: Config, s: Shared, th: Thread, env: Env)
    requires Valid(cfg) && InRange(cfg, s.limit) && ThreadOk(cfg, s, th)
    requires cfg.shadow || s.inFlight <= cfg.maxLimit
    requires Counted(th.pc) ==> s.inFlight > 0
    ensures var (s', th') := Move(cfg, s, th, env);
            && InRange(cfg, s'.limit) && ThreadOk(cfg, s', th') && s.epoch <= s'.epoch
            && (cfg.shadow || s'.inFlight <= cfg.maxLimit)
            && s'.inFlight + One(Counted(th.pc)) == s.inFlight + One(Counted(th'.pc))
  {
  }

  lemma StepKeepsInv(cfg: Config, s: State, a: Action)
    requires Valid(cfg) && Inv(cfg, s)
    ensures Inv(cfg, Step(cfg, s, a)) && s.shared.epoch <= Step(cfg, s, a).shared.epoch
  {
    if a.Moves? && a.t in s.threads {
      var th := s.threads[a.t];
      if Counted(th.pc) {
        Present(s.threads, CountedThreads(), a.t);
      }
      MoveOk(cfg, s.shared, th, a.env);
      Updated(s.threads, CountedThreads(), a.t, Move(cfg, s.shared, th, a.env).1);
    } else if a.Arrives? && a.t !in s.threads {
      Updated(s.threads, CountedThreads(), a.t, Thread(LoadFlight, 0));
    }
  }

  lemma {:induction false} Reachable(cfg: Config, acts: seq<Action>)
    requires Valid(cfg)
    ensures Inv(cfg, Run(cfg, acts))
  {
    if acts == [] {
      assert CountedIds(Initial(cfg)) == {};
    } else {
      Reachable(cfg, acts[..|acts| - 1]);
      StepKeepsInv(cfg, Run(cfg, acts[..|acts| - 1]), acts[|acts| - 1]);
    }
  }

  // ----- main results -----

  /**
   Every interleaving: the limit stays in range, in-flight is exact, and outside shadow mode never above the maximum.
   */
  lemma AccountingIsExact(cfg: Config, acts: seq<Action>)
    requires Valid(cfg)
    ensures var s := Run(cfg, acts);
            && cfg.minLimit <= s.shared.limit <= cfg.maxLimit
            && s.shared.inFlight == |CountedIds(s)|
            && (cfg.shadow || s.shared.inFlight <= cfg.maxLimit)
  {
    Reachable(cfg, acts);
  }

  lemma ScalingIsMonotone(x: real, y: real, ratio: real)
    requires x <= y && 0.0 < ratio
    ensures x * ratio <= y * ratio
  {
    assert 0.0 <= (y - x) * ratio;
  }

  lemma FloorIsMonotone(x: real, y: real)
    requires x <= y
    ensures x.Floor <= y.Floor
  {
  }

  lemma ScaledIsMonotone(a: nat, b: nat, ratio: real)
    requires a <= b && 0.0 < ratio
    ensures Scaled(a, ratio) <= Scaled(b, ratio)
  {
    ScalingIsMonotone(a as real, b as real, ratio);
    FloorIsMonotone(a as real * ratio, b as real * ratio);
  }

  lemma DecreasedIsMonotone(cfg: Config, a: nat, b: nat)
    requires Valid(cfg) && a <= b
    ensures Decreased(cfg, a) <= Decreased(cfg, b)
  {
    ScaledIsMonotone(a, b, cfg.ratio);
  }

  function CeilingOf(pc: BackoffPc): nat
    requires !pc.Observe?
  {
    pc.ceiling
  }

  /**
   A backoff cannot be weakened: on the very step that completes it, the limit is at most the decrease of what the
   callback observed before it invalidated the cohort, whatever stale increases won in between.
   */
  lemma BackoffTakesEffect(cfg: Config, acts: seq<Action>, t: nat, env: Env)
    requires Valid(cfg) && t in Run(cfg, acts).threads
    requires var pc := Run(cfg, acts).threads[t].pc; pc.BackingOff? && !pc.backoff.Observe?
    requires Step(cfg, Run(cfg, acts), Moves(t, env)).threads[t].pc == Settled
    ensures var ceiling := CeilingOf(Run(cfg, acts).threads[t].pc.backoff);
            Step(cfg, Run(cfg, acts), Moves(t, env)).shared.limit <= Decreased(cfg, ceiling)
  {
    Reachable(cfg, acts);
    var s := Run(cfg, acts);
    var at := s.threads[t].pc.backoff;
    DecreasedIsMonotone(cfg, Min(s.shared.limit, CeilingOf(at)), CeilingOf(at));
    if at.DecreaseCas? {
      DecreasedIsMonotone(cfg, Min(at.seen, at.ceiling), at.ceiling);
    }
  }

  /** How many of the steps `i..j` invalidate the recovery cohort. */
  function Backoffs(cfg: Config, acts: seq<Action>, i: nat, j: nat): nat
    requires 0.0 < cfg.ratio && i <= j <= |acts|
    decreases j
  {
    if i == j then 0
    else Backoffs(cfg, acts, i, j - 1) + One(Invalidates(Run(cfg, acts[..j - 1]), acts[j - 1]))
  }

  predicate Invalidates(s: State, a: Action) {
    a.Moves? && a.t in s.threads && s.threads[a.t].pc.BackingOff? && s.threads[a.t].pc.backoff.Invalidate?
  }

  lemma {:induction false} EpochCountsBackoffs(cfg: Config, acts: seq<Action>, i: nat, j: nat)
    requires Valid(cfg) && i <= j <= |acts|
    ensures Run(cfg, acts[..j]).shared.epoch == Run(cfg, acts[..i]).shared.epoch + Backoffs(cfg, acts, i, j)
    decreases j
  {
    if i < j {
      EpochCountsBackoffs(cfg, acts, i, j - 1);
      assert acts[..j][..j - 1] == acts[..j - 1];
    }
  }

  /** Thread `t` captures its cohort at step `c`. */
  ghost predicate Captures(cfg: Config, acts: seq<Action>, t: nat, c: nat)
    requires 0.0 < cfg.ratio && c < |acts|
  {
    && acts[c].Moves? && acts[c].t == t && t in Run(cfg, acts[..c]).threads
    && Run(cfg, acts[..c]).threads[t].pc == LoadEpoch
  }

  /** Thread `t` compares its cohort with the current one at step `e` while raising, and they agree. */
  ghost predicate Confirms(cfg: Config, acts: seq<Action>, t: nat, e: nat)
    requires 0.0 < cfg.ratio && e < |acts|
  {
    && acts[e].Moves? && acts[e].t == t && t in Run(cfg, acts[..e]).threads
    && var (s, th) := (Run(cfg, acts[..e]).shared, Run(cfg, acts[..e]).threads[t]);
       th.pc.Raising? && th.pc.raise.RaiseEpoch? && s.epoch == th.epoch
  }

  lemma MoveKeepsCohort(cfg: Config, s: Shared, th: Thread, env: Env)
    requires 0.0 < cfg.ratio && HasEpoch(Move(cfg, s, th, env).1.pc)
    ensures th.pc == LoadEpoch || (HasEpoch(th.pc) && Move(cfg, s, th, env).1.epoch == th.epoch)
    ensures th.pc == LoadEpoch ==> Move(cfg, s, th, env).1.epoch == s.epoch == Move(cfg, s, th, env).0.epoch
  {
  }

  /** A permit carries the epoch of the step that captured it for as long as it lives. */
  lemma {:induction false} CohortIsKept(cfg: Config, acts: seq<Action>, t: nat) returns (c: nat)
    requires Valid(cfg) && t in Run(cfg, acts).threads && HasEpoch(Run(cfg, acts).threads[t].pc)
    ensures c < |acts| && Captures(cfg, acts, t, c)
    ensures Run(cfg, acts).threads[t].epoch == Run(cfg, acts[..c + 1]).shared.epoch
  {
    var n := |acts| - 1;
    var (front, s, a) := (acts[..n], Run(cfg, acts[..n]), acts[n]);
    assert acts[..n + 1] == acts;
    if a.Moves? && a.t == t && t in s.threads {
      MoveKeepsCohort(cfg, s.shared, s.threads[t], a.env);
      if s.threads[t].pc == LoadEpoch {
        return n;
      }
    }
    c := CohortIsKept(cfg, front, t);
    assert front[..c] == acts[..c] && front[..c + 1] == acts[..c + 1];
  }

  /** A live permit belongs to the current cohort exactly when no backoff came after its capture. */
  lemma CohortIsCurrentIffNoBackoff(cfg: Config, acts: seq<Action>, t: nat) returns (c: nat)
    requires Valid(cfg) && t in Run(cfg, acts).threads && HasEpoch(Run(cfg, acts).threads[t].pc)
    ensures c < |acts| && Captures(cfg, acts, t, c)
    ensures Run(cfg, acts).threads[t].epoch == Run(cfg, acts).shared.epoch <==> Backoffs(cfg, acts, c + 1, |acts|) == 0
  {
    c := CohortIsKept(cfg, acts, t);
    EpochCountsBackoffs(cfg, acts, c + 1, |acts|);
    assert acts[..|acts|] == acts;
  }

  /** A thread about to raise confirmed its cohort, and has stood still since. */
  lemma {:induction false} RaiserConfirmed(cfg: Config, acts: seq<Action>, t: nat) returns (e: nat)
    requires Valid(cfg) && t in Run(cfg, acts).threads
    requires var pc := Run(cfg, acts).threads[t].pc; pc.Raising? && pc.raise.RaiseCas?
    ensures e < |acts| && Confirms(cfg, acts, t, e)
    ensures forall x :: e < x < |acts| ==> !(acts[x].Moves? && acts[x].t == t)
  {
    var n := |acts| - 1;
    var (front, s, a) := (acts[..n], Run(cfg, acts[..n]), acts[n]);
    if a.Moves? && a.t == t && t in s.threads {
      return n;
    }
    e := RaiserConfirmed(cfg, front, t);
    assert front[..e] == acts[..e];
  }

  /** Only the last compare-exchange of a raising callback raises the limit. */
  lemma OnlyRaisersRaise(cfg: Config, s: Shared, th: Thread, env: Env)
    requires Valid(cfg) && PcOk(cfg, th.pc) && Move(cfg, s, th, env).0.limit > s.limit
    ensures th.pc.Raising? && th.pc.raise.RaiseCas?
  {
  }

  ghost predicate Raises(cfg: Config, acts: seq<Action>, t: nat, m: nat)
    requires 0.0 < cfg.ratio && m < |acts|
  {
    && acts[m].Moves? && acts[m].t == t
    && Run(cfg, acts[..m]).shared.limit < Run(cfg, acts[..m + 1]).shared.limit
  }

  lemma RaiserIsRaising(cfg: Config, acts: seq<Action>, t: nat, m: nat)
    requires Valid(cfg) && m < |acts| && Raises(cfg, acts, t, m)
    ensures t in Run(cfg, acts[..m]).threads
    ensures var pc := Run(cfg, acts[..m]).threads[t].pc; pc.Raising? && pc.raise.RaiseCas?
  {
    var s := Run(cfg, acts[..m]);
    Reachable(cfg, acts[..m]);
    assert acts[..m + 1][..m] == acts[..m];
    OnlyRaisersRaise(cfg, s.shared, s.threads[t], acts[m].env);
  }

  /** What a thread confirmed at step `e` it captured earlier, with no backoff in between. */
  lemma ConfirmedIsCaptured(cfg: Config, acts: seq<Action>, t: nat, e: nat) returns (c: nat)
    requires Valid(cfg) && e < |acts| && Confirms(cfg, acts, t, e)
    ensures c < e && Captures(cfg, acts, t, c) && Backoffs(cfg, acts, c + 1, e) == 0
  {
    c := CohortIsKept(cfg, acts[..e], t);
    assert acts[..e][..c] == acts[..c] && acts[..e][..c + 1] == acts[..c + 1];
    EpochCountsBackoffs(cfg, acts, c + 1, e);
  }

  /**
   In every run, a step that raises the limit is by a permit for which no backoff came between its capture, at `c`, and
   the last time it confirmed its cohort, at `e`, after which it made no other step.
   */
  lemma RaisesForOwnCohort(cfg: Config, acts: seq<Action>, t: nat, m: nat) returns (c: nat, e: nat)
    requires Valid(cfg) && m < |acts| && Raises(cfg, acts, t, m)
    ensures c < e < m && Captures(cfg, acts, t, c) && Confirms(cfg, acts, t, e) && Backoffs(cfg, acts, c + 1, e) == 0
    ensures t in Run(cfg, acts[..m]).threads && Run(cfg, acts[..m]).threads[t].pc.Raising?
    ensures forall x :: e < x < m ==> !(acts[x].Moves? && acts[x].t == t)
  {
    var at := acts[..m];
    RaiserIsRaising(cfg, acts, t, m);
    e := RaiserConfirmed(cfg, at, t);
    assert at[..e] == acts[..e];
    c := ConfirmedIsCaptured(cfg, acts, t, e);
  }

  /** With each callback as one step, only a permit captured after the latest backoff raises the limit. */
  lemma AtomicRaiseIsCurrent(cfg: Config, acts: seq<Action>, t: nat, k: nat, m: nat) returns (c: nat)
    requires Valid(cfg) && k <= m < |acts| && Raises(cfg, acts, t, m)
    requires t in Run(cfg, acts[..k]).threads && Run(cfg, acts[..k]).threads[t].pc == Held
    requires forall x :: k <= x <= m ==> acts[x].Moves? && acts[x].t == t
    ensures c < m && Captures(cfg, acts, t, c) && Backoffs(cfg, acts, c + 1, m) == 0
  {
    var e;
    c, e := RaisesForOwnCohort(cfg, acts, t, m);
    assert acts[m - 1].t == t;
    assert e == m - 1;
  }

  /** One thread's callback with nothing else moving. */
  function Alone(cfg: Config, env: Env): ((Shared, Thread)) -> (Shared, Thread)
    requires 0.0 < cfg.ratio
  {
    (x: (Shared, Thread)) => Move(cfg, x.0, x.1, env)
  }

  /**
   An undisturbed acquire is let through exactly below the limit, or always in shadow mode; let through, it holds one
   slot and the current cohort if the generation re-check passes, and otherwise has given the slot back.
   */
  lemma AcquireAlone(cfg: Config, s: Shared, th: Thread, env: Env) returns (path: seq<(Shared, Thread)>)
    requires Valid(cfg) && InRange(cfg, s.limit) && th.pc == LoadFlight && !env.spurious
    ensures Path(Alone(cfg, env), path) && path[0] == (s, th)
    ensures path[|path| - 1] == if (cfg.shadow || s.inFlight < s.limit) && env.admitted
                                then (s.(inFlight := s.inFlight + 1), Thread(Held, s.epoch))
                                else (s, th.(pc := Refused))
  {
    ClampInRange(cfg, s.limit);
    path := Then(Alone(cfg, env), [(s, th)], (s, th.(pc := LoadLimit(s.inFlight))));
    if cfg.shadow || s.inFlight < s.limit {
      var s1 := s.(inFlight := s.inFlight + 1);
      path := Then(Alone(cfg, env), path, (s, th.(pc := Reserve(s.inFlight))));
      path := Then(Alone(cfg, env), path, (s1, th.(pc := Recheck)));
      if env.admitted {
        path := Then(Alone(cfg, env), path, (s1, th.(pc := LoadEpoch)));
        path := Then(Alone(cfg, env), path, (s1, Thread(Held, s.epoch)));
      } else {
        path := Then(Alone(cfg, env), path, (s1, th.(pc := Rollback)));
        path := Then(Alone(cfg, env), path, (s, th.(pc := Refused)));
      }
    } else {
      path := Then(Alone(cfg, env), path, (s, th.(pc := Refused)));
    }
  }

  /**
   With the callback as one step, a healthy sample raises the limit exactly when the target is saturated, the limit
   has room, and the permit's cohort is the current one; otherwise it changes nothing.
   */
  lemma RaiseAlone(cfg: Config, s: Shared, th: Thread, env: Env) returns (path: seq<(Shared, Thread)>)
    requires Valid(cfg) && InRange(cfg, s.limit) && th.pc == Raising(RaiseLoadLimit)
    ensures Path(Alone(cfg, env), path) && path[0] == (s, th)
    ensures var raises := s.inFlight >= s.limit && s.epoch == th.epoch;
            path[|path| - 1] == (s.(limit := if raises then Increased(cfg, s.limit) else s.limit), th.(pc := Settled))
  {
    ClampInRange(cfg, s.limit);
    path := Then(Alone(cfg, env), [(s, th)], (s, th.(pc := Raising(RaiseLoadFlight(s.limit)))));
    if s.inFlight < s.limit {
      path := Then(Alone(cfg, env), path, (s, th.(pc := Settled)));
    } else {
      path := Then(Alone(cfg, env), path, (s, th.(pc := Raising(RaiseLoad))));
      path := Then(Alone(cfg, env), path, (s, th.(pc := Raising(RaiseEpoch(s.limit)))));
      var next := Increased(cfg, s.limit);
      if s.epoch != th.epoch || s.limit >= cfg.maxLimit || next == s.limit {
        path := Then(Alone(cfg, env), path, (s, th.(pc := Settled)));
      } else {
        path := Then(Alone(cfg, env), path, (s, th.(pc := Raising(RaiseCas(s.limit, next)))));
        path := Then(Alone(cfg, env), path, (s.(limit := next), th.(pc := Settled)));
      }
    }
  }

  /**
   With the callback as one step, a fault opens a new cohort and leaves the limit at its decrease, if that is lower.
   */
  lemma BackoffAlone(cfg: Config, s: Shared, th: Thread, env: Env) returns (path: seq<(Shared, Thread)>)
    requires Valid(cfg) && InRange(cfg, s.limit) && th.pc == BackingOff(Observe)
    ensures Path(Alone(cfg, env), path) && path[0] == (s, th)
    ensures path[|path| - 1]
            == (s.(epoch := s.epoch + 1, limit := Min(s.limit, Decreased(cfg, s.limit))), th.(pc := Settled))
  {
    var (s1, c, next) := (s.(epoch := s.epoch + 1), s.limit, Decreased(cfg, s.limit));
    path := Then(Alone(cfg, env), [(s, th)], (s, th.(pc := BackingOff(Invalidate(c)))));
    path := Then(Alone(cfg, env), path, (s1, th.(pc := BackingOff(DecreaseLoad(c)))));
    if next >= c {
      path := Then(Alone(cfg, env), path, (s1, th.(pc := Settled)));
    } else {
      path := Then(Alone(cfg, env), path, (s1, th.(pc := BackingOff(DecreaseCas(c, c, next)))));
      path := Then(Alone(cfg, env), path, (s1.(limit := next), th.(pc := Settled)));
    }
  }
}
