/**
 The packed-word circuit breaker as an interleaving machine.

 Every load, store and compare-exchange of `packed`, `failure_count`, `success_count` and
 `last_failure_tick_ms` is one step.  A request captures the open epoch, asks for admission, stays in
 flight for any length of time and then records one outcome; `Run` is an arbitrary schedule of such steps.
 */
module CircuitBreaker {
  import opened Basics
  import opened Counting
  import opened Traces

  // ----- the packed word -----

  datatype BreakerState = Open | HalfOpen | Closed

  /** The word as the protocol reads it: open generation, state, probes in flight. */
  datatype Word = Word(gen: nat, st: BreakerState, count: nat)

  const GENERATIONS: nat := 0x1_0000_0000
  const STATE_UNIT: nat := 0x4000_0000
  const COUNT_MASK: nat := 0x3FFF_FFFF

  function StateCode(st: BreakerState): nat {
    match st
    case Closed => 0
    case Open => 1
    case HalfOpen => 2
  }

  /** High 32 bits generation, next two bits state, low 30 bits count. */
  function Pack(w: Word): nat {
    (w.gen % GENERATIONS) * GENERATIONS + StateCode(w.st) * STATE_UNIT + w.count % STATE_UNIT
  }

  function PackedGeneration(p: nat): nat { p / GENERATIONS }
  function PackedState(p: nat): nat { p % GENERATIONS / STATE_UNIT }
  function PackedCount(p: nat): nat { p % GENERATIONS % STATE_UNIT }

  lemma PackedFields(w: Word)
    ensures PackedGeneration(Pack(w)) == w.gen % GENERATIONS
    ensures PackedState(Pack(w)) == StateCode(w.st)
    ensures PackedCount(Pack(w)) == w.count % STATE_UNIT
    ensures Pack(w) < GENERATIONS * GENERATIONS
  {
    var low := StateCode(w.st) * STATE_UNIT + w.count % STATE_UNIT;
    assert low < GENERATIONS;
    assert Pack(w) / GENERATIONS == w.gen % GENERATIONS && Pack(w) % GENERATIONS == low;
  }

  /** A compare-exchange on the 64-bit word is one on the abstract word, unless 2^32 opens separate the two. */
  lemma CompareExchangeIsExact(a: Word, b: Word)
    requires a.count <= COUNT_MASK && b.count <= COUNT_MASK
    requires a.gen < b.gen + GENERATIONS && b.gen < a.gen + GENERATIONS
    ensures Pack(a) == Pack(b) <==> a == b
  {
    PackedFields(a);
    PackedFields(b);
    if a.gen % GENERATIONS == b.gen % GENERATIONS {
      assert a.gen == a.gen / GENERATIONS * GENERATIONS + a.gen % GENERATIONS;
      assert b.gen == b.gen / GENERATIONS * GENERATIONS + b.gen % GENERATIONS;
      assert a.gen - b.gen == (a.gen / GENERATIONS - b.gen / GENERATIONS) * GENERATIONS;
    }
  }

  // ----- the order that every step respects -----

  function Rank(st: BreakerState): nat {
    match st
    case Open => 0
    case HalfOpen => 1
    case Closed => 2
  }

  /** Lexicographic order on (generation, rank). */
  predicate AtMost(a: Word, b: Word) {
    a.gen < b.gen || (a.gen == b.gen && Rank(a.st) <= Rank(b.st))
  }

  // ----- requests and the shared atomics -----

  datatype Config = Config(failureThreshold: nat, successThreshold: nat, halfOpenMax: nat, timeoutMs: nat,
                           tripOnConnectionErrors: bool, failureCodes: set<nat>)

  /** `half_open_max_requests.clamp(1, COUNT_MASK)`. */
  function ProbeLimit(cfg: Config): nat {
    if cfg.halfOpenMax < 1 then 1 else if cfg.halfOpenMax > COUNT_MASK then COUNT_MASK else cfg.halfOpenMax
  }

  datatype Outcome = Success | Neutral | Failure(status: nat, connection: bool)

  /** What follows a slot release. */
  datatype After = ThenDone | ThenRecheck | ThenClosedSuccess | ThenCountFailure

  datatype AdmitPc =
    | Capture | AdmitLoad | AdmitClock(gen: nat) | AdmitCas(gen: nat) | AdmitReset | SlotLoad | SlotCas(seen: Word)

  datatype SuccessPc =
    | SuccessLoad | SuccessRecheck | SuccessCount
    | CloseLoad | CloseCas(seen: Word) | CloseClearFailures | CloseClearSuccesses
    | ClosedSuccessLoad | ClosedSuccessStore

  datatype FailurePc =
    | FailLoad | FailTick(halfOpen: bool) | FailCount | FailConfirm | FailGen | FailCas(gen: nat)
    | FailRecheck(gen: nat) | FailRollback(gen: nat)
    | ReopenClear | ReopenLoad | ReopenCas(seen: Word)

  datatype Pc =
    | Admitting(admit: AdmitPc) | Rejected | InFlight | Deferred(out: Outcome)
    | Release(after: After) | ReleaseCas(seen: Word, after: After)
    | Succeeding(success: SuccessPc) | Failing(failure: FailurePc)
    | Finished

  /** `admitted` and `admission` are history: whether there was an admitting step, and the word it left. */
  datatype Request = Request(pc: Pc, epoch: nat, probe: bool, admitted: bool, admission: Word)

  datatype Shared = Shared(word: Word, failures: nat, successes: nat, lastTick: nat)

  datatype State = State(shared: Shared, reqs: map<nat, Request>)

  /**
   What a step may depend on besides memory: the clock, a spurious weak-CAS failure, the outcome and how it is
   recorded.
   */
  datatype Env = Env(now: nat, spurious: bool, out: Outcome, deferred: bool)

  datatype Action = Arrive(t: nat) | Advance(t: nat, env: Env)

  function Initial(): State { State(Shared(Word(0, Closed, 0), 0, 0, 0), map[]) }

  function Fresh(): Request { Request(Admitting(Capture), 0, false, false, Word(0, Closed, 0)) }

  function AdmitAs(r: Request, probe: bool, w: Word, pc: Pc): Request {
    r.(pc := pc, probe := probe, admitted := true, admission := w)
  }

  /** Entry point of each `record_*` call. */
  function RecordPc(cfg: Config, r: Request, out: Outcome): Pc {
    var release := if r.probe then Release(ThenDone) else Finished;
    match out
    case Success => Succeeding(SuccessLoad)
    case Neutral => release
    case Failure(status, connection) =>
      if connection then (if cfg.tripOnConnectionErrors then Failing(FailLoad) else release)
      else if status in cfg.failureCodes then Failing(FailLoad) else release
  }

  function AfterPc(after: After): Pc {
    match after
    case ThenDone => Finished
    case ThenRecheck => Succeeding(SuccessRecheck)
    case ThenClosedSuccess => Succeeding(ClosedSuccessLoad)
    case ThenCountFailure => Failing(FailCount)
  }

  /** `fetch_update` after observing `seen`: give up at zero, otherwise try to store the decrement. */
  function ReleaseSeen(r: Request, seen: Word, after: After): Request {
    if seen.count == 0 then r.(pc := AfterPc(after)) else r.(pc := ReleaseCas(seen, after))
  }

  // ----- the steps -----

  function MoveAdmit(cfg: Config, b: Shared, r: Request, pc: AdmitPc, env: Env): (Shared, Request) {
    var w := b.word;
    match pc
    case Capture => (b, r.(pc := Admitting(AdmitLoad), epoch := w.gen))
    case AdmitLoad =>
      (match w.st
       case Closed => (b, AdmitAs(r, false, w, InFlight))
       case Open => (b, r.(pc := Admitting(AdmitClock(w.gen))))
       case HalfOpen => (b, r.(pc := Admitting(SlotLoad))))
    case AdmitClock(gen) =>
      (b, r.(pc := if SaturatingSub(env.now, b.lastTick) >= cfg.timeoutMs then Admitting(AdmitCas(gen)) else Rejected))
    case AdmitCas(gen) =>
      if w == Word(gen, Open, 0) then
        var w' := Word(gen, HalfOpen, 1);
        (b.(word := w'), AdmitAs(r, true, w', Admitting(AdmitReset)))
      else
        (match w.st
         case HalfOpen => (b, r.(pc := Admitting(SlotLoad)))
         case Closed => (b, AdmitAs(r, false, w, InFlight))
         case Open => (b, r.(pc := Rejected)))
    case AdmitReset => (b.(successes := 0), r.(pc := InFlight))
    case SlotLoad =>
      (match w.st
       case HalfOpen => (b, r.(pc := if w.count >= ProbeLimit(cfg) then Rejected else Admitting(SlotCas(w))))
       case Open => (b, r.(pc := Rejected))
       case Closed => (b, AdmitAs(r, false, w, InFlight)))
    case SlotCas(seen) =>
      if w == seen && !env.spurious then
        var w' := Word(seen.gen, HalfOpen, seen.count + 1);
        (b.(word := w'), AdmitAs(r, true, w', InFlight))
      else (b, r.(pc := Admitting(SlotLoad)))
  }

  function MoveSuccess(cfg: Config, b: Shared, r: Request, pc: SuccessPc, env: Env): (Shared, Request) {
    var w := b.word;
    match pc
    case SuccessLoad =>
      (match w.st
       case HalfOpen => (b, r.(pc := if r.probe then Release(ThenRecheck) else Succeeding(SuccessRecheck)))
       case Open => (b, r.(pc := if r.probe then Release(ThenDone) else Finished))
       case Closed => (b, r.(pc := if r.probe then Release(ThenClosedSuccess) else Succeeding(ClosedSuccessLoad))))
    case SuccessRecheck => (b, r.(pc := if w.st == HalfOpen then Succeeding(SuccessCount) else Finished))
    case SuccessCount =>
      (b.(successes := b.successes + 1),
       r.(pc := if b.successes + 1 >= cfg.successThreshold then Succeeding(CloseLoad) else Finished))
    case CloseLoad => (b, r.(pc := if w.st == HalfOpen then Succeeding(CloseCas(w)) else Finished))
    case CloseCas(seen) =>
      if w == seen && !env.spurious
      then (b.(word := Word(seen.gen, Closed, 0)), r.(pc := Succeeding(CloseClearFailures)))
      else (b, r.(pc := Succeeding(CloseLoad)))
    case CloseClearFailures => (b.(failures := 0), r.(pc := Succeeding(CloseClearSuccesses)))
    case CloseClearSuccesses => (b.(successes := 0), r.(pc := Finished))
    case ClosedSuccessLoad => (b, r.(pc := if b.failures > 0 then Succeeding(ClosedSuccessStore) else Finished))
    case ClosedSuccessStore => (b.(failures := 0), r.(pc := Finished))
  }

  function MoveFailure(cfg: Config, b: Shared, r: Request, pc: FailurePc, env: Env): (Shared, Request) {
    var w := b.word;
    match pc
    case FailLoad =>
      (match w.st
       case Closed => (b, r.(pc := Failing(FailTick(false))))
       case HalfOpen => (b, r.(pc := Failing(FailTick(true))))
       case Open => (b, r.(pc := if r.probe then Release(ThenDone) else Finished)))
    case FailTick(halfOpen) =>
      (b.(lastTick := env.now),
       r.(pc := if halfOpen then Failing(ReopenClear)
                else if r.probe then Release(ThenCountFailure)
                else Failing(FailCount)))
    case FailCount =>
      (b.(failures := b.failures + 1),
       r.(pc := if b.failures + 1 >= cfg.failureThreshold then Failing(FailConfirm) else Finished))
    case FailConfirm => (b, r.(pc := if b.failures < cfg.failureThreshold then Finished else Failing(FailGen)))
    case FailGen => (b, r.(pc := Failing(FailCas(w.gen))))
    case FailCas(gen) =>
      if w == Word(gen, Closed, 0) then (b.(word := Word(gen + 1, Open, 0)), r.(pc := Failing(FailRecheck(gen + 1))))
      else (b, r.(pc := Finished))
    case FailRecheck(gen) =>
      (b, r.(pc := if b.failures < cfg.failureThreshold then Failing(FailRollback(gen)) else Finished))
    case FailRollback(gen) =>
      (if w == Word(gen, Open, 0) then b.(word := Word(gen, Closed, 0)) else b, r.(pc := Finished))
    case ReopenClear => (b.(successes := 0), r.(pc := Failing(ReopenLoad)))
    case ReopenLoad =>
      (b, if w.st == Open then r.(pc := Finished) else r.(pc := Failing(ReopenCas(w))))
    case ReopenCas(seen) =>
      if w == seen && !env.spurious then (b.(word := Word(seen.gen + 1, Open, 0)), r.(pc := Finished))
      else (b, r.(pc := Failing(ReopenLoad)))
  }

  function Move(cfg: Config, b: Shared, r: Request, env: Env): (Shared, Request) {
    match r.pc
    case Admitting(pc) => MoveAdmit(cfg, b, r, pc, env)
    case InFlight => (b, r.(pc := if env.deferred then Deferred(env.out) else RecordPc(cfg, r, env.out)))
    case Deferred(out) => (b, r.(pc := RecordPc(cfg, r, if b.word.gen != r.epoch then Neutral else out)))
    case Release(after) => (b, ReleaseSeen(r, b.word, after))
    case ReleaseCas(seen, after) =>
      if b.word == seen && !env.spurious && 0 < seen.count then
        (b.(word := seen.(count := seen.count - 1)), r.(pc := AfterPc(after)))
      else (b, ReleaseSeen(r, b.word, after))
    case Succeeding(pc) => MoveSuccess(cfg, b, r, pc, env)
    case Failing(pc) => MoveFailure(cfg, b, r, pc, env)
    case Rejected => (b, r)
    case Finished => (b, r)
  }

  function Step(cfg: Config, s: State, a: Action): State {
    match a
    case Arrive(t) => if t in s.reqs then s else s.(reqs := s.reqs[t := Fresh()])
    case Advance(t, env) =>
      if t !in s.reqs then s
      else
        var (b, r) := Move(cfg, s.shared, s.reqs[t], env);
        State(b, s.reqs[t := r])
  }

  /** The state after any schedule of steps. */
  function Run(cfg: Config, acts: seq<Action>): State {
    if acts == [] then Initial() else Step(cfg, Run(cfg, acts[..|acts| - 1]), acts[|acts| - 1])
  }

  // ----- the invariant -----

  /** The request has an outcome still to record, or is recording it and has not yet given its slot up. */
  predicate Owing(pc: Pc) {
    match pc
    case Admitting(_) | InFlight | Deferred(_) | Release(_) | ReleaseCas(_, _) => true
    case Succeeding(at) => at.SuccessLoad?
    case Failing(at) =>
      at.FailLoad? || at.FailTick? || at.ReopenClear? || at.ReopenLoad? || at.ReopenCas?
    case Rejected | Finished => false
  }

  /** A live probe of half-open cycle `gen`. */
  predicate Holds(r: Request, gen: nat) {
    r.admitted && r.probe && r.admission.gen == gen && Owing(r.pc)
  }

  function Holding(gen: nat): Request -> bool { (r: Request) => Holds(r, gen) }

  ghost function Holders(s: State): set<nat> { Those(s.reqs, Holding(s.shared.word.gen)) }

  predicate PcOk(cfg: Config, r: Request) {
    match r.pc
    case Admitting(AdmitReset) => r.admitted
    case Admitting(SlotCas(seen)) => !r.admitted && seen.st == HalfOpen && seen.count < ProbeLimit(cfg)
    case Admitting(_) => !r.admitted
    case Rejected => !r.admitted
    case Release(_) => r.admitted && r.probe
    case ReleaseCas(seen, _) => r.admitted && r.probe && seen.count > 0
    case Succeeding(CloseCas(seen)) => r.admitted && seen.st == HalfOpen
    case Failing(ReopenCas(seen)) => r.admitted && seen.st != Open
    case _ => r.admitted
  }

  predicate RequestOk(cfg: Config, b: Shared, r: Request) {
    && PcOk(cfg, r)
    && (r.pc != Admitting(Capture) ==> r.epoch <= b.word.gen)
    && (r.admitted ==>
          && r.epoch <= r.admission.gen
          && AtMost(r.admission, b.word)
          && r.admission.st == (if r.probe then HalfOpen else Closed))
  }

  predicate WordOk(cfg: Config, w: Word) {
    w.count <= ProbeLimit(cfg) && (w.st != HalfOpen ==> w.count == 0)
  }

  ghost predicate Inv(cfg: Config, s: State) {
    && WordOk(cfg, s.shared.word)
    && (forall t :: t in s.reqs ==> RequestOk(cfg, s.shared, s.reqs[t]))
    && s.shared.word.count <= |Holders(s)|
  }

  /** One step moves (generation, rank) up or leaves it, and bumps the generation exactly when it publishes OPEN. */
  lemma MoveIsMonotone(cfg: Config, b: Shared, r: Request, env: Env)
    requires WordOk(cfg, b.word) && RequestOk(cfg, b, r)
    ensures var w := Move(cfg, b, r, env).0.word;
            && AtMost(b.word, w)
            && WordOk(cfg, w)
            && (w != b.word && w.st == Open <==> w.gen == b.word.gen + 1)
            && (w.gen == b.word.gen || w.gen == b.word.gen + 1)
  {
  }

  /** A recording step changes nothing of the request but its program counter. */
  predicate Records(r: Request, r': Request) { r' == r.(pc := r'.pc) }

  lemma MoveFailureOk(cfg: Config, b: Shared, r: Request, pc: FailurePc, env: Env)
    requires r.admitted
    ensures var (_, r') := MoveFailure(cfg, b, r, pc, env); PcOk(cfg, r') && Records(r, r')
  {
  }

  lemma MoveSuccessOk(cfg: Config, b: Shared, r: Request, pc: SuccessPc, env: Env)
    requires r.admitted
    ensures var (_, r') := MoveSuccess(cfg, b, r, pc, env); PcOk(cfg, r') && Records(r, r')
  {
  }

  lemma MoveAdmitOk(cfg: Config, b: Shared, r: Request, pc: AdmitPc, env: Env)
    requires r.pc == Admitting(pc) && RequestOk(cfg, b, r) && !r.admitted
    ensures var (b', r') := MoveAdmit(cfg, b, r, pc, env); RequestOk(cfg, b', r')
  {
  }

  lemma MoveOk(cfg: Config, b: Shared, r: Request, env: Env)
    requires WordOk(cfg, b.word) && RequestOk(cfg, b, r)
    ensures var (b', r') := Move(cfg, b, r, env); RequestOk(cfg, b', r')
  {
    MoveIsMonotone(cfg, b, r, env);
    match r.pc
    case Succeeding(pc) => MoveSuccessOk(cfg, b, r, pc, env);
    case Failing(pc) => MoveFailureOk(cfg, b, r, pc, env);
    case Admitting(pc) => if !r.admitted { MoveAdmitOk(cfg, b, r, pc, env); }
    case _ =>
  }

  /** While half-open, the count moves only together with the stepping request's own claim, or drops. */
  lemma MoveSlots(cfg: Config, b: Shared, r: Request, env: Env)
    requires WordOk(cfg, b.word) && RequestOk(cfg, b, r)
    ensures var (b', r') := Move(cfg, b, r, env);
            var g := b.word.gen;
            b'.word.count == 0 || (b'.word.gen == g
                                   && b'.word.count + One(Holds(r, g)) <= b.word.count + One(Holds(r', g)))
  {
  }

  /** What a step must guarantee about shared memory and its own request for the whole invariant to survive. */
  lemma Replace(cfg: Config, s: State, t: nat, b': Shared, r': Request)
    requires Inv(cfg, s) && t in s.reqs
    requires AtMost(s.shared.word, b'.word) && WordOk(cfg, b'.word) && RequestOk(cfg, b', r')
    requires var (w, g) := (s.shared.word, s.shared.word.gen);
             b'.word.count == 0 || (b'.word.gen == g
                                    && b'.word.count + One(Holds(s.reqs[t], g)) <= w.count + One(Holds(r', g)))
    ensures Inv(cfg, State(b', s.reqs[t := r']))
  {
    if b'.word.count > 0 {
      Updated(s.reqs, Holding(s.shared.word.gen), t, r');
    }
  }

  lemma StepKeepsInv(cfg: Config, s: State, a: Action)
    requires Inv(cfg, s)
    ensures Inv(cfg, Step(cfg, s, a))
  {
    if a.Advance? && a.t in s.reqs {
      var (b', r') := Move(cfg, s.shared, s.reqs[a.t], a.env);
      MoveIsMonotone(cfg, s.shared, s.reqs[a.t], a.env);
      MoveOk(cfg, s.shared, s.reqs[a.t], a.env);
      MoveSlots(cfg, s.shared, s.reqs[a.t], a.env);
      Replace(cfg, s, a.t, b', r');
    } else if a.Arrive? && a.t !in s.reqs {
      Updated(s.reqs, Holding(s.shared.word.gen), a.t, Fresh());
    }
  }

  lemma {:induction false} Reachable(cfg: Config, acts: seq<Action>)
    ensures Inv(cfg, Run(cfg, acts))
  {
    if acts != [] {
      Reachable(cfg, acts[..|acts| - 1]);
      StepKeepsInv(cfg, Run(cfg, acts[..|acts| - 1]), acts[|acts| - 1]);
    }
  }

  // ----- main results -----

  /** The word after `i` steps of a schedule. */
  function WordAt(cfg: Config, acts: seq<Action>, i: nat): Word
    requires i <= |acts|
  {
    Run(cfg, acts[..i]).shared.word
  }

  /** How many of the steps `i..j` publish OPEN. */
  function Opens(cfg: Config, acts: seq<Action>, i: nat, j: nat): nat
    requires i <= j <= |acts|
    decreases j
  {
    if i == j then 0
    else Opens(cfg, acts, i, j - 1)
         + One(WordAt(cfg, acts, j) != WordAt(cfg, acts, j - 1) && WordAt(cfg, acts, j).st == Open)
  }

  /** Over any run the word only moves up, and its generation counts the OPEN publications. */
  lemma {:induction false} WordNeverGoesBack(cfg: Config, acts: seq<Action>, i: nat, j: nat)
    requires i <= j <= |acts|
    ensures AtMost(WordAt(cfg, acts, i), WordAt(cfg, acts, j))
    ensures WordAt(cfg, acts, j).gen == WordAt(cfg, acts, i).gen + Opens(cfg, acts, i, j)
    decreases j
  {
    if i < j {
      WordNeverGoesBack(cfg, acts, i, j - 1);
      Reachable(cfg, acts[..j - 1]);
      var (s, a) := (Run(cfg, acts[..j - 1]), acts[j - 1]);
      assert acts[..j][..j - 1] == acts[..j - 1];
      if a.Advance? && a.t in s.reqs {
        MoveIsMonotone(cfg, s.shared, s.reqs[a.t], a.env);
      }
    }
  }

  /** A cycle that was left is never entered again, rollback included. */
  lemma AbandonedCycleStaysAbandoned(cfg: Config, acts: seq<Action>, i: nat, j: nat, gen: nat)
    requires i <= j <= |acts|
    requires !AtMost(WordAt(cfg, acts, i), Word(gen, HalfOpen, 0))
    ensures var w := WordAt(cfg, acts, j); !(w.gen == gen && w.st == HalfOpen)
  {
    WordNeverGoesBack(cfg, acts, i, j);
  }

  /**
   If the epoch captured before admission is still current at step `j`, a request admitted in CLOSED has met
   only CLOSED since, and a probe only its own half-open cycle or the CLOSED state that cycle led to.
   */
  lemma EpochFence(cfg: Config, acts: seq<Action>, t: nat, i: nat, k: nat, j: nat)
    requires i <= k <= j <= |acts|
    requires t in Run(cfg, acts[..i]).reqs && Run(cfg, acts[..i]).reqs[t].admitted
    requires WordAt(cfg, acts, j).gen == Run(cfg, acts[..i]).reqs[t].epoch
    ensures var (r, w) := (Run(cfg, acts[..i]).reqs[t], WordAt(cfg, acts, k));
            && w.gen == r.epoch == r.admission.gen
            && (if r.probe then w.st == HalfOpen || w.st == Closed else w.st == Closed)
  {
    Reachable(cfg, acts[..i]);
    WordNeverGoesBack(cfg, acts, i, k);
    WordNeverGoesBack(cfg, acts, k, j);
  }

  /** Probe accounting in every reachable state. */
  lemma ProbeCountIsBounded(cfg: Config, acts: seq<Action>)
    ensures var s := Run(cfg, acts);
            && (s.shared.word.st != HalfOpen ==> s.shared.word.count == 0)
            && s.shared.word.count <= ProbeLimit(cfg)
            && s.shared.word.count <= |Holders(s)|
  {
    Reachable(cfg, acts);
  }

  /** What memory and one request look like after that request moves and nothing else does. */
  function Alone(cfg: Config, env: Env): ((Shared, Request)) -> (Shared, Request) {
    (x: (Shared, Request)) => Move(cfg, x.0, x.1, env)
  }

  /**
   The breaker cannot wedge: with the timeout elapsed and fewer live probes of the current cycle than the limit,
   a newcomer that runs undisturbed is admitted, as a probe exactly when the breaker is not closed.
   */
  lemma NeverWedges(cfg: Config, acts: seq<Action>, env: Env) returns (path: seq<(Shared, Request)>)
    requires var s := Run(cfg, acts);
             && !env.spurious
             && SaturatingSub(env.now, s.shared.lastTick) >= cfg.timeoutMs
             && |Holders(s)| < ProbeLimit(cfg)
    ensures Path(Alone(cfg, env), path) && path[0] == (Run(cfg, acts).shared, Fresh())
    ensures var (b, r) := (Run(cfg, acts).shared, path[|path| - 1].1);
            r.admitted && (r.probe <==> b.word.st != Closed) && r.epoch == r.admission.gen
  {
    Reachable(cfg, acts);
    var (b, r) := (Run(cfg, acts).shared, Fresh());
    var r1 := r.(pc := Admitting(AdmitLoad), epoch := b.word.gen);
    if b.word.st == Closed {
      path := [(b, r), (b, r1), Move(cfg, b, r1, env)];
    } else {
      var r2 := r1.(pc := if b.word.st == Open then Admitting(AdmitClock(b.word.gen)) else Admitting(SlotLoad));
      var r3 := r1.(pc := if b.word.st == Open then Admitting(AdmitCas(b.word.gen)) else Admitting(SlotCas(b.word)));
      path := [(b, r), (b, r1), (b, r2), (b, r3), Move(cfg, b, r3, env)];
    }
  }

  /** The request was admitted as a probe of the cycle the word carries. */
  predicate Probed(r: Request, w: Word) { r.admitted && r.probe && r.admission.gen == w.gen }

  /** Every probe of the current cycle has recorded its outcome, up to giving its slot up. */
  ghost predicate AllRecorded(s: State) {
    forall t :: t in s.reqs && Probed(s.reqs[t], s.shared.word) ==> !Owing(s.reqs[t].pc)
  }

  /** Once every probe of the current cycle has recorded, no slot is taken and a newcomer is admitted. */
  lemma FreeOnceRecorded(cfg: Config, acts: seq<Action>, env: Env) returns (path: seq<(Shared, Request)>)
    requires var s := Run(cfg, acts);
             AllRecorded(s) && !env.spurious && SaturatingSub(env.now, s.shared.lastTick) >= cfg.timeoutMs
    ensures Run(cfg, acts).shared.word.count == 0
    ensures Path(Alone(cfg, env), path) && path[0] == (Run(cfg, acts).shared, Fresh())
    ensures var (b, r) := (Run(cfg, acts).shared, path[|path| - 1].1);
            r.admitted && (r.probe <==> b.word.st != Closed) && r.epoch == r.admission.gen
  {
    Reachable(cfg, acts);
    assert Holders(Run(cfg, acts)) == {};
    path := NeverWedges(cfg, acts, env);
  }

  lemma GivesBackOne(cfg: Config, b: Shared, r: Request, env: Env)
    requires WordOk(cfg, b.word) && RequestOk(cfg, b, r)
    ensures var (b', r') := Move(cfg, b, r, env);
            b'.word.st == HalfOpen && b'.word.count < b.word.count ==>
              r.admitted && r.probe && b'.word == b.word.(count := b.word.count - 1) && Owing(r.pc) && !Owing(r'.pc)
  {
  }

  /** Whoever takes the count of a half-open cycle down was admitted as a probe, takes it down by one and only once. */
  lemma OnlyProbesGiveBack(cfg: Config, acts: seq<Action>, j: nat)
    requires j < |acts|
    requires var (w, w') := (WordAt(cfg, acts, j), WordAt(cfg, acts, j + 1)); w'.st == HalfOpen && w'.count < w.count
    ensures var (s, s') := (Run(cfg, acts[..j]), Run(cfg, acts[..j + 1]));
            && acts[j].Advance? && acts[j].t in s.reqs && acts[j].t in s'.reqs
            && s'.shared.word == s.shared.word.(count := s.shared.word.count - 1)
            && var (r, r') := (s.reqs[acts[j].t], s'.reqs[acts[j].t]);
               r.admitted && r.probe && Owing(r.pc) && !Owing(r'.pc)
  {
    Reachable(cfg, acts[..j]);
    var s := Run(cfg, acts[..j]);
    assert acts[..j + 1][..j] == acts[..j];
    if acts[j].Advance? && acts[j].t in s.reqs {
      GivesBackOne(cfg, s.shared, s.reqs[acts[j].t], acts[j].env);
    }
  }

  /** A probe gives its slot back undisturbed; at count zero that is a no-op. */
  lemma ReleaseAlone(cfg: Config, env: Env, before: seq<(Shared, Request)>, b: Shared, r: Request, after: After)
    returns (path: seq<(Shared, Request)>)
    requires Path(Alone(cfg, env), before) && before[|before| - 1] == (b, r) && r.pc == Release(after) && !env.spurious
    ensures Path(Alone(cfg, env), path) && path[0] == before[0]
    ensures var count := b.word.count;
            path[|path| - 1] == (b.(word := b.word.(count := if count > 0 then count - 1 else 0)),
                                 r.(pc := AfterPc(after)))
  {
    path := before;
    var r' := r.(pc := AfterPc(after));
    if b.word.count > 0 {
      path := Then(Alone(cfg, env), path, (b, r.(pc := ReleaseCas(b.word, after))));
      path := Then(Alone(cfg, env), path, (b.(word := b.word.(count := b.word.count - 1)), r'));
    } else {
      path := Then(Alone(cfg, env), path, (b, r'));
    }
  }

  /** A failure counted in CLOSED, undisturbed: the streak grows by one and the threshold opens the breaker. */
  lemma CountFailureAlone(cfg: Config, env: Env, before: seq<(Shared, Request)>, b: Shared, r: Request)
    returns (path: seq<(Shared, Request)>)
    requires Path(Alone(cfg, env), before) && before[|before| - 1] == (b, r) && r.pc == Failing(FailCount)
    requires b.word.st == Closed && b.word.count == 0
    ensures Path(Alone(cfg, env), path) && path[0] == before[0] && path[|path| - 1].1.pc == Finished
    ensures path[|path| - 1].0
            == b.(failures := b.failures + 1,
                  word := if b.failures + 1 >= cfg.failureThreshold then Word(b.word.gen + 1, Open, 0) else b.word)
  {
    var (b1, g) := (b.(failures := b.failures + 1), b.word.gen);
    if b1.failures < cfg.failureThreshold {
      path := Then(Alone(cfg, env), before, (b1, r.(pc := Finished)));
    } else {
      var b2 := b1.(word := Word(g + 1, Open, 0));
      path := Then(Alone(cfg, env), before, (b1, r.(pc := Failing(FailConfirm))));
      path := Then(Alone(cfg, env), path, (b1, r.(pc := Failing(FailGen))));
      path := Then(Alone(cfg, env), path, (b1, r.(pc := Failing(FailCas(g)))));
      path := Then(Alone(cfg, env), path, (b2, r.(pc := Failing(FailRecheck(g + 1)))));
      path := Then(Alone(cfg, env), path, (b2, r.(pc := Finished)));
    }
  }

  /** A counted failure that saw CLOSED, undisturbed. */
  lemma ClosedFailureAlone(cfg: Config, env: Env, before: seq<(Shared, Request)>, b: Shared, r: Request)
    returns (path: seq<(Shared, Request)>)
    requires Path(Alone(cfg, env), before) && before[|before| - 1] == (b, r) && r.pc == Failing(FailTick(false))
    requires b.word.st == Closed && b.word.count == 0 && !env.spurious
    ensures Path(Alone(cfg, env), path) && path[0] == before[0] && path[|path| - 1].1.pc == Finished
    ensures path[|path| - 1].0
            == b.(failures := b.failures + 1, lastTick := env.now,
                  word := if b.failures + 1 >= cfg.failureThreshold then Word(b.word.gen + 1, Open, 0) else b.word)
  {
    var b1 := b.(lastTick := env.now);
    if r.probe {
      path := Then(Alone(cfg, env), before, (b1, r.(pc := Release(ThenCountFailure))));
      path := ReleaseAlone(cfg, env, path, b1, r.(pc := Release(ThenCountFailure)), ThenCountFailure);
    } else {
      path := Then(Alone(cfg, env), before, (b1, r.(pc := Failing(FailCount))));
    }
    path := CountFailureAlone(cfg, env, path, path[|path| - 1].0, path[|path| - 1].1);
  }

  /** From having seen HALF_OPEN to the brink of reopening whatever is half-open now. */
  lemma ToReopenCas(cfg: Config, env: Env, before: seq<(Shared, Request)>, b: Shared, r: Request)
    returns (path: seq<(Shared, Request)>)
    requires Path(Alone(cfg, env), before) && before[|before| - 1] == (b, r)
    requires r.pc == Failing(FailTick(true)) && b.word.st == HalfOpen
    ensures Path(Alone(cfg, env), path) && path[0] == before[0]
    ensures path[|path| - 1] == (b.(lastTick := env.now, successes := 0), r.(pc := Failing(ReopenCas(b.word))))
  {
    var (b1, b2) := (b.(lastTick := env.now), b.(lastTick := env.now, successes := 0));
    path := Then(Alone(cfg, env), before, (b1, r.(pc := Failing(ReopenClear))));
    path := Then(Alone(cfg, env), path, (b2, r.(pc := Failing(ReopenLoad))));
    path := Then(Alone(cfg, env), path, (b2, r.(pc := Failing(ReopenCas(b.word)))));
  }

  /**
   A counted failure recorded undisturbed: in CLOSED it extends the streak and opens at the threshold, in HALF_OPEN
   it reopens, in OPEN it changes nothing.
   */
  lemma FailureAlone(cfg: Config, b: Shared, r: Request, env: Env) returns (path: seq<(Shared, Request)>)
    requires WordOk(cfg, b.word) && r.admitted && r.pc == Failing(FailLoad) && !env.spurious
    ensures Path(Alone(cfg, env), path) && path[0] == (b, r) && path[|path| - 1].1.pc == Finished
    ensures var tripped := b.(word := Word(b.word.gen + 1, Open, 0), lastTick := env.now);
            path[|path| - 1].0
            == match b.word.st
               case Closed => (if b.failures + 1 >= cfg.failureThreshold then tripped else b.(lastTick := env.now))
                              .(failures := b.failures + 1)
               case HalfOpen => tripped.(successes := 0)
               case Open => b
  {
    var step := Alone(cfg, env);
    path := [(b, r)];
    match b.word.st
    case Open =>
      if r.probe {
        path := Then(step, path, (b, r.(pc := Release(ThenDone))));
        path := ReleaseAlone(cfg, env, path, b, r.(pc := Release(ThenDone)), ThenDone);
      } else {
        path := Then(step, path, (b, r.(pc := Finished)));
      }
    case HalfOpen =>
      var tripped := b.(word := Word(b.word.gen + 1, Open, 0), lastTick := env.now, successes := 0);
      path := Then(step, path, (b, r.(pc := Failing(FailTick(true)))));
      path := ToReopenCas(cfg, env, path, b, r.(pc := Failing(FailTick(true))));
      path := Then(step, path, (tripped, r.(pc := Finished)));
    case Closed =>
      path := Then(step, path, (b, r.(pc := Failing(FailTick(false)))));
      path := ClosedFailureAlone(cfg, env, path, b, r.(pc := Failing(FailTick(false))));
  }

  /** A success counted in HALF_OPEN, undisturbed. */
  lemma CountSuccessAlone(cfg: Config, env: Env, before: seq<(Shared, Request)>, b: Shared, r: Request)
    returns (path: seq<(Shared, Request)>)
    requires Path(Alone(cfg, env), before) && before[|before| - 1] == (b, r) && r.pc == Succeeding(SuccessRecheck)
    requires b.word.st == HalfOpen && !env.spurious
    ensures Path(Alone(cfg, env), path) && path[0] == before[0] && path[|path| - 1].1.pc == Finished
    ensures path[|path| - 1].0 == if b.successes + 1 >= cfg.successThreshold
                                  then b.(word := Word(b.word.gen, Closed, 0), failures := 0, successes := 0)
                                  else b.(successes := b.successes + 1)
  {
    var b1 := b.(successes := b.successes + 1);
    path := Then(Alone(cfg, env), before, (b, r.(pc := Succeeding(SuccessCount))));
    if b1.successes < cfg.successThreshold {
      path := Then(Alone(cfg, env), path, (b1, r.(pc := Finished)));
    } else {
      var b2 := b1.(word := Word(b.word.gen, Closed, 0));
      path := Then(Alone(cfg, env), path, (b1, r.(pc := Succeeding(CloseLoad))));
      path := Then(Alone(cfg, env), path, (b1, r.(pc := Succeeding(CloseCas(b.word)))));
      path := Then(Alone(cfg, env), path, (b2, r.(pc := Succeeding(CloseClearFailures))));
      path := Then(Alone(cfg, env), path, (b2.(failures := 0), r.(pc := Succeeding(CloseClearSuccesses))));
      path := Then(Alone(cfg, env), path, (b2.(failures := 0, successes := 0), r.(pc := Finished)));
    }
  }

  /**
   A success recorded undisturbed: in HALF_OPEN it gives back a probe's slot and closes at the threshold, in CLOSED
   it ends the failure streak, in OPEN it changes nothing.
   */
  lemma SuccessAlone(cfg: Config, b: Shared, r: Request, env: Env) returns (path: seq<(Shared, Request)>)
    requires WordOk(cfg, b.word) && r.admitted && r.pc == Succeeding(SuccessLoad) && !env.spurious
    ensures Path(Alone(cfg, env), path) && path[0] == (b, r) && path[|path| - 1].1.pc == Finished
    ensures var kept := if r.probe && b.word.count > 0 then b.word.count - 1 else b.word.count;
            path[|path| - 1].0
            == match b.word.st
               case HalfOpen =>
                 if b.successes + 1 >= cfg.successThreshold
                 then b.(word := Word(b.word.gen, Closed, 0), failures := 0, successes := 0)
                 else b.(word := b.word.(count := kept), successes := b.successes + 1)
               case Closed => b.(failures := 0)
               case Open => b
  {
    path := [(b, r)];
    var after := match b.word.st case Open => ThenDone case Closed => ThenClosedSuccess case HalfOpen => ThenRecheck;
    if r.probe {
      path := Then(Alone(cfg, env), path, (b, r.(pc := Release(after))));
      path := ReleaseAlone(cfg, env, path, b, r.(pc := Release(after)), after);
    } else {
      path := Then(Alone(cfg, env), path, (b, r.(pc := AfterPc(after))));
    }
    var (b1, q) := path[|path| - 1];
    if b.word.st == Closed {
      assert b1 == b;
      if b.failures > 0 {
        path := Then(Alone(cfg, env), path, (b, q.(pc := Succeeding(ClosedSuccessStore))));
      }
      path := Then(Alone(cfg, env), path, (b.(failures := 0), q.(pc := Finished)));
    } else if b.word.st == HalfOpen {
      path := CountSuccessAlone(cfg, env, path, b1, q);
    }
  }

  // ----- schedules -----

  function Repeated(a: Action, n: nat): seq<Action> { seq(n, _ => a) }

  lemma StepMoves(cfg: Config, b: Shared, reqs: map<nat, Request>, t: nat, r: Request, env: Env)
    ensures var m := Move(cfg, b, r, env);
            Step(cfg, State(b, reqs[t := r]), Advance(t, env)) == State(m.0, reqs[t := m.1])
  {
    var r' := Move(cfg, b, r, env).1;
    assert reqs[t := r][t := r'] == reqs[t := r'];
  }

  lemma RunSnoc(cfg: Config, acts: seq<Action>, a: Action)
    ensures Run(cfg, acts + [a]) == Step(cfg, Run(cfg, acts), a)
  {
    assert (acts + [a])[..|acts|] == acts;
  }

  /** One undisturbed step of request `t`, appended to a schedule that left it at `before`. */
  lemma RunFollows(cfg: Config, acts: seq<Action>, reqs: map<nat, Request>, t: nat, env: Env,
                   before: (Shared, Request), after: (Shared, Request))
    requires Run(cfg, acts) == State(before.0, reqs[t := before.1]) && after == Move(cfg, before.0, before.1, env)
    ensures Run(cfg, acts + [Advance(t, env)]) == State(after.0, reqs[t := after.1])
  {
    RunSnoc(cfg, acts, Advance(t, env));
    StepMoves(cfg, before.0, reqs, t, before.1, env);
  }

  /** Undisturbed steps of request `t` as a schedule. */
  lemma {:induction false} RunPath(cfg: Config, acts: seq<Action>, t: nat, env: Env, path: seq<(Shared, Request)>,
                                   n: nat)
    requires Path(Alone(cfg, env), path) && n < |path|
    requires var s := Run(cfg, acts); t in s.reqs && path[0] == (s.shared, s.reqs[t])
    ensures Run(cfg, acts + Repeated(Advance(t, env), n)) == State(path[n].0, Run(cfg, acts).reqs[t := path[n].1])
    decreases n
  {
    var (reqs, a) := (Run(cfg, acts).reqs, Advance(t, env));
    if n == 0 {
      assert acts + Repeated(a, 0) == acts;
      assert reqs[t := reqs[t]] == reqs;
    } else {
      RunPath(cfg, acts, t, env, path, n - 1);
      assert StepAt(Alone(cfg, env), path, n);
      RunFollows(cfg, acts + Repeated(a, n - 1), reqs, t, env, path[n - 1], path[n]);
      assert acts + Repeated(a, n) == acts + Repeated(a, n - 1) + [a];
    }
  }

  /** Request `t` moves along `path`; whoever else is there stays. */
  lemma {:induction false} MovesAlong(cfg: Config, acts: seq<Action>, t: nat, env: Env, path: seq<(Shared, Request)>)
    returns (next: seq<Action>)
    requires Path(Alone(cfg, env), path)
    requires var s := Run(cfg, acts); t in s.reqs && path[0] == (s.shared, s.reqs[t])
    ensures acts <= next && |next| == |acts| + |path| - 1
    ensures forall k :: |acts| <= k < |next| ==> next[k] == Advance(t, env)
    ensures var last := path[|path| - 1]; Run(cfg, next) == State(last.0, Run(cfg, acts).reqs[t := last.1])
  {
    RunPath(cfg, acts, t, env, path, |path| - 1);
    next := acts + Repeated(Advance(t, env), |path| - 1);
  }

  lemma Arrives(cfg: Config, acts: seq<Action>) returns (next: seq<Action>, t: nat)
    ensures next == acts + [Arrive(t)] && t !in Run(cfg, acts).reqs
    ensures Run(cfg, next) == Run(cfg, acts).(reqs := Run(cfg, acts).reqs[t := Fresh()])
  {
    t := Unused(Run(cfg, acts).reqs.Keys);
    next := acts + [Arrive(t)];
    RunSnoc(cfg, acts, Arrive(t));
  }

  /** A number above every one in use. */
  lemma {:induction false} Unused(ids: set<nat>) returns (t: nat)
    ensures forall i :: i in ids ==> i < t
  {
    t := 0;
    if ids != {} {
      var i :| i in ids;
      var rest := Unused(ids - {i});
      t := if rest <= i then i + 1 else rest;
      assert forall x :: x in ids ==> x == i || x in ids - {i};
    }
  }

  /** Everybody of the first schedule is where they were. */
  ghost predicate Undisturbed(s: State, s': State) {
    forall t :: t in s.reqs ==> t in s'.reqs && s'.reqs[t] == s.reqs[t]
  }

  // ----- what a request may decide -----

  predicate Counts(cfg: Config, out: Outcome) {
    out.Failure? && if out.connection then cfg.tripOnConnectionErrors else out.status in cfg.failureCodes
  }

  /** Some failure counts; otherwise the breaker can never open. */
  predicate CountsFailures(cfg: Config) { cfg.tripOnConnectionErrors || cfg.failureCodes != {} }

  /** Step `j` is one of request `t`. */
  ghost predicate Steps(cfg: Config, acts: seq<Action>, t: nat, j: nat)
    requires j < |acts|
  {
    acts[j].Advance? && acts[j].t == t && t in Run(cfg, acts[..j]).reqs
  }

  /** Request `t` closes or reopens a half-open cycle at step `j`, or touches the success count that will close it. */
  ghost predicate Decides(cfg: Config, acts: seq<Action>, t: nat, j: nat)
    requires j < |acts|
  {
    && Steps(cfg, acts, t, j) && WordAt(cfg, acts, j).st == HalfOpen
    && var (b, b') := (Run(cfg, acts[..j]).shared, Run(cfg, acts[..j + 1]).shared);
       b'.word.st != HalfOpen || b'.successes != b.successes
  }

  /** Request `t` makes its deferred epoch check at step `i`, and passes. */
  ghost predicate PassesCheck(cfg: Config, acts: seq<Action>, t: nat, i: nat)
    requires i < |acts|
  {
    && Steps(cfg, acts, t, i) && Run(cfg, acts[..i]).reqs[t].pc.Deferred?
    && WordAt(cfg, acts, i).gen == Run(cfg, acts[..i]).reqs[t].epoch
  }

  /** Request `t`, about to record a failure, reads the word at step `i` and observes HALF_OPEN. */
  ghost predicate SeesHalfOpen(cfg: Config, acts: seq<Action>, t: nat, i: nat)
    requires i < |acts|
  {
    Steps(cfg, acts, t, i) && Run(cfg, acts[..i]).reqs[t].pc == Failing(FailLoad) && WordAt(cfg, acts, i).st == HalfOpen
  }

  /** Request `t` publishes OPEN at step `j`. */
  ghost predicate Reopens(cfg: Config, acts: seq<Action>, t: nat, j: nat)
    requires j < |acts|
  {
    Steps(cfg, acts, t, j) && WordAt(cfg, acts, j).st != Open && WordAt(cfg, acts, j + 1).st == Open
  }

  lemma MoveKeepsAdmission(cfg: Config, b: Shared, r: Request, env: Env)
    requires PcOk(cfg, r) && r.admitted
    ensures var r' := Move(cfg, b, r, env).1;
            r'.admitted && r'.epoch == r.epoch && r'.probe == r.probe && r'.admission == r.admission
  {
  }

  /** Once admitted, a request keeps its epoch, its admission and whether it probes. */
  lemma {:induction false} AdmissionIsFixed(cfg: Config, acts: seq<Action>, t: nat, i: nat, j: nat)
    requires i <= j <= |acts| && t in Run(cfg, acts[..i]).reqs && Run(cfg, acts[..i]).reqs[t].admitted
    ensures t in Run(cfg, acts[..j]).reqs
    ensures var (r, r') := (Run(cfg, acts[..i]).reqs[t], Run(cfg, acts[..j]).reqs[t]);
            r'.admitted && r'.epoch == r.epoch && r'.probe == r.probe && r'.admission == r.admission
    decreases j
  {
    if i < j {
      AdmissionIsFixed(cfg, acts, t, i, j - 1);
      Reachable(cfg, acts[..j - 1]);
      assert acts[..j][..j - 1] == acts[..j - 1];
      var (s, a) := (Run(cfg, acts[..j - 1]), acts[j - 1]);
      if a.Advance? && a.t == t {
        MoveKeepsAdmission(cfg, s.shared, s.reqs[t], a.env);
      }
    }
  }

  /**
   A request that once saw the generation of its admission finds itself, in any later half-open cycle, in one it probed
   exactly when no OPEN was published since.
   */
  lemma OwnCycleIffNoOpen(cfg: Config, acts: seq<Action>, t: nat, i: nat, j: nat)
    requires i <= j <= |acts| && t in Run(cfg, acts[..i]).reqs && Run(cfg, acts[..i]).reqs[t].admitted
    requires WordAt(cfg, acts, i).gen == Run(cfg, acts[..i]).reqs[t].admission.gen
             && WordAt(cfg, acts, j).st == HalfOpen
    ensures t in Run(cfg, acts[..j]).reqs
    ensures Probed(Run(cfg, acts[..j]).reqs[t], WordAt(cfg, acts, j)) <==> Opens(cfg, acts, i, j) == 0
  {
    AdmissionIsFixed(cfg, acts, t, i, j);
    WordNeverGoesBack(cfg, acts, i, j);
    Reachable(cfg, acts[..j]);
  }

  // ----- the deferred-outcome check -----

  /** A request that passed the check decides a half-open cycle it never probed. */
  ghost predicate DeferredIntrusion(cfg: Config, acts: seq<Action>, t: nat, i: nat, j: nat) {
    && i < j < |acts| && PassesCheck(cfg, acts, t, i) && Decides(cfg, acts, t, j)
    && !Probed(Run(cfg, acts[..j]).reqs[t], WordAt(cfg, acts, j))
  }

  /** The documented promise: the check keeps a stream from healing or reopening a cycle it never probed. */
  ghost predicate DeferredPromise(cfg: Config) {
    forall acts: seq<Action>, t: nat, i: nat, j: nat :: !DeferredIntrusion(cfg, acts, t, i, j)
  }

  /** Whenever a checked request decides a half-open cycle, it is its own exactly when no OPEN came after the check. */
  lemma DeferredCheckIsExact(cfg: Config, acts: seq<Action>, t: nat, i: nat, j: nat)
    requires i < j < |acts| && PassesCheck(cfg, acts, t, i) && Decides(cfg, acts, t, j)
    ensures DeferredIntrusion(cfg, acts, t, i, j) <==> Opens(cfg, acts, i, j) > 0
  {
    Reachable(cfg, acts[..i]);
    OwnCycleIffNoOpen(cfg, acts, t, i, j);
  }

  // ----- a failure that observed HALF_OPEN -----

  /** A failure that observed HALF_OPEN reopens the breaker in a cycle its request never probed. */
  ghost predicate ReopenIntrusion(cfg: Config, acts: seq<Action>, t: nat, i: nat, j: nat) {
    && i < j < |acts| && SeesHalfOpen(cfg, acts, t, i) && Reopens(cfg, acts, t, j)
    && !Probed(Run(cfg, acts[..j]).reqs[t], WordAt(cfg, acts, j))
  }

  /** The documented promise: a failure that observed HALF_OPEN is of the current cycle, also if a sibling closes it. */
  ghost predicate ReopenPromise(cfg: Config) {
    forall acts: seq<Action>, t: nat, i: nat, j: nat :: !ReopenIntrusion(cfg, acts, t, i, j)
  }

  /**
   Whenever a failure that observed HALF_OPEN reopens the breaker, it is of the current cycle exactly when the cycle it
   observed is one its request probed and no OPEN came after it looked.
   */
  lemma ReopenIsExact(cfg: Config, acts: seq<Action>, t: nat, i: nat, j: nat)
    requires i < j < |acts| && SeesHalfOpen(cfg, acts, t, i) && Reopens(cfg, acts, t, j)
    ensures ReopenIntrusion(cfg, acts, t, i, j)
       <==> !Probed(Run(cfg, acts[..i]).reqs[t], WordAt(cfg, acts, i)) || Opens(cfg, acts, i, j) > 0
  {
    Reachable(cfg, acts[..i]);
    AdmissionIsFixed(cfg, acts, t, i, j);
    WordNeverGoesBack(cfg, acts, i, j);
  }

  // ----- without counted failures both promises hold -----

  predicate FailureFree(pc: Pc) {
    !pc.Failing? && (pc.Release? || pc.ReleaseCas? ==> pc.after != ThenCountFailure)
  }

  lemma StaysClosed(cfg: Config, b: Shared, r: Request, env: Env)
    requires !CountsFailures(cfg) && b.word == Word(0, Closed, 0) && PcOk(cfg, r) && FailureFree(r.pc)
    ensures var (b', r') := Move(cfg, b, r, env); b'.word == b.word && FailureFree(r'.pc)
  {
  }

  lemma {:induction false} NeverOpens(cfg: Config, acts: seq<Action>)
    requires !CountsFailures(cfg)
    ensures Run(cfg, acts).shared.word == Word(0, Closed, 0)
    ensures forall t :: t in Run(cfg, acts).reqs ==> FailureFree(Run(cfg, acts).reqs[t].pc)
  {
    if acts != [] {
      var (s, a) := (Run(cfg, acts[..|acts| - 1]), acts[|acts| - 1]);
      NeverOpens(cfg, acts[..|acts| - 1]);
      Reachable(cfg, acts[..|acts| - 1]);
      if a.Advance? && a.t in s.reqs {
        StaysClosed(cfg, s.shared, s.reqs[a.t], a.env);
      }
    }
  }

  // ----- with them, both fail -----

  lemma SomeCounts(cfg: Config) returns (bad: Outcome)
    requires CountsFailures(cfg)
    ensures Counts(cfg, bad)
  {
    if cfg.tripOnConnectionErrors {
      bad := Failure(0, true);
    } else {
      var code :| code in cfg.failureCodes;
      bad := Failure(code, false);
    }
  }

  /** A request admitted in CLOSED, at `pc`. */
  function ClosedRequest(w: Word, pc: Pc): Request { Request(pc, w.gen, false, true, w) }

  /** A newcomer is admitted in CLOSED. */
  lemma AdmitsClosed(cfg: Config, acts: seq<Action>, env: Env) returns (next: seq<Action>, t: nat)
    requires Run(cfg, acts).shared.word.st == Closed
    ensures acts <= next && t !in Run(cfg, acts).reqs
    ensures var s := Run(cfg, acts);
            Run(cfg, next) == State(s.shared, s.reqs[t := ClosedRequest(s.shared.word, InFlight)])
  {
    var s := Run(cfg, acts);
    var (b, r) := (s.shared, ClosedRequest(s.shared.word, InFlight));
    next, t := Arrives(cfg, acts);
    var path := [(b, Fresh()), (b, Fresh().(pc := Admitting(AdmitLoad), epoch := b.word.gen)), (b, r)];
    next := MovesAlong(cfg, next, t, env, path);
    assert s.reqs[t := Fresh()][t := r] == s.reqs[t := r];
  }

  /** A newcomer becomes the first probe of an open breaker whose timeout has elapsed. */
  lemma AdmitsProbe(cfg: Config, acts: seq<Action>, out: Outcome) returns (next: seq<Action>, t: nat)
    requires Run(cfg, acts).shared.word.st == Open && Run(cfg, acts).shared.word.count == 0
    ensures acts <= next && t !in Run(cfg, acts).reqs
    ensures var (s, w) := (Run(cfg, acts), Word(Run(cfg, acts).shared.word.gen, HalfOpen, 1));
            Run(cfg, next) == State(s.shared.(word := w, successes := 0),
                                    s.reqs[t := Request(InFlight, w.gen, true, true, w)])
  {
    var s := Run(cfg, acts);
    var (b, g, env) := (s.shared, s.shared.word.gen, Env(s.shared.lastTick + cfg.timeoutMs, false, out, false));
    var (w, r) := (Word(g, HalfOpen, 1), Fresh().(epoch := g));
    var probe := Request(InFlight, g, true, true, w);
    next, t := Arrives(cfg, acts);
    var path := [(b, Fresh()), (b, r.(pc := Admitting(AdmitLoad))), (b, r.(pc := Admitting(AdmitClock(g)))),
                 (b, r.(pc := Admitting(AdmitCas(g)))), (b.(word := w), probe.(pc := Admitting(AdmitReset))),
                 (b.(word := w, successes := 0), probe)];
    next := MovesAlong(cfg, next, t, env, path);
    assert s.reqs[t := Fresh()][t := probe] == s.reqs[t := probe];
  }

  /** A request in flight records a counted failure, undisturbed. */
  lemma RecordsFailure(cfg: Config, acts: seq<Action>, t: nat, bad: Outcome) returns (next: seq<Action>)
    requires Counts(cfg, bad) && WordOk(cfg, Run(cfg, acts).shared.word)
    requires t in Run(cfg, acts).reqs && Run(cfg, acts).reqs[t].pc == InFlight && Run(cfg, acts).reqs[t].admitted
    ensures acts <= next && Run(cfg, next).reqs.Keys == Run(cfg, acts).reqs.Keys
    ensures forall u :: u in Run(cfg, acts).reqs && u != t ==> Run(cfg, next).reqs[u] == Run(cfg, acts).reqs[u]
    ensures var (b, b') := (Run(cfg, acts).shared, Run(cfg, next).shared);
            match b.word.st
            case Closed => b'.failures == b.failures + 1
                           && b'.word == (if b'.failures < cfg.failureThreshold then b.word
                                          else Word(b.word.gen + 1, Open, 0))
            case HalfOpen => b'.word == Word(b.word.gen + 1, Open, 0)
            case Open => b' == b
  {
    var (s, env) := (Run(cfg, acts), Env(0, false, bad, false));
    var r := s.reqs[t].(pc := Failing(FailLoad));
    next := MovesAlong(cfg, acts, t, env, [(s.shared, s.reqs[t]), (s.shared, r)]);
    var path := FailureAlone(cfg, s.shared, r, env);
    next := MovesAlong(cfg, next, t, env, path);
  }

  /** A newcomer fails in CLOSED. */
  lemma FailsOnce(cfg: Config, acts: seq<Action>, bad: Outcome) returns (next: seq<Action>)
    requires Counts(cfg, bad) && Run(cfg, acts).shared.word.st == Closed
    ensures acts <= next && Undisturbed(Run(cfg, acts), Run(cfg, next))
    ensures var (b, b') := (Run(cfg, acts).shared, Run(cfg, next).shared);
            && b'.failures == b.failures + 1
            && b'.word == if b'.failures >= cfg.failureThreshold then Word(b.word.gen + 1, Open, 0) else b.word
  {
    Reachable(cfg, acts);
    var t;
    next, t := AdmitsClosed(cfg, acts, Env(0, false, bad, false));
    next := RecordsFailure(cfg, next, t, bad);
  }

  /** Enough failing newcomers open a closed breaker. */
  lemma {:induction false} OpensAfter(cfg: Config, acts: seq<Action>, bad: Outcome) returns (next: seq<Action>)
    requires Counts(cfg, bad) && Run(cfg, acts).shared.word.st == Closed
    ensures acts <= next && Undisturbed(Run(cfg, acts), Run(cfg, next))
    ensures Run(cfg, next).shared.word == Word(Run(cfg, acts).shared.word.gen + 1, Open, 0)
    decreases cfg.failureThreshold - Run(cfg, acts).shared.failures
  {
    next := FailsOnce(cfg, acts, bad);
    if Run(cfg, next).shared.word.st == Closed {
      next := OpensAfter(cfg, next, bad);
    }
  }

  /** One step of `t`, and the state before it at its place in the longer schedule. */
  lemma StepsOnce(cfg: Config, acts: seq<Action>, t: nat, env: Env) returns (next: seq<Action>)
    requires t in Run(cfg, acts).reqs
    ensures next == acts + [Advance(t, env)] && next[..|acts|] == acts && Steps(cfg, next, t, |acts|)
    ensures var (s, m) := (Run(cfg, acts), Move(cfg, Run(cfg, acts).shared, Run(cfg, acts).reqs[t], env));
            Run(cfg, next) == State(m.0, s.reqs[t := m.1])
  {
    next := acts + [Advance(t, env)];
    assert next[..|acts|] == acts;
    RunSnoc(cfg, acts, Advance(t, env));
  }

  lemma ReopensNow(cfg: Config, acts: seq<Action>, t: nat, env: Env) returns (next: seq<Action>)
    requires t in Run(cfg, acts).reqs && Run(cfg, acts).reqs[t].pc == Failing(ReopenCas(Run(cfg, acts).shared.word))
    requires Run(cfg, acts).shared.word.st == HalfOpen && !env.spurious
    ensures next == acts + [Advance(t, env)] && next[..|acts|] == acts && Reopens(cfg, next, t, |acts|)
  {
    next := StepsOnce(cfg, acts, t, env);
    assert next[..|acts| + 1] == next;
  }

  /** A failure that saw HALF_OPEN goes on, undisturbed, to reopen whatever cycle is half-open now. */
  lemma GoesOnToReopen(cfg: Config, acts: seq<Action>, t: nat, env: Env) returns (next: seq<Action>, j: nat)
    requires t in Run(cfg, acts).reqs && Run(cfg, acts).reqs[t].pc == Failing(FailTick(true))
    requires Run(cfg, acts).shared.word.st == HalfOpen && !env.spurious
    ensures acts <= next && |acts| <= j < |next| && Reopens(cfg, next, t, j)
    ensures WordAt(cfg, next, j) == Run(cfg, acts).shared.word
    ensures var (r, r') := (Run(cfg, acts).reqs[t], Run(cfg, next[..j]).reqs[t]); r' == r.(pc := r'.pc)
  {
    var (b, r) := (Run(cfg, acts).shared, Run(cfg, acts).reqs[t]);
    var path := ToReopenCas(cfg, env, [(b, r)], b, r);
    next := MovesAlong(cfg, acts, t, env, path);
    j := |next|;
    next := ReopensNow(cfg, next, t, env);
  }

  /** A success that saw HALF_OPEN goes on, undisturbed, to count toward closing whatever cycle is half-open now. */
  lemma GoesOnToCount(cfg: Config, acts: seq<Action>, t: nat, env: Env) returns (next: seq<Action>, j: nat)
    requires t in Run(cfg, acts).reqs && Run(cfg, acts).reqs[t].pc == Succeeding(SuccessRecheck)
    requires Run(cfg, acts).shared.word.st == HalfOpen
    ensures acts <= next && |acts| <= j < |next| && Decides(cfg, next, t, j)
    ensures WordAt(cfg, next, j) == Run(cfg, acts).shared.word
    ensures var (r, r') := (Run(cfg, acts).reqs[t], Run(cfg, next[..j]).reqs[t]); r' == r.(pc := r'.pc)
  {
    var s := Run(cfg, acts);
    var path := [(s.shared, s.reqs[t]), (s.shared, s.reqs[t].(pc := Succeeding(SuccessCount)))];
    var at := MovesAlong(cfg, acts, t, env, path);
    j := |at|;
    next := StepsOnce(cfg, at, t, env);
    assert next[..j + 1] == next;
  }

  /** A request admitted in CLOSED passes its deferred check at the last step of the schedule. */
  lemma ChecksIn(cfg: Config, out: Outcome) returns (acts: seq<Action>, t: nat, i: nat)
    ensures i + 1 == |acts| && PassesCheck(cfg, acts, t, i) && t in Run(cfg, acts).reqs
    ensures var w := Word(0, Closed, 0);
            && Run(cfg, acts).shared.word == w
            && Run(cfg, acts).reqs[t] == ClosedRequest(w, RecordPc(cfg, ClosedRequest(w, InFlight), out))
  {
    var env := Env(0, false, out, true);
    acts, t := AdmitsClosed(cfg, [], env);
    acts := StepsOnce(cfg, acts, t, env);
    i := |acts|;
    acts := StepsOnce(cfg, acts, t, env);
  }

  /** The checked request is overtaken by an OPEN and a new half-open cycle. */
  lemma Overtaken(cfg: Config, acts: seq<Action>, bad: Outcome) returns (next: seq<Action>)
    requires Counts(cfg, bad) && Run(cfg, acts).shared.word.st == Closed
    ensures acts <= next && Undisturbed(Run(cfg, acts), Run(cfg, next))
    ensures Run(cfg, next).shared.word == Word(Run(cfg, acts).shared.word.gen + 1, HalfOpen, 1)
  {
    var t;
    next := OpensAfter(cfg, acts, bad);
    next, t := AdmitsProbe(cfg, next, bad);
  }

  lemma PassedBefore(cfg: Config, acts: seq<Action>, next: seq<Action>, t: nat, i: nat)
    requires acts <= next && i < |acts| && PassesCheck(cfg, acts, t, i)
    ensures PassesCheck(cfg, next, t, i)
  {
    assert next[..i] == acts[..i];
  }

  lemma SawBefore(cfg: Config, acts: seq<Action>, next: seq<Action>, t: nat, i: nat)
    requires acts <= next && i < |acts| && SeesHalfOpen(cfg, acts, t, i)
    ensures SeesHalfOpen(cfg, next, t, i)
  {
    assert next[..i] == acts[..i];
  }

  /**
   Whenever some failure counts, and whatever outcome that can decide a cycle a stream defers, there is a run in which
   it passes the check in CLOSED and then counts toward closing, or reopens, a half-open cycle it never probed.
   */
  lemma DeferredRace(cfg: Config, out: Outcome) returns (acts: seq<Action>, t: nat, i: nat, j: nat)
    requires CountsFailures(cfg) && (out == Success || Counts(cfg, out))
    ensures DeferredIntrusion(cfg, acts, t, i, j)
  {
    var bad := SomeCounts(cfg);
    var env := Env(0, false, out, true);
    var checked;
    checked, t, i := ChecksIn(cfg, out);
    acts := Overtaken(cfg, checked, bad);
    acts := StepsOnce(cfg, acts, t, env);
    if out == Success {
      acts, j := GoesOnToCount(cfg, acts, t, env);
    } else {
      acts, j := GoesOnToReopen(cfg, acts, t, env);
    }
    PassedBefore(cfg, checked, acts, t, i);
  }

  /** A first probe is in flight, and so is a request admitted in CLOSED before the breaker opened. */
  lemma ProbeAndElder(cfg: Config, bad: Outcome) returns (acts: seq<Action>, elder: nat, probe: nat)
    requires Counts(cfg, bad)
    ensures var s := Run(cfg, acts);
            && s.shared.word.st == HalfOpen && elder != probe && elder in s.reqs && probe in s.reqs
            && s.reqs[elder].pc == s.reqs[probe].pc == InFlight && s.reqs[elder].admitted && !s.reqs[elder].probe
            && Probed(s.reqs[probe], s.shared.word)
  {
    acts, elder := AdmitsClosed(cfg, [], Env(0, false, bad, false));
    acts := OpensAfter(cfg, acts, bad);
    acts, probe := AdmitsProbe(cfg, acts, bad);
  }

  /** A request in flight starts to record a failure and observes HALF_OPEN at the last step. */
  lemma LooksIn(cfg: Config, acts: seq<Action>, t: nat, bad: Outcome) returns (next: seq<Action>, i: nat)
    requires Counts(cfg, bad) && Run(cfg, acts).shared.word.st == HalfOpen
    requires t in Run(cfg, acts).reqs && Run(cfg, acts).reqs[t].pc == InFlight
    ensures acts <= next && i + 1 == |next| && SeesHalfOpen(cfg, next, t, i)
    ensures var s := Run(cfg, acts);
            Run(cfg, next) == s.(reqs := s.reqs[t := s.reqs[t].(pc := Failing(FailTick(true)))])
    ensures var s := Run(cfg, acts);
            Run(cfg, next[..i]) == s.(reqs := s.reqs[t := s.reqs[t].(pc := Failing(FailLoad))])
  {
    var env := Env(0, false, bad, false);
    next := StepsOnce(cfg, acts, t, env);
    i := |next|;
    next := StepsOnce(cfg, next, t, env);
  }

  /** A second half-open cycle follows the first, which the elder request reopened; everybody else stays. */
  lemma NextCycle(cfg: Config, acts: seq<Action>, elder: nat, bad: Outcome) returns (next: seq<Action>)
    requires Counts(cfg, bad) && Run(cfg, acts).shared.word.st == HalfOpen
    requires elder in Run(cfg, acts).reqs && Run(cfg, acts).reqs[elder].pc == InFlight
    requires Run(cfg, acts).reqs[elder].admitted
    ensures acts <= next && Run(cfg, next).shared.word == Word(Run(cfg, acts).shared.word.gen + 1, HalfOpen, 1)
    ensures forall u :: u in Run(cfg, acts).reqs && u != elder ==>
                          u in Run(cfg, next).reqs && Run(cfg, next).reqs[u] == Run(cfg, acts).reqs[u]
  {
    Reachable(cfg, acts);
    next := RecordsFailure(cfg, acts, elder, bad);
    var probe;
    next, probe := AdmitsProbe(cfg, next, bad);
  }

  /** Between a look and a reopening of the very word it found, no OPEN was published. */
  lemma SameWordNoOpen(cfg: Config, acts: seq<Action>, i: nat, j: nat)
    requires i <= j <= |acts| && WordAt(cfg, acts, i) == WordAt(cfg, acts, j)
    ensures Opens(cfg, acts, i, j) == 0
  {
    WordNeverGoesBack(cfg, acts, i, j);
  }

  /**
   Whenever some failure counts, a request that never probed the cycle it observes reopens it without any race: one
   admitted in CLOSED does, and so does a probe of an earlier cycle.
   */
  lemma StragglerReopens(cfg: Config, stale: bool) returns (acts: seq<Action>, t: nat, i: nat, j: nat)
    requires CountsFailures(cfg)
    ensures ReopenIntrusion(cfg, acts, t, i, j) && Opens(cfg, acts, i, j) == 0
    ensures Run(cfg, acts[..i]).reqs[t].probe <==> stale
  {
    var bad := SomeCounts(cfg);
    var elder, probe, saw;
    acts, elder, probe := ProbeAndElder(cfg, bad);
    t := if stale then probe else elder;
    if stale {
      acts := NextCycle(cfg, acts, elder, bad);
    }
    saw, i := LooksIn(cfg, acts, t, bad);
    acts, j := GoesOnToReopen(cfg, saw, t, Env(0, false, bad, false));
    SawBefore(cfg, saw, acts, t, i);
    assert acts[..i] == saw[..i];
    SameWordNoOpen(cfg, acts, i, j);
  }

  /**
   Whenever some failure counts, a probe that observes its own cycle is overtaken by a straggler's reopen and the next
   probe, and then reopens that next cycle.
   */
  lemma ReopenRace(cfg: Config) returns (acts: seq<Action>, t: nat, i: nat, j: nat)
    requires CountsFailures(cfg)
    ensures ReopenIntrusion(cfg, acts, t, i, j) && Probed(Run(cfg, acts[..i]).reqs[t], WordAt(cfg, acts, i))
  {
    var bad := SomeCounts(cfg);
    var elder, saw;
    acts, elder, t := ProbeAndElder(cfg, bad);
    saw, i := LooksIn(cfg, acts, t, bad);
    acts := NextCycle(cfg, saw, elder, bad);
    acts, j := GoesOnToReopen(cfg, acts, t, Env(0, false, bad, false));
    SawBefore(cfg, saw, acts, t, i);
    assert acts[..i] == saw[..i];
  }

  /** The deferred check keeps its promise in every run exactly when no failure counts. */
  lemma DeferredPromiseIff(cfg: Config)
    ensures DeferredPromise(cfg) <==> !CountsFailures(cfg)
  {
    if CountsFailures(cfg) {
      var acts, t, i, j := DeferredRace(cfg, Success);
    } else {
      forall acts: seq<Action>, t: nat, i: nat, j: nat ensures !DeferredIntrusion(cfg, acts, t, i, j) {
        if i < j < |acts| {
          NeverOpens(cfg, acts[..j]);
        }
      }
    }
  }

  /** And so does a failure that observed HALF_OPEN. */
  lemma ReopenPromiseIff(cfg: Config)
    ensures ReopenPromise(cfg) <==> !CountsFailures(cfg)
  {
    if CountsFailures(cfg) {
      var acts, t, i, j := StragglerReopens(cfg, false);
    } else {
      forall acts: seq<Action>, t: nat, i: nat, j: nat ensures !ReopenIntrusion(cfg, acts, t, i, j) {
        if i < j < |acts| {
          NeverOpens(cfg, acts[..i]);
        }
      }
    }
  }
}
