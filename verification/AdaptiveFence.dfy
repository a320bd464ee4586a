/**
 Generation fencing of the adaptive concurrency limiter.

 One policy writer and one load-balancer writer stage (`prepare_*`) and commit generations in increasing order,
 serialised by the commit lock.  Any number of requests pin a tracking space, check their two generations, insert
 their target, win an in-flight slot, check again and hold a permit; permit holders report feedback.  Every atomic
 load, store and compare-exchange is one step, and `Run` is an arbitrary schedule.
 */
module AdaptiveFence {
  import opened Basics
  import opened Counting
  import opened Traces

  /** The plugin-policy generation and the load-balancer generation are fenced by the same protocol. */
  datatype Side = Policy | Lb

  // ----- shared memory -----

  /** The four generation atomics of one side.  `ceiling` is history: the largest generation ever admissible. */
  datatype Axis = Axis(active: nat, floor: nat, pending: nat, pendingReset: bool, ceiling: nat)

  /** The structural transition word: reset epoch and state. */
  datatype Word = Word(epoch: nat, resetting: bool)

  const MAX_EPOCH: nat := 0x7FFF_FFFF_FFFF_FFFF

  datatype Retired = Live | By(side: Side, gen: nat)

  /** A tracking space: the floors it was created under and the commit that detached it (both history). */
  datatype Space = Space(lo: nat, lbLo: nat, retired: Retired)

  /** A request's mark in a tracking space (history). */
  datatype Mark = Mark(space: nat, gen: nat, lbGen: nat)

  /** Program counter of a writer: the next line of `prepare_*` or `commit_*` to run. */
  type WriterPc = nat

  const IDLE: nat := 0
  const PREP_LOAD: nat := 1
  const PREP_FLAG: nat := 2
  const PREP_GEN: nat := 3
  const STAGED: nat := 4
  const LOCKING: nat := 5
  const LOAD: nat := 6
  const BLOCK: nat := 7
  const DRAIN: nat := 8
  const CLAIM_LOAD: nat := 9
  const CLAIM: nat := 10
  const RAISE: nat := 11
  const PUBLISH: nat := 12
  const BUMP: nat := 13
  const CLEAR: nat := 14
  const CLEAR_FLAG: nat := 15
  const SWAP: nat := 16
  const FINISH: nat := 17
  const UNBLOCK: nat := 18
  const UNLOCK: nat := 19
  const LOST: nat := 20

  /** `last` is history: the largest generation this side has been asked to stage. */
  datatype Writer = Writer(pc: WriterPc, gen: nat, reset: bool, last: nat, seen: nat, seenTrans: Word, claim: Word,
                           canReactivate: bool)

  datatype Shared = Shared(
    policy: Axis, lb: Axis, trans: Word, config: nat, inProgress: nat, blocked: bool, lock: Option<Side>,
    spaces: seq<Space>, inserted: set<Mark>, granted: set<Mark>, policyWriter: Writer, lbWriter: Writer)

  function Cur(s: Shared): int { |s.spaces| - 1 }
  function AxisOf(s: Shared, d: Side): Axis { if d == Policy then s.policy else s.lb }
  function WriterOf(s: Shared, d: Side): Writer { if d == Policy then s.policyWriter else s.lbWriter }
  function LoOf(sp: Space, d: Side): nat { if d == Policy then sp.lo else sp.lbLo }
  function GenOf(m: Mark, d: Side): nat { if d == Policy then m.gen else m.lbGen }

  function WithSide(s: Shared, d: Side, ax: Axis, w: Writer): Shared {
    if d == Policy then s.(policy := ax, policyWriter := w) else s.(lb := ax, lbWriter := w)
  }

  /** Record in the ceiling whatever a check can currently accept. */
  function Noted(ax: Axis): Axis {
    ax.(ceiling := Max(ax.ceiling, Max(ax.active, if ax.pendingReset then 0 else ax.pending)))
  }

  // ----- writers: prepare_* and commit_* -----

  function ClaimOf(seen: Word): Word { Word(if seen.epoch != MAX_EPOCH then seen.epoch + 1 else seen.epoch, true) }

  /** A writer's step on its own side; `unlocked`, `quiet` and `trans` are what it reads of the shared words. */
  function MoveOwn(ax: Axis, w: Writer, d: Side, unlocked: bool, quiet: bool, trans: Word): (Axis, Writer) {
    if w.pc == PREP_LOAD then (ax, w.(pc := if w.gen <= ax.active then STAGED else PREP_FLAG))
    else if w.pc == PREP_FLAG then (Noted(ax.(pendingReset := w.reset)), w.(pc := PREP_GEN))
    else if w.pc == PREP_GEN then (Noted(ax.(pending := w.gen)), w.(pc := STAGED))
    else if w.pc == STAGED then (ax, w.(pc := LOCKING))
    else if w.pc == LOCKING then (ax, w.(pc := if unlocked then LOAD else LOCKING))
    else if w.pc == LOAD then (ax, w.(pc := if w.gen <= ax.active then UNLOCK else BLOCK, seen := ax.active))
    else if w.pc == BLOCK then (ax, w.(pc := DRAIN))
    else if w.pc == DRAIN then
      (ax, w.(pc := if !quiet then DRAIN else if w.reset then CLAIM_LOAD else if d == Policy then PUBLISH else BUMP))
    else if w.pc == CLAIM_LOAD then (ax, w.(pc := if trans.resetting then CLAIM_LOAD else CLAIM, seenTrans := trans))
    else if w.pc == CLAIM then
      (ax, if trans != w.seenTrans then w.(pc := CLAIM_LOAD)
           else w.(pc := RAISE, claim := ClaimOf(trans), canReactivate := trans.epoch != MAX_EPOCH))
    else if w.pc == RAISE then (ax.(floor := Max(ax.floor, w.gen)), w.(pc := if d == Policy then PUBLISH else BUMP))
    else if w.pc == PUBLISH then (ax, w.(pc := BUMP))
    else if w.pc == BUMP then
      if w.gen <= w.seen then (ax, w.(pc := LOST))
      else if ax.active == w.seen then (Noted(ax.(active := w.gen)), w.(pc := CLEAR))
      else (ax, w.(seen := ax.active))
    else if w.pc == CLEAR then
      if ax.pending == w.gen then (ax.(pending := 0), w.(pc := CLEAR_FLAG))
      else (ax, w.(pc := if w.reset then SWAP else UNBLOCK))
    else if w.pc == CLEAR_FLAG then (Noted(ax.(pendingReset := false)), w.(pc := if w.reset then SWAP else UNBLOCK))
    else if w.pc == SWAP then (ax, w.(pc := FINISH))
    else if w.pc == FINISH then (ax, w.(pc := UNBLOCK))
    else if w.pc == UNBLOCK then (ax, w.(pc := UNLOCK))
    else (ax, w.(pc := IDLE))
  }

  /** The same step's effect on the words both writers share. */
  function MoveCommon(s: Shared, d: Side, w: Writer): Shared {
    if w.pc == LOCKING then (if s.lock.None? then s.(lock := Some(d)) else s)
    else if w.pc == BLOCK then s.(blocked := true)
    else if w.pc == CLAIM then (if s.trans == w.seenTrans then s.(trans := ClaimOf(s.trans)) else s)
    else if w.pc == PUBLISH then s.(config := Max(s.config, w.gen))
    else if w.pc == BUMP then (if w.gen <= w.seen then s.(blocked := false) else s)
    else if w.pc == SWAP then Rotate(s, d, w.gen)
    else if w.pc == FINISH then
      (if w.canReactivate && s.trans == w.claim then s.(trans := Word(w.claim.epoch, false)) else s)
    else if w.pc == UNBLOCK then s.(blocked := false)
    else if w.pc == UNLOCK || w.pc == LOST then s.(lock := None)
    else s
  }

  /** `reset_tracking_space`: a fresh space replaces the current one. */
  function Rotate(s: Shared, d: Side, gen: nat): Shared {
    if s.spaces == [] then s
    else s.(spaces := s.spaces[Cur(s) := s.spaces[Cur(s)].(retired := By(d, gen))]
                      + [Space(s.policy.floor, s.lb.floor, Live)])
  }

  function MoveWriter(s: Shared, d: Side): Shared {
    var w := WriterOf(s, d);
    var (ax', w') := MoveOwn(AxisOf(s, d), w, d, s.lock.None?, s.inProgress == 0, s.trans);
    WithSide(MoveCommon(s, d, w), d, ax', w')
  }

  /** Generations are issued in increasing order; repeating a committed one is allowed and ignored by the code. */
  function Stage(s: Shared, d: Side, gen: nat, reset: bool): Shared {
    var (w, ax) := (WriterOf(s, d), AxisOf(s, d));
    if w.pc == IDLE && (gen > w.last || gen <= ax.active)
    then WithSide(s, d, ax, w.(pc := PREP_LOAD, gen := gen, reset := reset, last := Max(w.last, gen)))
    else s
  }

  /** A staged generation may be given up without a commit. */
  function Abandon(s: Shared, d: Side): Shared {
    var w := WriterOf(s, d);
    if w.pc == STAGED then WithSide(s, d, AxisOf(s, d), w.(pc := IDLE)) else s
  }

  // ----- requests: try_acquire_for_generation, feedback and permit drop -----

  /** Which of the three generation checks of an admission is running. */
  datatype Purpose = First | AtLimit | Second

  datatype AxisPc = LoadActive | LoadFloor(seen: nat) | LoadPending | LoadReset

  datatype FeedbackPc = LoadBlocked | CheckGen | Enter | RecheckBlocked | RecheckGen | Undo | Guarded

  datatype RequestPc =
    | Pin | LoadConfig
    | CheckTrans(why: Purpose) | Check(why: Purpose, side: Side, at: AxisPc)
    | Insert | TryReserve
    | CheckSpace(why: Purpose, ok: bool) | CheckConfig(why: Purpose, ok: bool, same: bool)
    | Granted(recorded: bool) | Feedback(point: FeedbackPc)
    | Refused | Dropped

  datatype Request = Request(pc: RequestPc, mark: Mark, config: nat)

  /** Scheduling choices: target full, weak CAS fails, key newly inserted, callback due, generation still trains. */
  datatype Env = Env(full: bool, spurious: bool, vacant: bool, record: bool, trains: bool)

  /** Where an accepted side of a generation check continues. */
  function AfterSide(why: Purpose, d: Side): RequestPc {
    if d == Policy then Check(why, Lb, LoadActive)
    else if why == First then Insert
    else CheckSpace(why, true)
  }

  function AfterRefusal(why: Purpose): RequestPc {
    if why == First then Refused else CheckSpace(why, false)
  }

  /** `policy_generation_current`, one load per step. */
  function MoveCheck(s: Shared, q: Request, why: Purpose, d: Side, at: AxisPc): RequestPc {
    var (ax, g) := (AxisOf(s, d), GenOf(q.mark, d));
    match at
    case LoadActive => Check(why, d, LoadFloor(ax.active))
    case LoadFloor(seen) => if ax.floor <= g <= seen then AfterSide(why, d) else Check(why, d, LoadPending)
    case LoadPending => if ax.pending == g && g != 0 then Check(why, d, LoadReset) else AfterRefusal(why)
    case LoadReset => if ax.pendingReset then AfterRefusal(why) else AfterSide(why, d)
  }

  function MoveFeedback(s: Shared, q: Request, at: FeedbackPc, env: Env): (Shared, RequestPc) {
    match at
    case LoadBlocked => (s, if s.blocked then Granted(true) else Feedback(CheckGen))
    case CheckGen => (s, if env.trains then Feedback(Enter) else Granted(true))
    case Enter => (s.(inProgress := s.inProgress + 1), Feedback(RecheckBlocked))
    case RecheckBlocked => (s, if s.blocked then Feedback(Undo) else Feedback(RecheckGen))
    case RecheckGen => (s, if env.trains then Feedback(Guarded) else Feedback(Undo))
    case Undo => (s.(inProgress := if s.inProgress > 0 then s.inProgress - 1 else 0), Granted(true))
    case Guarded => (s.(inProgress := if s.inProgress > 0 then s.inProgress - 1 else 0), Granted(true))
  }

  function MoveRequest(s: Shared, q: Request, env: Env): (Shared, Request) {
    match q.pc
    case Pin => (s, q.(pc := LoadConfig, mark := q.mark.(space := if s.spaces == [] then 0 else Cur(s))))
    case LoadConfig => (s, q.(pc := CheckTrans(First), config := Max(s.config, q.mark.gen)))
    case CheckTrans(why) =>
      (s, q.(pc := if s.trans.resetting then AfterRefusal(why) else Check(why, Policy, LoadActive)))
    case Check(why, d, at) => (s, q.(pc := MoveCheck(s, q, why, d, at)))
    case Insert => (if env.vacant then s.(inserted := s.inserted + {q.mark}) else s, q.(pc := TryReserve))
    case TryReserve =>
      (s, q.(pc := if env.full then CheckTrans(AtLimit) else if env.spurious then TryReserve else CheckTrans(Second)))
    case CheckSpace(why, ok) => (s, q.(pc := CheckConfig(why, ok, q.mark.space == Cur(s))))
    case CheckConfig(why, ok, same) =>
      if !ok || !same then (s, q.(pc := Refused))
      else if s.config > q.config then (s, q.(pc := Pin))
      else if why == Second then (s.(granted := s.granted + {q.mark}), q.(pc := Granted(false)))
      else (s, q.(pc := Refused))
    case Granted(recorded) => (s, q.(pc := if env.record && !recorded then Feedback(LoadBlocked) else Dropped))
    case Feedback(at) =>
      var (s', pc) := MoveFeedback(s, q, at, env);
      (s', q.(pc := pc))
    case Refused => (s, q)
    case Dropped => (s, q)
  }

  // ----- schedules -----

  datatype State = State(shared: Shared, reqs: map<nat, Request>)

  datatype Action =
    | Stages(side: Side, gen: nat, reset: bool) | Abandons(side: Side) | Writes(side: Side)
    | Arrives(t: nat, gen: nat, lbGen: nat) | Moves(t: nat, env: Env)

  function Initial(): State {
    var (ax, w) := (Axis(1, 1, 0, false, 1), Writer(IDLE, 0, false, 1, 0, Word(0, false), Word(0, false), false));
    State(Shared(ax, ax, Word(0, false), 0, 0, false, None, [Space(1, 1, Live)], {}, {}, w, w), map[])
  }

  function Step(s: State, a: Action): State {
    match a
    case Stages(d, gen, reset) => s.(shared := Stage(s.shared, d, gen, reset))
    case Abandons(d) => s.(shared := Abandon(s.shared, d))
    case Writes(d) => s.(shared := MoveWriter(s.shared, d))
    case Arrives(t, gen, lbGen) =>
      if t in s.reqs then s else s.(reqs := s.reqs[t := Request(Pin, Mark(0, gen, lbGen), 0)])
    case Moves(t, env) =>
      if t !in s.reqs then s
      else
        var (b, q) := MoveRequest(s.shared, s.reqs[t], env);
        State(b, s.reqs[t := q])
  }

  function Run(acts: seq<Action>): State {
    if acts == [] then Initial() else Step(Run(acts[..|acts| - 1]), acts[|acts| - 1])
  }

  // ----- invariant: writers -----

  /** The writer holds the commit lock. */
  predicate Busy(pc: WriterPc) { LOAD <= pc }

  /** The commit holds the feedback barrier up. */
  predicate Blocking(pc: WriterPc) { DRAIN <= pc <= UNBLOCK }

  predicate Drained(pc: WriterPc) { DRAIN < pc <= UNBLOCK }

  /** The commit has claimed the reset and not yet detached the current space. */
  predicate Closing(w: Writer) { w.reset && RAISE <= w.pc <= SWAP }

  predicate Resetting(w: Writer) { w.reset && RAISE <= w.pc <= FINISH }

  /** A generation above everything admissible so far, about to be staged. */
  predicate Ahead(ax: Axis, w: Writer) {
    w.gen == w.last && ax.active < w.gen && ax.ceiling < w.gen && ax.pending < w.gen
  }

  /** A generation staged and not yet active; a structural one has never been admissible. */
  predicate Prepared(ax: Axis, w: Writer) {
    ax.pending == w.gen && ax.pendingReset == w.reset && ax.active < w.gen && (w.reset ==> ax.ceiling < w.gen)
  }

  predicate WriterOk(ax: Axis, w: Writer) {
    && w.pc < LOST
    && (w.pc == PREP_LOAD ==> Ahead(ax, w) || w.gen <= ax.active)
    && (PREP_FLAG <= w.pc <= PREP_GEN ==> Ahead(ax, w))
    && (w.pc == PREP_GEN ==> ax.pendingReset == w.reset)
    && (STAGED <= w.pc <= LOAD ==> w.gen <= ax.active || Prepared(ax, w))
    && (BLOCK <= w.pc <= BUMP ==> Prepared(ax, w) && w.seen == ax.active)
    && (CLAIM_LOAD <= w.pc <= RAISE || SWAP <= w.pc <= FINISH ==> w.reset)
    && (CLEAR <= w.pc <= FINISH ==> ax.active == w.gen)
    && (w.pc == CLEAR ==> ax.pending == w.gen)
    && (w.pc == CLEAR_FLAG ==> ax.pending == 0)
  }

  predicate AxisOk(ax: Axis, w: Writer) {
    && WriterOk(ax, w)
    && ax.active <= ax.ceiling <= w.last
    && (!ax.pendingReset ==> ax.pending <= ax.ceiling)
    && ax.pending <= w.last
    && (ax.pending == 0 || ax.floor <= ax.pending)
    && (ax.floor <= ax.active || (w.reset && PUBLISH <= w.pc <= BUMP))
    && (w.reset && PUBLISH <= w.pc <= FINISH ==> ax.floor == w.gen)
  }

  predicate LockOk(s: Shared) {
    && (s.lock == Some(Policy) <==> Busy(s.policyWriter.pc))
    && (s.lock == Some(Lb) <==> Busy(s.lbWriter.pc))
    && (s.blocked <==> Blocking(s.policyWriter.pc) || Blocking(s.lbWriter.pc))
  }

  predicate TransOk(s: Shared) {
    && s.trans.epoch <= MAX_EPOCH
    && (Resetting(s.policyWriter) ==> Claimed(s, s.policyWriter))
    && (Resetting(s.lbWriter) ==> Claimed(s, s.lbWriter))
    && (s.trans.resetting ==> Resetting(s.policyWriter) || Resetting(s.lbWriter) || s.trans.epoch == MAX_EPOCH)
  }

  predicate Claimed(s: Shared, w: Writer) {
    s.trans == w.claim && s.trans.resetting && (w.canReactivate || s.trans.epoch == MAX_EPOCH)
  }

  predicate SpacesOk(s: Shared) {
    && |s.spaces| > 0
    && s.spaces[Cur(s)].retired == Live
    && (forall i :: 0 <= i < |s.spaces| ==> s.spaces[i].lo <= s.policy.floor && s.spaces[i].lbLo <= s.lb.floor)
  }

  predicate SharedOk(s: Shared) {
    && AxisOk(s.policy, s.policyWriter) && AxisOk(s.lb, s.lbWriter)
    && LockOk(s) && TransOk(s) && SpacesOk(s)
  }

  // ----- invariant: requests -----

  /** The first check has accepted side `d` of this request. */
  predicate Passed(pc: RequestPc, d: Side) {
    match pc
    case Pin => false
    case LoadConfig => false
    case CheckTrans(why) => why != First
    case Check(why, side, _) => why != First || (d == Policy && side == Lb)
    case Refused => false
    case Dropped => false
    case _ => true
  }

  /** The last check saw the transition ACTIVE and has not failed since. */
  predicate Cleared(pc: RequestPc) {
    match pc
    case Check(why, _, _) => why == Second
    case CheckSpace(why, ok) => why == Second && ok
    case _ => Kept(pc)
  }

  /** ... and found its own space current. */
  predicate Kept(pc: RequestPc) {
    match pc
    case CheckConfig(why, ok, same) => why == Second && ok && same
    case Granted(_) => true
    case Feedback(_) => true
    case _ => false
  }

  /** Side `d` of a mark lies between its space's floor and the ceiling. */
  predicate Within(s: Shared, m: Mark, d: Side)
    requires m.space < |s.spaces|
  {
    LoOf(s.spaces[m.space], d) <= GenOf(m, d) <= AxisOf(s, d).ceiling
  }

  /** While a structural commit of side `d` closes the current space, the mark is older than it. */
  predicate Older(s: Shared, m: Mark, d: Side) {
    m.space == Cur(s) && Closing(WriterOf(s, d)) ==> GenOf(m, d) < WriterOf(s, d).gen
  }

  /** A mark in a detached space is older than the commit that detached it. */
  predicate Outlived(s: Shared, m: Mark)
    requires m.space < |s.spaces|
  {
    match s.spaces[m.space].retired
    case Live => true
    case By(d, gen) => GenOf(m, d) < gen
  }

  predicate CheckOk(s: Shared, q: Request, d: Side)
    requires q.mark.space < |s.spaces|
  {
    var (ax, g) := (AxisOf(s, d), GenOf(q.mark, d));
    match q.pc
    case Check(_, side, LoadFloor(seen)) => side == d ==> seen <= ax.ceiling
    case Check(_, side, LoadReset) =>
      side == d ==> LoOf(s.spaces[q.mark.space], d) <= g && g <= Max(ax.ceiling, ax.pending)
    case _ => true
  }

  predicate RequestOk(s: Shared, q: Request) {
    && q.mark.space < |s.spaces|
    && (Passed(q.pc, Policy) ==> Within(s, q.mark, Policy))
    && (Passed(q.pc, Lb) ==> Within(s, q.mark, Lb))
    && CheckOk(s, q, Policy) && CheckOk(s, q, Lb)
    && (Cleared(q.pc) ==> Older(s, q.mark, Policy) && Older(s, q.mark, Lb))
    && (Kept(q.pc) ==> Outlived(s, q.mark))
  }

  /** A request counted in `feedback_in_progress`. */
  predicate Counted(pc: RequestPc) {
    pc.Feedback? && (pc.point.RecheckBlocked? || pc.point.RecheckGen? || pc.point.Undo? || pc.point.Guarded?)
  }

  /** ... that has seen the barrier down after being counted. */
  predicate PastBarrier(pc: RequestPc) {
    pc.Feedback? && (pc.point.RecheckGen? || pc.point.Guarded?)
  }

  function CountedRequests(): Request -> bool { (q: Request) => Counted(q.pc) }

  ghost function CountedIds(s: State): set<nat> { Those(s.reqs, CountedRequests()) }

  ghost predicate FeedbackOk(s: State) {
    && s.shared.inProgress == |CountedIds(s)|
    && (Drained(s.shared.policyWriter.pc) || Drained(s.shared.lbWriter.pc) ==>
          forall t :: t in s.reqs ==> !PastBarrier(s.reqs[t].pc))
  }

  /** Past insertions and grants are bound like a request that has inserted, or that holds its permit. */
  ghost predicate RequestsOk(s: State) {
    && (forall t :: t in s.reqs ==> RequestOk(s.shared, s.reqs[t]))
    && (forall m :: m in s.shared.inserted ==> RequestOk(s.shared, Request(TryReserve, m, 0)))
    && (forall m :: m in s.shared.granted ==> RequestOk(s.shared, Request(Granted(false), m, 0)))
  }

  ghost predicate Inv(s: State) { SharedOk(s.shared) && RequestsOk(s) && FeedbackOk(s) }

  // ----- the invariant is kept -----

  /** A step keeps its own side in order, and what a request may have read of it stays covered. */
  predicate OwnKept(ax: Axis, w: Writer, ax': Axis, w': Writer) {
    && AxisOk(ax', w')
    && ax.floor <= ax'.floor && ax.ceiling <= ax'.ceiling
    && Max(ax.ceiling, ax.pending) <= Max(ax'.ceiling, ax'.pending)
    && (Closing(w') ==> w'.gen == w.gen && (Closing(w) || ax.ceiling < w.gen))
  }

  lemma OwnPrepare(ax: Axis, w: Writer, d: Side, unlocked: bool, quiet: bool, trans: Word)
    requires AxisOk(ax, w) && w.pc <= PREP_FLAG
    ensures var m := MoveOwn(ax, w, d, unlocked, quiet, trans); OwnKept(ax, w, m.0, m.1)
  {
  }

  lemma OwnStage(ax: Axis, w: Writer, d: Side, unlocked: bool, quiet: bool, trans: Word)
    requires AxisOk(ax, w) && PREP_GEN <= w.pc <= LOCKING
    ensures var m := MoveOwn(ax, w, d, unlocked, quiet, trans); OwnKept(ax, w, m.0, m.1)
  {
  }

  lemma OwnOpen(ax: Axis, w: Writer, d: Side, unlocked: bool, quiet: bool, trans: Word)
    requires AxisOk(ax, w) && LOAD <= w.pc <= DRAIN
    ensures var m := MoveOwn(ax, w, d, unlocked, quiet, trans); OwnKept(ax, w, m.0, m.1)
  {
  }

  lemma OwnClaim(ax: Axis, w: Writer, d: Side, unlocked: bool, quiet: bool, trans: Word)
    requires AxisOk(ax, w) && CLAIM_LOAD <= w.pc <= RAISE
    ensures var m := MoveOwn(ax, w, d, unlocked, quiet, trans); OwnKept(ax, w, m.0, m.1)
  {
  }

  lemma OwnBump(ax: Axis, w: Writer, d: Side, unlocked: bool, quiet: bool, trans: Word)
    requires AxisOk(ax, w) && PUBLISH <= w.pc <= BUMP
    ensures var m := MoveOwn(ax, w, d, unlocked, quiet, trans); OwnKept(ax, w, m.0, m.1)
  {
  }

  lemma OwnClear(ax: Axis, w: Writer, d: Side, unlocked: bool, quiet: bool, trans: Word)
    requires AxisOk(ax, w) && CLEAR <= w.pc <= CLEAR_FLAG
    ensures var m := MoveOwn(ax, w, d, unlocked, quiet, trans); OwnKept(ax, w, m.0, m.1)
  {
  }

  lemma OwnEnd(ax: Axis, w: Writer, d: Side, unlocked: bool, quiet: bool, trans: Word)
    requires AxisOk(ax, w) && SWAP <= w.pc
    ensures var m := MoveOwn(ax, w, d, unlocked, quiet, trans); OwnKept(ax, w, m.0, m.1)
  {
  }

  lemma OwnOk(ax: Axis, w: Writer, d: Side, unlocked: bool, quiet: bool, trans: Word)
    requires AxisOk(ax, w)
    ensures var m := MoveOwn(ax, w, d, unlocked, quiet, trans); OwnKept(ax, w, m.0, m.1)
  {
    if w.pc <= PREP_FLAG {
      OwnPrepare(ax, w, d, unlocked, quiet, trans);
    } else if w.pc <= LOCKING {
      OwnStage(ax, w, d, unlocked, quiet, trans);
    } else if w.pc <= DRAIN {
      OwnOpen(ax, w, d, unlocked, quiet, trans);
    } else if w.pc <= RAISE {
      OwnClaim(ax, w, d, unlocked, quiet, trans);
    } else if w.pc <= BUMP {
      OwnBump(ax, w, d, unlocked, quiet, trans);
    } else if w.pc <= CLEAR_FLAG {
      OwnClear(ax, w, d, unlocked, quiet, trans);
    } else {
      OwnEnd(ax, w, d, unlocked, quiet, trans);
    }
  }

  /** How a step changes a writer's hold on the lock, the barrier and the transition word. */
  predicate HoldsMove(w: Writer, w': Writer, unlocked: bool, quiet: bool, trans: Word) {
    var claims := w.pc == CLAIM && trans == w.seenTrans;
    && (Busy(w'.pc) <==> (Busy(w.pc) && w.pc != UNLOCK) || (w.pc == LOCKING && unlocked))
    && (Blocking(w'.pc) <==> (Blocking(w.pc) && w.pc != UNBLOCK) || w.pc == BLOCK)
    && (Drained(w'.pc) ==> Drained(w.pc) || (w.pc == DRAIN && quiet))
    && (Resetting(w') <==> (Resetting(w) && w.pc != FINISH) || claims)
    && (if claims then w'.claim == ClaimOf(trans) && w'.canReactivate == (trans.epoch != MAX_EPOCH)
        else w'.claim == w.claim && w'.canReactivate == w.canReactivate)
  }

  lemma OwnHoldsBefore(ax: Axis, w: Writer, d: Side, unlocked: bool, quiet: bool, trans: Word)
    requires WriterOk(ax, w) && w.pc <= CLAIM_LOAD
    ensures var m := MoveOwn(ax, w, d, unlocked, quiet, trans); HoldsMove(w, m.1, unlocked, quiet, trans)
  {
  }

  lemma OwnHoldsAfter(ax: Axis, w: Writer, d: Side, unlocked: bool, quiet: bool, trans: Word)
    requires WriterOk(ax, w) && CLAIM <= w.pc
    ensures var m := MoveOwn(ax, w, d, unlocked, quiet, trans); HoldsMove(w, m.1, unlocked, quiet, trans)
  {
  }

  lemma OwnHolds(ax: Axis, w: Writer, d: Side, unlocked: bool, quiet: bool, trans: Word)
    requires AxisOk(ax, w)
    ensures var m := MoveOwn(ax, w, d, unlocked, quiet, trans); HoldsMove(w, m.1, unlocked, quiet, trans)
  {
    if w.pc <= CLAIM_LOAD {
      OwnHoldsBefore(ax, w, d, unlocked, quiet, trans);
    } else {
      OwnHoldsAfter(ax, w, d, unlocked, quiet, trans);
    }
  }

  lemma LockKept(s: Shared, d: Side, ax': Axis, w': Writer)
    requires LockOk(s) && s.policyWriter.pc < LOST && s.lbWriter.pc < LOST
    requires WriterOf(s, d).pc == BUMP ==> WriterOf(s, d).seen < WriterOf(s, d).gen
    requires HoldsMove(WriterOf(s, d), w', s.lock.None?, s.inProgress == 0, s.trans)
    ensures LockOk(WithSide(MoveCommon(s, d, WriterOf(s, d)), d, ax', w'))
  {
  }

  lemma TransKept(s: Shared, d: Side, ax': Axis, w': Writer)
    requires LockOk(s) && TransOk(s) && WriterOk(AxisOf(s, d), WriterOf(s, d))
    requires HoldsMove(WriterOf(s, d), w', s.lock.None?, s.inProgress == 0, s.trans)
    ensures TransOk(WithSide(MoveCommon(s, d, WriterOf(s, d)), d, ax', w'))
  {
  }

  lemma SpacesKept(s: Shared, d: Side, ax': Axis, w': Writer)
    requires SpacesOk(s) && AxisOf(s, d).floor <= ax'.floor
    ensures SpacesOk(WithSide(MoveCommon(s, d, WriterOf(s, d)), d, ax', w'))
  {
  }

  /** Replacing one side's axis and writer keeps the rest of the shared invariant. */
  lemma SideReplaced(s: Shared, s0: Shared, d: Side, ax': Axis, w': Writer)
    requires SharedOk(s) && AxisOk(ax', w')
    requires s0.policy == s.policy && s0.lb == s.lb && s0.policyWriter == s.policyWriter && s0.lbWriter == s.lbWriter
    requires var s' := WithSide(s0, d, ax', w'); LockOk(s') && TransOk(s') && SpacesOk(s')
    ensures SharedOk(WithSide(s0, d, ax', w'))
  {
  }

  lemma CommonKeepsShared(s: Shared, d: Side, ax': Axis, w': Writer)
    requires SharedOk(s) && OwnKept(AxisOf(s, d), WriterOf(s, d), ax', w')
    requires HoldsMove(WriterOf(s, d), w', s.lock.None?, s.inProgress == 0, s.trans)
    ensures SharedOk(WithSide(MoveCommon(s, d, WriterOf(s, d)), d, ax', w'))
  {
    LockKept(s, d, ax', w');
    TransKept(s, d, ax', w');
    SpacesKept(s, d, ax', w');
    CommonLeavesSides(s, d);
    SideReplaced(s, MoveCommon(s, d, WriterOf(s, d)), d, ax', w');
  }

  lemma WriterKeepsShared(s: Shared, d: Side)
    requires SharedOk(s)
    ensures SharedOk(MoveWriter(s, d))
  {
    var (ax, w) := (AxisOf(s, d), WriterOf(s, d));
    var m := MoveOwn(ax, w, d, s.lock.None?, s.inProgress == 0, s.trans);
    OwnOk(ax, w, d, s.lock.None?, s.inProgress == 0, s.trans);
    OwnHolds(ax, w, d, s.lock.None?, s.inProgress == 0, s.trans);
    CommonKeepsShared(s, d, m.0, m.1);
  }

  lemma OwnStaged(ax: Axis, w: Writer, gen: nat, reset: bool)
    requires AxisOk(ax, w)
    ensures w.pc == IDLE && (gen > w.last || gen <= ax.active) ==>
              AxisOk(ax, w.(pc := PREP_LOAD, gen := gen, reset := reset, last := Max(w.last, gen)))
    ensures w.pc == STAGED ==> AxisOk(ax, w.(pc := IDLE))
  {
  }

  lemma StageKeepsShared(s: Shared, d: Side, gen: nat, reset: bool)
    requires SharedOk(s)
    ensures SharedOk(Stage(s, d, gen, reset))
  {
    var w := WriterOf(s, d);
    OwnStaged(AxisOf(s, d), w, gen, reset);
    if w.pc == IDLE && (gen > w.last || gen <= AxisOf(s, d).active) {
      SideReplaced(s, s, d, AxisOf(s, d), w.(pc := PREP_LOAD, gen := gen, reset := reset, last := Max(w.last, gen)));
    }
  }

  lemma AbandonKeepsShared(s: Shared, d: Side)
    requires SharedOk(s)
    ensures SharedOk(Abandon(s, d))
  {
    var w := WriterOf(s, d);
    OwnStaged(AxisOf(s, d), w, 0, false);
    if w.pc == STAGED {
      SideReplaced(s, s, d, AxisOf(s, d), w.(pc := IDLE));
    }
  }

  /** What a request can notice of a writer's step that does not rotate the space. */
  predicate SideGrows(s: Shared, s': Shared, d: Side) {
    var (ax, ax', w, w') := (AxisOf(s, d), AxisOf(s', d), WriterOf(s, d), WriterOf(s', d));
    && ax.ceiling <= ax'.ceiling
    && Max(ax.ceiling, ax.pending) <= Max(ax'.ceiling, ax'.pending)
    && (Closing(w') ==> w'.gen == w.gen && (Closing(w) || ax.ceiling < w.gen))
  }

  lemma GrowthKeepsRequest(s: Shared, s': Shared, q: Request)
    requires RequestOk(s, q) && s'.spaces == s.spaces && SideGrows(s, s', Policy) && SideGrows(s, s', Lb)
    ensures RequestOk(s', q)
  {
    assert Cleared(q.pc) ==> Passed(q.pc, Policy) && (q.pc.Check? || Passed(q.pc, Lb));
  }

  /** Rotation: requests pinned to the old space are now outlived by the commit, and none is pinned to the new one. */
  lemma RotationKeepsRequest(s: Shared, d: Side, w': Writer, q: Request)
    requires SharedOk(s) && RequestOk(s, q)
    requires WriterOf(s, d).pc == SWAP && w' == WriterOf(s, d).(pc := FINISH)
    ensures RequestOk(WithSide(Rotate(s, d, WriterOf(s, d).gen), d, AxisOf(s, d), w'), q)
  {
  }

  lemma CommonLeavesSides(s: Shared, d: Side)
    ensures var s0 := MoveCommon(s, d, WriterOf(s, d));
            && s0.policy == s.policy && s0.lb == s.lb && s0.policyWriter == s.policyWriter && s0.lbWriter == s.lbWriter
            && (WriterOf(s, d).pc != SWAP ==> s0.spaces == s.spaces)
  {
  }

  lemma SideKeepsRequest(s: Shared, s0: Shared, d: Side, ax': Axis, w': Writer, q: Request)
    requires RequestOk(s, q) && OwnKept(AxisOf(s, d), WriterOf(s, d), ax', w')
    requires s0.policy == s.policy && s0.lb == s.lb && s0.policyWriter == s.policyWriter && s0.lbWriter == s.lbWriter
    requires s0.spaces == s.spaces
    ensures RequestOk(WithSide(s0, d, ax', w'), q)
  {
    GrowthKeepsRequest(s, WithSide(s0, d, ax', w'), q);
  }

  lemma CommonKeepsRequest(s: Shared, d: Side, ax': Axis, w': Writer, q: Request)
    requires SharedOk(s) && RequestOk(s, q) && OwnKept(AxisOf(s, d), WriterOf(s, d), ax', w')
    requires WriterOf(s, d).pc == SWAP ==> ax' == AxisOf(s, d) && w' == WriterOf(s, d).(pc := FINISH)
    ensures RequestOk(WithSide(MoveCommon(s, d, WriterOf(s, d)), d, ax', w'), q)
  {
    if WriterOf(s, d).pc == SWAP {
      RotationKeepsRequest(s, d, w', q);
    } else {
      CommonLeavesSides(s, d);
      SideKeepsRequest(s, MoveCommon(s, d, WriterOf(s, d)), d, ax', w', q);
    }
  }

  lemma WriterKeepsRequest(s: Shared, d: Side, q: Request)
    requires SharedOk(s) && RequestOk(s, q)
    ensures RequestOk(MoveWriter(s, d), q)
  {
    var (ax, w) := (AxisOf(s, d), WriterOf(s, d));
    var m := MoveOwn(ax, w, d, s.lock.None?, s.inProgress == 0, s.trans);
    OwnOk(ax, w, d, s.lock.None?, s.inProgress == 0, s.trans);
    CommonKeepsRequest(s, d, m.0, m.1, q);
  }

  // One load of a generation check each.

  lemma ActiveLoaded(s: Shared, q: Request, why: Purpose, d: Side)
    requires AxisOk(AxisOf(s, d), WriterOf(s, d)) && RequestOk(s, q) && q.pc == Check(why, d, LoadActive)
    ensures RequestOk(s, q.(pc := MoveCheck(s, q, why, d, LoadActive)))
  {
  }

  lemma FloorLoaded(s: Shared, q: Request, why: Purpose, d: Side, seen: nat)
    requires AxisOk(AxisOf(s, d), WriterOf(s, d)) && SpacesOk(s) && RequestOk(s, q)
             && q.pc == Check(why, d, LoadFloor(seen))
    ensures RequestOk(s, q.(pc := MoveCheck(s, q, why, d, LoadFloor(seen))))
  {
  }

  lemma PendingLoaded(s: Shared, q: Request, why: Purpose, d: Side)
    requires AxisOk(AxisOf(s, d), WriterOf(s, d)) && SpacesOk(s) && RequestOk(s, q)
             && q.pc == Check(why, d, LoadPending)
    ensures RequestOk(s, q.(pc := MoveCheck(s, q, why, d, LoadPending)))
  {
  }

  lemma ResetLoaded(s: Shared, q: Request, why: Purpose, d: Side)
    requires AxisOk(AxisOf(s, d), WriterOf(s, d)) && SpacesOk(s) && RequestOk(s, q) && q.pc == Check(why, d, LoadReset)
    ensures RequestOk(s, q.(pc := MoveCheck(s, q, why, d, LoadReset)))
  {
  }

  lemma CheckKept(s: Shared, q: Request, why: Purpose, d: Side, at: AxisPc)
    requires AxisOk(AxisOf(s, d), WriterOf(s, d)) && SpacesOk(s) && RequestOk(s, q) && q.pc == Check(why, d, at)
    ensures RequestOk(s, q.(pc := MoveCheck(s, q, why, d, at)))
  {
    match at
    case LoadActive => ActiveLoaded(s, q, why, d);
    case LoadFloor(seen) => FloorLoaded(s, q, why, d, seen);
    case LoadPending => PendingLoaded(s, q, why, d);
    case LoadReset => ResetLoaded(s, q, why, d);
  }

  /** The load of the transition word: ACTIVE means no structural commit is closing the space. */
  lemma TransChecked(s: Shared, q: Request, why: Purpose)
    requires TransOk(s) && RequestOk(s, q) && q.pc == CheckTrans(why)
    ensures RequestOk(s, q.(pc := if s.trans.resetting then AfterRefusal(why) else Check(why, Policy, LoadActive)))
  {
  }

  lemma OtherKept(s: Shared, q: Request, env: Env)
    requires SpacesOk(s) && RequestOk(s, q) && !q.pc.Check? && !q.pc.CheckTrans?
    ensures RequestOk(s, MoveRequest(s, q, env).1)
  {
  }

  lemma RequestKept(s: Shared, q: Request, env: Env)
    requires SharedOk(s) && RequestOk(s, q)
    ensures RequestOk(s, MoveRequest(s, q, env).1)
  {
    if q.pc.Check? {
      CheckKept(s, q, q.pc.why, q.pc.side, q.pc.at);
    } else if q.pc.CheckTrans? {
      TransChecked(s, q, q.pc.why);
    } else {
      OtherKept(s, q, env);
    }
  }

  /** Requests do not touch what the other requests' clauses depend on. */
  lemma RequestLeavesShared(s: Shared, q: Request, env: Env)
    requires SharedOk(s)
    ensures var s' := MoveRequest(s, q, env).0;
            && s' == s.(inserted := s'.inserted, granted := s'.granted, inProgress := s'.inProgress)
            && SharedOk(s')
  {
  }

  // ----- whole states -----

  lemma WriterLeavesLogs(s: Shared, d: Side)
    ensures var s' := MoveWriter(s, d);
            s'.inserted == s.inserted && s'.granted == s.granted && s'.inProgress == s.inProgress
  {
  }

  /** New shared memory that binds every request as before keeps the requests and the logs in order. */
  lemma RequestsReplaced(s: State, b: Shared)
    requires RequestsOk(s) && b.inserted == s.shared.inserted && b.granted == s.shared.granted
    requires forall q :: RequestOk(s.shared, q) ==> RequestOk(b, q)
    ensures RequestsOk(s.(shared := b))
  {
  }

  /** New shared memory that raises no barrier unnoticed keeps the feedback count in order. */
  lemma FeedbackReplaced(s: State, b: Shared)
    requires FeedbackOk(s) && b.inProgress == s.shared.inProgress
    requires Drained(b.policyWriter.pc) || Drained(b.lbWriter.pc) ==>
               Drained(s.shared.policyWriter.pc) || Drained(s.shared.lbWriter.pc) || s.shared.inProgress == 0
    ensures FeedbackOk(s.(shared := b))
  {
    if s.shared.inProgress == 0 {
      forall t | t in s.reqs ensures !PastBarrier(s.reqs[t].pc) {
        assert t !in CountedIds(s);
      }
    }
  }

  lemma WriterDrains(s: Shared, d: Side)
    requires SharedOk(s)
    ensures var s' := MoveWriter(s, d);
            Drained(s'.policyWriter.pc) || Drained(s'.lbWriter.pc) ==>
              Drained(s.policyWriter.pc) || Drained(s.lbWriter.pc) || s.inProgress == 0
  {
    OwnHolds(AxisOf(s, d), WriterOf(s, d), d, s.lock.None?, s.inProgress == 0, s.trans);
  }

  lemma WriterKeepsInv(s: State, d: Side)
    requires Inv(s)
    ensures Inv(s.(shared := MoveWriter(s.shared, d)))
  {
    var b := MoveWriter(s.shared, d);
    WriterKeepsShared(s.shared, d);
    WriterLeavesLogs(s.shared, d);
    WriterDrains(s.shared, d);
    FeedbackReplaced(s, b);
    forall q | RequestOk(s.shared, q) ensures RequestOk(b, q) {
      WriterKeepsRequest(s.shared, d, q);
    }
    RequestsReplaced(s, b);
  }

  lemma StageGrows(s: Shared, b: Shared, d: Side)
    requires SharedOk(s) && ((exists gen: nat, reset: bool :: b == Stage(s, d, gen, reset)) || b == Abandon(s, d))
    ensures b.spaces == s.spaces && SideGrows(s, b, Policy) && SideGrows(s, b, Lb)
    ensures b.inserted == s.inserted && b.granted == s.granted && b.inProgress == s.inProgress
    ensures Drained(b.policyWriter.pc) || Drained(b.lbWriter.pc) ==>
            Drained(s.policyWriter.pc) || Drained(s.lbWriter.pc)
  {
  }

  lemma StageKeepsInv(s: State, d: Side, b: Shared)
    requires Inv(s) && SharedOk(b)
    requires (exists gen: nat, reset: bool :: b == Stage(s.shared, d, gen, reset)) || b == Abandon(s.shared, d)
    ensures Inv(s.(shared := b))
  {
    StageGrows(s.shared, b, d);
    FeedbackReplaced(s, b);
    forall q | RequestOk(s.shared, q) ensures RequestOk(b, q) {
      GrowthKeepsRequest(s.shared, b, q);
    }
    RequestsReplaced(s, b);
  }

  /** A request's step and the two logs. */
  lemma LogsKept(s: Shared, q: Request, env: Env)
    requires RequestOk(s, q)
    ensures var s' := MoveRequest(s, q, env).0;
            && (forall m :: m in s'.inserted - s.inserted ==> RequestOk(s, Request(TryReserve, m, 0)))
            && (forall m :: m in s'.granted - s.granted ==> RequestOk(s, Request(Granted(false), m, 0)))
  {
  }

  lemma MoveKeepsRequests(s: State, t: nat, b: Shared, q: Request)
    requires RequestsOk(s) && t in s.reqs && RequestOk(s.shared, q)
    requires b == s.shared.(inserted := b.inserted, granted := b.granted, inProgress := b.inProgress)
    requires forall m :: m in b.inserted - s.shared.inserted ==> RequestOk(s.shared, Request(TryReserve, m, 0))
    requires forall m :: m in b.granted - s.shared.granted ==> RequestOk(s.shared, Request(Granted(false), m, 0))
    ensures RequestsOk(State(b, s.reqs[t := q]))
  {
    forall x | RequestOk(s.shared, x) ensures RequestOk(b, x) {
      GrowthKeepsRequest(s.shared, b, x);
    }
  }

  lemma MoveCounts(s: Shared, q: Request, env: Env)
    requires Counted(q.pc) ==> s.inProgress > 0
    ensures var (s', q') := MoveRequest(s, q, env);
            && s'.inProgress + One(Counted(q.pc)) == s.inProgress + One(Counted(q'.pc))
            && (PastBarrier(q'.pc) ==> PastBarrier(q.pc) || !s.blocked)
  {
  }

  lemma MoveKeepsFeedback(s: State, t: nat, env: Env, b: Shared, q: Request)
    requires LockOk(s.shared) && FeedbackOk(s) && t in s.reqs && (b, q) == MoveRequest(s.shared, s.reqs[t], env)
    requires b == s.shared.(inserted := b.inserted, granted := b.granted, inProgress := b.inProgress)
    ensures FeedbackOk(State(b, s.reqs[t := q]))
  {
    if Counted(s.reqs[t].pc) {
      Present(s.reqs, CountedRequests(), t);
    }
    MoveCounts(s.shared, s.reqs[t], env);
    Updated(s.reqs, CountedRequests(), t, q);
  }

  lemma MoveKeepsInv(s: State, t: nat, env: Env)
    requires Inv(s) && t in s.reqs
    ensures Inv(Step(s, Moves(t, env)))
  {
    var (b, q) := MoveRequest(s.shared, s.reqs[t], env);
    RequestKept(s.shared, s.reqs[t], env);
    RequestLeavesShared(s.shared, s.reqs[t], env);
    LogsKept(s.shared, s.reqs[t], env);
    MoveKeepsRequests(s, t, b, q);
    MoveKeepsFeedback(s, t, env, b, q);
  }

  lemma StepKeepsInv(s: State, a: Action)
    requires Inv(s)
    ensures Inv(Step(s, a))
  {
    match a
    case Stages(d, gen, reset) =>
      StageKeepsShared(s.shared, d, gen, reset);
      StageKeepsInv(s, d, Stage(s.shared, d, gen, reset));
    case Abandons(d) =>
      AbandonKeepsShared(s.shared, d);
      StageKeepsInv(s, d, Abandon(s.shared, d));
    case Writes(d) => WriterKeepsInv(s, d);
    case Arrives(t, gen, lbGen) => Updated(s.reqs, CountedRequests(), t, Request(Pin, Mark(0, gen, lbGen), 0));
    case Moves(t, env) => if t in s.reqs { MoveKeepsInv(s, t, env); }
  }

  lemma {:induction false} Reachable(acts: seq<Action>)
    ensures Inv(Run(acts))
  {
    if acts == [] {
      assert CountedIds(Initial()) == {};
    } else {
      Reachable(acts[..|acts| - 1]);
      StepKeepsInv(Run(acts[..|acts| - 1]), acts[|acts| - 1]);
    }
  }

  // ----- main results -----

  /** The history of spaces: floors only rise, old entries stay, new entries start at the floors of their time. */
  ghost predicate SpacesExtend(s: Shared, s': Shared) {
    && s.policy.floor <= s'.policy.floor && s.lb.floor <= s'.lb.floor
    && |s.spaces| <= |s'.spaces|
    && (forall k :: 0 <= k < |s.spaces| ==> Continues(s.spaces[k], s'.spaces[k]))
    && (forall k :: |s.spaces| <= k < |s'.spaces| ==>
          s.policy.floor <= s'.spaces[k].lo && s.lb.floor <= s'.spaces[k].lbLo)
  }

  predicate Continues(sp: Space, sp': Space) {
    sp'.lo == sp.lo && sp'.lbLo == sp.lbLo && (sp.retired != Live ==> sp'.retired == sp.retired)
  }

  lemma CommonExtends(s: Shared, d: Side, ax': Axis, w': Writer)
    requires SpacesOk(s) && AxisOf(s, d).floor <= ax'.floor
    ensures SpacesExtend(s, WithSide(MoveCommon(s, d, WriterOf(s, d)), d, ax', w'))
  {
  }

  lemma WriterExtends(s: Shared, d: Side)
    requires SharedOk(s)
    ensures SpacesExtend(s, MoveWriter(s, d))
  {
    var (ax, w) := (AxisOf(s, d), WriterOf(s, d));
    var m := MoveOwn(ax, w, d, s.lock.None?, s.inProgress == 0, s.trans);
    OwnOk(ax, w, d, s.lock.None?, s.inProgress == 0, s.trans);
    CommonExtends(s, d, m.0, m.1);
  }

  lemma StepExtends(s: State, a: Action)
    requires Inv(s)
    ensures SpacesExtend(s.shared, Step(s, a).shared)
  {
    match a
    case Writes(d) => WriterExtends(s.shared, d);
    case Moves(t, env) => if t in s.reqs { RequestLeavesShared(s.shared, s.reqs[t], env); }
    case _ =>
  }

  lemma ExtendsTransitively(s: Shared, s': Shared, s'': Shared)
    requires SpacesExtend(s, s') && SpacesExtend(s', s'')
    ensures SpacesExtend(s, s'')
  {
    forall k | 0 <= k < |s.spaces| ensures Continues(s.spaces[k], s''.spaces[k]) {
      assert Continues(s.spaces[k], s'.spaces[k]) && Continues(s'.spaces[k], s''.spaces[k]);
    }
    forall k | |s.spaces| <= k < |s''.spaces|
      ensures s.policy.floor <= s''.spaces[k].lo && s.lb.floor <= s''.spaces[k].lbLo
    {
      assert k < |s'.spaces| ==> Continues(s'.spaces[k], s''.spaces[k]);
    }
  }

  lemma {:induction false} RunExtends(acts: seq<Action>, i: nat, j: nat)
    requires i <= j <= |acts|
    ensures SpacesExtend(Run(acts[..i]).shared, Run(acts[..j]).shared)
    decreases j
  {
    if i < j {
      RunExtends(acts, i, j - 1);
      Reachable(acts[..j - 1]);
      assert acts[..j][..j - 1] == acts[..j - 1];
      StepExtends(Run(acts[..j - 1]), acts[j - 1]);
      ExtendsTransitively(Run(acts[..i]).shared, Run(acts[..j - 1]).shared, Run(acts[..j]).shared);
    }
  }

  lemma RotationInstalls(s: Shared, d: Side)
    requires SharedOk(s) && WriterOf(s, d).pc == SWAP
    ensures var (s', w) := (MoveWriter(s, d), WriterOf(s, d));
            && |s'.spaces| == |s.spaces| + 1
            && s'.spaces[Cur(s)].retired == By(d, w.gen)
            && LoOf(s'.spaces[Cur(s')], d) == w.gen == AxisOf(s', d).floor
  {
  }

  /** What any later state `s` says about the space `n` installed in `s1` and the one it replaced. */
  lemma IsolatedSince(s1: Shared, s: State, n: nat, gen: nat, d: Side, m: Mark)
    requires SpacesExtend(s1, s.shared) && RequestsOk(s)
    requires |s1.spaces| == n + 1 && n > 0 && s1.spaces[n - 1].retired == By(d, gen)
    requires LoOf(s1.spaces[n], d) == gen == AxisOf(s1, d).floor
    ensures m in s.shared.inserted + s.shared.granted && m.space >= n ==> GenOf(m, d) >= gen
    ensures m in s.shared.granted && m.space == n - 1 ==> GenOf(m, d) < gen
  {
    assert m in s.shared.granted ==> RequestOk(s.shared, Request(Granted(false), m, 0));
    assert m in s.shared.inserted ==> RequestOk(s.shared, Request(TryReserve, m, 0));
    assert Continues(s1.spaces[n - 1], s.shared.spaces[n - 1]) && Continues(s1.spaces[n], s.shared.spaces[n]);
  }

  /**
   A structural commit of generation `gen` isolates the spaces, whatever else is scheduled: at every later time no
   request below `gen` has inserted into, or been granted a permit in, the new space or a successor of it, and no
   request at or above `gen` was ever granted a permit in the space it detached.  Either side of the fence.
   */
  lemma StructuralCommitIsolates(acts: seq<Action>, i: nat, j: nat, d: Side, m: Mark)
    requires i < j <= |acts| && acts[i] == Writes(d)
    requires WriterOf(Run(acts[..i]).shared, d).pc == SWAP
    ensures var (n, gen) := (|Run(acts[..i]).shared.spaces|, WriterOf(Run(acts[..i]).shared, d).gen);
            var s := Run(acts[..j]).shared;
            && (m in s.inserted + s.granted && m.space >= n ==> GenOf(m, d) >= gen)
            && (m in s.granted && m.space == n - 1 ==> GenOf(m, d) < gen)
  {
    var s := Run(acts[..i]).shared;
    Reachable(acts[..i]);
    RotationInstalls(s, d);
    assert acts[..i + 1][..i] == acts[..i];
    RunExtends(acts, i + 1, j);
    Reachable(acts[..j]);
    IsolatedSince(MoveWriter(s, d), Run(acts[..j]), |s.spaces|, WriterOf(s, d).gen, d, m);
  }

  /** Whoever holds a permit is inside its space's generations. */
  lemma HoldersAreFenced(acts: seq<Action>, t: nat)
    requires t in Run(acts).reqs && (Run(acts).reqs[t].pc.Granted? || Run(acts).reqs[t].pc.Feedback?)
    ensures var (s, m) := (Run(acts).shared, Run(acts).reqs[t].mark);
            && m.space < |s.spaces|
            && s.spaces[m.space].lo <= m.gen && s.spaces[m.space].lbLo <= m.lbGen
            && Outlived(s, m)
  {
    Reachable(acts);
  }

  /** With the commit lock free, feedback is unblocked and the transition is ACTIVE, short of epoch exhaustion. */
  lemma QuietWhenUnlocked(acts: seq<Action>)
    ensures var s := Run(acts).shared;
            s.lock.None? ==> !s.blocked && (s.trans.resetting ==> s.trans.epoch == MAX_EPOCH)
  {
    Reachable(acts);
  }

  /** The lost-race early return is unreachable: the bump of the active generation always succeeds first time. */
  lemma BumpNeverLoses(acts: seq<Action>, d: Side)
    ensures var (w, ax) := (WriterOf(Run(acts).shared, d), AxisOf(Run(acts).shared, d));
            w.pc != LOST && (w.pc == BUMP ==> w.seen == ax.active < w.gen)
  {
    Reachable(acts);
  }

  /**
   A claimed reset is always finished: every step of its owner moves it forward, nothing else moves it, and its last
   line makes the transition ACTIVE again under the claimed epoch, or leaves it closed once epochs are exhausted.
   */
  lemma ClaimedResetFinishes(acts: seq<Action>, d: Side, a: Action)
    requires Resetting(WriterOf(Run(acts).shared, d))
    ensures var (s, s') := (Run(acts).shared, Step(Run(acts), a).shared);
            var (w, w') := (WriterOf(s, d), WriterOf(s', d));
            if a == Writes(d)
            then w.pc < w'.pc && (w.pc == FINISH ==> s'.trans == Word(w.claim.epoch, !w.canReactivate))
            else w' == w && s'.trans == s.trans == w.claim
  {
    Reachable(acts);
    OtherActionsWait(Run(acts), d, a);
  }

  lemma OtherActionsWait(s: State, d: Side, a: Action)
    requires SharedOk(s.shared) && Resetting(WriterOf(s.shared, d))
    ensures var (b, b') := (s.shared, Step(s, a).shared);
            var (w, w') := (WriterOf(b, d), WriterOf(b', d));
            if a == Writes(d)
            then w.pc < w'.pc && (w.pc == FINISH ==> b'.trans == Word(w.claim.epoch, !w.canReactivate))
            else w' == w && b'.trans == b.trans == w.claim
  {
  }

  /** Between a commit's drain and its unblocking no feedback guard is live. */
  lemma NoGuardAcrossCommit(acts: seq<Action>, d: Side, t: nat)
    requires Drained(WriterOf(Run(acts).shared, d).pc) && t in Run(acts).reqs
    ensures Run(acts).reqs[t].pc != Feedback(Guarded)
  {
    Reachable(acts);
  }

  // ----- the fence opens -----

  /** What the two loads of a side amount to when nothing moves: inside the window, or staged as compatible. */
  predicate SideOpen(ax: Axis, g: nat) {
    ax.floor <= g <= ax.active || (ax.pending == g && g != 0 && !ax.pendingReset)
  }

  /** Shared memory and one request after that request moves and nothing else does. */
  function Alone(env: Env): ((Shared, Request)) -> (Shared, Request) {
    (x: (Shared, Request)) => MoveRequest(x.0, x.1, env)
  }

  lemma SideChecked(env: Env, before: seq<(Shared, Request)>, s: Shared, q: Request, why: Purpose, d: Side)
    returns (path: seq<(Shared, Request)>)
    requires Path(Alone(env), before) && before[|before| - 1] == (s, q) && q.pc == Check(why, d, LoadActive)
    ensures Path(Alone(env), path) && path[0] == before[0]
    ensures var open := SideOpen(AxisOf(s, d), GenOf(q.mark, d));
            path[|path| - 1] == (s, q.(pc := if open then AfterSide(why, d) else AfterRefusal(why)))
  {
    var (ax, g) := (AxisOf(s, d), GenOf(q.mark, d));
    path := Then(Alone(env), before, (s, q.(pc := Check(why, d, LoadFloor(ax.active)))));
    if ax.floor <= g <= ax.active {
      path := Then(Alone(env), path, (s, q.(pc := AfterSide(why, d))));
    } else {
      path := Then(Alone(env), path, (s, q.(pc := Check(why, d, LoadPending))));
      if ax.pending == g && g != 0 {
        path := Then(Alone(env), path, (s, q.(pc := Check(why, d, LoadReset))));
        path := Then(Alone(env), path, (s, q.(pc := if ax.pendingReset then AfterRefusal(why) else AfterSide(why, d))));
      } else {
        path := Then(Alone(env), path, (s, q.(pc := AfterRefusal(why))));
      }
    }
  }

  predicate Open(s: Shared, m: Mark) {
    !s.trans.resetting && SideOpen(s.policy, m.gen) && SideOpen(s.lb, m.lbGen)
  }

  lemma Checked(env: Env, before: seq<(Shared, Request)>, s: Shared, q: Request, why: Purpose)
    returns (path: seq<(Shared, Request)>)
    requires Path(Alone(env), before) && before[|before| - 1] == (s, q) && q.pc == CheckTrans(why)
    ensures Path(Alone(env), path) && path[0] == before[0]
    ensures path[|path| - 1] == (s, q.(pc := if Open(s, q.mark) then AfterSide(why, Lb) else AfterRefusal(why)))
  {
    if s.trans.resetting {
      path := Then(Alone(env), before, (s, q.(pc := AfterRefusal(why))));
    } else {
      var q1 := q.(pc := Check(why, Policy, LoadActive));
      path := Then(Alone(env), before, (s, q1));
      path := SideChecked(env, path, s, q1, why, Policy);
      if SideOpen(s.policy, q.mark.gen) {
        path := SideChecked(env, path, s, q1.(pc := Check(why, Lb, LoadActive)), why, Lb);
      }
    }
  }

  /**
   A request that runs undisturbed against a target with room is granted a permit in the current space exactly when
   the transition is ACTIVE and both its generations are open; a compatible staged generation is open.
   */
  lemma AdmittedExactlyWhenOpen(env: Env, s: Shared, q: Request) returns (path: seq<(Shared, Request)>)
    requires |s.spaces| > 0 && q.pc == Pin && !env.full && !env.spurious
    ensures Path(Alone(env), path) && path[0] == (s, q)
    ensures var (s', q') := path[|path| - 1];
            if Open(s, q.mark)
            then q'.pc == Granted(false) && q'.mark == q.mark.(space := Cur(s)) && q'.mark in s'.granted
            else q'.pc == Refused && s' == s
  {
    var q1 := q.(mark := q.mark.(space := Cur(s)), pc := LoadConfig);
    var q2 := q1.(config := Max(s.config, q.mark.gen), pc := CheckTrans(First));
    path := Then(Alone(env), [(s, q)], (s, q1));
    path := Then(Alone(env), path, (s, q2));
    path := Checked(env, path, s, q2, First);
    if Open(s, q.mark) {
      var s1 := if env.vacant then s.(inserted := s.inserted + {q1.mark}) else s;
      path := Then(Alone(env), path, (s1, q2.(pc := TryReserve)));
      path := Then(Alone(env), path, (s1, q2.(pc := CheckTrans(Second))));
      path := Checked(env, path, s1, q2.(pc := CheckTrans(Second)), Second);
      path := Then(Alone(env), path, (s1, q2.(pc := CheckConfig(Second, true, true))));
      path := Then(Alone(env), path, (s1.(granted := s1.granted + {q1.mark}), q2.(pc := Granted(false))));
    }
  }

  // ----- a commit takes effect -----

  function WriterAlone(d: Side): Shared -> Shared { (s: Shared) => MoveWriter(s, d) }

  /** One step of an undisturbed writer whose side reads `ax` and `w`. */
  lemma Writes1(d: Side, before: seq<Shared>, s: Shared, ax: Axis, w: Writer, s': Shared, ax': Axis, w': Writer)
    returns (path: seq<Shared>)
    requires Path(WriterAlone(d), before) && before[|before| - 1] == WithSide(s, d, ax, w) && w.pc != SWAP
    requires (ax', w') == MoveOwn(ax, w, d, s.lock.None?, s.inProgress == 0, s.trans) && s' == MoveCommon(s, d, w)
    ensures Path(WriterAlone(d), path) && path[0] == before[0] && path[|path| - 1] == WithSide(s', d, ax', w')
  {
    path := Then(WriterAlone(d), before, WithSide(s', d, ax', w'));
  }

  /** The commit takes the lock and finds its generation new. */
  lemma LockedAlone(d: Side, s: Shared, ax: Axis, w: Writer) returns (path: seq<Shared>)
    requires w.pc == STAGED && ax.active < w.gen && s.lock.None?
    ensures Path(WriterAlone(d), path) && path[0] == WithSide(s, d, ax, w)
    ensures path[|path| - 1] == WithSide(s.(lock := Some(d)), d, ax, w.(pc := BLOCK, seen := ax.active))
  {
    var locked := s.(lock := Some(d));
    path := Writes1(d, [WithSide(s, d, ax, w)], s, ax, w, s, ax, w.(pc := LOCKING));
    path := Writes1(d, path, s, ax, w.(pc := LOCKING), locked, ax, w.(pc := LOAD));
    path := Writes1(d, path, locked, ax, w.(pc := LOAD), locked, ax, w.(pc := BLOCK, seen := ax.active));
  }

  function AfterDrain(d: Side, reset: bool): WriterPc {
    if reset then CLAIM_LOAD else if d == Policy then PUBLISH else BUMP
  }

  /** The barrier goes up, and there is nothing to drain. */
  lemma BlockedAlone(d: Side, before: seq<Shared>, s: Shared, ax: Axis, w: Writer) returns (path: seq<Shared>)
    requires Path(WriterAlone(d), before) && before[|before| - 1] == WithSide(s, d, ax, w)
    requires w.pc == BLOCK && s.inProgress == 0
    ensures Path(WriterAlone(d), path) && path[0] == before[0]
    ensures path[|path| - 1] == WithSide(s.(blocked := true), d, ax, w.(pc := AfterDrain(d, w.reset)))
  {
    var s1 := s.(blocked := true);
    path := Writes1(d, before, s, ax, w, s1, ax, w.(pc := DRAIN));
    path := Writes1(d, path, s1, ax, w.(pc := DRAIN), s1, ax, w.(pc := AfterDrain(d, w.reset)));
  }

  /** A structural commit claims the reset and raises the floor. */
  lemma ClaimedAlone(d: Side, before: seq<Shared>, s: Shared, ax: Axis, w: Writer) returns (path: seq<Shared>)
    requires Path(WriterAlone(d), before) && before[|before| - 1] == WithSide(s, d, ax, w)
    requires w.pc == CLAIM_LOAD && !s.trans.resetting
    ensures Path(WriterAlone(d), path) && path[0] == before[0]
    ensures var w' := w.(pc := if d == Policy then PUBLISH else BUMP, seenTrans := s.trans, claim := ClaimOf(s.trans),
                         canReactivate := s.trans.epoch != MAX_EPOCH);
            path[|path| - 1] == WithSide(s.(trans := ClaimOf(s.trans)), d, ax.(floor := Max(ax.floor, w.gen)), w')
  {
    var w1 := w.(pc := CLAIM, seenTrans := s.trans);
    var w2 := w1.(pc := RAISE, claim := ClaimOf(s.trans), canReactivate := s.trans.epoch != MAX_EPOCH);
    var s1 := s.(trans := ClaimOf(s.trans));
    path := Writes1(d, before, s, ax, w, s, ax, w1);
    path := Writes1(d, path, s, ax, w1, s1, ax, w2);
    path := Writes1(d, path, s1, ax, w2, s1, ax.(floor := Max(ax.floor, w.gen)),
                    w2.(pc := if d == Policy then PUBLISH else BUMP));
  }

  /** The generation becomes active and its staging is cleared. */
  lemma BumpedAlone(d: Side, before: seq<Shared>, s: Shared, ax: Axis, w: Writer) returns (path: seq<Shared>)
    requires Path(WriterAlone(d), before) && before[|before| - 1] == WithSide(s, d, ax, w)
    requires w.pc == BUMP && w.seen == ax.active < w.gen && ax.pending == w.gen
    ensures Path(WriterAlone(d), path) && path[0] == before[0]
    ensures exists ceiling ::
              path[|path| - 1] == WithSide(s, d, Axis(w.gen, ax.floor, 0, false, ceiling),
                                           w.(pc := if w.reset then SWAP else UNBLOCK))
  {
    var ax1 := Noted(ax.(active := w.gen));
    var ax2 := ax1.(pending := 0);
    var ax3 := Noted(ax2.(pendingReset := false));
    path := Writes1(d, before, s, ax, w, s, ax1, w.(pc := CLEAR));
    path := Writes1(d, path, s, ax1, w.(pc := CLEAR), s, ax2, w.(pc := CLEAR_FLAG));
    path := Writes1(d, path, s, ax2, w.(pc := CLEAR_FLAG), s, ax3, w.(pc := if w.reset then SWAP else UNBLOCK));
    assert ax3 == Axis(w.gen, ax.floor, 0, false, ax3.ceiling);
  }

  /** What a commit leaves behind: the generation active, its staging cleared, a structural one on a fresh space. */
  predicate Committed(s: Shared, s': Shared, d: Side) {
    var (ax, w, ax', e) := (AxisOf(s, d), WriterOf(s, d), AxisOf(s', d), if d == Policy then Lb else Policy);
    && ax'.active == w.gen && ax'.pending == 0 && !ax'.pendingReset
    && ax'.floor == (if w.reset then Max(ax.floor, w.gen) else ax.floor)
    && AxisOf(s', e) == AxisOf(s, e) && WriterOf(s', e) == WriterOf(s, e) && WriterOf(s', d).pc == IDLE
    && s'.lock.None? && !s'.blocked && s'.inProgress == s.inProgress
    && s'.config == (if d == Policy then Max(s.config, w.gen) else s.config)
    && s'.inserted == s.inserted && s'.granted == s.granted
    && (if w.reset then 0 < |s.spaces| == |s'.spaces| - 1 && s'.spaces[Cur(s)].retired == By(d, w.gen)
                        && s'.spaces[Cur(s')] == Space(s'.policy.floor, s'.lb.floor, Live)
                        && s'.spaces[..Cur(s)] == s.spaces[..Cur(s)]
        else s'.spaces == s.spaces)
    && s'.trans == if w.reset then Word(ClaimOf(s.trans).epoch, s.trans.epoch == MAX_EPOCH) else s.trans
  }

  /** The current space is detached and the fence reopened. */
  lemma RotatedAlone(d: Side, before: seq<Shared>, s: Shared, ax: Axis, w: Writer) returns (path: seq<Shared>)
    requires Path(WriterAlone(d), before) && before[|before| - 1] == WithSide(s, d, ax, w)
    requires w.pc == SWAP && |s.spaces| > 0 && s.trans == w.claim
    ensures Path(WriterAlone(d), path) && path[0] == before[0]
    ensures var s1 := Rotate(WithSide(s, d, ax, w), d, w.gen);
            path[|path| - 1] == WithSide(s1.(trans := if w.canReactivate then Word(w.claim.epoch, false) else s.trans),
                                         d, ax, w.(pc := UNBLOCK))
  {
    var s1 := Rotate(WithSide(s, d, ax, w), d, w.gen);
    path := Then(WriterAlone(d), before, WithSide(s1, d, ax, w.(pc := FINISH)));
    path := Writes1(d, path, s1, ax, w.(pc := FINISH),
                    s1.(trans := if w.canReactivate then Word(w.claim.epoch, false) else s.trans), ax,
                    w.(pc := UNBLOCK));
  }

  /** Feedback and the lock are released. */
  lemma ReleasedAlone(d: Side, before: seq<Shared>, s: Shared, ax: Axis, w: Writer) returns (path: seq<Shared>)
    requires Path(WriterAlone(d), before) && before[|before| - 1] == WithSide(s, d, ax, w) && w.pc == UNBLOCK
    ensures Path(WriterAlone(d), path) && path[0] == before[0]
    ensures path[|path| - 1] == WithSide(s.(blocked := false, lock := None), d, ax, w.(pc := IDLE))
  {
    path := Writes1(d, before, s, ax, w, s.(blocked := false), ax, w.(pc := UNLOCK));
    path := Writes1(d, path, s.(blocked := false), ax, w.(pc := UNLOCK), s.(blocked := false, lock := None), ax,
                    w.(pc := IDLE));
  }

  lemma LeftAlone(d: Side, before: seq<Shared>, s: Shared, ax: Axis, w: Writer) returns (path: seq<Shared>)
    requires Path(WriterAlone(d), before) && before[|before| - 1] == WithSide(s, d, ax, w)
    requires w.pc == (if w.reset then SWAP else UNBLOCK) && |s.spaces| > 0 && (w.reset ==> s.trans == w.claim)
    ensures Path(WriterAlone(d), path) && path[0] == before[0]
    ensures var s1 := if w.reset then Rotate(WithSide(s, d, ax, w), d, w.gen) else s;
            var trans := if w.reset && w.canReactivate then Word(w.claim.epoch, false) else s.trans;
            path[|path| - 1] == WithSide(s1.(trans := trans, blocked := false, lock := None), d, ax, w.(pc := IDLE))
  {
    if w.reset {
      path := RotatedAlone(d, before, s, ax, w);
      var s1 := Rotate(WithSide(s, d, ax, w), d, w.gen);
      path := ReleasedAlone(d, path, s1.(trans := if w.canReactivate then Word(w.claim.epoch, false) else s.trans), ax,
                            w.(pc := UNBLOCK));
    } else {
      path := ReleasedAlone(d, before, s, ax, w);
    }
  }

  /** The state of an undisturbed commit when it is about to bump the active generation. */
  function AtBump(s: Shared, d: Side): (Shared, Axis, Writer) {
    var (ax, w) := (AxisOf(s, d), WriterOf(s, d).(pc := BUMP, seen := AxisOf(s, d).active));
    var s1 := s.(lock := Some(d), blocked := true, config := if d == Policy then Max(s.config, w.gen) else s.config);
    if w.reset
    then (s1.(trans := ClaimOf(s.trans)), ax.(floor := Max(ax.floor, w.gen)),
          w.(seenTrans := s.trans, claim := ClaimOf(s.trans), canReactivate := s.trans.epoch != MAX_EPOCH))
    else (s1, ax, w)
  }

  lemma PublishedAlone(d: Side, before: seq<Shared>, s: Shared, ax: Axis, w: Writer) returns (path: seq<Shared>)
    requires Path(WriterAlone(d), before) && before[|before| - 1] == WithSide(s, d, ax, w)
    requires w.pc == if d == Policy then PUBLISH else BUMP
    ensures Path(WriterAlone(d), path) && path[0] == before[0]
    ensures var config := if d == Policy then Max(s.config, w.gen) else s.config;
            path[|path| - 1] == WithSide(s.(config := config), d, ax, w.(pc := BUMP))
  {
    path := before;
    if d == Policy {
      path := Writes1(d, path, s, ax, w, s.(config := Max(s.config, w.gen)), ax, w.(pc := BUMP));
    }
  }

  lemma ReachesBump(d: Side, s: Shared) returns (path: seq<Shared>)
    requires WriterOf(s, d).pc == STAGED && AxisOf(s, d).active < WriterOf(s, d).gen
    requires s.lock.None? && s.inProgress == 0 && !s.trans.resetting
    ensures Path(WriterAlone(d), path) && path[0] == s
    ensures var (s1, ax1, w1) := AtBump(s, d); path[|path| - 1] == WithSide(s1, d, ax1, w1)
  {
    var (ax, w) := (AxisOf(s, d), WriterOf(s, d));
    assert WithSide(s, d, ax, w) == s;
    path := LockedAlone(d, s, ax, w);
    path := BlockedAlone(d, path, s.(lock := Some(d)), ax, w.(pc := BLOCK, seen := ax.active));
    var (s1, w1) := (s.(lock := Some(d), blocked := true), w.(pc := AfterDrain(d, w.reset), seen := ax.active));
    if w.reset {
      path := ClaimedAlone(d, path, s1, ax, w1);
      w1 := w1.(pc := if d == Policy then PUBLISH else BUMP, seenTrans := s.trans, claim := ClaimOf(s.trans),
                canReactivate := s.trans.epoch != MAX_EPOCH);
      path := PublishedAlone(d, path, s1.(trans := ClaimOf(s.trans)), ax.(floor := Max(ax.floor, w.gen)), w1);
    } else {
      path := PublishedAlone(d, path, s1, ax, w1);
    }
  }

  lemma Finishes(d: Side, before: seq<Shared>, s: Shared) returns (path: seq<Shared>)
    requires Path(WriterAlone(d), before) && |s.spaces| > 0
             && AxisOf(s, d).active < WriterOf(s, d).gen == AxisOf(s, d).pending
    requires var (s1, ax1, w1) := AtBump(s, d); before[|before| - 1] == WithSide(s1, d, ax1, w1)
    ensures Path(WriterAlone(d), path) && path[0] == before[0] && Committed(s, path[|path| - 1], d)
  {
    var (s1, ax1, w1) := AtBump(s, d);
    path := BumpedAlone(d, before, s1, ax1, w1);
    var w2 := w1.(pc := if w1.reset then SWAP else UNBLOCK);
    var ceiling :| path[|path| - 1] == WithSide(s1, d, Axis(w1.gen, ax1.floor, 0, false, ceiling), w2);
    path := LeftAlone(d, path, s1, Axis(w1.gen, ax1.floor, 0, false, ceiling), w2);
  }

  /**
   From every reachable state, a staged generation newer than the active one, committed undisturbed with no feedback in
   progress, takes effect: it becomes active, and a structural one detaches the current space and reopens the fence.
   */
  lemma CommitAlone(acts: seq<Action>, d: Side) returns (path: seq<Shared>)
    requires var s := Run(acts).shared;
             && WriterOf(s, d).pc == STAGED && AxisOf(s, d).active < WriterOf(s, d).gen
             && s.lock.None? && s.inProgress == 0 && !s.trans.resetting
    ensures Path(WriterAlone(d), path) && path[0] == Run(acts).shared
    ensures Committed(Run(acts).shared, path[|path| - 1], d)
  {
    Reachable(acts);
    path := ReachesBump(d, Run(acts).shared);
    path := Finishes(d, path, Run(acts).shared);
  }
}
