/**
 The admission permits of observability delivery tasks.

 Any number of spawn calls, the tasks they start, and any number of cancellers run interleaved; every atomic access and
 every registry operation is one step. A task may be dropped by its runtime at any time, which covers every abort.
 */
module DeliveryLifecycle {
  import opened Counting
  import opened Traces

  datatype Kind = Terminal | Mirror | DeadlineCleanup

  /** The per-kind cancellation counters. */
  datatype Tally = Tally(terminal: nat, mirror: nat, cleanup: nat) {
    function Of(kind: Kind): nat {
      match kind case Terminal => terminal case Mirror => mirror case DeadlineCleanup => cleanup
    }

    function Plus(kind: Kind): Tally {
      match kind
      case Terminal => this.(terminal := terminal + 1)
      case Mirror => this.(mirror := mirror + 1)
      case DeadlineCleanup => this.(cleanup := cleanup + 1)
    }
  }

  /** Who removed a registry entry, released a permit or counted a cancellation, seen from the call concerned. */
  datatype Agent = Spawner | Completion | Canceller(d: nat)

  /** Who has done it so far: nobody, one agent once, or it was done again. */
  datatype Log = Nobody | Once(agent: Agent) | Again

  function Noted(log: Log, agent: Agent): Log { if log.Nobody? then Once(agent) else Again }

  datatype Pc =
    | Check | Register | Recheck | Reserve | Handle | TakeId | Insert
    | LoadFlag | RemoveOwn | Send | RemoveUnsent | CountOwn | DropPermit
    | Unregister | Returned

  /** The spawned future: `Running` holds the completion guard, `Gone` is dropped or done. */
  datatype TaskPc = Unborn | Waiting | Signalled | Running | Finishing | Releasing | Gone

  /** One spawn call and its task; `granted` and the three logs are history. */
  datatype Call = Call(pc: Pc, task: TaskPc, kind: Kind, internal: bool, accepted: bool, granted: bool, id: nat,
                       removed: Log, released: Log, counted: Log)

  /** A registry entry; `call` stands for the abort handle. */
  datatype Tracked = Tracked(kind: Kind, call: nat)

  /** `takenBy[id]` is the call that drew `id` and its length the next id; `underflow` records a failed subtraction. */
  datatype Shared = Shared(admitted: nat, external: bool, internal: bool, cancelling: bool, registrations: nat,
                           takenBy: seq<nat>, tasks: map<nat, Tracked>, cancelled: Tally, underflow: bool)

  datatype CancelPc =
    | Begin | Collect | Sweep(todo: set<nat>) | FreePermit(c: nat, todo: set<nat>)
    | CountCancelled(c: nat, todo: set<nat>) | Swept

  datatype State = State(shared: Shared, calls: map<nat, Call>, cancellers: map<nat, CancelPc>)

  // ----- steps -----

  predicate Accepts(s: Shared, k: Call) { if k.internal then s.internal else s.external }

  /** `release_task_permit`. */
  function Release(s: Shared, k: Call, agent: Agent): (Shared, Call) {
    (if s.admitted == 0 then s.(underflow := true) else s.(admitted := s.admitted - 1),
     k.(released := Noted(k.released, agent)))
  }

  function CountCancel(s: Shared, k: Call, agent: Agent): (Shared, Call) {
    (s.(cancelled := s.cancelled.Plus(k.kind)), k.(counted := Noted(k.counted, agent)))
  }

  function Remove(s: Shared, k: Call, agent: Agent): (Shared, Call) {
    (s.(tasks := s.tasks - {k.id}), k.(removed := Noted(k.removed, agent)))
  }

  function MoveSpawn(max: nat, s: Shared, c: nat, k: Call, runtime: bool): (Shared, Call) {
    match k.pc
    case Check => (s, k.(pc := if Accepts(s, k) then Register else Returned))
    case Register => (s.(registrations := s.registrations + 1), k.(pc := Recheck))
    case Recheck => (s, k.(pc := if Accepts(s, k) then Reserve else Unregister))
    case Reserve =>
      if s.admitted < max then (s.(admitted := s.admitted + 1), k.(pc := Handle, granted := true))
      else (s, k.(pc := Unregister))
    case Handle => (s, k.(pc := if runtime then TakeId else DropPermit))
    case TakeId => (s.(takenBy := s.takenBy + [c]), k.(pc := Insert, id := |s.takenBy|, task := Waiting))
    case Insert => (s.(tasks := s.tasks[k.id := Tracked(k.kind, c)]), k.(pc := LoadFlag))
    case LoadFlag => (s, k.(pc := if s.cancelling then RemoveOwn else Send))
    case Send =>
      if k.task == Waiting then (s, k.(pc := Unregister, task := Signalled, accepted := true))
      else (s, k.(pc := RemoveUnsent))
    case RemoveOwn => MoveRemove(s, k)
    case RemoveUnsent => MoveRemove(s, k)
    case CountOwn => CountCancel(s, k.(pc := DropPermit), Spawner)
    case DropPermit => Release(s, k.(pc := Unregister), Spawner)
    case Unregister =>
      (if s.registrations == 0 then s.(underflow := true) else s.(registrations := s.registrations - 1),
       k.(pc := Returned))
    case Returned => (s, k)
  }

  /** The call reclaims its own entry, or disarms its permit because a canceller was first. */
  function MoveRemove(s: Shared, k: Call): (Shared, Call) {
    if k.id in s.tasks then Remove(s, k.(pc := CountOwn), Spawner) else (s, k.(pc := Unregister))
  }

  function MoveTask(s: Shared, k: Call, dropped: bool): (Shared, Call) {
    match k.task
    case Waiting => (s, if dropped then k.(task := Gone) else k)
    case Signalled => (s, k.(task := if dropped then Gone else Running))
    case Running => (s, k.(task := Finishing))
    case Finishing =>
      if k.id in s.tasks then Remove(s, k.(task := Releasing), Completion) else (s, k.(task := Gone))
    case Releasing => Release(s, k.(task := Gone), Completion)
    case _ => (s, k)
  }

  /** A canceller removes `id` next, one of those it collected. */
  function MoveSweep(s: State, d: nat, todo: set<nat>, id: nat): State {
    if todo == {} then s.(cancellers := s.cancellers[d := Swept])
    else if id !in todo then s
    else if id !in s.shared.tasks || s.shared.tasks[id].call !in s.calls
    then s.(cancellers := s.cancellers[d := Sweep(todo - {id})])
    else
      var c := s.shared.tasks[id].call;
      var k := s.calls[c];
      State(s.shared.(tasks := s.shared.tasks - {id}), s.calls[c := k.(removed := Noted(k.removed, Canceller(d)))],
            s.cancellers[d := FreePermit(c, todo - {id})])
  }

  /** Iterating the registry yields every entry present when it starts, and perhaps some `extra` ones. */
  function MoveCancel(s: State, d: nat, pc: CancelPc, id: nat, extra: set<nat>): State {
    match pc
    case Begin => State(s.shared.(cancelling := true), s.calls, s.cancellers[d := Collect])
    case Collect => s.(cancellers := s.cancellers[d := Sweep(s.shared.tasks.Keys + extra)])
    case Sweep(todo) => MoveSweep(s, d, todo, id)
    case FreePermit(c, todo) =>
      if c !in s.calls then s
      else
        var (b, k) := Release(s.shared, s.calls[c], Canceller(d));
        State(b, s.calls[c := k], s.cancellers[d := CountCancelled(c, todo)])
    case CountCancelled(c, todo) =>
      if c !in s.calls then s
      else
        var (b, k) := CountCancel(s.shared, s.calls[c], Canceller(d));
        State(b, s.calls[c := k], s.cancellers[d := Sweep(todo)])
    case Swept => s
  }

  datatype Action =
    | Spawns(c: nat, kind: Kind, internal: bool) | CallMoves(c: nat, runtime: bool) | TaskMoves(c: nat, dropped: bool)
    | Cancels(d: nat) | CancelMoves(d: nat, id: nat, extra: set<nat>)
    | ClosesExternal | ClosesInternal

  function Initial(): State { State(Shared(0, true, true, false, 0, [0], map[], Tally(0, 0, 0), false), map[], map[]) }

  function Step(max: nat, s: State, a: Action): State {
    match a
    case Spawns(c, kind, internal) =>
      if c in s.calls then s
      else s.(calls := s.calls[c := Call(Check, Unborn, kind, internal, false, false, 0, Nobody, Nobody, Nobody)])
    case CallMoves(c, runtime) =>
      if c !in s.calls then s
      else
        var (b, k) := MoveSpawn(max, s.shared, c, s.calls[c], runtime);
        s.(shared := b, calls := s.calls[c := k])
    case TaskMoves(c, dropped) =>
      if c !in s.calls then s
      else
        var (b, k) := MoveTask(s.shared, s.calls[c], dropped);
        s.(shared := b, calls := s.calls[c := k])
    case Cancels(d) => if d in s.cancellers then s else s.(cancellers := s.cancellers[d := Begin])
    case CancelMoves(d, id, extra) => if d in s.cancellers then MoveCancel(s, d, s.cancellers[d], id, extra) else s
    case ClosesExternal => s.(shared := s.shared.(external := false))
    case ClosesInternal => s.(shared := s.shared.(internal := false))
  }

  function Run(max: nat, acts: seq<Action>): State {
    if acts == [] then Initial() else Step(max, Run(max, acts[..|acts| - 1]), acts[|acts| - 1])
  }

  // ----- invariant -----

  predicate Late(pc: Pc) { pc.Unregister? || pc.Returned? }
  predicate Reclaiming(pc: Pc) { pc.LoadFlag? || pc.RemoveOwn? }
  predicate Unstarted(task: TaskPc) { task.Waiting? || task.Gone? }

  /** At most one remover, who alone releases the permit and alone may count a cancellation. */
  predicate LogsOk(k: Call, listed: bool) {
    && (if k.removed.Nobody? then k.counted.Nobody? && (k.id == 0 || k.released.Nobody?)
        else !listed && k.id != 0 && k.removed.Once?
             && (k.released.Nobody? || k.released == k.removed)
             && (k.counted.Nobody? || (k.counted == k.removed && k.removed != Once(Completion)))
             && (TakenByCanceller(k) ==> k.counted.Nobody? || k.released == k.removed))
    && (k.id == 0 ==> k.released.Nobody? || k.released == Once(Spawner))
    && (k.id != 0 || !k.released.Nobody? ==> k.granted)
  }

  /** What the call still owes, by program counter. */
  predicate PcOk(k: Call, listed: bool) {
    match k.pc
    case Check | Register | Recheck | Reserve => !k.granted && k.task == Unborn
    case Handle | TakeId => k.granted && k.id == 0 && k.released.Nobody? && k.task == Unborn
    case Insert => k.id != 0 && !listed && k.removed.Nobody? && Unstarted(k.task)
    case LoadFlag | RemoveOwn | Send | RemoveUnsent => k.id != 0 && Unstarted(k.task) && (listed || TakenByCanceller(k))
    case CountOwn => k.removed == Once(Spawner) && k.released.Nobody? && k.counted.Nobody? && Unstarted(k.task)
    case DropPermit =>
      && k.granted && k.released.Nobody? && !Live(k.task)
      && (if k.id == 0 then k.task.Unborn? else k.removed == k.counted == Once(Spawner))
    case Unregister | Returned =>
      k.granted ==> if k.id == 0 then k.released == Once(Spawner) && k.task == Unborn
                    else && (listed || !k.removed.Nobody?)
                         && (k.removed == Once(Spawner) ==> k.released == k.counted == Once(Spawner))
  }

  predicate TakenByCanceller(k: Call) { k.removed.Once? && k.removed.agent.Canceller? }
  predicate Live(task: TaskPc) { task.Signalled? || task.Running? || task.Finishing? || task.Releasing? }

  /** The task releases exactly what it removed, and only once handed off. */
  predicate TaskOk(k: Call) {
    && (Live(k.task) ==> Late(k.pc) && k.id != 0 && k.removed != Once(Spawner))
    && (k.task == Releasing <==> k.removed == Once(Completion) && k.released.Nobody?)
  }

  predicate CallOk(s: Shared, c: nat, k: Call) {
    && (k.id != 0 ==> k.id < |s.takenBy| && s.takenBy[k.id] == c)
    && LogsOk(k, k.id in s.tasks) && PcOk(k, k.id in s.tasks) && TaskOk(k)
  }

  predicate EntryOk(s: State, id: nat)
    requires id in s.shared.tasks
  {
    var e := s.shared.tasks[id];
    && 0 < id < |s.shared.takenBy| && s.shared.takenBy[id] == e.call
    && e.call in s.calls && s.calls[e.call].id == id && s.calls[e.call].kind == e.kind
  }

  /** A canceller between removing an entry and counting it. */
  predicate CancellerOk(s: State, d: nat, pc: CancelPc) {
    match pc
    case Begin | Collect | Sweep(_) | Swept => true
    case FreePermit(c, _) =>
      && c in s.calls && s.calls[c].removed == Once(Canceller(d))
      && s.calls[c].released == s.calls[c].counted == Nobody
    case CountCancelled(c, _) =>
      c in s.calls && s.calls[c].removed == s.calls[c].released == Once(Canceller(d)) && s.calls[c].counted == Nobody
  }

  /** What a canceller removed it is still working on, or has settled. */
  predicate TakenOk(s: State, c: nat, k: Call) {
    TakenByCanceller(k) && k.counted.Nobody? ==>
      var d := k.removed.agent.d;
      && d in s.cancellers
      && if k.released.Nobody? then s.cancellers[d].FreePermit? && s.cancellers[d].c == c
         else s.cancellers[d].CountCancelled? && s.cancellers[d].c == c
  }

  function Todo(pc: CancelPc): set<nat> {
    match pc case Sweep(todo) => todo case FreePermit(_, todo) => todo case CountCancelled(_, todo) => todo case _ => {}
  }

  predicate Collected(pc: CancelPc) { pc != Begin && pc != Collect }

  /** Everything a canceller has not yet swept it will sweep, or the inserting call is about to take back. */
  predicate SweepOk(s: State, pc: CancelPc) {
    && (pc != Begin ==> s.shared.cancelling)
    && (Collected(pc) ==>
          forall id :: id in s.shared.tasks ==>
            id in Todo(pc) || (s.shared.tasks[id].call in s.calls && Reclaiming(s.calls[s.shared.tasks[id].call].pc)))
  }

  predicate Holds(k: Call) { k.granted && k.released.Nobody? }
  predicate InRegistration(k: Call) { !k.pc.Check? && !k.pc.Register? && !k.pc.Returned? }
  predicate CountedFor(kind: Kind, k: Call) { k.kind == kind && !k.counted.Nobody? }

  function Holding(): Call -> bool { (k: Call) => Holds(k) }
  function Registered(): Call -> bool { (k: Call) => InRegistration(k) }
  function CountedAs(kind: Kind): Call -> bool { (k: Call) => CountedFor(kind, k) }

  ghost predicate Counts(max: nat, s: State) {
    && s.shared.admitted == |Those(s.calls, Holding())| <= max
    && s.shared.registrations == |Those(s.calls, Registered())|
    && (forall kind :: s.shared.cancelled.Of(kind) == |Those(s.calls, CountedAs(kind))|)
    && !s.shared.underflow
  }

  ghost predicate Owners(s: State) {
    && |s.shared.takenBy| > 0
    && (forall id :: id in s.shared.tasks ==> EntryOk(s, id))
    && (forall c :: c in s.calls ==> CallOk(s.shared, c, s.calls[c]) && TakenOk(s, c, s.calls[c]))
    && (forall d :: d in s.cancellers ==> CancellerOk(s, d, s.cancellers[d]) && SweepOk(s, s.cancellers[d]))
  }

  ghost predicate Inv(max: nat, s: State) { Owners(s) && Counts(max, s) }

  // ----- steps of one call and of its task -----

  /** What a step of call `c` or its task leaves alone: other entries, and anything a canceller took. */
  ghost predicate Framed(s: Shared, s': Shared, c: nat, k: Call, k': Call) {
    && s.takenBy <= s'.takenBy && s'.cancelling == s.cancelling
    && k'.kind == k.kind && (k'.id == k.id || (k.id == 0 && k'.id == |s.takenBy|))
    && (forall id :: id != k'.id ==>
          && (id in s'.tasks <==> id in s.tasks)
          && (id in s.tasks ==> s'.tasks[id] == s.tasks[id]))
    && (k'.id in s'.tasks ==> k'.id != 0 && s'.tasks[k'.id] == Tracked(k'.kind, c))
    && (k'.id in s'.tasks && s.cancelling ==> Reclaiming(k'.pc) || (k'.id in s.tasks && !Reclaiming(k.pc)))
    && (TakenByCanceller(k) || TakenByCanceller(k') ==>
          k'.removed == k.removed && k'.released == k.released && k'.counted == k.counted)
  }

  /** What it does to the counters. */
  predicate Balanced(max: nat, s: Shared, s': Shared, k: Call, k': Call) {
    && s'.admitted + One(Holds(k)) == s.admitted + One(Holds(k')) && s'.admitted <= max
    && s'.registrations + One(InRegistration(k)) == s.registrations + One(InRegistration(k'))
    && (if k.counted.Nobody? && !k'.counted.Nobody? then s'.cancelled == s.cancelled.Plus(k.kind)
        else s'.cancelled == s.cancelled && (k'.counted.Nobody? <==> k.counted.Nobody?))
    && s'.underflow == s.underflow && k'.kind == k.kind
  }

  predicate Backed(max: nat, s: Shared, k: Call) {
    s.admitted <= max && (Holds(k) ==> s.admitted > 0) && (InRegistration(k) ==> s.registrations > 0)
  }

  predicate Tidy(s: Shared, c: nat, k: Call) {
    && |s.takenBy| > 0 && 0 !in s.tasks && |s.takenBy| !in s.tasks
    && (k.id in s.tasks ==> s.tasks[k.id] == Tracked(k.kind, c))
  }

  ghost predicate Kept(max: nat, s: Shared, s': Shared, c: nat, k: Call, k': Call) {
    && CallOk(s', c, k') && Framed(s, s', c, k, k')
    && (Backed(max, s, k) ==> Balanced(max, s, s', k, k'))
  }

  lemma AdmitKept(max: nat, s: Shared, c: nat, k: Call, runtime: bool)
    requires CallOk(s, c, k) && Tidy(s, c, k)
    requires k.pc.Check? || k.pc.Register? || k.pc.Recheck?
    ensures var (s', k') := MoveSpawn(max, s, c, k, runtime); Kept(max, s, s', c, k, k')
  {
    var (s', k') := MoveSpawn(max, s, c, k, runtime);
    assert CallOk(s', c, k');
    assert Framed(s, s', c, k, k');
  }

  lemma ReserveKept(max: nat, s: Shared, c: nat, k: Call, runtime: bool)
    requires CallOk(s, c, k) && Tidy(s, c, k)
    requires k.pc.Reserve? || k.pc.Handle?
    ensures var (s', k') := MoveSpawn(max, s, c, k, runtime); Kept(max, s, s', c, k, k')
  {
    var (s', k') := MoveSpawn(max, s, c, k, runtime);
    assert CallOk(s', c, k');
    assert Framed(s, s', c, k, k');
  }

  lemma InsertKept(max: nat, s: Shared, c: nat, k: Call, runtime: bool)
    requires CallOk(s, c, k) && Tidy(s, c, k)
    requires k.pc.TakeId? || k.pc.Insert?
    ensures var (s', k') := MoveSpawn(max, s, c, k, runtime); Kept(max, s, s', c, k, k')
  {
  }

  lemma FlagKept(max: nat, s: Shared, c: nat, k: Call)
    requires CallOk(s, c, k) && Tidy(s, c, k) && k.pc.LoadFlag?
    ensures Kept(max, s, s, c, k, k.(pc := if s.cancelling then RemoveOwn else Send))
  {
    assert CallOk(s, c, k.(pc := if s.cancelling then RemoveOwn else Send));
  }

  lemma SendKept(max: nat, s: Shared, c: nat, k: Call)
    requires CallOk(s, c, k) && Tidy(s, c, k) && k.pc.Send?
    ensures k.task == Waiting ==> Kept(max, s, s, c, k, k.(pc := Unregister, task := Signalled, accepted := true))
    ensures k.task != Waiting ==> Kept(max, s, s, c, k, k.(pc := RemoveUnsent))
  {
    assert k.task == Waiting ==> CallOk(s, c, k.(pc := Unregister, task := Signalled, accepted := true));
    assert k.task != Waiting ==> CallOk(s, c, k.(pc := RemoveUnsent));
  }

  lemma RemoveKept(max: nat, s: Shared, c: nat, k: Call)
    requires CallOk(s, c, k) && Tidy(s, c, k)
    requires k.pc.RemoveOwn? || k.pc.RemoveUnsent?
    ensures var (s', k') := MoveRemove(s, k); Kept(max, s, s', c, k, k')
  {
  }

  lemma CountKept(max: nat, s: Shared, c: nat, k: Call, runtime: bool)
    requires CallOk(s, c, k) && Tidy(s, c, k) && k.pc.CountOwn?
    ensures var (s', k') := MoveSpawn(max, s, c, k, runtime); Kept(max, s, s', c, k, k')
  {
  }

  lemma SettleKept(max: nat, s: Shared, c: nat, k: Call, runtime: bool)
    requires CallOk(s, c, k) && Tidy(s, c, k)
    requires k.pc.Unregister?
    ensures var (s', k') := MoveSpawn(max, s, c, k, runtime); Kept(max, s, s', c, k, k')
  {
    var (s', k') := MoveSpawn(max, s, c, k, runtime);
    assert CallOk(s', c, k');
    assert Framed(s, s', c, k, k');
  }

  lemma StandingKept(max: nat, s: Shared, c: nat, k: Call)
    requires CallOk(s, c, k) && Tidy(s, c, k) && k.pc.Returned?
    ensures Kept(max, s, s, c, k, k)
  {
  }

  lemma DropKept(max: nat, s: Shared, c: nat, k: Call, runtime: bool)
    requires CallOk(s, c, k) && Tidy(s, c, k) && k.pc.DropPermit?
    ensures var (s', k') := MoveSpawn(max, s, c, k, runtime); Kept(max, s, s', c, k, k')
  {
    var (s', k') := MoveSpawn(max, s, c, k, runtime);
    assert CallOk(s', c, k');
    assert Framed(s, s', c, k, k');
  }

  lemma SpawnKept(max: nat, s: Shared, c: nat, k: Call, runtime: bool)
    requires CallOk(s, c, k) && Tidy(s, c, k)
    ensures var (s', k') := MoveSpawn(max, s, c, k, runtime); Kept(max, s, s', c, k, k')
  {
    match k.pc
    case Check | Register | Recheck => AdmitKept(max, s, c, k, runtime);
    case Reserve | Handle => ReserveKept(max, s, c, k, runtime);
    case TakeId | Insert => InsertKept(max, s, c, k, runtime);
    case LoadFlag => FlagKept(max, s, c, k);
    case Send => SendKept(max, s, c, k);
    case RemoveOwn | RemoveUnsent => RemoveKept(max, s, c, k);
    case DropPermit => DropKept(max, s, c, k, runtime);
    case CountOwn => CountKept(max, s, c, k, runtime);
    case Unregister => SettleKept(max, s, c, k, runtime);
    case Returned => StandingKept(max, s, c, k);
  }

  lemma FinishKept(max: nat, s: Shared, c: nat, k: Call, dropped: bool)
    requires CallOk(s, c, k) && Tidy(s, c, k) && k.task.Finishing?
    ensures var (s', k') := MoveTask(s, k, dropped); Kept(max, s, s', c, k, k')
  {
  }

  lemma ReleaseKept(max: nat, s: Shared, c: nat, k: Call, dropped: bool)
    requires CallOk(s, c, k) && Tidy(s, c, k) && k.task.Releasing?
    ensures var (s', k') := MoveTask(s, k, dropped); Kept(max, s, s', c, k, k')
  {
    var (s', k') := MoveTask(s, k, dropped);
    assert CallOk(s', c, k');
    assert Framed(s, s', c, k, k');
  }

  /** Only the spawned future moves. */
  lemma StartKept(max: nat, s: Shared, c: nat, k: Call, task: TaskPc)
    requires CallOk(s, c, k) && Tidy(s, c, k) && task != Releasing && k.task != Releasing
    requires task == k.task || (task == Gone && !k.task.Unborn?) || (Live(k.task) && Live(task))
    ensures Kept(max, s, s, c, k, k.(task := task))
  {
    assert CallOk(s, c, k.(task := task));
  }

  lemma TaskKept(max: nat, s: Shared, c: nat, k: Call, dropped: bool)
    requires CallOk(s, c, k) && Tidy(s, c, k)
    ensures var (s', k') := MoveTask(s, k, dropped); Kept(max, s, s', c, k, k')
  {
    match k.task
    case Finishing => FinishKept(max, s, c, k, dropped);
    case Releasing => ReleaseKept(max, s, c, k, dropped);
    case Waiting => StartKept(max, s, c, k, if dropped then Gone else Waiting);
    case Signalled => StartKept(max, s, c, k, if dropped then Gone else Running);
    case Running => StartKept(max, s, c, k, Finishing);
    case _ => StartKept(max, s, c, k, k.task);
  }

  function Updates(s: State, b: Shared, c: nat, k: Call): State { s.(shared := b, calls := s.calls[c := k]) }

  lemma FramedCall(s: State, b: Shared, c: nat, k': Call, c1: nat)
    requires Owners(s) && c in s.calls && CallOk(b, c, k') && Framed(s.shared, b, c, s.calls[c], k')
    requires c1 in s.calls
    ensures var s' := Updates(s, b, c, k'); CallOk(b, c1, s'.calls[c1]) && TakenOk(s', c1, s'.calls[c1])
  {
    var k1 := s.calls[c1];
    if c1 != c && k1.id != 0 {
      assert k1.id != k'.id;
    }
  }

  lemma FramedEntry(s: State, b: Shared, c: nat, k': Call, id: nat)
    requires Owners(s) && c in s.calls && CallOk(b, c, k') && Framed(s.shared, b, c, s.calls[c], k')
    requires id in b.tasks
    ensures EntryOk(Updates(s, b, c, k'), id)
  {
    if id != k'.id {
      assert EntryOk(s, id);
    }
  }

  lemma FramedCanceller(s: State, b: Shared, c: nat, k': Call, d: nat)
    requires Owners(s) && c in s.calls && CallOk(b, c, k') && Framed(s.shared, b, c, s.calls[c], k')
    requires d in s.cancellers
    ensures var s' := Updates(s, b, c, k'); CancellerOk(s', d, s.cancellers[d]) && SweepOk(s', s.cancellers[d])
  {
    var s' := Updates(s, b, c, k');
    var pc := s.cancellers[d];
    if Collected(pc) {
      forall id | id in b.tasks
        ensures id in Todo(pc) || (b.tasks[id].call in s'.calls && Reclaiming(s'.calls[b.tasks[id].call].pc))
      {
        if id in s.shared.tasks {
          assert EntryOk(s, id);
        }
      }
    }
  }

  /** A framed step of one call keeps everybody's ownership. */
  lemma CallMoved(s: State, b: Shared, c: nat, k': Call)
    requires Owners(s) && c in s.calls && CallOk(b, c, k') && Framed(s.shared, b, c, s.calls[c], k')
    ensures Owners(Updates(s, b, c, k'))
  {
    forall c1 | c1 in s.calls { FramedCall(s, b, c, k', c1); }
    forall id | id in b.tasks { FramedEntry(s, b, c, k', id); }
    forall d | d in s.cancellers { FramedCanceller(s, b, c, k', d); }
  }

  lemma CallCounted(max: nat, s: State, b: Shared, c: nat, k': Call, cancellers: map<nat, CancelPc>)
    requires Counts(max, s) && c in s.calls && Balanced(max, s.shared, b, s.calls[c], k')
    ensures Counts(max, State(b, s.calls[c := k'], cancellers))
  {
    Updated(s.calls, Holding(), c, k');
    Updated(s.calls, Registered(), c, k');
    forall kind ensures b.cancelled.Of(kind) == |Those(s.calls[c := k'], CountedAs(kind))| {
      Updated(s.calls, CountedAs(kind), c, k');
      assert b.cancelled.Of(kind) + One(CountedFor(kind, s.calls[c]))
        == s.shared.cancelled.Of(kind) + One(CountedFor(kind, k'));
    }
  }

  // ----- steps of a canceller -----

  /** Canceller `d` acts on call `c`, whose entry it has just removed or removed before. */
  ghost predicate Acts(s: State, s': State, c: nat, d: nat) {
    && c in s.calls && d in s.cancellers && c in s'.calls && d in s'.cancellers
    && s' == State(s'.shared, s.calls[c := s'.calls[c]], s.cancellers[d := s'.cancellers[d]])
    && (s.cancellers[d].Sweep? || (Busy(s.cancellers[d]) && s.cancellers[d].c == c))
    && s'.shared.takenBy == s.shared.takenBy && s'.shared.cancelling == s.shared.cancelling
    && (forall id :: id in s'.shared.tasks ==> id in s.shared.tasks && s'.shared.tasks[id] == s.shared.tasks[id])
    && (forall id :: id in s.shared.tasks && id != s.calls[c].id ==> id in s'.shared.tasks)
    && var (k, k') := (s.calls[c], s'.calls[c]);
       && k'.(removed := k.removed, released := k.released, counted := k.counted) == k
       && k'.removed == Once(Canceller(d)) && (k.removed == k'.removed || k.removed.Nobody?)
       && CallOk(s'.shared, c, k') && TakenOk(s', c, k')
       && CancellerOk(s', d, s'.cancellers[d]) && Collected(s'.cancellers[d])
       && Todo(s'.cancellers[d]) >= Todo(s.cancellers[d]) - {k.id}
       && k.id !in s'.shared.tasks
  }

  predicate Busy(pc: CancelPc) { pc.FreePermit? || pc.CountCancelled? }

  lemma ActsOnCalls(s: State, s': State, c: nat, d: nat, c1: nat)
    requires Owners(s) && Acts(s, s', c, d) && c1 in s.calls
    ensures CallOk(s'.shared, c1, s'.calls[c1]) && TakenOk(s', c1, s'.calls[c1])
  {
    if c1 != c {
      assert CallOk(s.shared, c1, s.calls[c1]) && TakenOk(s, c1, s.calls[c1]) && CallOk(s.shared, c, s.calls[c]);
      assert s.calls[c1].id in s'.shared.tasks <==> s.calls[c1].id in s.shared.tasks;
    }
  }

  lemma ActsOnCancellers(s: State, s': State, c: nat, d: nat, d1: nat)
    requires Owners(s) && Acts(s, s', c, d) && d1 in s.cancellers
    ensures CancellerOk(s', d1, s'.cancellers[d1]) && SweepOk(s', s'.cancellers[d1])
  {
    assert CancellerOk(s, d1, s.cancellers[d1]) && SweepOk(s, s.cancellers[d1]);
  }

  lemma CancellerMoved(s: State, s': State, c: nat, d: nat)
    requires Owners(s) && Acts(s, s', c, d)
    ensures Owners(s')
  {
    forall c1 | c1 in s.calls { ActsOnCalls(s, s', c, d, c1); }
    forall d1 | d1 in s.cancellers { ActsOnCancellers(s, s', c, d, d1); }
    forall id | id in s'.shared.tasks ensures EntryOk(s', id) {
      assert EntryOk(s, id);
    }
  }

  lemma SweepKept(max: nat, s: State, d: nat, id: nat)
    requires Inv(max, s) && d in s.cancellers && s.cancellers[d].Sweep?
    requires id in s.cancellers[d].todo && id in s.shared.tasks
    ensures Inv(max, MoveSweep(s, d, s.cancellers[d].todo, id))
  {
    assert EntryOk(s, id);
    var c := s.shared.tasks[id].call;
    var s' := MoveSweep(s, d, s.cancellers[d].todo, id);
    assert Acts(s, s', c, d);
    CancellerMoved(s, s', c, d);
    CallCounted(max, s, s'.shared, c, s'.calls[c], s'.cancellers);
  }

  lemma BusyActs(s: State, d: nat, id: nat, extra: set<nat>)
    requires Owners(s) && d in s.cancellers && Busy(s.cancellers[d])
    ensures Acts(s, MoveCancel(s, d, s.cancellers[d], id, extra), s.cancellers[d].c, d)
  {
    var c := s.cancellers[d].c;
    assert CancellerOk(s, d, s.cancellers[d]) && CallOk(s.shared, c, s.calls[c]);
    var s' := MoveCancel(s, d, s.cancellers[d], id, extra);
    assert CallOk(s'.shared, c, s'.calls[c]);
  }

  lemma BusyKept(max: nat, s: State, d: nat, id: nat, extra: set<nat>)
    requires Inv(max, s) && d in s.cancellers && Busy(s.cancellers[d])
    ensures Inv(max, MoveCancel(s, d, s.cancellers[d], id, extra))
  {
    var c := s.cancellers[d].c;
    var s' := MoveCancel(s, d, s.cancellers[d], id, extra);
    BusyActs(s, d, id, extra);
    CancellerMoved(s, s', c, d);
    if Holds(s.calls[c]) {
      Present(s.calls, Holding(), c);
    }
    CallCounted(max, s, s'.shared, c, s'.calls[c], s'.cancellers);
  }

  /** A canceller step that touches no call. */
  lemma IdleCancelKept(max: nat, s: State, d: nat, pc: CancelPc, cancelling: bool)
    requires Inv(max, s) && !Busy(pc) && (d in s.cancellers ==> !Busy(s.cancellers[d]))
    requires s.shared.cancelling ==> cancelling
    requires SweepOk(s.(shared := s.shared.(cancelling := cancelling)), pc)
    ensures Inv(max, State(s.shared.(cancelling := cancelling), s.calls, s.cancellers[d := pc]))
  {
    var s' := State(s.shared.(cancelling := cancelling), s.calls, s.cancellers[d := pc]);
    forall c | c in s.calls ensures CallOk(s'.shared, c, s'.calls[c]) && TakenOk(s', c, s'.calls[c]) {
      assert CallOk(s.shared, c, s.calls[c]) && TakenOk(s, c, s.calls[c]);
    }
    forall d1 | d1 in s'.cancellers ensures CancellerOk(s', d1, s'.cancellers[d1]) && SweepOk(s', s'.cancellers[d1]) {
      assert d1 != d ==> CancellerOk(s, d1, s.cancellers[d1]) && SweepOk(s, s.cancellers[d1]);
    }
    forall id | id in s'.shared.tasks ensures EntryOk(s', id) {
      assert EntryOk(s, id);
    }
  }

  lemma CancelKept(max: nat, s: State, d: nat, id: nat, extra: set<nat>)
    requires Inv(max, s) && d in s.cancellers
    ensures Inv(max, MoveCancel(s, d, s.cancellers[d], id, extra))
  {
    var pc := s.cancellers[d];
    assert SweepOk(s, pc);
    match pc
    case Begin => IdleCancelKept(max, s, d, Collect, true);
    case Collect => IdleCancelKept(max, s, d, Sweep(s.shared.tasks.Keys + extra), s.shared.cancelling);
    case Sweep(todo) =>
      if todo == {} {
        IdleCancelKept(max, s, d, Swept, s.shared.cancelling);
      } else if id in todo {
        if id in s.shared.tasks {
          assert EntryOk(s, id);
          SweepKept(max, s, d, id);
        } else {
          IdleCancelKept(max, s, d, Sweep(todo - {id}), s.shared.cancelling);
        }
      }
    case FreePermit(_, _) => BusyKept(max, s, d, id, extra);
    case CountCancelled(_, _) => BusyKept(max, s, d, id, extra);
    case Swept =>
  }

  lemma BackedCall(max: nat, s: State, c: nat)
    requires Inv(max, s) && c in s.calls
    ensures Backed(max, s.shared, s.calls[c]) && Tidy(s.shared, c, s.calls[c])
  {
    if Holds(s.calls[c]) {
      Present(s.calls, Holding(), c);
    }
    if InRegistration(s.calls[c]) {
      Present(s.calls, Registered(), c);
    }
    forall id | id in s.shared.tasks ensures 0 < id < |s.shared.takenBy| {
      assert EntryOk(s, id);
    }
    if s.calls[c].id in s.shared.tasks {
      assert EntryOk(s, s.calls[c].id) && CallOk(s.shared, c, s.calls[c]);
    }
  }

  /** A step of one call or task, applied to the whole state. */
  lemma CallStepKept(max: nat, s: State, b: Shared, c: nat, k: Call)
    requires Inv(max, s) && c in s.calls && Kept(max, s.shared, b, c, s.calls[c], k)
    ensures Inv(max, Updates(s, b, c, k))
  {
    BackedCall(max, s, c);
    CallMoved(s, b, c, k);
    CallCounted(max, s, b, c, k, s.cancellers);
  }

  lemma SpawnsKept(max: nat, s: State, c: nat, k: Call)
    requires Inv(max, s) && c !in s.calls
    requires k == Call(Check, Unborn, k.kind, k.internal, false, false, 0, Nobody, Nobody, Nobody)
    ensures Inv(max, s.(calls := s.calls[c := k]))
  {
    var s' := s.(calls := s.calls[c := k]);
    Updated(s.calls, Holding(), c, k);
    Updated(s.calls, Registered(), c, k);
    forall kind ensures s'.shared.cancelled.Of(kind) == |Those(s'.calls, CountedAs(kind))| {
      Updated(s.calls, CountedAs(kind), c, k);
    }
    forall c1 | c1 in s'.calls ensures CallOk(s'.shared, c1, s'.calls[c1]) && TakenOk(s', c1, s'.calls[c1]) {
      assert c1 != c ==> CallOk(s.shared, c1, s.calls[c1]) && TakenOk(s, c1, s.calls[c1]);
    }
    forall id | id in s'.shared.tasks ensures EntryOk(s', id) {
      assert EntryOk(s, id);
    }
    forall d | d in s.cancellers ensures CancellerOk(s', d, s.cancellers[d]) && SweepOk(s', s.cancellers[d]) {
      assert CancellerOk(s, d, s.cancellers[d]) && SweepOk(s, s.cancellers[d]);
    }
  }

  lemma ClosingKept(max: nat, s: State, b: Shared)
    requires Inv(max, s) && b == s.shared.(external := b.external, internal := b.internal)
    ensures Inv(max, s.(shared := b))
  {
    var s' := s.(shared := b);
    forall c | c in s.calls ensures CallOk(b, c, s.calls[c]) && TakenOk(s', c, s.calls[c]) {
      assert CallOk(s.shared, c, s.calls[c]) && TakenOk(s, c, s.calls[c]);
    }
    forall id | id in b.tasks ensures EntryOk(s', id) {
      assert EntryOk(s, id);
    }
    forall d | d in s.cancellers ensures CancellerOk(s', d, s.cancellers[d]) && SweepOk(s', s.cancellers[d]) {
      assert CancellerOk(s, d, s.cancellers[d]) && SweepOk(s, s.cancellers[d]);
    }
  }

  lemma StepKeepsInv(max: nat, s: State, a: Action)
    requires Inv(max, s)
    ensures Inv(max, Step(max, s, a))
  {
    match a
    case Spawns(c, kind, internal) =>
      if c !in s.calls {
        SpawnsKept(max, s, c, Call(Check, Unborn, kind, internal, false, false, 0, Nobody, Nobody, Nobody));
      }
    case CallMoves(c, runtime) =>
      if c in s.calls {
        BackedCall(max, s, c);
        SpawnKept(max, s.shared, c, s.calls[c], runtime);
        var (b, k) := MoveSpawn(max, s.shared, c, s.calls[c], runtime);
        CallStepKept(max, s, b, c, k);
      }
    case TaskMoves(c, dropped) =>
      if c in s.calls {
        BackedCall(max, s, c);
        TaskKept(max, s.shared, c, s.calls[c], dropped);
        var (b, k) := MoveTask(s.shared, s.calls[c], dropped);
        CallStepKept(max, s, b, c, k);
      }
    case Cancels(d) =>
      if d !in s.cancellers {
        IdleCancelKept(max, s, d, Begin, s.shared.cancelling);
      }
    case CancelMoves(d, id, extra) =>
      if d in s.cancellers {
        CancelKept(max, s, d, id, extra);
      }
    case ClosesExternal => ClosingKept(max, s, s.shared.(external := false));
    case ClosesInternal => ClosingKept(max, s, s.shared.(internal := false));
  }

  lemma {:induction false} Reachable(max: nat, acts: seq<Action>)
    ensures Inv(max, Run(max, acts))
  {
    if acts == [] {
      assert forall p: Call -> bool :: Those(map[], p) == {};
    } else {
      Reachable(max, acts[..|acts| - 1]);
      StepKeepsInv(max, Run(max, acts[..|acts| - 1]), acts[|acts| - 1]);
    }
  }

  // ----- main results -----

  /**
   The gauge is exactly the permits not yet released and never exceeds the budget, no release ever fails, and each
   per-kind cancellation counter is exactly the number of calls counted.
   */
  lemma AccountingIsExact(max: nat, acts: seq<Action>)
    ensures var s := Run(max, acts);
            && s.shared.admitted == |Those(s.calls, Holding())| <= max
            && s.shared.registrations == |Those(s.calls, Registered())|
            && !s.shared.underflow
            && forall kind :: s.shared.cancelled.Of(kind) == |Those(s.calls, CountedAs(kind))|
  {
    Reachable(max, acts);
  }

  /**
   Nothing is done twice to a call: its entry has at most one remover, its permit at most one releaser, its cancellation
   at most one counter; and for an inserted task releaser and counter are the remover, a counter never the completion.
   */
  lemma OnlyRemoverSettles(max: nat, acts: seq<Action>, c: nat)
    requires c in Run(max, acts).calls
    ensures var k := Run(max, acts).calls[c];
            && !k.removed.Again? && !k.released.Again? && !k.counted.Again?
            && (k.released.Once? ==> k.granted && k.released == (if k.id == 0 then Once(Spawner) else k.removed))
            && (k.counted.Once? ==> k.counted == k.removed && k.removed != Once(Completion))
  {
    Reachable(max, acts);
    assert CallOk(Run(max, acts).shared, c, Run(max, acts).calls[c]);
  }

  /** Who must still release a permit. */
  datatype Owner = TheCall | TheRegistry | TheTask | TheCanceller(d: nat)

  predicate Owns(s: State, c: nat, o: Owner)
    requires c in s.calls
  {
    var k := s.calls[c];
    match o
    case TheCall => k.pc.Handle? || k.pc.TakeId? || k.pc.Insert? || k.pc.CountOwn? || k.pc.DropPermit?
    case TheRegistry => k.id in s.shared.tasks
    case TheTask => k.task.Releasing?
    case TheCanceller(d) => d in s.cancellers && s.cancellers[d].FreePermit? && s.cancellers[d].c == c
  }

  /** The owner the history of the call points to. */
  function OwnerOf(s: State, k: Call): Owner {
    if k.removed == Once(Completion) then TheTask
    else if TakenByCanceller(k) then TheCanceller(k.removed.agent.d)
    else if k.id in s.shared.tasks then TheRegistry
    else TheCall
  }

  lemma OwnerIsUnique(s: State, c: nat, o: Owner)
    requires c in s.calls && CallOk(s.shared, c, s.calls[c]) && TakenOk(s, c, s.calls[c]) && 0 !in s.shared.tasks
    requires o.TheCanceller? && o.d in s.cancellers ==> CancellerOk(s, o.d, s.cancellers[o.d])
    ensures Owns(s, c, o) <==> Holds(s.calls[c]) && o == OwnerOf(s, s.calls[c])
  {
  }

  /** A permit has exactly one owner from reservation to release, and none before or after. */
  lemma PermitHasOneOwner(max: nat, acts: seq<Action>, c: nat, o: Owner)
    requires c in Run(max, acts).calls
    ensures var s := Run(max, acts); Owns(s, c, o) <==> Holds(s.calls[c]) && o == OwnerOf(s, s.calls[c])
  {
    Reachable(max, acts);
    BackedCall(max, Run(max, acts), c);
    OwnerIsUnique(Run(max, acts), c, o);
  }

  /** Once a canceller has swept, only spawn calls still about to notice it keep entries in the registry. */
  lemma SweepLeavesOnlyReclaimers(max: nat, acts: seq<Action>, d: nat, id: nat)
    requires d in Run(max, acts).cancellers && Run(max, acts).cancellers[d].Swept? && id in Run(max, acts).shared.tasks
    ensures var s := Run(max, acts);
            && s.shared.tasks[id].call in s.calls && s.calls[s.shared.tasks[id].call].id == id
            && Reclaiming(s.calls[s.shared.tasks[id].call].pc) && s.shared.cancelling
  {
    Reachable(max, acts);
    var s := Run(max, acts);
    assert SweepOk(s, s.cancellers[d]) && EntryOk(s, id);
  }

  predicate Quiet(s: State) {
    && (forall c :: c in s.calls ==> s.calls[c].pc.Returned? && !s.calls[c].task.Releasing?)
    && (forall d :: d in s.cancellers ==> !Busy(s.cancellers[d]))
  }

  /** When every call has returned and nobody is between a removal and its release, the registry is the whole gauge. */
  lemma QuietMeansRegistryOnly(max: nat, acts: seq<Action>)
    requires Quiet(Run(max, acts))
    ensures var s := Run(max, acts);
            && (forall c :: c in Those(s.calls, Holding()) <==> c in s.calls && s.calls[c].id in s.shared.tasks)
            && (s.shared.tasks == map[] ==> s.shared.admitted == 0)
            && ((exists d :: d in s.cancellers && s.cancellers[d].Swept?) ==> s.shared.tasks == map[])
  {
    Reachable(max, acts);
    var s := Run(max, acts);
    forall c | c in s.calls ensures Holds(s.calls[c]) <==> s.calls[c].id in s.shared.tasks {
      PermitHasOneOwner(max, acts, c, OwnerOf(s, s.calls[c]));
      PermitHasOneOwner(max, acts, c, TheRegistry);
    }
    if s.shared.tasks == map[] {
      assert Those(s.calls, Holding()) == {};
    }
    if d :| d in s.cancellers && s.cancellers[d].Swept? && s.shared.tasks != map[] {
      var id :| id in s.shared.tasks;
      SweepLeavesOnlyReclaimers(max, acts, d, id);
      assert false;
    }
  }

  // ----- what becomes of a handed-off task -----

  /** The runtime dropped the task of call `c` between its hand-off and its first poll, before the guard existed. */
  ghost predicate DroppedUnpolled(max: nat, acts: seq<Action>, c: nat) {
    && acts != []
    && var (s, a) := (Run(max, acts[..|acts| - 1]), acts[|acts| - 1]);
       || DroppedUnpolled(max, acts[..|acts| - 1], c)
       || (a == TaskMoves(c, true) && c in s.calls && s.calls[c].task.Signalled?)
  }

  /** The fate of call `c`, by whether its task was dropped unpolled. */
  predicate FateOk(k: Call, dropped: bool) {
    && (k.accepted ==> k.id != 0 && Late(k.pc) && (Live(k.task) || k.task.Gone?))
    && (Live(k.task) ==> k.accepted)
    && (k.removed == Once(Completion) ==> k.task.Releasing? || k.task.Gone?)
    && (if dropped then k.accepted && k.task.Gone? && (k.removed.Nobody? || TakenByCanceller(k))
        else k.accepted && k.task.Gone? ==> !k.removed.Nobody? && k.removed != Once(Spawner))
  }

  lemma SpawnFate(max: nat, s: Shared, c: nat, k: Call, runtime: bool, dropped: bool)
    requires CallOk(s, c, k) && FateOk(k, dropped)
    ensures FateOk(MoveSpawn(max, s, c, k, runtime).1, dropped)
  {
  }

  lemma TaskFate(s: Shared, c: nat, k: Call, drop: bool, dropped: bool)
    requires CallOk(s, c, k) && FateOk(k, dropped)
    ensures FateOk(MoveTask(s, k, drop).1, dropped || (drop && k.task.Signalled?))
  {
  }

  lemma CancelFate(s: State, d: nat, id: nat, extra: set<nat>, c: nat, dropped: bool)
    requires Owners(s) && d in s.cancellers && c in s.calls && FateOk(s.calls[c], dropped)
    ensures var s' := MoveCancel(s, d, s.cancellers[d], id, extra); c in s'.calls && FateOk(s'.calls[c], dropped)
  {
    if s.cancellers[d].Sweep? && id in s.shared.tasks {
      assert EntryOk(s, id) && CallOk(s.shared, c, s.calls[c]);
      assert s.shared.tasks[id].call == c ==> s.calls[c].removed.Nobody?;
    }
  }

  /** The last step of a run, for a call that was there before it. */
  lemma StepFate(max: nat, s: State, a: Action, c: nat, dropped: bool)
    requires Owners(s) && c in s.calls && FateOk(s.calls[c], dropped)
    ensures var s' := Step(max, s, a);
            c in s'.calls && FateOk(s'.calls[c], dropped || (a == TaskMoves(c, true) && s.calls[c].task.Signalled?))
  {
    assert CallOk(s.shared, c, s.calls[c]);
    match a
    case CallMoves(_, runtime) => SpawnFate(max, s.shared, c, s.calls[c], runtime, dropped);
    case TaskMoves(_, drop) => TaskFate(s.shared, c, s.calls[c], drop, dropped);
    case CancelMoves(d, id, extra) =>
      if d in s.cancellers {
        CancelFate(s, d, id, extra, c, dropped);
      }
    case _ =>
  }

  lemma NewFate(max: nat, s: State, a: Action, c: nat)
    requires c !in s.calls && c in Step(max, s, a).calls
    ensures FateOk(Step(max, s, a).calls[c], false)
  {
  }

  lemma {:induction false} Fate(max: nat, acts: seq<Action>, c: nat)
    ensures if c in Run(max, acts).calls then FateOk(Run(max, acts).calls[c], DroppedUnpolled(max, acts, c))
            else !DroppedUnpolled(max, acts, c)
  {
    if acts != [] {
      var (before, a) := (acts[..|acts| - 1], acts[|acts| - 1]);
      var s := Run(max, before);
      Fate(max, before, c);
      if c in s.calls {
        Reachable(max, before);
        StepFate(max, s, a, c, DroppedUnpolled(max, before, c));
      } else if c in Run(max, acts).calls {
        NewFate(max, s, a, c);
      }
    }
  }

  /** What a call whose task is over has come to. */
  predicate Settled(s: State, c: nat, dropped: bool)
    requires c in s.calls
  {
    var k := s.calls[c];
    if dropped then if k.removed.Nobody? then k.id in s.shared.tasks && Holds(k) else TakenByCanceller(k)
    else && k.id !in s.shared.tasks
         && (k.released == k.removed == Once(Completion)
             || (TakenByCanceller(k) && (Holds(k) ==> Owns(s, c, TheCanceller(k.removed.agent.d)))))
  }

  lemma FateSettles(s: State, c: nat, dropped: bool)
    requires Owners(s) && c in s.calls && s.calls[c].accepted && s.calls[c].task.Gone? && FateOk(s.calls[c], dropped)
    ensures Settled(s, c, dropped)
  {
    assert CallOk(s.shared, c, s.calls[c]) && TakenOk(s, c, s.calls[c]);
  }

  /**
   A handed-off task that is over has had its entry removed, and its permit released unless a canceller still has it in
   hand, except exactly when its runtime dropped it unpolled: then only a canceller can ever remove the entry.
   */
  lemma CompletionSettles(max: nat, acts: seq<Action>, c: nat)
    requires var s := Run(max, acts); c in s.calls && s.calls[c].accepted && s.calls[c].task.Gone?
    ensures Settled(Run(max, acts), c, DroppedUnpolled(max, acts, c))
  {
    Fate(max, acts, c);
    Reachable(max, acts);
    FateSettles(Run(max, acts), c, DroppedUnpolled(max, acts, c));
  }

  // ----- one call, one task, alone -----

  function SpawnAlone(max: nat, c: nat, runtime: bool): ((Shared, Call)) -> (Shared, Call) {
    (x: (Shared, Call)) => MoveSpawn(max, x.0, c, x.1, runtime)
  }

  /** What an undisturbed spawn call comes to: refused without a trace, cancelled by its own hand, or handed off. */
  function Spawned(max: nat, s: Shared, c: nat, k: Call, runtime: bool): (Shared, Call) {
    var (done, id) := (k.(pc := Returned), |s.takenBy|);
    if !Accepts(s, k) || s.admitted >= max then (s, done)
    else if !runtime then (s, done.(granted := true, released := Once(Spawner)))
    else if s.cancelling
    then (s.(takenBy := s.takenBy + [c], cancelled := s.cancelled.Plus(k.kind)),
          done.(granted := true, id := id, task := Waiting, removed := Once(Spawner), released := Once(Spawner),
            counted := Once(Spawner)))
    else (s.(admitted := s.admitted + 1, takenBy := s.takenBy + [c], tasks := s.tasks[id := Tracked(k.kind, c)]),
          done.(granted := true, id := id, task := Signalled, accepted := true))
  }

  predicate Newcomer(k: Call) { k == Call(Check, Unborn, k.kind, k.internal, false, false, 0, Nobody, Nobody, Nobody) }

  /** Up to the reservation. */
  lemma AdmittedAlone(max: nat, s: Shared, c: nat, k: Call, runtime: bool) returns (path: seq<(Shared, Call)>)
    requires Newcomer(k)
    ensures Path(SpawnAlone(max, c, runtime), path) && path[0] == (s, k)
    ensures path[|path| - 1] == if !Accepts(s, k) then (s, k.(pc := Returned))
                                else if s.admitted >= max then (s, k.(pc := Returned))
                                else (s.(admitted := s.admitted + 1, registrations := s.registrations + 1),
                                  k.(pc := Handle, granted := true))
  {
    var step := SpawnAlone(max, c, runtime);
    var s1 := s.(registrations := s.registrations + 1);
    if !Accepts(s, k) {
      path := Then(step, [(s, k)], (s, k.(pc := Returned)));
    } else {
      path := Then(step, [(s, k)], (s, k.(pc := Register)));
      path := Then(step, path, (s1, k.(pc := Recheck)));
      path := Then(step, path, (s1, k.(pc := Reserve)));
      if s.admitted >= max {
        path := Then(step, path, (s1, k.(pc := Unregister)));
        path := Then(step, path, (s, k.(pc := Returned)));
      } else {
        path := Then(step, path, (s1.(admitted := s.admitted + 1), k.(pc := Handle, granted := true)));
      }
    }
  }

  /** A permit given back by the call. */
  lemma DroppedAlone(max: nat, before: seq<(Shared, Call)>, s: Shared, c: nat, k: Call, runtime: bool)
    returns (path: seq<(Shared, Call)>)
    requires Path(SpawnAlone(max, c, runtime), before) && before[|before| - 1] == (s, k)
    requires k.pc == DropPermit && k.released.Nobody? && s.admitted > 0 && s.registrations > 0
    ensures Path(SpawnAlone(max, c, runtime), path) && path[0] == before[0]
    ensures path[|path| - 1] == (s.(admitted := s.admitted - 1, registrations := s.registrations - 1),
            k.(pc := Returned, released := Once(Spawner)))
  {
    var step := SpawnAlone(max, c, runtime);
    path := Then(step, before, (s.(admitted := s.admitted - 1), k.(pc := Unregister, released := Once(Spawner))));
    path := Then(step, path, (s.(admitted := s.admitted - 1, registrations := s.registrations - 1),
                 k.(pc := Returned, released := Once(Spawner))));
  }

  /** An inserted call that finds the cancellation takes its entry back. */
  lemma ReclaimsAlone(max: nat, before: seq<(Shared, Call)>, s: Shared, c: nat, k: Call)
    returns (path: seq<(Shared, Call)>)
    requires Path(SpawnAlone(max, c, true), before) && before[|before| - 1] == (s, k)
    requires k.pc == LoadFlag && s.cancelling && k.id in s.tasks && k.removed.Nobody? && k.released.Nobody?
             && k.counted.Nobody?
    requires s.admitted > 0 && s.registrations > 0
    ensures Path(SpawnAlone(max, c, true), path) && path[0] == before[0]
    ensures path[|path| - 1] ==
            (s.(admitted := s.admitted - 1, registrations := s.registrations - 1, tasks := s.tasks - {k.id},
              cancelled := s.cancelled.Plus(k.kind)),
             k.(pc := Returned, removed := Once(Spawner), released := Once(Spawner), counted := Once(Spawner)))
  {
    var step := SpawnAlone(max, c, true);
    var (s1, k1) := (s.(tasks := s.tasks - {k.id}), k.(removed := Once(Spawner)));
    var (s2, k2) := (s1.(cancelled := s.cancelled.Plus(k.kind)), k1.(pc := DropPermit, counted := Once(Spawner)));
    path := Then(step, before, (s, k.(pc := RemoveOwn)));
    path := Then(step, path, (s1, k1.(pc := CountOwn)));
    path := Then(step, path, (s2, k2));
    path := DroppedAlone(max, path, s2, c, k2, true);
  }

  /** An inserted call that does not hands its task off. */
  lemma HandsOffAlone(max: nat, before: seq<(Shared, Call)>, s: Shared, c: nat, k: Call)
    returns (path: seq<(Shared, Call)>)
    requires Path(SpawnAlone(max, c, true), before) && before[|before| - 1] == (s, k)
    requires k.pc == LoadFlag && !s.cancelling && k.task == Waiting && s.registrations > 0
    ensures Path(SpawnAlone(max, c, true), path) && path[0] == before[0]
    ensures path[|path| - 1] == (s.(registrations := s.registrations - 1),
            k.(pc := Returned, task := Signalled, accepted := true))
  {
    var step := SpawnAlone(max, c, true);
    path := Then(step, before, (s, k.(pc := Send)));
    path := Then(step, path, (s, k.(pc := Unregister, task := Signalled, accepted := true)));
    path := Then(step, path, (s.(registrations := s.registrations - 1),
                 k.(pc := Returned, task := Signalled, accepted := true)));
  }

  /** From the reservation to the insertion. */
  lemma InsertsAlone(max: nat, before: seq<(Shared, Call)>, s: Shared, c: nat, k: Call)
    returns (path: seq<(Shared, Call)>)
    requires Path(SpawnAlone(max, c, true), before) && before[|before| - 1] == (s, k) && k.pc == Handle
    ensures Path(SpawnAlone(max, c, true), path) && path[0] == before[0]
    ensures path[|path| - 1] == (s.(takenBy := s.takenBy + [c], tasks := s.tasks[|s.takenBy| := Tracked(k.kind, c)]),
                                 k.(pc := LoadFlag, id := |s.takenBy|, task := Waiting))
  {
    var step := SpawnAlone(max, c, true);
    var (s1, k1) := (s.(takenBy := s.takenBy + [c]), k.(pc := Insert, id := |s.takenBy|, task := Waiting));
    path := Then(step, before, (s, k.(pc := TakeId)));
    path := Then(step, path, (s1, k1));
    path := Then(step, path, (s1.(tasks := s.tasks[|s.takenBy| := Tracked(k.kind, c)]), k1.(pc := LoadFlag)));
  }

  /**
   A spawn call that runs undisturbed is admitted exactly when open, within budget, on a runtime and not cancelled.
   */
  lemma SpawnsAlone(max: nat, s: Shared, c: nat, k: Call, runtime: bool) returns (path: seq<(Shared, Call)>)
    requires Newcomer(k) && |s.takenBy| > 0 && |s.takenBy| !in s.tasks
    ensures Path(SpawnAlone(max, c, runtime), path) && path[0] == (s, k)
    ensures path[|path| - 1] == Spawned(max, s, c, k, runtime)
  {
    var step := SpawnAlone(max, c, runtime);
    path := AdmittedAlone(max, s, c, k, runtime);
    if Accepts(s, k) && s.admitted < max {
      var (s1, k1) := (s.(admitted := s.admitted + 1, registrations := s.registrations + 1),
        k.(pc := Handle, granted := true));
      if !runtime {
        path := Then(step, path, (s1, k1.(pc := DropPermit)));
        path := DroppedAlone(max, path, s1, c, k1.(pc := DropPermit), runtime);
      } else {
        path := InsertsAlone(max, path, s1, c, k1);
        var (s2, k2) := (s1.(takenBy := s.takenBy + [c], tasks := s.tasks[|s.takenBy| := Tracked(k.kind, c)]),
                         k1.(pc := LoadFlag, id := |s.takenBy|, task := Waiting));
        if s.cancelling {
          assert s2.tasks - {|s.takenBy|} == s.tasks;
          path := ReclaimsAlone(max, path, s2, c, k2);
        } else {
          path := HandsOffAlone(max, path, s2, c, k2);
        }
      }
    }
  }

  function TaskAlone(): ((Shared, Call)) -> (Shared, Call) { (x: (Shared, Call)) => MoveTask(x.0, x.1, false) }

  /** A handed-off task that runs undisturbed to its end removes its entry and gives its permit back. */
  lemma TasksAlone(s: Shared, k: Call) returns (path: seq<(Shared, Call)>)
    requires k.task == Signalled && k.id in s.tasks && s.admitted > 0 && k.removed.Nobody? && k.released.Nobody?
    ensures Path(TaskAlone(), path) && path[0] == (s, k)
    ensures path[|path| - 1] == (s.(tasks := s.tasks - {k.id}, admitted := s.admitted - 1),
                                 k.(task := Gone, removed := Once(Completion), released := Once(Completion)))
  {
    path := Then(TaskAlone(), [(s, k)], (s, k.(task := Running)));
    path := Then(TaskAlone(), path, (s, k.(task := Finishing)));
    path := Then(TaskAlone(), path, (s.(tasks := s.tasks - {k.id}),
                 k.(task := Releasing, removed := Once(Completion))));
    path := Then(TaskAlone(), path, (s.(tasks := s.tasks - {k.id}, admitted := s.admitted - 1),
                                     k.(task := Gone, removed := Once(Completion), released := Once(Completion))));
  }

  // ----- a permit that no completion gives back -----

  lemma RunSnoc(max: nat, acts: seq<Action>, a: Action)
    ensures Run(max, acts + [a]) == Step(max, Run(max, acts), a)
  {
    assert (acts + [a])[..|acts|] == acts;
  }

  lemma CallSteps(max: nat, s: State, c: nat, runtime: bool, before: (Shared, Call), after: (Shared, Call))
    requires after == MoveSpawn(max, before.0, c, before.1, runtime)
    ensures Step(max, Updates(s, before.0, c, before.1), CallMoves(c, runtime)) == Updates(s, after.0, c, after.1)
  {
    assert s.calls[c := before.1][c := after.1] == s.calls[c := after.1];
  }

  /** Undisturbed steps of call `c` as a schedule. */
  lemma {:induction false} RunPath(max: nat, acts: seq<Action>, s: State, c: nat, runtime: bool,
                                   path: seq<(Shared, Call)>, n: nat) returns (next: seq<Action>)
    requires Path(SpawnAlone(max, c, runtime), path) && n < |path|
    requires Run(max, acts) == Updates(s, path[0].0, c, path[0].1)
    ensures acts <= next && Run(max, next) == Updates(s, path[n].0, c, path[n].1)
    decreases n
  {
    next := acts;
    if n > 0 {
      next := RunPath(max, acts, s, c, runtime, path, n - 1);
      assert StepAt(SpawnAlone(max, c, runtime), path, n);
      RunSnoc(max, next, CallMoves(c, runtime));
      CallSteps(max, s, c, runtime, path[n - 1], path[n]);
      next := next + [CallMoves(c, runtime)];
    }
  }

  predicate Roomy(max: nat, s: Shared) { s.external && !s.cancelling && s.admitted < max }

  /** A new call, admitted and handed off undisturbed. */
  lemma HandsOff(max: nat, acts: seq<Action>, c: nat, kind: Kind) returns (next: seq<Action>)
    requires c !in Run(max, acts).calls && Roomy(max, Run(max, acts).shared)
    ensures var (s, s') := (Run(max, acts), Run(max, next));
            && acts <= next && c in s'.calls && s' == Updates(s, s'.shared, c, s'.calls[c])
            && s'.calls[c].accepted && s'.calls[c].task.Signalled? && s'.calls[c].removed.Nobody?
            && s'.shared.admitted == s.shared.admitted + 1
  {
    var s := Run(max, acts);
    var k := Call(Check, Unborn, kind, false, false, false, 0, Nobody, Nobody, Nobody);
    Reachable(max, acts);
    forall id | id in s.shared.tasks ensures id < |s.shared.takenBy| {
      assert EntryOk(s, id);
    }
    RunSnoc(max, acts, Spawns(c, kind, false));
    var path := SpawnsAlone(max, s.shared, c, k, true);
    next := RunPath(max, acts + [Spawns(c, kind, false)], s, c, true, path, |path| - 1);
  }

  /**
   From every reachable state that accepts and has room there is a run after which a task is over and yet its entry and
   its permit are still out: the runtime dropped it between hand-off and first poll.
   */
  lemma UnpolledDropLeaks(max: nat, acts: seq<Action>, c: nat, kind: Kind) returns (next: seq<Action>)
    requires c !in Run(max, acts).calls && Roomy(max, Run(max, acts).shared)
    ensures acts <= next && DroppedUnpolled(max, next, c)
    ensures var (s, s') := (Run(max, acts), Run(max, next));
            && c in s'.calls && s'.calls[c].accepted && s'.calls[c].task.Gone?
            && s'.calls[c].id in s'.shared.tasks && s'.shared.admitted == s.shared.admitted + 1
  {
    var handed := HandsOff(max, acts, c, kind);
    next := handed + [TaskMoves(c, true)];
    assert next[..|next| - 1] == handed;
    RunSnoc(max, handed, TaskMoves(c, true));
    CompletionSettles(max, next, c);
  }
}
