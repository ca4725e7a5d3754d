/** Runs of the Gateway that reach the states its source does not provide for. */
module GatewayWitnesses {
  import opened Common
  import opened Spool
  import opened GatewayProtocol
  import opened GatewayDelivery
  import opened GatewayTheorems
  import opened GatewayStops

  const ID: TaskId := "t"

  /** A Gateway with one task. */
  function Only(cell: Cell, lock: Lock): World {
    World(map[ID := cell], lock)
  }

  /** A run of `n` steps that ends here. */
  ghost predicate Ends(worlds: seq<World>, steps: seq<Step>, config: Config, n: nat, last: World) {
    IsRun(worlds, steps, config) && |steps| == n && worlds[n] == last
  }

  lemma Extend(worlds: seq<World>, steps: seq<Step>, config: Config, n: nat, world: World, step: Step, next: World)
    returns (worlds': seq<World>, steps': seq<Step>)
    requires Ends(worlds, steps, config, n, world) && Enabled(world, step, config) && next == Next(world, step, config)
    ensures Ends(worlds', steps', config, n + 1, next)
    ensures worlds' == worlds + [next] && steps' == steps + [step]
  {
    worlds', steps' := worlds + [next], steps + [step];
    hide Next, Enabled;
  }

  // ----- steps of a Gateway with one task -----

  lemma OnlyRunning(cell: Cell, lock: Lock)
    ensures Running(Only(cell, lock)) == if cell.executor.Some? then {ID} else {}
    ensures GatewayProtocol.Spooling(Only(cell, lock)) == if cell.task.Some? then {ID} else {}
  {
  }

  lemma Executes(cell: Cell, lock: Lock, step: ExecutorStep, config: Config)
    requires ExecutorEnabled(cell, step) && config.maxConcurrent >= 1
    ensures Enabled(Only(cell, lock), Execute(ID, step), config)
    ensures Next(Only(cell, lock), Execute(ID, step), config)
         == Only(ExecutorNext(cell, step, config.logBudget), lock)
  {
    OnlyRunning(cell, lock);
    assert step.Launch? ==> cell.executor.None?;
    hide ExecutorNext, ExecutorEnabled;
    assert map[ID := cell][ID := ExecutorNext(cell, step, config.logBudget)]
        == map[ID := ExecutorNext(cell, step, config.logBudget)];
  }

  lemma Syncs(cell: Cell, owner: Option<TaskId>, step: PassStep, config: Config)
    requires PassEnabled(cell, step)
    ensures
      var lock := Held(owner, {}, Some(ID));
      && Enabled(Only(cell, lock), Sync(ID, step), config)
      && Next(Only(cell, lock), Sync(ID, step), config) == Only(PassNext(cell, step), lock)
  {
    hide PassNext, PassEnabled;
    assert map[ID := cell][ID := PassNext(cell, step)] == map[ID := PassNext(cell, step)];
  }

  lemma PassStarts(cell: Cell, owner: Option<TaskId>, config: Config)
    requires owner.Some? ==> owner == Some(ID) && cell.executor.Some? && cell.executor.value.pc.Await?
    ensures
      var entered := if owner.Some? then EnterSync(cell) else cell;
      var todo := if cell.task.Some? then {ID} else {};
      && Enabled(Only(cell, Free), StartPass(owner), config)
      && Next(Only(cell, Free), StartPass(owner), config) == Only(entered, Held(owner, todo, None))
  {
    OnlyRunning(cell, Free);
    assert map[ID := cell][ID := EnterSync(cell)] == map[ID := EnterSync(cell)];
  }

  lemma Picks(cell: Cell, owner: Option<TaskId>, config: Config)
    requires cell.task.Some?
    ensures
      var world := Only(cell, Held(owner, {ID}, None));
      && Enabled(world, Pick(ID), config)
      && Next(world, Pick(ID), config) == Only(cell.(position := Resuming), Held(owner, {}, Some(ID)))
  {
    assert {ID} - {ID} == {};
    assert map[ID := cell][ID := cell.(position := Resuming)] == map[ID := cell.(position := Resuming)];
  }

  lemma PassEnds(cell: Cell, owner: Option<TaskId>, current: Option<TaskId>, config: Config)
    requires cell.position.Idle? && (owner.Some? ==> owner == Some(ID)) && (current.Some? ==> current == Some(ID))
    ensures
      var world := Only(cell, Held(owner, {}, current));
      && Enabled(world, EndPass, config)
      && Next(world, EndPass, config) == Only(if owner.Some? then LeaveSync(cell) else cell, Free)
  {
    assert map[ID := cell][ID := LeaveSync(cell)] == map[ID := LeaveSync(cell)];
  }

  lemma Exec(worlds: seq<World>, steps: seq<Step>, config: Config, n: nat, cell: Cell, lock: Lock,
             step: ExecutorStep, next: Cell)
    returns (worlds': seq<World>, steps': seq<Step>)
    requires Ends(worlds, steps, config, n, Only(cell, lock)) && config.maxConcurrent >= 1
    requires ExecutorEnabled(cell, step) && next == ExecutorNext(cell, step, config.logBudget)
    ensures Ends(worlds', steps', config, n + 1, Only(next, lock))
    ensures worlds' == worlds + [Only(next, lock)] && steps' == steps + [Execute(ID, step)]
  {
    hide Ends, Next, Enabled, ExecutorEnabled, ExecutorNext;
    Executes(cell, lock, step, config);
    worlds', steps' := Extend(worlds, steps, config, n, Only(cell, lock), Execute(ID, step), Only(next, lock));
  }

  lemma Synced(worlds: seq<World>, steps: seq<Step>, config: Config, n: nat, cell: Cell, owner: Option<TaskId>,
               step: PassStep, next: Cell)
    returns (worlds': seq<World>, steps': seq<Step>)
    requires Ends(worlds, steps, config, n, Only(cell, Held(owner, {}, Some(ID))))
    requires PassEnabled(cell, step) && next == PassNext(cell, step)
    ensures Ends(worlds', steps', config, n + 1, Only(next, Held(owner, {}, Some(ID))))
    ensures worlds' == worlds + [Only(next, Held(owner, {}, Some(ID)))] && steps' == steps + [Sync(ID, step)]
  {
    hide Ends, Next, Enabled, PassEnabled, PassNext;
    Syncs(cell, owner, step, config);
    worlds', steps' := Extend(worlds, steps, config, n, Only(cell, Held(owner, {}, Some(ID))), Sync(ID, step),
                              Only(next, Held(owner, {}, Some(ID))));
  }

  lemma Created(config: Config) returns (worlds: seq<World>, steps: seq<Step>)
    ensures Ends(worlds, steps, config, 1, Only(NewCell, Free))
  {
    assert map[][ID := NewCell] == map[ID := NewCell];
    worlds, steps := Extend([Boot], [], config, 0, Boot, Create(ID), Only(NewCell, Free));
  }

  /** A pass begins and turns to the task. */
  lemma Visits(worlds: seq<World>, steps: seq<Step>, config: Config, n: nat, cell: Cell, owner: Option<TaskId>)
    returns (worlds': seq<World>, steps': seq<Step>)
    requires Ends(worlds, steps, config, n, Only(cell, Free)) && cell.task.Some?
    requires owner.Some? ==> owner == Some(ID) && cell.executor.Some? && cell.executor.value.pc.Await?
    ensures
      var entered := if owner.Some? then EnterSync(cell) else cell;
      Ends(worlds', steps', config, n + 2, Only(entered.(position := Resuming), Held(owner, {}, Some(ID))))
  {
    var entered := if owner.Some? then EnterSync(cell) else cell;
    PassStarts(cell, owner, config);
    Picks(entered, owner, config);
    hide Ends, Next, Enabled, EnterSync;
    worlds', steps' := Extend(worlds, steps, config, n, Only(cell, Free), StartPass(owner),
                              Only(entered, Held(owner, {ID}, None)));
    worlds', steps' := Extend(worlds', steps', config, n + 1, Only(entered, Held(owner, {ID}, None)), Pick(ID),
                              Only(entered.(position := Resuming), Held(owner, {}, Some(ID))));
  }

  /** The pass has finished with the task and ends. */
  lemma Finishes(worlds: seq<World>, steps: seq<Step>, config: Config, n: nat, cell: Cell, owner: Option<TaskId>)
    returns (worlds': seq<World>, steps': seq<Step>)
    requires Ends(worlds, steps, config, n, Only(cell, Held(owner, {}, Some(ID))))
    requires cell.position.Idle? && (owner.Some? ==> owner == Some(ID))
    ensures Ends(worlds', steps', config, n + 1, Only(if owner.Some? then LeaveSync(cell) else cell, Free))
  {
    PassEnds(cell, owner, Some(ID), config);
    hide Ends, Next, Enabled, LeaveSync;
    worlds', steps' := Extend(worlds, steps, config, n, Only(cell, Held(owner, {}, Some(ID))), EndPass,
                              Only(if owner.Some? then LeaveSync(cell) else cell, Free));
  }

  // ----- a stopped task that is built without its record -----

  function Executing(cell: Cell, pc: Pc): Cell {
    cell.(executor := Some(Executor(pc, false)))
  }

  /** The executor runs its own pass while there is no record: the pass has nothing to do. */
  lemma EmptyPass(worlds: seq<World>, steps: seq<Step>, config: Config, n: nat, cell: Cell, stage: Stage)
    returns (worlds': seq<World>, steps': seq<Step>)
    requires cell.task.None? && cell.position.Idle? && cell == Executing(cell, Await(stage))
    requires Ends(worlds, steps, config, n, Only(cell, Free))
    ensures Ends(worlds', steps', config, n + 2, Only(Executing(cell, At(stage)), Free))
  {
    var inside := Executing(cell, InSync(stage));
    PassStarts(cell, Some(ID), config);
    hide Ends, Enabled, Next, Only;
    worlds', steps' := Extend(worlds, steps, config, n, Only(cell, Free), StartPass(Some(ID)),
                              Only(inside, Held(Some(ID), {}, None)));
    PassEnds(inside, Some(ID), None, config);
    worlds', steps' := Extend(worlds', steps', config, n + 1, Only(inside, Held(Some(ID), {}, None)), EndPass,
                              Only(Executing(cell, At(stage)), Free));
  }

  /** A pass that Core answers with a stop while no executor has a control. */
  lemma StopWithoutControl(config: Config) returns (worlds: seq<World>, steps: seq<Step>)
    ensures
      var stopped := NewCell.(position := StopRemove, stopped := true, stopping := true);
      Ends(worlds, steps, config, 4, Only(stopped, Held(None, {}, Some(ID))))
  {
    hide Ends;
    worlds, steps := Created(config);
    worlds, steps := Visits(worlds, steps, config, 1, NewCell, None);
    worlds, steps := Synced(worlds, steps, config, 3, NewCell.(position := Resuming), None, ResumeStops,
                            NewCell.(position := StopRemove, stopped := true, stopping := true));
  }

  const IDLE_CONTROL := Control(false, false, false, false)

  /** The task as it is launched too early, and as the pass then leaves it. */
  function Recordless(pc: Pc): Cell {
    NewCell.(task := None, stopped := true, stopping := true, controls := [IDLE_CONTROL], queued := [PREPARING],
             executor := Some(Executor(pc, false)))
  }

  lemma EarlyCells(budget: int)
    ensures
      var stopped := NewCell.(position := StopRemove, stopped := true, stopping := true);
      var launched := stopped.(executor := Some(Executor(At(Begin), false)), controls := [IDLE_CONTROL]);
      var begun := launched.(executor := Some(Executor(Await(Prepare), false)), task := Some(Queue(NewTask, PREPARING)),
                             queued := [PREPARING]);
      && ExecutorEnabled(stopped, Launch) && ExecutorNext(stopped, Launch, budget) == launched
      && ExecutorEnabled(launched, BeginFresh) && ExecutorNext(launched, BeginFresh, budget) == begun
      && PassEnabled(begun, StopRemoves) && PassNext(begun, StopRemoves) == Recordless(Await(Prepare))
  {
  }

  /** The task is launched before that pass removes the record, and its executor waits for the pass. */
  lemma LaunchedTooEarly(config: Config) returns (worlds: seq<World>, steps: seq<Step>)
    requires config.maxConcurrent >= 1
    ensures Ends(worlds, steps, config, 8, Only(Recordless(Await(Prepare)), Free))
  {
    worlds, steps := StopWithoutControl(config);
    EarlyCells(config.logBudget);
    assert Recordless(Await(Prepare)).position.Idle?;
    hide Ends, Next, Enabled, ExecutorNext, ExecutorEnabled, PassNext, PassEnabled, Recordless, Only;
    var stopped := NewCell.(position := StopRemove, stopped := true, stopping := true);
    var launched := stopped.(executor := Some(Executor(At(Begin), false)), controls := [IDLE_CONTROL]);
    var begun := launched.(executor := Some(Executor(Await(Prepare), false)), task := Some(Queue(NewTask, PREPARING)),
                           queued := [PREPARING]);
    var lock := Held(None, {}, Some(ID));
    worlds, steps := Exec(worlds, steps, config, 4, stopped, lock, Launch, launched);
    worlds, steps := Exec(worlds, steps, config, 5, launched, lock, BeginFresh, begun);
    worlds, steps := Synced(worlds, steps, config, 6, begun, None, StopRemoves, Recordless(Await(Prepare)));
    worlds, steps := Finishes(worlds, steps, config, 7, Recordless(Await(Prepare)), None);
  }

  function Attached(pc: Pc): Cell {
    Recordless(pc).(controls := [Control(false, false, true, false)])
  }

  lemma RecordlessAttaches(budget: int)
    ensures ExecutorEnabled(Recordless(At(Prepare)), AttachRuntime)
    ensures ExecutorNext(Recordless(At(Prepare)), AttachRuntime, budget) == Attached(At(Start))
  {
  }

  lemma RecordlessStarts(budget: int)
    ensures ExecutorEnabled(Attached(At(Start)), MarkStarted)
    ensures ExecutorNext(Attached(At(Start)), MarkStarted, budget) == Attached(At(QueueRunning))
    ensures ExecutorEnabled(Attached(At(QueueRunning)), QueueRunningStatus)
    ensures ExecutorNext(Attached(At(QueueRunning)), QueueRunningStatus, budget) == Attached(Await(Run))
  {
  }

  lemma RecordlessSucceeds(uploading: Callback, budget: int)
    ensures ExecutorEnabled(Attached(At(Run)), RunSucceeds(uploading))
    ensures ExecutorNext(Attached(At(Run)), RunSucceeds(uploading), budget) == Attached(Await(Build))
  {
  }

  lemma WaitsAndGoesOn(stage: Stage)
    ensures Recordless(Await(stage)).task.None? && Recordless(Await(stage)).position.Idle?
    ensures Executing(Recordless(Await(stage)), Await(stage)) == Recordless(Await(stage))
    ensures Executing(Recordless(Await(stage)), At(stage)) == Recordless(At(stage))
    ensures Attached(Await(stage)).task.None? && Attached(Await(stage)).position.Idle?
    ensures Executing(Attached(Await(stage)), Await(stage)) == Attached(Await(stage))
    ensures Executing(Attached(Await(stage)), At(stage)) == Attached(At(stage))
  {
  }

  /**
   A run of eighteen steps that dereferences a record that is not there: Core stops the task
   while no executor has a control, the task is launched before the pass removes the record,
   and the executor gets as far as building the bundle.
   */
  lemma BuildsWithoutRecord(config: Config, uploading: Callback) returns (worlds: seq<World>, steps: seq<Step>)
    requires config.maxConcurrent >= 1
    ensures IsRun(worlds, steps, config) && |steps| == 18 && ID in worlds[18].cells
    ensures AtStage(worlds[18].cells[ID], Build) && worlds[18].cells[ID].task.None?
  {
    worlds, steps := LaunchedTooEarly(config);
    RecordlessAttaches(config.logBudget);
    RecordlessStarts(config.logBudget);
    RecordlessSucceeds(uploading, config.logBudget);
    WaitsAndGoesOn(Prepare);
    WaitsAndGoesOn(Run);
    WaitsAndGoesOn(Build);
    assert Attached(At(Build)).task.None? && AtStage(Attached(At(Build)), Build);
    hide Next, Enabled, ExecutorNext, ExecutorEnabled, Recordless, Attached, Executing;
    worlds, steps := EmptyPass(worlds, steps, config, 8, Recordless(Await(Prepare)), Prepare);
    worlds, steps := Exec(worlds, steps, config, 10, Recordless(At(Prepare)), Free, AttachRuntime, Attached(At(Start)));
    worlds, steps := Exec(worlds, steps, config, 11, Attached(At(Start)), Free, MarkStarted, Attached(At(QueueRunning)));
    worlds, steps := Exec(worlds, steps, config, 12, Attached(At(QueueRunning)), Free, QueueRunningStatus, Attached(Await(Run)));
    worlds, steps := EmptyPass(worlds, steps, config, 13, Attached(Await(Run)), Run);
    worlds, steps := Exec(worlds, steps, config, 15, Attached(At(Run)), Free, RunSucceeds(uploading), Attached(Await(Build)));
    worlds, steps := EmptyPass(worlds, steps, config, 16, Attached(Await(Build)), Build);
  }

  // ----- a removal after a batch that Core acknowledged in part -----

  const ENTRY: LogEntry := LogEntry(1, "stdout", [])
  const FAILED := Callback("failed", None, None)

  /** The record before anything was logged, and after one entry and a failure. */
  const PREPARED := Queue(NewTask, PREPARING)
  const LOGGED := PREPARED.(nextSequence := 2, logs := [ENTRY])
  const ENDED := Terminate(LOGGED, FAILED)

  function Begun(pc: Pc, task: TaskState): Cell {
    NewCell.(executor := Some(Executor(pc, false)), controls := [IDLE_CONTROL], task := Some(task), queued := [PREPARING])
  }

  /** The failed task inside its executor's last pass. */
  function Ending(position: Position, task: TaskState, popped: nat, core: CoreView): Cell {
    Begun(InSync(Leave), task).(queued := [PREPARING, FAILED], accepted := [ENTRY], position := position,
                                popped := popped, core := core)
  }

  lemma BegunCells(budget: int)
    requires budget >= 0
    ensures
      && ExecutorEnabled(NewCell, Launch)
      && ExecutorNext(NewCell, Launch, budget) == Begun(At(Begin), NewTask).(queued := [])
      && ExecutorEnabled(Begun(At(Begin), NewTask).(queued := []), BeginFresh)
      && ExecutorNext(Begun(At(Begin), NewTask).(queued := []), BeginFresh, budget) == Begun(Await(Prepare), PREPARED)
      && var resuming := Begun(InSync(Prepare), PREPARED).(position := Resuming);
      && EnterSync(Begun(Await(Prepare), PREPARED)).(position := Resuming) == resuming
      && PassEnabled(resuming, ResumeFails)
      && PassNext(resuming, ResumeFails) == Begun(InSync(Prepare), PREPARED)
      && LeaveSync(Begun(InSync(Prepare), PREPARED)) == Begun(At(Prepare), PREPARED)
  {
  }

  lemma FailingCells(budget: int)
    requires budget >= 0
    ensures
      var waiting := Begun(Await(Leave), ENDED).(queued := [PREPARING, FAILED], accepted := [ENTRY]);
      && ExecutorEnabled(Begun(At(Prepare), PREPARED), WriteLog("stdout", []))
      && ExecutorNext(Begun(At(Prepare), PREPARED), WriteLog("stdout", []), budget)
         == Begun(At(Prepare), LOGGED).(accepted := [ENTRY])
      && ExecutorEnabled(Begun(At(Prepare), LOGGED).(accepted := [ENTRY]), PrepareFails(FAILED))
      && ExecutorNext(Begun(At(Prepare), LOGGED).(accepted := [ENTRY]), PrepareFails(FAILED), budget) == waiting
      && EnterSync(waiting).(position := Resuming) == Ending(Resuming, ENDED, 0, CoreView([], [], false, false))
  {
    assert EntryFor(PREPARED, "stdout", []) == ENTRY && [] + [ENTRY] == [ENTRY];
    assert Write(PREPARED, budget, "stdout", []) == LOGGED;
    hide Write, EntryFor;
  }

  /** One writer, one log entry, and the executor's last pass about to begin. */
  lemma FailsAfterLogging(config: Config) returns (worlds: seq<World>, steps: seq<Step>)
    requires config.maxConcurrent >= 1 && config.logBudget >= 0
    ensures Ends(worlds, steps, config, 11,
                 Only(Ending(Resuming, ENDED, 0, CoreView([], [], false, false)), Held(Some(ID), {}, Some(ID))))
  {
    var budget := config.logBudget;
    BegunCells(budget);
    FailingCells(budget);
    assert Begun(InSync(Prepare), PREPARED).position.Idle?;
    worlds, steps := Created(config);
    hide Ends, Next, Enabled, ExecutorNext, ExecutorEnabled, PassNext, PassEnabled, EnterSync, LeaveSync, Ending, Only, Queue,
         Terminate;
    worlds, steps := Exec(worlds, steps, config, 1, NewCell, Free, Launch, Begun(At(Begin), NewTask).(queued := []));
    worlds, steps := Exec(worlds, steps, config, 2, Begun(At(Begin), NewTask).(queued := []), Free, BeginFresh,
                          Begun(Await(Prepare), PREPARED));
    worlds, steps := Visits(worlds, steps, config, 3, Begun(Await(Prepare), PREPARED), Some(ID));
    worlds, steps := Synced(worlds, steps, config, 5, Begun(InSync(Prepare), PREPARED).(position := Resuming), Some(ID),
                            ResumeFails, Begun(InSync(Prepare), PREPARED));
    worlds, steps := Finishes(worlds, steps, config, 6, Begun(InSync(Prepare), PREPARED), Some(ID));
    worlds, steps := Exec(worlds, steps, config, 7, Begun(At(Prepare), PREPARED), Free, WriteLog("stdout", []),
                          Begun(At(Prepare), LOGGED).(accepted := [ENTRY]));
    var waiting := Begun(Await(Leave), ENDED).(queued := [PREPARING, FAILED], accepted := [ENTRY]);
    worlds, steps := Exec(worlds, steps, config, 8, Begun(At(Prepare), LOGGED).(accepted := [ENTRY]), Free,
                          PrepareFails(FAILED), waiting);
    worlds, steps := Visits(worlds, steps, config, 9, waiting, Some(ID));
  }

  /** The record with `popped` statuses confirmed. */
  function Confirmed(popped: nat): TaskState
    requires popped <= 2
  {
    ENDED.(pendingStatuses := [PREPARING, FAILED][popped..])
  }

  function Told(count: nat): CoreView
    requires count <= 2
  {
    CoreView([Delivery(0, PREPARING), Delivery(1, FAILED)][..count], [], false, false)
  }

  function Status(k: nat): Callback {
    if k == 0 then PREPARING else FAILED
  }

  lemma StatusCells(k: nat)
    requires k <= 1
    ensures
      var before, sent := Ending(Statuses, Confirmed(k), k, Told(k)), Ending(StatusSent(Status(k), k, false), Confirmed(k), k, Told(k));
      var taken := Ending(StatusSent(Status(k), k, true), Confirmed(k), k, Told(k + 1));
      && PassEnabled(before, SendStatus) && PassNext(before, SendStatus) == sent
      && PassEnabled(sent, StatusReceived) && PassNext(sent, StatusReceived) == taken
      && PassEnabled(taken, StatusAccepted)
      && PassNext(taken, StatusAccepted) == Ending(Statuses, Confirmed(k + 1), k + 1, Told(k + 1))
  {
    assert [PREPARING, FAILED][k..][0] == Status(k);
    assert [PREPARING, FAILED][k..][1..] == [PREPARING, FAILED][k + 1..];
    assert Told(k).statuses + [Delivery(k, Status(k))] == Told(k + 1).statuses;
  }

  lemma DeliversStatus(worlds: seq<World>, steps: seq<Step>, config: Config, n: nat, k: nat)
    returns (worlds': seq<World>, steps': seq<Step>)
    requires k <= 1
    requires Ends(worlds, steps, config, n, Only(Ending(Statuses, Confirmed(k), k, Told(k)), Held(Some(ID), {}, Some(ID))))
    ensures Ends(worlds', steps', config, n + 3,
                 Only(Ending(Statuses, Confirmed(k + 1), k + 1, Told(k + 1)), Held(Some(ID), {}, Some(ID))))
  {
    StatusCells(k);
    hide Ends, PassNext, PassEnabled, Ending, Only, Confirmed, Told, Status;
    worlds', steps' := Synced(worlds, steps, config, n, Ending(Statuses, Confirmed(k), k, Told(k)), Some(ID), SendStatus,
                              Ending(StatusSent(Status(k), k, false), Confirmed(k), k, Told(k)));
    worlds', steps' := Synced(worlds', steps', config, n + 1, Ending(StatusSent(Status(k), k, false), Confirmed(k), k, Told(k)),
                              Some(ID), StatusReceived, Ending(StatusSent(Status(k), k, true), Confirmed(k), k, Told(k + 1)));
    worlds', steps' := Synced(worlds', steps', config, n + 2, Ending(StatusSent(Status(k), k, true), Confirmed(k), k, Told(k + 1)),
                              Some(ID), StatusAccepted, Ending(Statuses, Confirmed(k + 1), k + 1, Told(k + 1)));
  }

  const BATCH := LogBatch(1, [ENTRY], false)

  lemma LogCells()
    ensures
      var task, core := Confirmed(2), Told(2);
      var received := core.(received := [ENTRY]);
      && PassEnabled(Ending(Statuses, task, 2, core), StatusesDone)
      && PassNext(Ending(Statuses, task, 2, core), StatusesDone) == Ending(Logs(true), task, 2, core)
      && PassEnabled(Ending(Logs(true), task, 2, core), SendLogs)
      && PassNext(Ending(Logs(true), task, 2, core), SendLogs) == Ending(LogsSent(true, BATCH, false), task, 2, core)
      && PassEnabled(Ending(LogsSent(true, BATCH, false), task, 2, core), LogsReceived)
      && PassNext(Ending(LogsSent(true, BATCH, false), task, 2, core), LogsReceived)
         == Ending(LogsSent(true, BATCH, true), task, 2, received)
  {
    assert Above([ENTRY], 0) == [ENTRY];
    assert NextBatch(Confirmed(2)) == Some(BATCH);
    assert Absorb([], BATCH) == [ENTRY];
  }

  lemma AcknowledgesInPart()
    ensures
      var task, received := Confirmed(2), Told(2).(received := [ENTRY]);
      && PassEnabled(Ending(LogsSent(true, BATCH, true), task, 2, received), LogsAcknowledged(0))
      && PassNext(Ending(LogsSent(true, BATCH, true), task, 2, received), LogsAcknowledged(0))
         == Ending(Bundle(true, false), task, 2, received)
  {
    assert Above([ENTRY], 0) == [ENTRY];
    assert LogAck(Confirmed(2), 0) == Confirmed(2);
    hide LogAck;
  }

  lemma GoesOnToRemove()
    ensures
      var task, received := Confirmed(2), Told(2).(received := [ENTRY]);
      && PassEnabled(Ending(Bundle(true, false), task, 2, received), BundleSkipped)
      && PassNext(Ending(Bundle(true, false), task, 2, received), BundleSkipped)
         == Ending(Final(true, false), task, 2, received)
      && PassEnabled(Ending(Final(true, false), task, 2, received), FinalCheck)
      && PassNext(Ending(Final(true, false), task, 2, received), FinalCheck)
         == Ending(Removing(true, false), task, 2, received)
  {
    assert [PREPARING, FAILED][2..] == [];
  }

  lemma StartsStatuses()
    ensures
      var resuming := Ending(Resuming, ENDED, 0, CoreView([], [], false, false));
      && PassEnabled(resuming, ResumeContinues(0))
      && PassNext(resuming, ResumeContinues(0)) == Ending(Statuses, Confirmed(0), 0, Told(0))
  {
    assert ENDED == Confirmed(0);
  }

  /**
   A run that is about to remove a task although Core never acknowledged its log entry: Core
   answers the only batch with an acknowledgement below it, the batch was short, and the pass
   goes on to remove the task, which Core never stopped.
   */
  lemma RemovesAfterPartialAcknowledgement(config: Config) returns (worlds: seq<World>, steps: seq<Step>)
    requires config.maxConcurrent >= 1 && config.logBudget >= 0
    ensures IsRun(worlds, steps, config) && |steps| == 24 && ID in worlds[24].cells
    ensures Enabled(worlds[24], Sync(ID, RemoveTask), config)
    ensures Removes(worlds[24], Sync(ID, RemoveTask), config, ID)
    ensures
      var cell := worlds[24].cells[ID];
      !cell.stopped && !cell.position.full && cell.accepted == [ENTRY] && !EveryLogAcknowledged(cell)
  {
    worlds, steps := PartialRun(config);
    var cell := Ending(Removing(true, false), Confirmed(2), 2, Told(2).(received := [ENTRY]));
    Syncs(cell, Some(ID), RemoveTask, config);
    assert worlds[24] == Only(cell, Held(Some(ID), {}, Some(ID)));
    hide IsRun, Enabled, Next;
  }

  lemma PartialRun(config: Config) returns (worlds: seq<World>, steps: seq<Step>)
    requires config.maxConcurrent >= 1 && config.logBudget >= 0
    ensures Ends(worlds, steps, config, 24,
                 Only(Ending(Removing(true, false), Confirmed(2), 2, Told(2).(received := [ENTRY])), Held(Some(ID), {}, Some(ID))))
  {
    hide Ends, PassNext, PassEnabled, Ending, Only, Confirmed, Told;
    worlds, steps := FailsAfterLogging(config);
    StartsStatuses();
    worlds, steps := Synced(worlds, steps, config, 11, Ending(Resuming, ENDED, 0, CoreView([], [], false, false)), Some(ID),
                            ResumeContinues(0), Ending(Statuses, Confirmed(0), 0, Told(0)));
    worlds, steps := DeliversStatus(worlds, steps, config, 12, 0);
    worlds, steps := DeliversStatus(worlds, steps, config, 15, 1);
    var task, core, received := Confirmed(2), Told(2), Told(2).(received := [ENTRY]);
    LogCells();
    worlds, steps := Synced(worlds, steps, config, 18, Ending(Statuses, task, 2, core), Some(ID), StatusesDone,
                            Ending(Logs(true), task, 2, core));
    worlds, steps := Synced(worlds, steps, config, 19, Ending(Logs(true), task, 2, core), Some(ID), SendLogs,
                            Ending(LogsSent(true, BATCH, false), task, 2, core));
    worlds, steps := Synced(worlds, steps, config, 20, Ending(LogsSent(true, BATCH, false), task, 2, core), Some(ID),
                            LogsReceived, Ending(LogsSent(true, BATCH, true), task, 2, received));
    AcknowledgesInPart();
    GoesOnToRemove();
    worlds, steps := Synced(worlds, steps, config, 21, Ending(LogsSent(true, BATCH, true), task, 2, received), Some(ID),
                            LogsAcknowledged(0), Ending(Bundle(true, false), task, 2, received));
    worlds, steps := Synced(worlds, steps, config, 22, Ending(Bundle(true, false), task, 2, received), Some(ID),
                            BundleSkipped, Ending(Final(true, false), task, 2, received));
    worlds, steps := Synced(worlds, steps, config, 23, Ending(Final(true, false), task, 2, received), Some(ID),
                            FinalCheck, Ending(Removing(true, false), task, 2, received));
  }
}
