/**
 The Box Gateway as a step relation (box/gateway/gateway.go).

 Executors, the synchronisation pass and Core interleave freely; one step is one
 critical section of `mu`, one request arriving at Core, or one answer arriving
 at the Gateway. `syncMu` is the `Lock` of the world: at most one pass is active,
 and an executor that queued a status waits for the lock and then runs a whole
 pass itself before it goes on. A crash may happen at any step.
 */
module GatewayProtocol {
  import opened Common
  import opened Spool

  type TaskId = string

  // ----- executors (`execute`, gateway.go:380-568) -----

  datatype Stage = Begin | Prepare | TellCancel | Start | QueueRunning | Run | Build | Leave

  /** Where an executor is: at a stage, waiting for `syncMu` before it, or inside its own pass before it. */
  datatype Pc = At(stage: Stage) | Await(stage: Stage) | InSync(stage: Stage)

  datatype Executor = Executor(pc: Pc, recovering: bool)

  /** One `executionControl`; `told` records that its runtime was asked to cancel. */
  datatype Control = Control(stopRequested: bool, cleanupRequested: bool, attached: bool, told: bool)

  // ----- the part of a pass that concerns one task (`syncTask`) -----

  /**
   Each position from `Logs` on remembers whether the task's writers had already
   fallen silent when `flushStatuses` found the queue empty (`closed`), and each
   one from `Bundle` on whether Core acknowledged the last log batch in full.
   */
  datatype Position =
    | Idle
    | Resuming
    | Statuses
    | StatusSent(callback: Callback, index: nat, got: bool)
    | Logs(closed: bool)
    | LogsSent(closed: bool, batch: LogBatch, got: bool)
    | Bundle(closed: bool, full: bool)
    | Uploading(closed: bool, full: bool)
    | Reporting(closed: bool, full: bool, got: bool)
    | Removing(closed: bool, full: bool)
    | Final(closed: bool, full: bool)
    | StopCancel(ticket: nat, runtime: bool)
    | StopRemove

  // ----- Core -----

  /** `index` is the place of the callback in the order in which statuses were queued. */
  datatype Delivery = Delivery(index: nat, callback: Callback)

  /** What Core has received for one task; logs are kept as a gap-free list. */
  datatype CoreView = CoreView(statuses: seq<Delivery>, received: seq<LogEntry>, artifact: bool, result: bool)

  function Absorb(received: seq<LogEntry>, batch: LogBatch): seq<LogEntry> {
    if batch.firstSequence <= |received| + 1 < batch.firstSequence + |batch.entries| then
      received + batch.entries[|received| + 1 - batch.firstSequence..]
    else received
  }

  // ----- everything about one task -----

  /**
   `queued`, `popped` and `accepted` are history: every status ever queued, how
   many of them Core confirmed, and every log entry `write` ever accepted.
   `lost` counts answers lost after Core had taken a status. `stopped` says that
   Core ever answered something other than "continue"; `stopping` that it did so
   since this process started. `leaving` counts executors that gave up their
   control with cleanup requested and have not yet called `cleanupTask`.
   */
  datatype Cell = Cell(
    task: Option<TaskState>,
    executor: Option<Executor>,
    controls: seq<Control>,
    leaving: nat,
    position: Position,
    core: CoreView,
    queued: seq<Callback>,
    popped: nat,
    accepted: seq<LogEntry>,
    lost: nat,
    stopped: bool,
    stopping: bool)

  const NewCell := Cell(Some(NewTask), None, [], 0, Idle, CoreView([], [], false, false),
                        [], 0, [], 0, false, false)

  function QueueIn(cell: Cell, callback: Callback): Cell {
    match cell.task
    case None => cell
    case Some(task) => cell.(task := Some(Queue(task, callback)), queued := cell.queued + [callback])
  }

  function TerminateIn(cell: Cell, callback: Callback): Cell {
    match cell.task
    case None => cell
    case Some(task) => cell.(task := Some(Terminate(task, callback)), queued := cell.queued + [callback])
  }

  /** `terminalTask` returns without a pass when the local state is gone. */
  function FailIn(cell: Cell, callback: Callback): Cell
    requires cell.executor.Some?
  {
    GoTo(TerminateIn(cell, callback), if cell.task.None? then At(Leave) else Await(Leave))
  }

  function GoTo(cell: Cell, pc: Pc): Cell
    requires cell.executor.Some?
  {
    cell.(executor := Some(cell.executor.value.(pc := pc)))
  }

  function SetControl(cell: Cell, ticket: nat, control: Control): Cell
    requires ticket < |cell.controls|
  {
    cell.(controls := cell.controls[ticket := control])
  }

  function Ticket(cell: Cell): nat
    requires |cell.controls| > 0
  {
    |cell.controls| - 1
  }

  function Live(cell: Cell): Control
    requires |cell.controls| > 0
  {
    cell.controls[Ticket(cell)]
  }

  predicate AtStage(cell: Cell, stage: Stage) {
    cell.executor.Some? && cell.executor.value.pc == At(stage)
  }

  // ----- executor steps -----

  datatype ExecutorStep =
    | Launch
    | BeginMissing
    | BeginInvalid(failure: Callback)
    | BeginFresh
    | BeginRecovering
    | PrepareFails(failure: Callback)
    | AttachRuntime
    | CancelAttached
    | MarkStarted
    | SkipStarted
    | QueueRunningStatus
    | RunDetaches
    | RunEnds(failure: Callback)
    | RunSucceeds(uploading: Callback)
    | BuildFails(failure: Callback)
    | BuildSucceeds
    | Exit
    | CleanupAfterExit
    | WriteLog(stream: string, contents: Bytes)

  const PREPARING := Callback("preparing", None, None)
  const RUNNING := Callback("running", None, None)

  predicate ExecutorEnabled(cell: Cell, step: ExecutorStep) {
    match step
    case Launch => cell.executor.None? && (cell.task.Some? ==> !cell.task.value.runtimeFinished)
    case BeginMissing => AtStage(cell, Begin) && cell.task.None?
    case BeginInvalid(_) => AtStage(cell, Begin) && cell.task.Some?
    case BeginFresh => AtStage(cell, Begin) && cell.task.Some? && !cell.task.value.runtimeStarted
    case BeginRecovering => AtStage(cell, Begin) && cell.task.Some? && cell.task.value.runtimeStarted
    case PrepareFails(_) => AtStage(cell, Prepare)
    case AttachRuntime => AtStage(cell, Prepare) && |cell.controls| > 0
    case CancelAttached => AtStage(cell, TellCancel) && |cell.controls| > 0
    case MarkStarted => AtStage(cell, Start) && !cell.executor.value.recovering
    case SkipStarted => AtStage(cell, Start) && cell.executor.value.recovering
    case QueueRunningStatus => AtStage(cell, QueueRunning)
    case RunDetaches => AtStage(cell, Run)
    case RunEnds(_) => AtStage(cell, Run)
    case RunSucceeds(_) => AtStage(cell, Run)
    case BuildFails(_) => AtStage(cell, Build) && cell.task.Some?
    case BuildSucceeds => AtStage(cell, Build) && cell.task.Some?
    case Exit => AtStage(cell, Leave) && |cell.controls| > 0
    case CleanupAfterExit => cell.leaving > 0
    case WriteLog(_, _) => AtStage(cell, Prepare) || AtStage(cell, Run)
  }

  function ExecutorNext(cell: Cell, step: ExecutorStep, budget: int): Cell
    requires ExecutorEnabled(cell, step)
  {
    match step
    case Launch =>
      cell.(executor := Some(Executor(At(Begin), false)),
            controls := cell.controls + [Control(false, false, false, false)])
    case BeginMissing => GoTo(cell, At(Leave))
    case BeginInvalid(failure) => FailIn(cell, failure)
    case BeginFresh => QueueIn(cell, PREPARING).(executor := Some(Executor(Await(Prepare), false)))
    case BeginRecovering => cell.(executor := Some(Executor(At(Prepare), true)))
    case PrepareFails(failure) => FailIn(cell, failure)
    case AttachRuntime =>
      var attached := SetControl(cell, Ticket(cell), Live(cell).(attached := true));
      GoTo(attached, At(if Live(cell).stopRequested then TellCancel else Start))
    case CancelAttached => GoTo(SetControl(cell, Ticket(cell), Live(cell).(told := true)), At(Start))
    case MarkStarted =>
      var marked := if cell.task.None? then cell
                    else cell.(task := Some(cell.task.value.(runtimeStarted := true)));
      GoTo(marked, At(QueueRunning))
    case SkipStarted => GoTo(cell, At(Run))
    case QueueRunningStatus => GoTo(QueueIn(cell, RUNNING), Await(Run))
    case RunDetaches => GoTo(cell, At(Leave))
    case RunEnds(failure) => FailIn(cell, failure)
    case RunSucceeds(uploading) => GoTo(QueueIn(cell, uploading), Await(Build))
    case BuildFails(failure) => FailIn(cell, failure)
    case BuildSucceeds => GoTo(cell.(task := Some(FinishBundle(cell.task.value))), Await(Leave))
    case Exit =>
      cell.(executor := None, leaving := cell.leaving + if Live(cell).cleanupRequested then 1 else 0)
    case CleanupAfterExit => cell.(task := None, leaving := cell.leaving - 1)
    case WriteLog(stream, contents) =>
      if cell.task.None? then cell
      else if Accepts(cell.task.value, budget, contents) then
        cell.(task := Some(Write(cell.task.value, budget, stream, contents)),
              accepted := cell.accepted + [EntryFor(cell.task.value, stream, contents)])
      else cell.(task := Some(Write(cell.task.value, budget, stream, contents)))
  }

  // ----- pass steps -----

  datatype PassStep =
    | ResumeFails
    | ResumeContinues(acceptedThrough: nat)
    | ResumeStops
    | StatusesDone
    | SendStatus
    | StatusReceived
    | StatusAccepted
    | StatusFails
    | LogsDone
    | SendLogs
    | LogsReceived
    | LogsAcknowledged(acceptedThrough: nat)
    | LogsFail
    | BundleSkipped
    | BundleStarts
    | UploadSucceeds
    | UploadFails
    | ResultReceived
    | ResultAccepted
    | ResultFails
    | RemoveTask
    | FinalCheck
    | StopCancelled
    | StopRemoves

  /** Core is honest: it acknowledges only what it has received. */
  predicate PassEnabled(cell: Cell, step: PassStep) {
    match step
    case ResumeFails => cell.position.Resuming?
    case ResumeContinues(through) => cell.position.Resuming? && through <= |cell.core.received|
    case ResumeStops => cell.position.Resuming? && (cell.executor.Some? ==> |cell.controls| > 0)
    case StatusesDone => cell.position.Statuses? && (cell.task.Some? ==> cell.task.value.pendingStatuses == [])
    case SendStatus => cell.position.Statuses? && cell.task.Some? && cell.task.value.pendingStatuses != []
    case StatusReceived => cell.position.StatusSent? && !cell.position.got
    case StatusAccepted => cell.position.StatusSent? && cell.position.got
    case StatusFails => cell.position.StatusSent?
    case LogsDone => cell.position.Logs? && (cell.task.Some? ==> NextBatch(cell.task.value).None?)
    case SendLogs => cell.position.Logs? && cell.task.Some? && NextBatch(cell.task.value).Some?
    case LogsReceived => cell.position.LogsSent? && !cell.position.got
    case LogsAcknowledged(through) =>
      cell.position.LogsSent? && cell.position.got && through <= |cell.core.received|
    case LogsFail => cell.position.LogsSent?
    case BundleSkipped =>
      cell.position.Bundle?
      && (cell.task.Some? ==> !cell.task.value.bundleReady || !cell.task.value.resultPending)
    case BundleStarts =>
      cell.position.Bundle? && cell.task.Some? && cell.task.value.bundleReady && cell.task.value.resultPending
    case UploadSucceeds => cell.position.Uploading?
    case UploadFails => cell.position.Uploading?
    case ResultReceived => cell.position.Reporting? && !cell.position.got
    case ResultAccepted => cell.position.Reporting? && cell.position.got
    case ResultFails => cell.position.Reporting?
    case RemoveTask => cell.position.Removing?
    case FinalCheck => cell.position.Final?
    case StopCancelled => cell.position.StopCancel? && cell.position.ticket < |cell.controls|
    case StopRemoves => cell.position.StopRemove?
  }

  function PassNext(cell: Cell, step: PassStep): Cell
    requires PassEnabled(cell, step)
  {
    match step
    case ResumeFails => cell.(position := Idle)
    case ResumeContinues(through) =>
      cell.(position := Statuses,
            task := if cell.task.None? then None else Some(ResumeAck(cell.task.value, through)))
    case ResumeStops =>
      if cell.executor.Some? then
        var stopped := Live(cell).(stopRequested := true, cleanupRequested := true);
        SetControl(cell, Ticket(cell), stopped).(
          position := StopCancel(Ticket(cell), stopped.attached), stopped := true, stopping := true)
      else cell.(position := StopRemove, stopped := true, stopping := true)
    case StatusesDone => cell.(position := Logs(Silent(cell)))
    case SendStatus => cell.(position := StatusSent(cell.task.value.pendingStatuses[0], cell.popped, false))
    case StatusReceived =>
      cell.(position := StatusSent(cell.position.callback, cell.position.index, true),
            core := cell.core.(statuses :=
              cell.core.statuses + [Delivery(cell.position.index, cell.position.callback)]))
    case StatusAccepted =>
      cell.(position := Statuses, popped := cell.popped + 1,
            task := if cell.task.None? then None else Some(PopStatus(cell.task.value)))
    case StatusFails =>
      cell.(position := Idle, lost := cell.lost + if cell.position.got then 1 else 0)
    case LogsDone => cell.(position := Bundle(cell.position.closed, true))
    case SendLogs =>
      cell.(position := LogsSent(cell.position.closed, NextBatch(cell.task.value).value, false))
    case LogsReceived =>
      cell.(position := LogsSent(cell.position.closed, cell.position.batch, true),
            core := cell.core.(received := Absorb(cell.core.received, cell.position.batch)))
    case LogsAcknowledged(through) =>
      var batch := cell.position.batch;
      var full := batch.firstSequence + |batch.entries| <= through + 1 || batch.entries == [];
      cell.(position := if |batch.entries| == MAXIMUM_BATCH then Logs(cell.position.closed)
                        else Bundle(cell.position.closed, full),
            task := if cell.task.None? then None else Some(LogAck(cell.task.value, through)))
    case LogsFail => cell.(position := Idle)
    case BundleSkipped => cell.(position := Final(cell.position.closed, cell.position.full))
    case BundleStarts =>
      if cell.task.value.artifact then cell.(position := Reporting(cell.position.closed, cell.position.full, false))
      else cell.(position := Uploading(cell.position.closed, cell.position.full))
    case UploadSucceeds =>
      cell.(position := Reporting(cell.position.closed, cell.position.full, false),
            core := cell.core.(artifact := true),
            task := if cell.task.None? then None else Some(cell.task.value.(artifact := true)))
    case UploadFails => cell.(position := Idle)
    case ResultReceived =>
      cell.(position := Reporting(cell.position.closed, cell.position.full, true),
            core := cell.core.(result := true))
    case ResultAccepted => cell.(position := Removing(cell.position.closed, cell.position.full))
    case ResultFails => cell.(position := Idle)
    case RemoveTask => cell.(position := Idle, task := None)
    case FinalCheck =>
      if cell.task.Some? && cell.task.value.terminalOnly && cell.task.value.pendingStatuses == [] then
        cell.(position := Removing(cell.position.closed, cell.position.full))
      else cell.(position := Idle)
    case StopCancelled =>
      var control := cell.controls[cell.position.ticket];
      if cell.position.runtime then
        SetControl(cell, cell.position.ticket, control.(told := true)).(position := Idle)
      else cell.(position := Idle)
    case StopRemoves => cell.(position := Idle, task := None)
  }

  /** The task's runtime has returned for good: nothing will be written for it any more. */
  predicate Silent(cell: Cell) {
    cell.task.Some? &&
    (cell.task.value.runtimeFinished ||
     (cell.executor.Some? && cell.executor.value.pc.stage == Build))
  }

  // ----- the whole Gateway -----

  /** `owner` is the executor that runs the pass; None for the sync loop and for log writers. */
  datatype Lock = Free | Held(owner: Option<TaskId>, todo: set<TaskId>, current: Option<TaskId>)

  datatype World = World(cells: map<TaskId, Cell>, lock: Lock)

  datatype Config = Config(maxConcurrent: nat, logBudget: int)

  const Boot := World(map[], Free)

  datatype Step =
    | Create(id: TaskId)
    | Execute(id: TaskId, executor: ExecutorStep)
    | StartPass(owner: Option<TaskId>)
    | Pick(id: TaskId)
    | Sync(id: TaskId, pass: PassStep)
    | EndPass
    | Crash

  function Running(world: World): set<TaskId> {
    set id | id in world.cells && world.cells[id].executor.Some?
  }

  /** The tasks a new pass will visit (`syncAll` copies the keys under `mu`). */
  function Spooling(world: World): set<TaskId> {
    set id | id in world.cells && world.cells[id].task.Some?
  }

  function Put(world: World, id: TaskId, cell: Cell): World {
    world.(cells := world.cells[id := cell])
  }

  predicate CurrentDone(world: World)
    requires world.lock.Held?
  {
    match world.lock.current
    case None => true
    case Some(id) => id in world.cells ==> world.cells[id].position.Idle?
  }

  predicate Enabled(world: World, step: Step, config: Config) {
    match step
    case Create(id) => id !in world.cells
    case Execute(id, executor) =>
      && id in world.cells
      && ExecutorEnabled(world.cells[id], executor)
      && (executor.Launch? ==> |Running(world)| < config.maxConcurrent)
    case StartPass(owner) =>
      && world.lock.Free?
      && (owner.Some? ==>
            owner.value in world.cells
            && world.cells[owner.value].executor.Some?
            && world.cells[owner.value].executor.value.pc.Await?)
    case Pick(id) => world.lock.Held? && CurrentDone(world) && id in world.lock.todo && id in world.cells
    case Sync(id, pass) =>
      && world.lock.Held? && world.lock.current == Some(id)
      && id in world.cells && PassEnabled(world.cells[id], pass)
    case EndPass => world.lock.Held? && CurrentDone(world) && world.lock.todo == {}
    case Crash => true
  }

  function EnterSync(cell: Cell): Cell {
    if cell.executor.Some? && cell.executor.value.pc.Await? then
      GoTo(cell, InSync(cell.executor.value.pc.stage))
    else cell
  }

  function LeaveSync(cell: Cell): Cell {
    if cell.executor.Some? && cell.executor.value.pc.InSync? then
      GoTo(cell, At(cell.executor.value.pc.stage))
    else cell
  }

  /** Everything but the persisted task record is lost; Core keeps what it has. */
  function Reload(cell: Cell): Cell {
    cell.(executor := None, controls := [], leaving := 0, position := Idle, stopping := false,
          lost := cell.lost + if cell.position.StatusSent? && cell.position.got then 1 else 0)
  }

  function Next(world: World, step: Step, config: Config): World
    requires Enabled(world, step, config)
  {
    match step
    case Create(id) => Put(world, id, NewCell)
    case Execute(id, executor) => Put(world, id, ExecutorNext(world.cells[id], executor, config.logBudget))
    case StartPass(owner) =>
      var locked := world.(lock := Held(owner, Spooling(world), None));
      if owner.None? then locked
      else Put(locked, owner.value, EnterSync(world.cells[owner.value]))
    case Pick(id) =>
      var cell := world.cells[id];
      var picked := world.(lock := world.lock.(todo := world.lock.todo - {id}, current := Some(id)));
      if cell.task.None? then picked else Put(picked, id, cell.(position := Resuming))
    case Sync(id, pass) => Put(world, id, PassNext(world.cells[id], pass))
    case EndPass =>
      var released := world.(lock := Free);
      if world.lock.owner.Some? && world.lock.owner.value in world.cells then
        Put(released, world.lock.owner.value, LeaveSync(world.cells[world.lock.owner.value]))
      else released
    case Crash => World(map id | id in world.cells :: Reload(world.cells[id]), Free)
  }

  /** A run: `worlds[i]` takes `steps[i]` to `worlds[i + 1]`, starting from an empty Gateway. */
  ghost predicate IsRun(worlds: seq<World>, steps: seq<Step>, config: Config) {
    && |worlds| == |steps| + 1
    && worlds[0] == Boot
    && forall i :: 0 <= i < |steps| ==>
         Enabled(worlds[i], steps[i], config) && worlds[i + 1] == Next(worlds[i], steps[i], config)
  }
}
