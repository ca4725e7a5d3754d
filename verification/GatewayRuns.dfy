/** Whole runs of the Gateway: every reachable state keeps the invariants, and what follows from them. */
module GatewayRuns {
  import opened Common
  import opened Spool
  import opened GatewayProtocol
  import opened GatewayDelivery

  ghost predicate CellInvariant(cell: Cell) {
    && LogsConserved(cell)
    && StatusesInOrder(cell)
    && DeliveryOrdered(cell)
    && ResultFirst(cell)
    && StopHandled(cell)
  }

  predicate InOwnSync(cell: Cell) {
    cell.executor.Some? && cell.executor.value.pc.InSync?
  }

  /** Only the task the pass is at has a position, and only the pass's owner is inside its own pass. */
  predicate LockRespected(lock: Lock, id: TaskId, cell: Cell) {
    && (!cell.position.Idle? ==> lock.Held? && lock.current == Some(id))
    && (InOwnSync(cell) ==> lock.Held? && lock.owner == Some(id))
  }

  ghost predicate CellsSound(world: World) {
    forall id :: id in world.cells ==> CellInvariant(world.cells[id])
  }

  ghost predicate LockSound(world: World) {
    forall id :: id in world.cells ==> LockRespected(world.lock, id, world.cells[id])
  }

  ghost predicate Invariant(world: World, config: Config) {
    CellsSound(world) && LockSound(world) && |Running(world)| <= config.maxConcurrent
  }

  lemma NewLogsSound()
    ensures LogsConserved(NewCell)
  {
    assert ViewLogs(NewCell) == LogView([], [], Some(Spooling(1, 0, [])), None, false);
  }

  lemma NewStatusesSound()
    ensures StatusesInOrder(NewCell)
  {
    assert ViewStatuses(NewCell) == StatusView([], 0, Some([]), [], None, false, 0);
  }

  lemma NewCellSound()
    ensures CellInvariant(NewCell)
  {
    hide LogsConserved, StatusesInOrder;
    NewLogsSound();
    NewStatusesSound();
  }

  lemma ReloadKeepsLogs(cell: Cell)
    requires LogsConserved(cell)
    ensures LogsConserved(Reload(cell))
  {
    SettlingConserves(ViewLogs(cell), ViewLogs(cell).spool);
    hide Conserved;
    assert ViewLogs(Reload(cell)) == ViewLogs(cell).(sent := None, got := false);
  }

  lemma ReloadKeepsStatuses(cell: Cell)
    requires StatusesInOrder(cell)
    ensures StatusesInOrder(Reload(cell))
  {
    LosingKeepsOrder(ViewStatuses(cell));
  }

  lemma ReloadKeeps(cell: Cell)
    requires CellInvariant(cell)
    ensures CellInvariant(Reload(cell))
  {
    ReloadKeepsLogs(cell);
    ReloadKeepsStatuses(cell);
    hide LogsConserved, StatusesInOrder;
  }

  lemma SyncMovesKeep(cell: Cell, next: Cell)
    requires CellInvariant(cell)
    requires next == EnterSync(cell) || (cell.position.Idle? && next == LeaveSync(cell))
             || (cell.position.Idle? && cell.task.Some? && next == cell.(position := Resuming))
    ensures LogsConserved(next) && StatusesInOrder(next) && StopHandled(next)
  {
    hide Conserved, InOrder, RepeatsPaid, DeliveryOrdered;
    assert ViewLogs(next) == ViewLogs(cell);
    assert ViewStatuses(next) == ViewStatuses(cell);
  }

  lemma EnterSyncKeeps(cell: Cell)
    requires CellInvariant(cell)
    ensures CellInvariant(EnterSync(cell))
  {
    hide LogsConserved, StatusesInOrder, StopHandled;
    SyncMovesKeep(cell, EnterSync(cell));
  }

  /** This is where waiting for `syncMu` matters: no pass is under way when the executor goes on. */
  lemma LeaveSyncKeeps(cell: Cell)
    requires CellInvariant(cell) && cell.position.Idle?
    ensures CellInvariant(LeaveSync(cell))
  {
    hide LogsConserved, StatusesInOrder, StopHandled;
    SyncMovesKeep(cell, LeaveSync(cell));
  }

  lemma PickKeeps(cell: Cell)
    requires CellInvariant(cell) && cell.position.Idle? && cell.task.Some?
    ensures CellInvariant(cell.(position := Resuming))
  {
    hide LogsConserved, StatusesInOrder, StopHandled;
    SyncMovesKeep(cell, cell.(position := Resuming));
  }

  lemma ExecutorKeepsCell(cell: Cell, step: ExecutorStep, budget: int)
    requires CellInvariant(cell) && ExecutorEnabled(cell, step)
    ensures CellInvariant(ExecutorNext(cell, step, budget))
  {
    assert step.CleanupAfterExit? ==> cell.stopped;
    hide ExecutorNext, ExecutorEnabled, LogsConserved, StatusesInOrder, DeliveryOrdered, ResultFirst, StopHandled;
    ExecutorKeepsLogs(cell, step, budget);
    ExecutorKeepsStatuses(cell, step, budget);
    ExecutorKeepsDelivery(cell, step, budget);
    ExecutorKeepsResultFirst(cell, step, budget);
    ExecutorKeepsStop(cell, step, budget);
  }

  lemma PassKeepsCell(cell: Cell, step: PassStep)
    requires CellInvariant(cell) && PassEnabled(cell, step)
    ensures CellInvariant(PassNext(cell, step))
  {
    hide PassNext, PassEnabled, LogsConserved, StatusesInOrder, DeliveryOrdered, ResultFirst, StopHandled;
    PassKeepsLogs(cell, step);
    PassKeepsStatuses(cell, step);
    PassKeepsDelivery(cell, step);
    PassKeepsResultFirst(cell, step);
    PassKeepsStop(cell, step);
  }

  // ----- one step of the world -----

  lemma StepKeepsCells(world: World, step: Step, config: Config)
    requires Invariant(world, config) && Enabled(world, step, config)
    ensures CellsSound(Next(world, step, config))
  {
    hide CellInvariant, ExecutorNext, ExecutorEnabled, PassNext, PassEnabled;
    match step
    case Create(id) =>
      NewCellSound();
    case Execute(id, executor) =>
      ExecutorKeepsCell(world.cells[id], executor, config.logBudget);
    case StartPass(owner) =>
      if owner.Some? {
        EnterSyncKeeps(world.cells[owner.value]);
      }
    case Pick(id) =>
      assert LockRespected(world.lock, id, world.cells[id]);
      if world.cells[id].task.Some? {
        PickKeeps(world.cells[id]);
      }
    case Sync(id, pass) =>
      PassKeepsCell(world.cells[id], pass);
    case EndPass =>
      if world.lock.owner.Some? && world.lock.owner.value in world.cells {
        var id := world.lock.owner.value;
        assert LockRespected(world.lock, id, world.cells[id]);
        LeaveSyncKeeps(world.cells[id]);
      }
    case Crash =>
      forall id | id in world.cells
        ensures CellInvariant(Reload(world.cells[id]))
      {
        ReloadKeeps(world.cells[id]);
      }
  }

  lemma ExecutorLeavesLock(lock: Lock, id: TaskId, cell: Cell, step: ExecutorStep, budget: int)
    requires LockRespected(lock, id, cell) && ExecutorEnabled(cell, step)
    ensures LockRespected(lock, id, ExecutorNext(cell, step, budget))
  {
  }

  lemma PassLeavesLock(lock: Lock, id: TaskId, cell: Cell, step: PassStep)
    requires LockRespected(lock, id, cell) && PassEnabled(cell, step)
    requires lock.Held? && lock.current == Some(id)
    ensures LockRespected(lock, id, PassNext(cell, step))
  {
    assert PassNext(cell, step).executor == cell.executor;
  }

  lemma StepKeepsLock(world: World, step: Step, config: Config)
    requires Invariant(world, config) && Enabled(world, step, config)
    ensures LockSound(Next(world, step, config))
  {
    hide CellInvariant, ExecutorNext, ExecutorEnabled, PassNext, PassEnabled;
    match step
    case Execute(id, executor) =>
      ExecutorLeavesLock(world.lock, id, world.cells[id], executor, config.logBudget);
    case Sync(id, pass) =>
      PassLeavesLock(world.lock, id, world.cells[id], pass);
    case _ =>
  }

  lemma ExecutorStaysOut(cell: Cell, step: ExecutorStep, budget: int)
    requires ExecutorEnabled(cell, step) && !step.Launch?
    ensures ExecutorNext(cell, step, budget).executor.Some? ==> cell.executor.Some?
  {
  }

  lemma PassLeavesExecutor(cell: Cell, step: PassStep)
    requires PassEnabled(cell, step)
    ensures PassNext(cell, step).executor == cell.executor
  {
  }

  lemma StepKeepsCapacity(world: World, step: Step, config: Config)
    requires |Running(world)| <= config.maxConcurrent && Enabled(world, step, config)
    ensures |Running(Next(world, step, config))| <= config.maxConcurrent
  {
    hide ExecutorNext, ExecutorEnabled, PassNext, PassEnabled;
    var next := Next(world, step, config);
    if step.Execute? && step.executor.Launch? {
      assert Running(next) <= Running(world) + {step.id};
      SubsetSize(Running(next), Running(world) + {step.id});
    } else {
      if step.Execute? {
        ExecutorStaysOut(world.cells[step.id], step.executor, config.logBudget);
      } else if step.Sync? {
        PassLeavesExecutor(world.cells[step.id], step.pass);
      }
      assert Running(next) <= Running(world);
      SubsetSize(Running(next), Running(world));
    }
  }

  lemma StepKeepsInvariant(world: World, step: Step, config: Config)
    requires Invariant(world, config) && Enabled(world, step, config)
    ensures Invariant(Next(world, step, config), config)
  {
    hide Next, Enabled, CellInvariant;
    StepKeepsCells(world, step, config);
    StepKeepsLock(world, step, config);
    StepKeepsCapacity(world, step, config);
  }

  /** Every state of every run keeps every invariant. */
  lemma {:induction false} RunKeepsInvariant(worlds: seq<World>, steps: seq<Step>, config: Config, i: nat)
    requires IsRun(worlds, steps, config) && i < |worlds|
    ensures Invariant(worlds[i], config)
    decreases i
  {
    hide Next, Enabled, CellInvariant;
    if i == 0 {
      assert Running(Boot) == {};
    } else {
      RunKeepsInvariant(worlds, steps, config, i - 1);
      StepKeepsInvariant(worlds[i - 1], steps[i - 1], config);
    }
  }

  lemma RunKeepsCell(worlds: seq<World>, steps: seq<Step>, config: Config, i: nat, id: TaskId)
    requires IsRun(worlds, steps, config) && i < |worlds| && id in worlds[i].cells
    ensures CellInvariant(worlds[i].cells[id])
  {
    hide Next, Enabled, CellInvariant;
    RunKeepsInvariant(worlds, steps, config, i);
  }
}
