/** What the Gateway promises about every run (box/gateway/gateway.go). */
module GatewayTheorems {
  import opened Common
  import opened Spool
  import opened GatewayProtocol
  import opened GatewayDelivery
  import opened GatewayRuns

  // ----- delivered before deleted -----

  /** Core has taken every status that was ever queued for the task. */
  ghost predicate EveryStatusTaken(cell: Cell) {
    forall k :: 0 <= k < |cell.queued| ==>
      exists i :: 0 <= i < |cell.core.statuses| && cell.core.statuses[i] == Delivery(k, cell.queued[k])
  }

  /** Core has acknowledged every log entry that was ever accepted, and holds exactly those. */
  ghost predicate EveryLogAcknowledged(cell: Cell) {
    && cell.task.Some?
    && cell.task.value.acknowledged == |cell.accepted|
    && cell.core.received == cell.accepted
  }

  predicate Removes(world: World, step: Step, config: Config, id: TaskId)
    requires Enabled(world, step, config)
  {
    && id in world.cells && world.cells[id].task.Some?
    && (id in Next(world, step, config).cells ==> Next(world, step, config).cells[id].task.None?)
  }

  lemma {:induction false} StutterCovers(statuses: seq<Delivery>, queued: seq<Callback>, k: nat)
    requires Stutters(statuses, queued) && k < Reached(statuses)
    ensures exists i :: 0 <= i < |statuses| && statuses[i] == Delivery(k, queued[k])
    decreases |statuses|
  {
    var last := |statuses| - 1;
    if statuses[last].index != k {
      StutterCovers(statuses[..last], queued, k);
      var i :| 0 <= i < last && statuses[..last][i] == Delivery(k, queued[k]);
      assert statuses[i] == Delivery(k, queued[k]);
    } else {
      assert statuses[last] == Delivery(k, queued[k]);
    }
  }

  lemma ExecutorRemoves(cell: Cell, step: ExecutorStep, budget: int)
    requires ExecutorEnabled(cell, step) && cell.task.Some?
    requires ExecutorNext(cell, step, budget).task.None?
    ensures step.CleanupAfterExit? && cell.leaving > 0
  {
  }

  lemma PassRemoves(cell: Cell, step: PassStep)
    requires PassEnabled(cell, step) && cell.task.Some? && PassNext(cell, step).task.None?
    ensures step.RemoveTask? || (step.StopRemoves? && cell.position.StopRemove?)
  {
  }

  lemma UnstoppedOwesNoCleanup(cell: Cell)
    requires CellInvariant(cell) && !cell.stopped
    ensures cell.leaving == 0 && !cell.position.StopRemove?
  {
  }

  /** A task that Core never stopped is removed by the end of a pass and by nothing else. */
  lemma OnlyThePassRemoves(world: World, step: Step, config: Config, id: TaskId)
    requires Invariant(world, config) && Enabled(world, step, config) && id in world.cells
    ensures Removes(world, step, config, id) && !world.cells[id].stopped ==> step == Sync(id, RemoveTask)
  {
    hide CellInvariant, ExecutorNext, PassNext, ExecutorEnabled, PassEnabled;
    if !Removes(world, step, config, id) || world.cells[id].stopped {
      return;
    }
    var cell := world.cells[id];
    UnstoppedOwesNoCleanup(cell);
    match step
    case Execute(other, executor) =>
      if other == id {
        ExecutorRemoves(cell, executor, config.logBudget);
      }
    case Sync(other, pass) =>
      if other == id {
        PassRemoves(cell, pass);
      }
    case _ =>
  }

  lemma RemovalIsComplete(cell: Cell)
    requires CellInvariant(cell) && !cell.stopped && cell.position.Removing?
    ensures EveryStatusTaken(cell)
    ensures cell.position.full <==> EveryLogAcknowledged(cell)
    ensures cell.task.Some? && (cell.task.value.terminalOnly || (cell.core.artifact && cell.core.result))
  {
    forall k | 0 <= k < |cell.queued|
      ensures exists i :: 0 <= i < |cell.core.statuses| && cell.core.statuses[i] == Delivery(k, cell.queued[k])
    {
      StutterCovers(cell.core.statuses, cell.queued, k);
    }
  }

  /**
   Delivered before deleted: in every interleaving, a task that Core keeps
   answering "continue" for is removed only once Core has taken every status ever
   queued, and a successful one only once Core has its artifact and result. Every
   log entry ever accepted is then acknowledged exactly when Core acknowledged the
   last batch of the removing pass in full.
   */
  lemma DeliveredBeforeDeleted(worlds: seq<World>, steps: seq<Step>, config: Config, i: nat, id: TaskId)
    requires IsRun(worlds, steps, config) && i < |steps|
    requires Removes(worlds[i], steps[i], config, id) && !worlds[i].cells[id].stopped
    ensures
      var cell := worlds[i].cells[id];
      && EveryStatusTaken(cell)
      && (cell.task.value.terminalOnly || (cell.core.artifact && cell.core.result))
      && cell.position.Removing?
      && (cell.position.full <==> EveryLogAcknowledged(cell))
  {
    hide CellInvariant, Next, EveryStatusTaken, EveryLogAcknowledged;
    RunKeepsInvariant(worlds, steps, config, i);
    OnlyThePassRemoves(worlds[i], steps[i], config, id);
    RemovalIsComplete(worlds[i].cells[id]);
  }

  /** Core acknowledges this batch through its last sequence. */
  predicate AcksInFull(world: World, step: Step)
  {
    step.Sync? && step.pass.LogsAcknowledged? && step.id in world.cells && world.cells[step.id].position.LogsSent? ==>
      var batch := world.cells[step.id].position.batch;
      batch.firstSequence + |batch.entries| <= step.pass.acceptedThrough + 1
  }

  predicate FullSoFar(cell: Cell) {
    PastLogs(cell.position) ==> cell.position.full
  }

  lemma ExecutorLeavesPosition(cell: Cell, step: ExecutorStep, budget: int)
    requires ExecutorEnabled(cell, step)
    ensures ExecutorNext(cell, step, budget).position == cell.position
  {
  }

  lemma PassKeepsFull(cell: Cell, step: PassStep)
    requires FullSoFar(cell) && PassEnabled(cell, step)
    requires step.LogsAcknowledged? ==>
      cell.position.batch.firstSequence + |cell.position.batch.entries| <= step.acceptedThrough + 1
    ensures FullSoFar(PassNext(cell, step))
  {
  }

  lemma StepKeepsFull(world: World, step: Step, config: Config)
    requires Enabled(world, step, config) && AcksInFull(world, step)
    requires forall id :: id in world.cells ==> FullSoFar(world.cells[id])
    ensures forall id :: id in Next(world, step, config).cells ==> FullSoFar(Next(world, step, config).cells[id])
  {
    hide ExecutorNext, PassNext;
    match step
    case Execute(id, executor) =>
      ExecutorLeavesPosition(world.cells[id], executor, config.logBudget);
    case Sync(id, pass) =>
      PassKeepsFull(world.cells[id], pass);
    case _ =>
  }

  lemma {:induction false} RunKeepsFull(worlds: seq<World>, steps: seq<Step>, config: Config, i: nat)
    requires IsRun(worlds, steps, config) && i < |worlds|
    requires forall j :: 0 <= j < i ==> AcksInFull(worlds[j], steps[j])
    ensures forall id :: id in worlds[i].cells ==> FullSoFar(worlds[i].cells[id])
  {
    hide Next, Enabled, FullSoFar, AcksInFull;
    if i > 0 {
      RunKeepsFull(worlds, steps, config, i - 1);
      StepKeepsFull(worlds[i - 1], steps[i - 1], config);
    }
  }

  /** With a Core that acknowledges every batch through its last sequence, nothing is lost at all. */
  lemma NothingLostWhenCoreAcksInFull(worlds: seq<World>, steps: seq<Step>, config: Config, i: nat, id: TaskId)
    requires IsRun(worlds, steps, config) && i < |steps|
    requires forall j :: 0 <= j < i ==> AcksInFull(worlds[j], steps[j])
    requires Removes(worlds[i], steps[i], config, id) && !worlds[i].cells[id].stopped
    ensures EveryStatusTaken(worlds[i].cells[id]) && EveryLogAcknowledged(worlds[i].cells[id])
  {
    hide Next, AcksInFull, EveryStatusTaken, EveryLogAcknowledged;
    DeliveredBeforeDeleted(worlds, steps, config, i, id);
    RunKeepsFull(worlds, steps, config, i);
  }

  /**
   `execute` dereferences the local record after it queued "uploading"
   (gateway.go:526-530); unless Core stopped the task, the record is there.
   */
  lemma RecordPresentWhileBuilding(worlds: seq<World>, steps: seq<Step>, config: Config, i: nat, id: TaskId)
    requires IsRun(worlds, steps, config) && i < |worlds| && id in worlds[i].cells
    requires AtStage(worlds[i].cells[id], Build) && !worlds[i].cells[id].stopped
    ensures worlds[i].cells[id].task.Some?
  {
    hide Next, Enabled;
    RunKeepsCell(worlds, steps, config, i, id);
  }

  // ----- log conservation -----

  ghost predicate LogsRejoin(cell: Cell) {
    && Numbered(cell.accepted)
    && cell.core.received <= cell.accepted
    && (cell.task.Some? ==>
          var task := cell.task.value;
          && task.nextSequence == |cell.accepted| + 1
          && task.acknowledged <= |cell.core.received|
          && cell.core.received[..task.acknowledged] + Above(task.logs, task.acknowledged) == cell.accepted)
  }

  lemma PrefixRejoins(received: seq<LogEntry>, accepted: seq<LogEntry>, n: nat)
    requires received <= accepted && n <= |received|
    ensures received[..n] + accepted[n..] == accepted
  {
    assert received[..n] == accepted[..n];
  }

  lemma ConservedRejoins(cell: Cell)
    requires LogsConserved(cell)
    ensures LogsRejoin(cell)
  {
    hide Numbered, Above, InFlight;
    if cell.task.Some? {
      UnacknowledgedIsTail(SpoolOf(cell.task.value), cell.accepted);
      PrefixRejoins(cell.core.received, cell.accepted, cell.task.value.acknowledged);
    }
  }

  /**
   What Core acknowledged followed by what the spool holds above the
   acknowledgement is exactly what `write` accepted, numbered from 1 without gap.
   Core's own list is a prefix of it, so nothing is repeated or reordered there.
   */
  lemma LogsNeverLostOrRepeated(worlds: seq<World>, steps: seq<Step>, config: Config, i: nat, id: TaskId)
    requires IsRun(worlds, steps, config) && i < |worlds| && id in worlds[i].cells
    ensures LogsRejoin(worlds[i].cells[id])
  {
    hide Next, Enabled, Numbered;
    RunKeepsCell(worlds, steps, config, i, id);
    ConservedRejoins(worlds[i].cells[id]);
  }

  // ----- the status queue across crashes -----

  function Callbacks(statuses: seq<Delivery>): (callbacks: seq<Callback>)
    ensures |callbacks| == |statuses|
    ensures forall i :: 0 <= i < |callbacks| ==> callbacks[i] == statuses[i].callback
  {
    if statuses == [] then [] else Callbacks(statuses[..|statuses| - 1]) + [statuses[|statuses| - 1].callback]
  }

  lemma {:induction false} StutterWithoutRepeats(statuses: seq<Delivery>, queued: seq<Callback>)
    requires Stutters(statuses, queued) && |statuses| <= Reached(statuses)
    ensures |statuses| == Reached(statuses) && Callbacks(statuses) == queued[..|statuses|]
  {
    if statuses != [] {
      var last := |statuses| - 1;
      var before := statuses[..last];
      assert Stutters(before, queued) && Reached(before) >= Reached(statuses) - 1;
      StutterWithoutRepeats(before, queued);
      assert statuses[last].index == last && statuses[last].callback == queued[last];
      hide Stutters;
      assert queued[..|statuses|] == queued[..last] + [queued[last]];
    }
  }

  ghost predicate StatusesAtCore(cell: Cell) {
    var statuses := cell.core.statuses;
    && Stutters(statuses, cell.queued)
    && cell.popped <= Reached(statuses) <= cell.popped + 1
    && |statuses| <= Reached(statuses) + cell.lost
    && (cell.task.Some? ==>
          cell.popped <= |cell.queued| && cell.task.value.pendingStatuses == cell.queued[cell.popped..])
    && (cell.task.Some? && cell.lost == 0 && !AnswerDue(cell) ==>
          Callbacks(statuses) + cell.task.value.pendingStatuses == cell.queued)
  }

  lemma OrderReachesCore(cell: Cell)
    requires StatusesInOrder(cell)
    ensures StatusesAtCore(cell)
  {
    if cell.lost == 0 {
      StutterWithoutRepeats(cell.core.statuses, cell.queued);
      hide Stutters;
      if cell.task.Some? && !AnswerDue(cell) {
        assert cell.queued[..cell.popped] + cell.queued[cell.popped..] == cell.queued;
      }
    }
  }

  /**
   In every run, with crashes and lost answers anywhere: Core sees the queued
   statuses in queue order, skips none, and repeats one only for an answer that
   was lost after Core had taken it. What is left in the queue is what Core has
   not confirmed, so a reload resends exactly the persisted head.
   */
  lemma StatusesInOrderAcrossCrashes(worlds: seq<World>, steps: seq<Step>, config: Config, i: nat, id: TaskId)
    requires IsRun(worlds, steps, config) && i < |worlds| && id in worlds[i].cells
    ensures StatusesAtCore(worlds[i].cells[id])
  {
    hide Next, Enabled, StatusesAtCore;
    RunKeepsCell(worlds, steps, config, i, id);
    OrderReachesCore(worlds[i].cells[id]);
  }

  // ----- the stop handshake -----

  /** No executor, no owed cleanup and no pass is at work on the task any more. */
  predicate Settled(cell: Cell) {
    cell.executor.None? && cell.leaving == 0 && cell.position.Idle?
  }

  /**
   For every interleaving of `applyStopAction`, `attachRuntime` and the
   executor's exit: once all have finished, the stopped task's local state is
   gone and every runtime attached to a stopped control was told to cancel.
   */
  lemma StopHandshake(worlds: seq<World>, steps: seq<Step>, config: Config, i: nat, id: TaskId)
    requires IsRun(worlds, steps, config) && i < |worlds| && id in worlds[i].cells
    requires Settled(worlds[i].cells[id])
    ensures worlds[i].cells[id].stopping ==> worlds[i].cells[id].task.None?
    ensures forall control :: control in worlds[i].cells[id].controls && control.stopRequested && control.attached ==>
      control.told
  {
    hide Next, Enabled, LogsConserved, StatusesInOrder, DeliveryOrdered;
    RunKeepsCell(worlds, steps, config, i, id);
  }

  /** At most `MaxConcurrent` controls exist at any time. */
  lemma ControlsBounded(worlds: seq<World>, steps: seq<Step>, config: Config, i: nat)
    requires IsRun(worlds, steps, config) && i < |worlds|
    ensures |Running(worlds[i])| <= config.maxConcurrent
  {
    hide Next, Enabled;
    RunKeepsInvariant(worlds, steps, config, i);
  }
}
