/**
 Stopped tasks and the record that `execute` relies on: it dereferences the local record
 after it queued "uploading" (box/gateway/gateway.go:525-530, 661-686, 859-912).
 */
module GatewayStops {
  import opened Common
  import opened Spool
  import opened GatewayProtocol

  /** Stopped or not: a finished runtime is final, and a task with a live executor is not finished. */
  predicate Orderly(cell: Cell) {
    cell.task.Some? ==>
      && (cell.task.value.terminalOnly || cell.task.value.resultPending ==> cell.task.value.runtimeFinished)
      && (cell.executor.Some? && cell.executor.value.pc.stage != Leave ==> !cell.task.value.runtimeFinished)
      && (cell.position.Uploading? || cell.position.Reporting? || cell.position.Removing? ==>
            cell.task.value.runtimeFinished)
  }

  lemma WriteKeepsFlags(task: TaskState, budget: int, stream: string, contents: Bytes)
    ensures
      var next := Write(task, budget, stream, contents);
      && next.runtimeFinished == task.runtimeFinished
      && next.terminalOnly == task.terminalOnly && next.resultPending == task.resultPending
  {
  }

  lemma LogKeepsOrderly(cell: Cell, stream: string, contents: Bytes, budget: int)
    requires Orderly(cell) && ExecutorEnabled(cell, WriteLog(stream, contents))
    ensures Orderly(ExecutorNext(cell, WriteLog(stream, contents), budget))
  {
    if cell.task.Some? {
      WriteKeepsFlags(cell.task.value, budget, stream, contents);
    }
    hide Write, Accepts, EntryFor, CapChunk;
  }

  lemma ExecutorKeepsOrderly(cell: Cell, step: ExecutorStep, budget: int)
    requires Orderly(cell) && ExecutorEnabled(cell, step)
    ensures Orderly(ExecutorNext(cell, step, budget))
  {
    hide Write, Accepts, EntryFor, CapChunk;
    if step.WriteLog? {
      hide ExecutorNext, Orderly;
      LogKeepsOrderly(cell, step.stream, step.contents, budget);
    } else if step.AttachRuntime? || step.CancelAttached? || step.Exit? {
      ControlKeepsOrderly(cell, step, budget);
    } else {
      hide SetControl;
    }
  }

  lemma ControlKeepsOrderly(cell: Cell, step: ExecutorStep, budget: int)
    requires Orderly(cell) && ExecutorEnabled(cell, step) && (step.AttachRuntime? || step.CancelAttached? || step.Exit?)
    ensures Orderly(ExecutorNext(cell, step, budget))
  {
    hide Write, Accepts, EntryFor, CapChunk, QueueIn, TerminateIn;
  }

  lemma PassKeepsOrderly(cell: Cell, step: PassStep)
    requires Orderly(cell) && PassEnabled(cell, step)
    ensures Orderly(PassNext(cell, step))
  {
    hide Above, NextEntries, NextBatch, Absorb;
  }

  lemma StepKeepsOrderly(world: World, step: Step, config: Config, id: TaskId)
    requires Enabled(world, step, config)
    requires id in world.cells ==> Orderly(world.cells[id])
    requires id in Next(world, step, config).cells
    ensures Orderly(Next(world, step, config).cells[id])
  {
    hide ExecutorNext, ExecutorEnabled, PassNext, PassEnabled;
    match step
    case Execute(other, executor) =>
      if other == id {
        ExecutorKeepsOrderly(world.cells[id], executor, config.logBudget);
      }
    case Sync(other, pass) =>
      if other == id {
        PassKeepsOrderly(world.cells[id], pass);
      }
    case _ =>
  }

  lemma {:induction false} RunKeepsOrderly(worlds: seq<World>, steps: seq<Step>, config: Config, i: nat, id: TaskId)
    requires IsRun(worlds, steps, config) && i < |worlds| && id in worlds[i].cells
    ensures Orderly(worlds[i].cells[id])
    decreases i
  {
    hide Next, Enabled, Orderly;
    if i > 0 {
      if id in worlds[i - 1].cells {
        RunKeepsOrderly(worlds, steps, config, i - 1, id);
      }
      StepKeepsOrderly(worlds[i - 1], steps[i - 1], config, id);
    }
  }

  // ----- one executor, from its launch on -----

  /** The executor that is at work at `i` was launched by step `launch`. */
  ghost predicate RunsSince(worlds: seq<World>, steps: seq<Step>, launch: nat, i: nat, id: TaskId)
    requires launch < |steps| && i < |worlds|
  {
    && launch < i && steps[launch] == Execute(id, Launch)
    && forall j :: launch < j <= i ==> id in worlds[j].cells && worlds[j].cells[id].executor.Some?
  }

  lemma AppearsByLaunch(world: World, step: Step, config: Config, id: TaskId)
    requires Enabled(world, step, config)
    requires id in world.cells ==> world.cells[id].executor.None?
    requires id in Next(world, step, config).cells && Next(world, step, config).cells[id].executor.Some?
    ensures step == Execute(id, Launch)
  {
    hide PassEnabled, NextBatch, Absorb, LogAck, ResumeAck, Write, Accepts;
  }

  /** Every executor has a launch. */
  lemma {:induction false} EveryExecutorWasLaunched(worlds: seq<World>, steps: seq<Step>, config: Config, i: nat, id: TaskId)
    returns (launch: nat)
    requires IsRun(worlds, steps, config) && i < |worlds|
    requires id in worlds[i].cells && worlds[i].cells[id].executor.Some?
    ensures launch < |steps| && RunsSince(worlds, steps, launch, i, id)
    decreases i
  {
    hide Next, Enabled;
    if id in worlds[i - 1].cells && worlds[i - 1].cells[id].executor.Some? {
      launch := EveryExecutorWasLaunched(worlds, steps, config, i - 1, id);
    } else {
      launch := i - 1;
      AppearsByLaunch(worlds[i - 1], steps[i - 1], config, id);
    }
  }

  /** A stop takes the record away at step `j`: at once, or as the cleanup that an executor owed. */
  predicate StopTakes(worlds: seq<World>, steps: seq<Step>, j: nat, id: TaskId)
    requires j < |steps| && |worlds| == |steps| + 1
  {
    && (steps[j] == Sync(id, StopRemoves) || steps[j] == Execute(id, CleanupAfterExit))
    && id in worlds[j].cells && worlds[j].cells[id].task.Some?
  }

  ghost predicate TakenSince(worlds: seq<World>, steps: seq<Step>, launch: nat, i: nat, id: TaskId)
    requires i <= |steps| && |worlds| == |steps| + 1
  {
    exists j: nat :: launch < j < i && StopTakes(worlds, steps, j, id)
  }

  /** The executor relies on the record: it has begun and has not decided to leave. */
  predicate Relies(cell: Cell) {
    cell.executor.Some? && cell.executor.value.pc.stage !in {Begin, Leave}
  }

  lemma ExecutorLosesRecord(cell: Cell, step: ExecutorStep, budget: int)
    requires ExecutorEnabled(cell, step) && cell.executor.Some?
    ensures
      var next := ExecutorNext(cell, step, budget);
      && (cell.task.None? || step.CleanupAfterExit? ==> next.task.None?)
      && (cell.task.Some? && next.task.None? ==> step.CleanupAfterExit?)
      && (Relies(next) && !Relies(cell) ==> next.task.Some?)
  {
    hide Accepts, EntryFor, CapChunk;
  }

  lemma PassLosesRecord(cell: Cell, step: PassStep)
    requires PassEnabled(cell, step) && Orderly(cell)
    ensures
      var next := PassNext(cell, step);
      && next.executor == cell.executor
      && (cell.task.None? || step.StopRemoves? ==> next.task.None?)
      && (cell.task.Some? && next.task.None? && Relies(cell) ==> step.StopRemoves?)
  {
    hide Above, NextEntries, NextBatch, Absorb, LogAck, ResumeAck, PopStatus;
  }

  lemma StepLosesRecord(world: World, step: Step, config: Config, id: TaskId)
    requires Enabled(world, step, config) && id in world.cells && Orderly(world.cells[id])
    requires id in Next(world, step, config).cells
    requires world.cells[id].executor.Some? && Next(world, step, config).cells[id].executor.Some?
    ensures
      var cell, next := world.cells[id], Next(world, step, config).cells[id];
      var stop := step == Sync(id, StopRemoves) || step == Execute(id, CleanupAfterExit);
      && (cell.task.None? || stop ==> next.task.None?)
      && (cell.task.Some? && next.task.None? && Relies(cell) ==> stop)
      && (Relies(next) && !Relies(cell) ==> next.task.Some?)
  {
    hide ExecutorNext, ExecutorEnabled, PassNext, PassEnabled, Orderly;
    match step
    case Execute(other, executor) =>
      if other == id {
        ExecutorLosesRecord(world.cells[id], executor, config.logBudget);
      }
    case Sync(other, pass) =>
      if other == id {
        PassLosesRecord(world.cells[id], pass);
      }
    case _ =>
  }

  lemma {:induction false} RecordSinceLaunch(worlds: seq<World>, steps: seq<Step>, config: Config,
                                             launch: nat, i: nat, id: TaskId)
    requires IsRun(worlds, steps, config) && launch < |steps| && i < |worlds|
    requires RunsSince(worlds, steps, launch, i, id)
    ensures TakenSince(worlds, steps, launch, i, id) ==> worlds[i].cells[id].task.None?
    ensures Relies(worlds[i].cells[id]) && worlds[i].cells[id].task.None? ==> TakenSince(worlds, steps, launch, i, id)
    decreases i
  {
    hide Next, Enabled, Relies, Orderly;
    if launch + 1 < i {
      RecordSinceLaunch(worlds, steps, config, launch, i - 1, id);
      RunKeepsOrderly(worlds, steps, config, i - 1, id);
      assert worlds[i] == Next(worlds[i - 1], steps[i - 1], config);
      StepLosesRecord(worlds[i - 1], steps[i - 1], config, id);
      if TakenSince(worlds, steps, launch, i - 1, id) {
        var j: nat :| launch < j < i - 1 && StopTakes(worlds, steps, j, id);
        assert TakenSince(worlds, steps, launch, i, id);
      }
      if worlds[i - 1].cells[id].task.Some? && worlds[i].cells[id].task.None? && Relies(worlds[i - 1].cells[id]) {
        assert StopTakes(worlds, steps, i - 1, id);
      }
    } else {
      JustLaunched(worlds[launch], config, id);
    }
  }

  lemma JustLaunched(world: World, config: Config, id: TaskId)
    requires Enabled(world, Execute(id, Launch), config)
    ensures !Relies(Next(world, Execute(id, Launch), config).cells[id])
  {
  }

  /**
   The record is missing when `execute` dereferences it if and only if, since this executor
   was launched, a stop that had found no control removed it or an earlier executor's owed
   cleanup did.
   */
  lemma RecordMissingExactly(worlds: seq<World>, steps: seq<Step>, config: Config, launch: nat, i: nat, id: TaskId)
    requires IsRun(worlds, steps, config) && launch < |steps| && i < |worlds|
    requires RunsSince(worlds, steps, launch, i, id) && AtStage(worlds[i].cells[id], Build)
    ensures worlds[i].cells[id].task.None? <==> TakenSince(worlds, steps, launch, i, id)
  {
    hide Next, Enabled;
    RecordSinceLaunch(worlds, steps, config, launch, i, id);
  }

  // ----- which stops can take the record of a live executor -----

  /** A stop found no control and is about to remove, or an executor that was stopped still owes its cleanup. */
  predicate RemovalDue(cell: Cell) {
    cell.position.StopRemove? || cell.leaving > 0
  }

  lemma ExecutorAddsNoRemoval(cell: Cell, step: ExecutorStep, budget: int)
    requires ExecutorEnabled(cell, step) && !RemovalDue(cell) && ExecutorNext(cell, step, budget).executor.Some?
    ensures !RemovalDue(ExecutorNext(cell, step, budget))
  {
    hide Accepts, EntryFor, CapChunk, Write;
  }

  lemma PassAddsNoRemoval(cell: Cell, step: PassStep)
    requires PassEnabled(cell, step) && !RemovalDue(cell) && cell.executor.Some?
    ensures !RemovalDue(PassNext(cell, step)) && !step.StopRemoves?
  {
    hide Above, NextEntries, NextBatch, Absorb, LogAck, ResumeAck;
  }

  lemma StepAddsNoRemoval(world: World, step: Step, config: Config, id: TaskId)
    requires Enabled(world, step, config) && id in world.cells && !RemovalDue(world.cells[id])
    requires id in Next(world, step, config).cells && Next(world, step, config).cells[id].executor.Some?
    requires world.cells[id].executor.Some? || step == Execute(id, Launch)
    ensures !RemovalDue(Next(world, step, config).cells[id])
    ensures step != Sync(id, StopRemoves) && step != Execute(id, CleanupAfterExit)
  {
    hide ExecutorNext, PassNext, PassEnabled;
    match step
    case Execute(other, executor) =>
      if other == id {
        ExecutorAddsNoRemoval(world.cells[id], executor, config.logBudget);
      }
    case Sync(other, pass) =>
      if other == id {
        PassAddsNoRemoval(world.cells[id], pass);
      }
    case _ =>
  }

  lemma {:induction false} NoRemovalSinceLaunch(worlds: seq<World>, steps: seq<Step>, config: Config,
                                                launch: nat, i: nat, id: TaskId)
    requires IsRun(worlds, steps, config) && launch < |steps| && i < |worlds|
    requires RunsSince(worlds, steps, launch, i, id) && id in worlds[launch].cells && !RemovalDue(worlds[launch].cells[id])
    ensures !RemovalDue(worlds[i].cells[id]) && !TakenSince(worlds, steps, launch, i, id)
    decreases i
  {
    hide Next, Enabled, RemovalDue;
    if launch + 1 < i {
      NoRemovalSinceLaunch(worlds, steps, config, launch, i - 1, id);
    }
    assert worlds[i] == Next(worlds[i - 1], steps[i - 1], config);
    StepAddsNoRemoval(worlds[i - 1], steps[i - 1], config, id);
  }

  /**
   Stops that meet this executor's own control are harmless: if no removal was due when it was
   launched, its record is there at every stage that relies on it, however often Core stops
   the task since.
   */
  lemma OwnStopsKeepRecord(worlds: seq<World>, steps: seq<Step>, config: Config, launch: nat, i: nat, id: TaskId)
    requires IsRun(worlds, steps, config) && launch < |steps| && i < |worlds|
    requires RunsSince(worlds, steps, launch, i, id) && id in worlds[launch].cells && !RemovalDue(worlds[launch].cells[id])
    requires Relies(worlds[i].cells[id])
    ensures worlds[i].cells[id].task.Some?
  {
    hide Next, Enabled, RemovalDue, Relies;
    RecordSinceLaunch(worlds, steps, config, launch, i, id);
    NoRemovalSinceLaunch(worlds, steps, config, launch, i, id);
  }
}
