/**
 The record of a task and Core's lists against the history of the run: what executors wrote
 and reported, read off the steps alone (box/gateway/gateway.go:380-568, 632-670, 928-964).
 */
module GatewayHistory {
  import opened Common
  import opened Spool
  import opened LogBudget
  import opened GatewayProtocol
  import opened GatewayDelivery
  import opened GatewayRuns
  import opened GatewayTheorems

  /** The executor step of this task that step `j` is, if it found a record. */
  ghost predicate Does(worlds: seq<World>, steps: seq<Step>, id: TaskId, j: nat)
    requires j < |steps| && |worlds| == |steps| + 1
  {
    steps[j].Execute? && steps[j].id == id && id in worlds[j].cells && worlds[j].cells[id].task.Some?
  }

  // ----- logs -----

  /** Everything the runtime of this task wrote in the first `i` steps while there was a record. */
  ghost function WritesOf(worlds: seq<World>, steps: seq<Step>, id: TaskId, i: nat): seq<Written>
    requires i <= |steps| && |worlds| == |steps| + 1
  {
    if i == 0 then []
    else
      var earlier := WritesOf(worlds, steps, id, i - 1);
      if Does(worlds, steps, id, i - 1) && steps[i - 1].executor.WriteLog? then
        earlier + [Written(steps[i - 1].executor.stream, steps[i - 1].executor.contents)]
      else earlier
  }

  /** What was accepted is what the budget takes of the writes, and the counters of the record agree. */
  ghost predicate LogsTell(cell: Cell, writes: seq<Written>, budget: int) {
    && Takes(cell.accepted, writes, budget)
    && (cell.task.Some? ==> Counts(cell.task.value, writes, |cell.accepted|))
  }

  /** Nothing that the log counters depend on has changed, or the record is gone. */
  predicate SameCounters(cell: Cell, next: Cell) {
    && next.accepted == cell.accepted
    && (next.task.Some? ==>
          && cell.task.Some?
          && next.task.value.nextSequence == cell.task.value.nextSequence
          && next.task.value.logBytes == cell.task.value.logBytes
          && next.task.value.logsTruncated == cell.task.value.logsTruncated)
  }

  lemma SameCountersTell(cell: Cell, next: Cell, writes: seq<Written>, budget: int)
    requires LogsTell(cell, writes, budget) && SameCounters(cell, next)
    ensures LogsTell(next, writes, budget)
  {
    hide Takes, KeptAt;
  }

  lemma ExecutorKeepsCounters(cell: Cell, step: ExecutorStep, budget: int)
    requires ExecutorEnabled(cell, step) && !(step.WriteLog? && cell.task.Some?)
    ensures SameCounters(cell, ExecutorNext(cell, step, budget))
  {
  }

  lemma PassKeepsCounters(cell: Cell, step: PassStep)
    requires PassEnabled(cell, step)
    ensures SameCounters(cell, PassNext(cell, step))
  {
    hide Above, NextBatch, Absorb;
  }

  lemma WriteTells(cell: Cell, step: ExecutorStep, writes: seq<Written>, budget: int)
    requires LogsTell(cell, writes, budget) && ExecutorEnabled(cell, step) && step.WriteLog? && cell.task.Some?
    ensures LogsTell(ExecutorNext(cell, step, budget), writes + [Written(step.stream, step.contents)], budget)
  {
    var write := Written(step.stream, step.contents);
    WriteTakes(cell.task.value, cell.accepted, writes, budget, write);
    WriteEffect(cell.task.value, budget, write);
    assert Fits(cell.task.value, budget, write) <==> Accepts(cell.task.value, budget, step.contents);
    hide Takes, Counts, Spool.Write, Accepts, EntryFor, EntryOf, Fits;
  }

  lemma NothingWritten(budget: int)
    ensures LogsTell(NewCell, [], budget)
  {
    assert KeptAt([], 0) == 0;
  }

  /** A step of the world as one task sees it. */
  lemma StepTells(world: World, step: Step, config: Config, id: TaskId, writes: seq<Written>)
    requires Enabled(world, step, config)
    requires if id in world.cells then LogsTell(world.cells[id], writes, config.logBudget) else writes == []
    ensures
      var wrote := step.Execute? && step.id == id && step.executor.WriteLog? && world.cells[id].task.Some?;
      var writes' := if wrote then writes + [Written(step.executor.stream, step.executor.contents)] else writes;
      var next := Next(world, step, config);
      if id in next.cells then LogsTell(next.cells[id], writes', config.logBudget) else writes' == []
  {
    hide ExecutorNext, ExecutorEnabled, PassNext, PassEnabled, LogsTell;
    if id !in world.cells {
      NothingWritten(config.logBudget);
      return;
    }
    var cell := world.cells[id];
    match step
    case Execute(other, executor) =>
      if other == id {
        if executor.WriteLog? && cell.task.Some? {
          WriteTells(cell, executor, writes, config.logBudget);
        } else {
          ExecutorKeepsCounters(cell, executor, config.logBudget);
          SameCountersTell(cell, ExecutorNext(cell, executor, config.logBudget), writes, config.logBudget);
        }
      }
    case Sync(other, pass) =>
      if other == id {
        PassKeepsCounters(cell, pass);
        SameCountersTell(cell, PassNext(cell, pass), writes, config.logBudget);
      }
    case _ =>
      SameCountersTell(cell, Next(world, step, config).cells[id], writes, config.logBudget);
  }

  lemma {:induction false} WritesTell(worlds: seq<World>, steps: seq<Step>, config: Config, i: nat, id: TaskId)
    requires IsRun(worlds, steps, config) && i < |worlds|
    ensures
      var writes := WritesOf(worlds, steps, id, i);
      if id in worlds[i].cells then LogsTell(worlds[i].cells[id], writes, config.logBudget) else writes == []
    decreases i
  {
    hide Next, Enabled, LogsTell;
    if i > 0 {
      WritesTell(worlds, steps, config, i - 1, id);
      StepTells(worlds[i - 1], steps[i - 1], config, id, WritesOf(worlds, steps, id, i - 1));
      EnabledNeedsCell(worlds[i - 1], steps[i - 1], config);
    }
  }

  lemma EnabledNeedsCell(world: World, step: Step, config: Config)
    requires Enabled(world, step, config)
    ensures step.Execute? ==> step.id in world.cells
  {
  }

  /**
   What Core receives is what was written: at every moment of every run, with crashes, lost
   answers and restarts, entry k of Core's list has sequence k + 1 and carries the stream and
   the first 20,000 bytes of the write with index k. Of all writes exactly the longest prefix
   that fits the budget is ever accepted; the entries that Core does not have yet are in the
   spool as long as there is a record.
   */
  lemma CoreReceivesWrites(worlds: seq<World>, steps: seq<Step>, config: Config, i: nat, id: TaskId)
    requires IsRun(worlds, steps, config) && i < |worlds| && id in worlds[i].cells
    ensures
      var cell, writes := worlds[i].cells[id], WritesOf(worlds, steps, id, i);
      && LongestFit(writes, config.logBudget, |cell.accepted|)
      && (forall k :: 0 <= k < |cell.accepted| ==> Carries(cell.accepted[k], k, writes[k]))
      && |cell.core.received| <= |cell.accepted|
      && (forall k :: 0 <= k < |cell.core.received| ==> Carries(cell.core.received[k], k, writes[k]))
      && (cell.task.Some? ==>
            && Counts(cell.task.value, writes, |cell.accepted|)
            && forall k :: |cell.core.received| <= k < |cell.accepted| ==> cell.accepted[k] in cell.task.value.logs)
  {
    hide Next, Enabled;
    WritesTell(worlds, steps, config, i, id);
    RunKeepsCell(worlds, steps, config, i, id);
    var cell := worlds[i].cells[id];
    assert LogsConserved(cell);
    UnreceivedIsSpooled(cell);
    hide *;
    assert LogsTell(cell, WritesOf(worlds, steps, id, i), config.logBudget);
  }

  lemma UnreceivedIsSpooled(cell: Cell)
    requires LogsConserved(cell)
    ensures cell.core.received <= cell.accepted
    ensures cell.task.Some? ==>
      forall k :: |cell.core.received| <= k < |cell.accepted| ==> cell.accepted[k] in cell.task.value.logs
  {
    if cell.task.Some? {
      var logs, from := cell.task.value.logs, |cell.accepted| - |cell.task.value.logs|;
      assert Spooled(SpoolOf(cell.task.value), cell.accepted);
      forall k | |cell.core.received| <= k < |cell.accepted|
        ensures cell.accepted[k] in logs
      {
        assert logs[k - from] == cell.accepted[k];
      }
    }
  }

  // ----- statuses and flags -----

  /** The status that this executor step reports, if any. */
  function Reports(step: ExecutorStep): Option<Callback> {
    match step
    case BeginFresh => Some(Callback("preparing", None, None))
    case QueueRunningStatus => Some(Callback("running", None, None))
    case RunSucceeds(uploading) => Some(uploading)
    case BeginInvalid(failure) => Some(failure)
    case PrepareFails(failure) => Some(failure)
    case RunEnds(failure) => Some(failure)
    case BuildFails(failure) => Some(failure)
    case _ => None
  }

  /** Every status reported for this task in the first `i` steps while there was a record. */
  ghost function ReportsOf(worlds: seq<World>, steps: seq<Step>, id: TaskId, i: nat): seq<Callback>
    requires i <= |steps| && |worlds| == |steps| + 1
  {
    if i == 0 then []
    else
      var earlier := ReportsOf(worlds, steps, id, i - 1);
      if Does(worlds, steps, id, i - 1) && Reports(steps[i - 1].executor).Some? then
        earlier + [Reports(steps[i - 1].executor).value]
      else earlier
  }

  predicate Fails(step: ExecutorStep) {
    step.BeginInvalid? || step.PrepareFails? || step.RunEnds? || step.BuildFails?
  }

  /** What a record remembers of the run, apart from logs and statuses. */
  datatype Memory = Memory(started: bool, failed: bool, built: bool, uploaded: bool, phase: string)

  const FRESH := Memory(false, false, false, false, "preparing")

  function Remember(memory: Memory, step: Step): Memory {
    match step
    case Execute(_, executor) =>
      var next := memory.(started := memory.started || executor.MarkStarted?,
                          failed := memory.failed || Fails(executor),
                          built := memory.built || executor.BuildSucceeds?);
      if executor.BuildSucceeds? then next.(phase := "uploading")
      else if Reports(executor).Some? then next.(phase := Reports(executor).value.status)
      else next
    case Sync(_, UploadSucceeds) => memory.(uploaded := true)
    case _ => memory
  }

  /** The memory of the first `i` steps; only steps of this task that found a record count. */
  ghost function MemoryOf(worlds: seq<World>, steps: seq<Step>, id: TaskId, i: nat): Memory
    requires i <= |steps| && |worlds| == |steps| + 1
  {
    if i == 0 then FRESH
    else
      var memory, step := MemoryOf(worlds, steps, id, i - 1), steps[i - 1];
      if (step.Execute? || step.Sync?) && step.id == id && id in worlds[i - 1].cells
         && worlds[i - 1].cells[id].task.Some? then Remember(memory, step)
      else memory
  }

  predicate Remembers(task: TaskState, memory: Memory) {
    && task.runtimeStarted == memory.started
    && task.runtimeFinished == (memory.failed || memory.built)
    && task.terminalOnly == memory.failed
    && task.bundleReady == task.resultPending == memory.built
    && task.artifact == memory.uploaded
    && task.phase == memory.phase
  }

  predicate HistoryTold(cell: Cell, reports: seq<Callback>, memory: Memory) {
    && cell.queued == reports
    && (cell.task.Some? ==> Remembers(cell.task.value, memory))
  }

  lemma ExecutorTells(cell: Cell, step: ExecutorStep, budget: int, id: TaskId, reports: seq<Callback>, memory: Memory)
    requires HistoryTold(cell, reports, memory) && ExecutorEnabled(cell, step)
    ensures
      HistoryTold(ExecutorNext(cell, step, budget),
                  if cell.task.Some? && Reports(step).Some? then reports + [Reports(step).value] else reports,
                  if cell.task.Some? then Remember(memory, Execute(id, step)) else memory)
  {
    if Reports(step).Some? {
      ReportTells(cell, step, budget, id, reports, memory);
    } else if step.WriteLog? {
      WritingTells(cell, step, budget, id, reports, memory);
    } else {
      QuietTells(cell, step, budget, id, reports, memory);
    }
    hide *;
  }

  lemma WritingTells(cell: Cell, step: ExecutorStep, budget: int, id: TaskId, reports: seq<Callback>, memory: Memory)
    requires HistoryTold(cell, reports, memory) && ExecutorEnabled(cell, step) && step.WriteLog?
    ensures
      HistoryTold(ExecutorNext(cell, step, budget), reports,
                  if cell.task.Some? then Remember(memory, Execute(id, step)) else memory)
  {
    if cell.task.Some? {
      WriteEffect(cell.task.value, budget, Written(step.stream, step.contents));
    }
    hide Spool.Write, Accepts, EntryFor, EntryOf, CapChunk;
  }

  lemma ReportTells(cell: Cell, step: ExecutorStep, budget: int, id: TaskId, reports: seq<Callback>, memory: Memory)
    requires HistoryTold(cell, reports, memory) && ExecutorEnabled(cell, step) && Reports(step).Some?
    ensures
      HistoryTold(ExecutorNext(cell, step, budget),
                  if cell.task.Some? then reports + [Reports(step).value] else reports,
                  if cell.task.Some? then Remember(memory, Execute(id, step)) else memory)
  {
  }

  lemma QuietTells(cell: Cell, step: ExecutorStep, budget: int, id: TaskId, reports: seq<Callback>, memory: Memory)
    requires HistoryTold(cell, reports, memory) && ExecutorEnabled(cell, step) && Reports(step).None? && !step.WriteLog?
    ensures
      HistoryTold(ExecutorNext(cell, step, budget), reports,
                  if cell.task.Some? then Remember(memory, Execute(id, step)) else memory)
  {
    hide Spool.Write, Accepts, EntryFor;
  }

  lemma PassTells(cell: Cell, step: PassStep, id: TaskId, reports: seq<Callback>, memory: Memory)
    requires HistoryTold(cell, reports, memory) && PassEnabled(cell, step)
    ensures HistoryTold(PassNext(cell, step), reports,
                        if cell.task.Some? then Remember(memory, Sync(id, step)) else memory)
  {
    hide Above, NextBatch, Absorb;
  }

  lemma StepTold(world: World, step: Step, config: Config, id: TaskId, reports: seq<Callback>, memory: Memory)
    requires Enabled(world, step, config)
    requires if id in world.cells then HistoryTold(world.cells[id], reports, memory) else reports == [] && memory == FRESH
    ensures
      var next, own := Next(world, step, config),
                       (step.Execute? || step.Sync?) && step.id == id && world.cells[id].task.Some?;
      var reports' := if own && step.Execute? && Reports(step.executor).Some? then reports + [Reports(step.executor).value]
                      else reports;
      var memory' := if own then Remember(memory, step) else memory;
      if id in next.cells then HistoryTold(next.cells[id], reports', memory') else reports' == [] && memory' == FRESH
  {
    hide ExecutorNext, ExecutorEnabled, PassNext, PassEnabled, Reports, Remember;
    if id in world.cells {
      var cell := world.cells[id];
      if step.Execute? && step.id == id {
        ExecutorTells(cell, step.executor, config.logBudget, id, reports, memory);
      } else if step.Sync? && step.id == id {
        PassTells(cell, step.pass, id, reports, memory);
      }
    }
  }

  lemma {:induction false} HistoryTells(worlds: seq<World>, steps: seq<Step>, config: Config, i: nat, id: TaskId)
    requires IsRun(worlds, steps, config) && i < |worlds|
    ensures
      var reports, memory := ReportsOf(worlds, steps, id, i), MemoryOf(worlds, steps, id, i);
      if id in worlds[i].cells then HistoryTold(worlds[i].cells[id], reports, memory)
      else reports == [] && memory == FRESH
    decreases i
  {
    hide Next, Enabled, HistoryTold, Reports, Remember;
    if i > 0 {
      HistoryTells(worlds, steps, config, i - 1, id);
      StepTold(worlds[i - 1], steps[i - 1], config, id, ReportsOf(worlds, steps, id, i - 1), MemoryOf(worlds, steps, id, i - 1));
      StepNeedsCell(worlds[i - 1], steps[i - 1], config);
    }
  }

  lemma StepNeedsCell(world: World, step: Step, config: Config)
    requires Enabled(world, step, config)
    ensures step.Execute? || step.Sync? ==> step.id in world.cells
  {
  }

  /**
   Core hears what the executors reported: in every run Core's statuses are the reports of
   the steps of `execute`, in order and none skipped, and the record says started, failed,
   built or uploaded exactly if a step of that kind found the record.
   */
  lemma CoreHearsReports(worlds: seq<World>, steps: seq<Step>, config: Config, i: nat, id: TaskId)
    requires IsRun(worlds, steps, config) && i < |worlds| && id in worlds[i].cells
    ensures
      var cell, reports := worlds[i].cells[id], ReportsOf(worlds, steps, id, i);
      && Stutters(cell.core.statuses, reports)
      && cell.popped <= Reached(cell.core.statuses) <= cell.popped + 1
      && (cell.task.Some? ==>
            && cell.popped <= |reports| && cell.task.value.pendingStatuses == reports[cell.popped..]
            && Remembers(cell.task.value, MemoryOf(worlds, steps, id, i)))
  {
    HistoryTells(worlds, steps, config, i, id);
    StatusesInOrderAcrossCrashes(worlds, steps, config, i, id);
    hide Next, Enabled, Stutters, Reached, Remembers, ReportsOf, MemoryOf;
  }
}
