/**
 One pass of the Gateway can always be finished: if Core answers every call, the pass delivers
 everything there is and removes the task exactly if it is finished
 (box/gateway/gateway.go:661-857).
 */
module GatewayProgress {
  import opened Common
  import opened Spool
  import opened GatewayProtocol
  import opened GatewayDelivery
  import opened GatewayRuns
  import opened GatewayHistory
  import GatewayObject

  /** These steps of one pass lead from one cell to the other. */
  ghost predicate Passes(cell: Cell, steps: seq<PassStep>, after: Cell)
    decreases |steps|
  {
    if steps == [] then after == cell
    else PassEnabled(cell, steps[0]) && Passes(PassNext(cell, steps[0]), steps[1..], after)
  }

  /** Core was reached and answered as asked: neither a failed call nor a stop. */
  predicate Answered(step: PassStep) {
    && !step.ResumeFails? && !step.StatusFails? && !step.LogsFail? && !step.UploadFails? && !step.ResultFails?
    && !step.ResumeStops? && !step.StopCancelled? && !step.StopRemoves?
  }

  predicate AllAnswered(steps: seq<PassStep>) {
    forall i :: 0 <= i < |steps| ==> Answered(steps[i])
  }

  lemma {:induction false} PassesOn(first: Cell, steps: seq<PassStep>, middle: Cell, more: seq<PassStep>, last: Cell)
    requires Passes(first, steps, middle) && Passes(middle, more, last)
    ensures Passes(first, steps + more, last)
    decreases |steps|
  {
    hide PassEnabled, PassNext;
    if steps == [] {
      assert steps + more == more;
    } else {
      assert (steps + more)[1..] == steps[1..] + more;
      PassesOn(PassNext(first, steps[0]), steps[1..], middle, more, last);
    }
  }

  lemma OnePass(cell: Cell, step: PassStep)
    requires PassEnabled(cell, step)
    ensures Passes(cell, [step], PassNext(cell, step))
  {
    hide PassEnabled, PassNext;
    assert [step][1..] == [];
  }

  lemma ThreePasses(cell: Cell, first: PassStep, second: PassStep, third: PassStep)
    requires PassEnabled(cell, first) && PassEnabled(PassNext(cell, first), second)
    requires PassEnabled(PassNext(PassNext(cell, first), second), third)
    ensures Passes(cell, [first, second, third], PassNext(PassNext(PassNext(cell, first), second), third))
  {
    hide PassNext, PassEnabled, Passes;
    var once := PassNext(cell, first);
    var twice := PassNext(once, second);
    OnePass(cell, first);
    OnePass(once, second);
    OnePass(twice, third);
    PassesOn(cell, [first], once, [second], twice);
    PassesOn(cell, [first] + [second], twice, [third], PassNext(twice, third));
    assert [first] + [second] + [third] == [first, second, third];
  }

  // ----- statuses -----

  function Deliveries(queue: seq<Callback>, from: nat): (sent: seq<Delivery>)
    ensures |sent| == |queue|
    ensures forall i :: 0 <= i < |queue| ==> sent[i] == Delivery(from + i, queue[i])
  {
    seq(|queue|, i requires 0 <= i < |queue| => Delivery(from + i, queue[i]))
  }

  /** The cell after `flushStatuses` went through. */
  function Flushed(cell: Cell): Cell
    requires cell.task.Some?
  {
    var queue := cell.task.value.pendingStatuses;
    cell.(position := Logs(Silent(cell)), popped := cell.popped + |queue|,
          task := Some(cell.task.value.(pendingStatuses := [])),
          core := cell.core.(statuses := cell.core.statuses + Deliveries(queue, cell.popped)))
  }

  /** The cell after the head of the queue was sent, taken and confirmed. */
  function HeadTaken(cell: Cell): Cell
    requires cell.task.Some? && cell.task.value.pendingStatuses != []
  {
    var queue := cell.task.value.pendingStatuses;
    cell.(popped := cell.popped + 1,
          task := Some(cell.task.value.(pendingStatuses := queue[1..])),
          core := cell.core.(statuses := cell.core.statuses + [Delivery(cell.popped, queue[0])]))
  }

  /** The cell while the answer for the head of the queue is on its way. */
  function HeadSeen(cell: Cell): Cell
    requires cell.task.Some? && cell.task.value.pendingStatuses != []
  {
    var head := cell.task.value.pendingStatuses[0];
    cell.(position := StatusSent(head, cell.popped, true),
          core := cell.core.(statuses := cell.core.statuses + [Delivery(cell.popped, head)]))
  }

  lemma HeadIsSeen(cell: Cell)
    requires cell.position.Statuses? && cell.task.Some? && cell.task.value.pendingStatuses != []
    ensures PassEnabled(cell, SendStatus) && PassEnabled(PassNext(cell, SendStatus), StatusReceived)
    ensures PassNext(PassNext(cell, SendStatus), StatusReceived) == HeadSeen(cell)
  {
  }

  lemma HeadIsConfirmed(cell: Cell)
    requires cell.position.Statuses? && cell.task.Some? && cell.task.value.pendingStatuses != []
    ensures PassEnabled(HeadSeen(cell), StatusAccepted) && PassNext(HeadSeen(cell), StatusAccepted) == HeadTaken(cell)
  {
  }

  lemma HeadPasses(cell: Cell)
    requires cell.position.Statuses? && cell.task.Some? && cell.task.value.pendingStatuses != []
    ensures Passes(cell, [SendStatus, StatusReceived, StatusAccepted], HeadTaken(cell))
  {
    hide *;
    HeadIsSeen(cell);
    HeadIsConfirmed(cell);
    ThreePasses(cell, SendStatus, StatusReceived, StatusAccepted);
  }

  lemma FirstDelivery(queue: seq<Callback>, from: nat)
    requires queue != []
    ensures Deliveries(queue, from) == [Delivery(from, queue[0])] + Deliveries(queue[1..], from + 1)
  {
  }

  lemma AppendTwice<T>(first: seq<T>, second: seq<T>, third: seq<T>)
    ensures first + (second + third) == first + second + third
  {
  }

  lemma HeadFlushes(cell: Cell)
    requires cell.task.Some? && cell.task.value.pendingStatuses != []
    ensures Flushed(HeadTaken(cell)) == Flushed(cell)
    ensures HeadTaken(cell).task.Some? && HeadTaken(cell).position == cell.position
    ensures |HeadTaken(cell).task.value.pendingStatuses| < |cell.task.value.pendingStatuses|
  {
    hide Deliveries, Silent;
    var queue := cell.task.value.pendingStatuses;
    FirstDelivery(queue, cell.popped);
    AppendTwice(cell.core.statuses, [Delivery(cell.popped, queue[0])], Deliveries(queue[1..], cell.popped + 1));
    SilentAsBefore(cell);
  }

  lemma SilentAsBefore(cell: Cell)
    requires cell.task.Some? && cell.task.value.pendingStatuses != []
    ensures Silent(HeadTaken(cell)) == Silent(cell)
  {
  }

  lemma NothingToFlush(cell: Cell)
    requires cell.position.Statuses? && cell.task.Some? && cell.task.value.pendingStatuses == []
    ensures Passes(cell, [StatusesDone], Flushed(cell))
  {
    OnePass(cell, StatusesDone);
    assert Deliveries([], cell.popped) == [];
    assert cell.core.statuses + [] == cell.core.statuses;
    hide Passes;
  }

  lemma {:induction false} StatusesFlow(cell: Cell) returns (steps: seq<PassStep>)
    requires cell.position.Statuses? && cell.task.Some?
    ensures Passes(cell, steps, Flushed(cell)) && AllAnswered(steps)
    decreases |cell.task.value.pendingStatuses|
  {
    hide Passes, Flushed, HeadTaken;
    if cell.task.value.pendingStatuses == [] {
      steps := [StatusesDone];
      NothingToFlush(cell);
    } else {
      HeadPasses(cell);
      HeadFlushes(cell);
      var rest := StatusesFlow(HeadTaken(cell));
      steps := [SendStatus, StatusReceived, StatusAccepted] + rest;
      PassesOn(cell, [SendStatus, StatusReceived, StatusAccepted], HeadTaken(cell), rest, Flushed(cell));
    }
  }

  // ----- logs -----

  ghost predicate LogsHeld(cell: Cell) {
    cell.task.Some? && GatewayObject.Gateway.Holds(cell.task.value, cell.core.received, cell.accepted)
  }

  /** Nothing but the log fields of the record, Core's log list and the position differs. */
  predicate LogsMoved(cell: Cell, after: Cell)
    requires cell.task.Some?
  {
    && after.task.Some?
    && GatewayObject.Gateway.SameButLogs(cell.task.value, after.task.value)
    && after == cell.(position := after.position, task := after.task, core := cell.core.(received := after.core.received))
  }

  /** The cell after `flushLogs` went through: Core has all entries, and acknowledged them. */
  predicate LogsFlushed(cell: Cell, after: Cell)
    requires cell.task.Some? && cell.position.Logs?
  {
    && LogsMoved(cell, after)
    && after.position == Bundle(cell.position.closed, true)
    && after.core.received == cell.accepted && after.task.value.acknowledged == |cell.accepted|
  }

  /** One batch sent, taken and acknowledged in full. */
  function BatchTaken(cell: Cell): Cell
    requires cell.position.Logs? && cell.task.Some? && NextBatch(cell.task.value).Some?
  {
    var batch := NextBatch(cell.task.value).value;
    var received := Absorb(cell.core.received, batch);
    cell.(core := cell.core.(received := received), task := Some(LogAck(cell.task.value, |received|)),
          position := if |batch.entries| == MAXIMUM_BATCH then cell.position else Bundle(cell.position.closed, true))
  }

  function BatchSteps(cell: Cell): seq<PassStep>
    requires cell.task.Some? && NextBatch(cell.task.value).Some?
  {
    [SendLogs, LogsReceived, LogsAcknowledged(|Absorb(cell.core.received, NextBatch(cell.task.value).value)|)]
  }

  lemma BatchPasses(cell: Cell)
    requires cell.position.Logs? && LogsHeld(cell) && NextBatch(cell.task.value).Some?
    ensures Passes(cell, BatchSteps(cell), BatchTaken(cell)) && AllAnswered(BatchSteps(cell))
  {
    BatchIsSeen(cell);
    BatchReaches(cell);
    BatchIsAcknowledged(cell);
    hide PassNext, PassEnabled, Passes, BatchTaken, BatchSeen, Absorb, NextBatch, LogsHeld;
    ThreePasses(cell, SendLogs, LogsReceived, BatchSteps(cell)[2]);
  }

  /** The cell while the answer for the next batch is on its way. */
  function BatchSeen(cell: Cell): Cell
    requires cell.position.Logs? && cell.task.Some? && NextBatch(cell.task.value).Some?
  {
    var batch := NextBatch(cell.task.value).value;
    cell.(position := LogsSent(cell.position.closed, batch, true),
          core := cell.core.(received := Absorb(cell.core.received, batch)))
  }

  lemma BatchIsSeen(cell: Cell)
    requires cell.position.Logs? && cell.task.Some? && NextBatch(cell.task.value).Some?
    ensures PassEnabled(cell, SendLogs) && PassEnabled(PassNext(cell, SendLogs), LogsReceived)
    ensures PassNext(PassNext(cell, SendLogs), LogsReceived) == BatchSeen(cell)
  {
    hide NextBatch, Absorb;
  }

  lemma BatchIsAcknowledged(cell: Cell)
    requires cell.position.Logs? && cell.task.Some? && NextBatch(cell.task.value).Some?
    requires
      var batch := NextBatch(cell.task.value).value;
      batch.firstSequence + |batch.entries| <= |Absorb(cell.core.received, batch)| + 1
    ensures PassEnabled(BatchSeen(cell), BatchSteps(cell)[2])
    ensures PassNext(BatchSeen(cell), BatchSteps(cell)[2]) == BatchTaken(cell)
  {
    hide NextBatch, Absorb, LogAck;
  }

  lemma BatchReaches(cell: Cell)
    requires LogsHeld(cell) && NextBatch(cell.task.value).Some?
    ensures
      var batch := NextBatch(cell.task.value).value;
      batch.firstSequence + |batch.entries| <= |Absorb(cell.core.received, batch)| + 1
  {
    GatewayObject.Gateway.SendingHolds(cell.task.value, cell.core.received, cell.accepted);
    BatchIsContiguous(cell.task.value, cell.accepted);
    hide Absorb, Above, NextBatch;
  }

  lemma BatchHolds(cell: Cell)
    requires cell.position.Logs? && LogsHeld(cell) && NextBatch(cell.task.value).Some?
    ensures
      var after := BatchTaken(cell);
      && LogsMoved(cell, after) && LogsHeld(after)
      && (after.position.Logs? ==>
            after.position == cell.position && after.task.value.acknowledged > cell.task.value.acknowledged)
      && (!after.position.Logs? ==> LogsFlushed(cell, after))
  {
    var task := cell.task.value;
    GatewayObject.Gateway.SendingHolds(task, cell.core.received, cell.accepted);
    BatchIsContiguous(task, cell.accepted);
    var received := Absorb(cell.core.received, NextBatch(task).value);
    GatewayObject.Gateway.AcknowledgingHolds(task, received, cell.accepted);
    hide Absorb, Above, NextEntries, Spooled;
  }

  lemma {:induction false} LogsFlow(cell: Cell) returns (steps: seq<PassStep>, after: Cell)
    requires cell.position.Logs? && LogsHeld(cell)
    ensures Passes(cell, steps, after) && AllAnswered(steps) && LogsFlushed(cell, after)
    decreases |cell.accepted| - cell.task.value.acknowledged
  {
    hide Passes, BatchTaken, LogsHeld, NextBatch, PassNext, PassEnabled, Absorb, LogsFlushed;
    HeldBounds(cell);
    if NextBatch(cell.task.value).None? {
      steps := [LogsDone];
      after := LogsSilent(cell);
    } else {
      BatchPasses(cell);
      BatchHolds(cell);
      var next := BatchTaken(cell);
      steps, after := BatchSteps(cell), next;
      if next.position.Logs? {
        HeldBounds(next);
        var rest;
        rest, after := LogsFlow(next);
        PassesOn(cell, steps, next, rest, after);
        FlushedFromNext(cell, next, after);
        steps := steps + rest;
      }
    }
  }

  lemma LogsSilent(cell: Cell) returns (after: Cell)
    requires cell.position.Logs? && LogsHeld(cell) && NextBatch(cell.task.value).None?
    ensures Passes(cell, [LogsDone], after) && LogsFlushed(cell, after)
  {
    GatewayObject.Gateway.NothingToSend(cell.task.value, cell.core.received, cell.accepted);
    after := PassNext(cell, LogsDone);
    OnePass(cell, LogsDone);
    hide NextBatch, Passes, LogsHeld;
  }

  lemma FlushedFromNext(cell: Cell, next: Cell, after: Cell)
    requires cell.task.Some? && cell.position.Logs? && LogsMoved(cell, next)
    requires next.position == cell.position && LogsFlushed(next, after)
    ensures LogsFlushed(cell, after)
  {
  }

  lemma HeldBounds(cell: Cell)
    requires LogsHeld(cell)
    ensures cell.task.Some? && cell.task.value.acknowledged <= |cell.accepted|
  {
  }

  // ----- the bundle and the end -----

  /** The cell after `flushBundle` and the last check, all calls answered. */
  function Concluded(cell: Cell): Cell
    requires cell.task.Some?
  {
    var task := cell.task.value;
    if task.resultPending then
      cell.(position := Idle, task := None,
            core := cell.core.(artifact := cell.core.artifact || !task.artifact, result := true))
    else cell.(position := Idle, task := if task.terminalOnly then None else cell.task)
  }

  lemma Reported(cell: Cell, closed: bool, full: bool)
    requires cell.position == Reporting(closed, full, false)
    ensures PassEnabled(cell, ResultReceived)
    ensures PassNext(cell, ResultReceived)
         == cell.(position := Reporting(closed, full, true), core := cell.core.(result := true))
  {
  }

  lemma ReportAccepted(cell: Cell, closed: bool, full: bool)
    requires cell.position == Reporting(closed, full, true)
    ensures PassEnabled(cell, ResultAccepted)
    ensures PassNext(cell, ResultAccepted) == cell.(position := Removing(closed, full))
  {
  }

  lemma Removed(cell: Cell)
    requires cell.position.Removing?
    ensures PassEnabled(cell, RemoveTask) && PassNext(cell, RemoveTask) == cell.(position := Idle, task := None)
  {
  }

  lemma ReportFlow(cell: Cell, closed: bool, full: bool)
    requires cell.position == Reporting(closed, full, false)
    ensures Passes(cell, [ResultReceived, ResultAccepted, RemoveTask],
                   cell.(position := Idle, task := None, core := cell.core.(result := true)))
  {
    hide Passes, PassNext, PassEnabled;
    Reported(cell, closed, full);
    var reported := cell.(position := Reporting(closed, full, true), core := cell.core.(result := true));
    ReportAccepted(reported, closed, full);
    Removed(reported.(position := Removing(closed, full)));
    ThreePasses(cell, ResultReceived, ResultAccepted, RemoveTask);
  }

  /** Up to the report: the upload, unless Core has the artifact already. */
  lemma UploadFlow(cell: Cell) returns (steps: seq<PassStep>, uploaded: Cell)
    requires cell.position.Bundle? && cell.task.Some? && cell.task.value.bundleReady && cell.task.value.resultPending
    ensures Passes(cell, steps, uploaded) && AllAnswered(steps)
    ensures uploaded.position == Reporting(cell.position.closed, cell.position.full, false)
    ensures uploaded == cell.(position := uploaded.position, task := uploaded.task,
                              core := cell.core.(artifact := cell.core.artifact || !cell.task.value.artifact))
  {
    hide Passes;
    uploaded := PassNext(cell, BundleStarts);
    OnePass(cell, BundleStarts);
    steps := [BundleStarts];
    if !cell.task.value.artifact {
      var started := uploaded;
      OnePass(started, UploadSucceeds);
      uploaded := PassNext(started, UploadSucceeds);
      PassesOn(cell, [BundleStarts], started, [UploadSucceeds], uploaded);
      steps := [BundleStarts] + [UploadSucceeds];
    }
  }

  lemma BundleFlow(cell: Cell) returns (steps: seq<PassStep>)
    requires cell.position.Bundle? && cell.task.Some? && cell.task.value.bundleReady && cell.task.value.resultPending
    ensures Passes(cell, steps, Concluded(cell)) && AllAnswered(steps)
  {
    hide Passes, PassNext, PassEnabled;
    var uploaded;
    steps, uploaded := UploadFlow(cell);
    ReportFlow(uploaded, cell.position.closed, cell.position.full);
    PassesOn(cell, steps, uploaded, [ResultReceived, ResultAccepted, RemoveTask], Concluded(cell));
    steps := steps + [ResultReceived, ResultAccepted, RemoveTask];
  }

  lemma CheckFlow(cell: Cell)
    requires cell.position.Bundle? && cell.task.Some? && !cell.task.value.bundleReady && !cell.task.value.resultPending
    requires cell.task.value.pendingStatuses == []
    ensures
      var checked := cell.(position := if cell.task.value.terminalOnly then Removing(cell.position.closed, cell.position.full)
                                       else Idle);
      Passes(cell, [BundleSkipped, FinalCheck], checked)
  {
    var skipped := PassNext(cell, BundleSkipped);
    OnePass(cell, BundleSkipped);
    OnePass(skipped, FinalCheck);
    hide Passes;
    PassesOn(cell, [BundleSkipped], skipped, [FinalCheck], PassNext(skipped, FinalCheck));
    assert [BundleSkipped] + [FinalCheck] == [BundleSkipped, FinalCheck];
  }

  lemma QuietFlow(cell: Cell) returns (steps: seq<PassStep>)
    requires cell.position.Bundle? && cell.task.Some? && !cell.task.value.bundleReady && !cell.task.value.resultPending
    requires cell.task.value.pendingStatuses == []
    ensures Passes(cell, steps, Concluded(cell)) && AllAnswered(steps)
  {
    hide Passes, PassNext, PassEnabled;
    CheckFlow(cell);
    steps := [BundleSkipped, FinalCheck];
    if cell.task.value.terminalOnly {
      var checked := cell.(position := Removing(cell.position.closed, cell.position.full));
      Removed(checked);
      OnePass(checked, RemoveTask);
      PassesOn(cell, steps, checked, [RemoveTask], Concluded(cell));
      steps := steps + [RemoveTask];
    }
  }

  // ----- one whole pass over a task -----

  /** Core has everything; the record is gone exactly if there was nothing more to come. */
  predicate Delivered(before: Cell, after: Cell)
    requires before.task.Some?
  {
    var task := before.task.value;
    && after.position.Idle?
    && after.accepted == before.accepted && after.core.received == before.accepted
    && after.core.statuses == before.core.statuses + Deliveries(task.pendingStatuses, before.popped)
    && after.popped == before.popped + |task.pendingStatuses|
    && (after.task.None? <==> task.resultPending || task.terminalOnly)
    && (task.resultPending ==> after.core.result && (after.core.artifact || task.artifact))
    && (after.task.Some? ==>
          after.task.value.pendingStatuses == [] && after.task.value.acknowledged == |before.accepted|)
  }

  lemma LogsConservedHeld(cell: Cell)
    requires LogsConserved(cell) && cell.task.Some?
    ensures LogsHeld(cell)
  {
    hide Spooled, InFlight;
  }

  lemma ResumeFlow(cell: Cell)
    requires cell.position.Resuming? && cell.task.Some?
    ensures Passes(cell, [ResumeContinues(0)], cell.(position := Statuses))
  {
    OnePass(cell, ResumeContinues(0));
    assert PassNext(cell, ResumeContinues(0)) == cell.(position := Statuses);
    hide Passes;
  }

  /** If Core answers every call, the pass goes through and everything is delivered. */
  lemma PassFlow(cell: Cell) returns (steps: seq<PassStep>, after: Cell)
    requires LogsConserved(cell) && cell.position.Resuming? && cell.task.Some?
    requires cell.task.value.bundleReady <==> cell.task.value.resultPending
    ensures Passes(cell, steps, after) && AllAnswered(steps) && Delivered(cell, after)
  {
    hide *;
    var resumed := cell.(position := Statuses);
    var flushed := FlushedHeld(cell);
    ResumeFlow(cell);
    var statuses := StatusesFlow(resumed);
    PassesOn(cell, [ResumeContinues(0)], resumed, statuses, flushed);
    var logs, sent := LogsFlow(flushed);
    PassesOn(cell, [ResumeContinues(0)] + statuses, flushed, logs, sent);
    ConcludedDelivers(cell, flushed, sent);
    var rest;
    if cell.task.value.resultPending {
      rest := BundleFlow(sent);
    } else {
      rest := QuietFlow(sent);
    }
    after := Concluded(sent);
    PassesOn(cell, [ResumeContinues(0)] + statuses + logs, sent, rest, after);
    ResumeIsAnswered();
    AnsweredOn([ResumeContinues(0)], statuses);
    AnsweredOn([ResumeContinues(0)] + statuses, logs);
    AnsweredOn([ResumeContinues(0)] + statuses + logs, rest);
    steps := [ResumeContinues(0)] + statuses + logs + rest;
  }

  lemma ResumeIsAnswered()
    ensures AllAnswered([ResumeContinues(0)])
  {
  }

  lemma AnsweredOn(steps: seq<PassStep>, more: seq<PassStep>)
    requires AllAnswered(steps) && AllAnswered(more)
    ensures AllAnswered(steps + more)
  {
    hide Answered;
  }

  lemma FlushedHeld(cell: Cell) returns (flushed: Cell)
    requires LogsConserved(cell) && cell.position.Resuming? && cell.task.Some?
    ensures flushed == Flushed(cell.(position := Statuses)) && flushed.position.Logs? && LogsHeld(flushed)
  {
    LogsConservedHeld(cell);
    flushed := Flushed(cell.(position := Statuses));
    hide Deliveries, LogsConserved;
  }

  lemma ConcludedDelivers(cell: Cell, flushed: Cell, sent: Cell)
    requires cell.task.Some? && flushed == Flushed(cell.(position := Statuses)) && flushed.position.Logs?
    requires LogsFlushed(flushed, sent)
    ensures sent.task.Some? && Delivered(cell, Concluded(sent))
    ensures sent.position.Bundle? && sent.task.value.pendingStatuses == []
    ensures sent.task.value.bundleReady == cell.task.value.bundleReady
    ensures sent.task.value.resultPending == cell.task.value.resultPending
  {
    hide Deliveries;
  }

  // ----- the same in a run -----

  /** The steps of the pass as steps of the world. */
  function Syncs(id: TaskId, steps: seq<PassStep>): (syncs: seq<Step>)
    ensures |syncs| == |steps|
    ensures forall i :: 0 <= i < |steps| ==> syncs[i] == Sync(id, steps[i])
  {
    seq(|steps|, i requires 0 <= i < |steps| => Sync(id, steps[i]))
  }

  predicate AtTask(world: World, id: TaskId) {
    world.lock.Held? && world.lock.current == Some(id) && id in world.cells
  }

  lemma Extend(worlds: seq<World>, steps: seq<Step>, config: Config, step: Step)
    returns (worlds': seq<World>, steps': seq<Step>)
    requires IsRun(worlds, steps, config) && Enabled(worlds[|steps|], step, config)
    ensures IsRun(worlds', steps', config)
    ensures steps' == steps + [step] && worlds' == worlds + [Next(worlds[|steps|], step, config)]
    ensures |worlds'| == |steps'| + 1 && worlds'[|steps'|] == Next(worlds[|steps|], step, config)
  {
    worlds', steps' := worlds + [Next(worlds[|steps|], step, config)], steps + [step];
    hide Next, Enabled;
  }

  lemma OneSync(world: World, id: TaskId, step: PassStep, config: Config)
    requires AtTask(world, id) && PassEnabled(world.cells[id], step)
    ensures Enabled(world, Sync(id, step), config)
    ensures Next(world, Sync(id, step), config) == Put(world, id, PassNext(world.cells[id], step))
    ensures AtTask(Put(world, id, PassNext(world.cells[id], step)), id)
  {
    hide PassNext, PassEnabled;
  }

  lemma PassesUnfold(cell: Cell, passes: seq<PassStep>, after: Cell)
    requires Passes(cell, passes, after) && passes != []
    ensures PassEnabled(cell, passes[0]) && Passes(PassNext(cell, passes[0]), passes[1..], after)
  {
  }

  lemma {:induction false} SyncRun(worlds: seq<World>, steps: seq<Step>, config: Config, id: TaskId,
                                   passes: seq<PassStep>, after: Cell)
    returns (worlds': seq<World>, steps': seq<Step>)
    requires IsRun(worlds, steps, config) && AtTask(worlds[|steps|], id) && Passes(worlds[|steps|].cells[id], passes, after)
    ensures IsRun(worlds', steps', config) && steps' == steps + Syncs(id, passes)
    ensures worlds <= worlds' && |worlds'| == |steps'| + 1
    ensures worlds'[|steps'|] == Put(worlds[|steps|], id, after)
    decreases |passes|
  {
    var world := worlds[|steps|];
    assert id in world.cells && |worlds| == |steps| + 1;
    hide *;
    if passes == [] {
      worlds', steps' := worlds, steps;
      NothingPassed(world, id, passes, after);
    } else {
      PassesUnfold(world.cells[id], passes, after);
      OneSync(world, id, passes[0], config);
      var next := PassNext(world.cells[id], passes[0]);
      PutTwice(world, id, next, after);
      FirstSync(id, passes);
      worlds', steps' := Extend(worlds, steps, config, Sync(id, passes[0]));
      worlds', steps' := SyncRun(worlds', steps', config, id, passes[1..], after);
      AppendTwice(steps, [Sync(id, passes[0])], Syncs(id, passes[1..]));
    }
  }

  lemma NothingPassed(world: World, id: TaskId, passes: seq<PassStep>, after: Cell)
    requires AtTask(world, id) && Passes(world.cells[id], passes, after) && passes == []
    ensures Put(world, id, after) == world && Syncs(id, passes) == []
  {
    assert world.cells[id := after] == world.cells;
  }

  lemma PutTwice(world: World, id: TaskId, next: Cell, after: Cell)
    ensures Put(Put(world, id, next), id, after) == Put(world, id, after)
    ensures Put(world, id, next).cells[id] == next
  {
    assert world.cells[id := next][id := after] == world.cells[id := after];
  }

  lemma FirstSync(id: TaskId, passes: seq<PassStep>)
    requires passes != []
    ensures Syncs(id, passes) == [Sync(id, passes[0])] + Syncs(id, passes[1..])
  {
  }

  /** The start of a pass of the sync loop, which comes to this task first. */
  lemma PassStarts(world: World, config: Config, id: TaskId)
    requires world.lock.Free? && id in world.cells && world.cells[id].task.Some?
    ensures
      var started := Next(world, StartPass(None), config);
      && Enabled(world, StartPass(None), config) && Enabled(started, Pick(id), config)
      && var picked := Next(started, Pick(id), config);
      AtTask(picked, id) && picked.cells[id] == world.cells[id].(position := Resuming)
  {
  }

  lemma RecordFits(worlds: seq<World>, steps: seq<Step>, config: Config, id: TaskId)
    requires IsRun(worlds, steps, config) && id in worlds[|steps|].cells && worlds[|steps|].cells[id].task.Some?
    ensures
      var cell := worlds[|steps|].cells[id];
      && LogsConserved(cell.(position := Resuming))
      && (cell.task.value.bundleReady <==> cell.task.value.resultPending)
  {
    var cell := worlds[|steps|].cells[id];
    RunKeepsCell(worlds, steps, config, |steps|, id);
    SettlingConserves(ViewLogs(cell), ViewLogs(cell).spool);
    assert ViewLogs(cell.(position := Resuming)) == ViewLogs(cell).(sent := None, got := false);
    HistoryTells(worlds, steps, config, |steps|, id);
    hide Next, Enabled, Conserved, StatusesInOrder, DeliveryOrdered, ResultFirst, StopHandled;
  }

  /** The steps of an answered pass over this task. */
  predicate PassOver(step: Step, id: TaskId) {
    match step
    case StartPass(owner) => owner.None?
    case Pick(other) => other == id
    case Sync(other, pass) => other == id && Answered(pass)
    case _ => false
  }

  /**
   Nothing is ever stuck: from every reachable state without a pass under way, a pass over any
   task can be run to its end, and if Core answers its calls then Core has every status and
   every log entry, the artifact and the result of a successful task, and the record is gone
   exactly if the task is finished.
   */
  lemma EveryTaskCanBeDelivered(worlds: seq<World>, steps: seq<Step>, config: Config, id: TaskId)
    returns (worlds': seq<World>, steps': seq<Step>)
    requires IsRun(worlds, steps, config) && worlds[|steps|].lock.Free?
    requires id in worlds[|steps|].cells && worlds[|steps|].cells[id].task.Some?
    ensures IsRun(worlds', steps', config) && worlds <= worlds' && steps <= steps'
    ensures forall i :: |steps| <= i < |steps'| ==> PassOver(steps'[i], id)
    ensures |worlds'| == |steps'| + 1 && id in worlds'[|steps'|].cells
    ensures Delivered(worlds[|steps|].cells[id], worlds'[|steps'|].cells[id])
  {
    var world := worlds[|steps|];
    assert |worlds| == |steps| + 1;
    hide *;
    RecordFits(worlds, steps, config, id);
    var passes, after := PassFlow(world.cells[id].(position := Resuming));
    DeliveredFromResuming(world.cells[id], after);
    worlds', steps' := PickRun(worlds, steps, config, id);
    var picked := worlds'[|steps'|];
    worlds', steps' := SyncRun(worlds', steps', config, id, passes, after);
    PutTwice(picked, id, after, after);
    PutHasCell(picked, id, after);
    AllPassOver(id, passes);
    AppendTwice(steps, [StartPass(None), Pick(id)], Syncs(id, passes));
  }

  lemma PickRun(worlds: seq<World>, steps: seq<Step>, config: Config, id: TaskId)
    returns (worlds': seq<World>, steps': seq<Step>)
    requires IsRun(worlds, steps, config) && worlds[|steps|].lock.Free?
    requires id in worlds[|steps|].cells && worlds[|steps|].cells[id].task.Some?
    ensures IsRun(worlds', steps', config) && worlds <= worlds' && steps' == steps + [StartPass(None), Pick(id)]
    ensures |worlds'| == |steps'| + 1 && AtTask(worlds'[|steps'|], id) && id in worlds'[|steps'|].cells
    ensures worlds'[|steps'|].cells[id] == worlds[|steps|].cells[id].(position := Resuming)
  {
    PassStarts(worlds[|steps|], config, id);
    assert |worlds| == |steps| + 1;
    hide IsRun, Enabled, Next;
    worlds', steps' := Extend(worlds, steps, config, StartPass(None));
    worlds', steps' := Extend(worlds', steps', config, Pick(id));
    assert steps + [StartPass(None)] + [Pick(id)] == steps + [StartPass(None), Pick(id)];
  }

  lemma DeliveredFromResuming(cell: Cell, after: Cell)
    requires cell.task.Some? && Delivered(cell.(position := Resuming), after)
    ensures Delivered(cell, after)
  {
    hide Deliveries;
  }

  lemma PutHasCell(world: World, id: TaskId, cell: Cell)
    ensures id in Put(world, id, cell).cells
  {
  }

  lemma AllPassOver(id: TaskId, passes: seq<PassStep>)
    requires AllAnswered(passes)
    ensures forall i :: 0 <= i < |passes| + 2 ==> PassOver(([StartPass(None), Pick(id)] + Syncs(id, passes))[i], id)
  {
    hide Answered;
  }
}
