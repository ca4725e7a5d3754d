/**
 What every run of the Gateway keeps, for one task at a time: log conservation,
 the status queue, delivery before deletion, and the stop handshake.
 */
module GatewayDelivery {
  import opened Common
  import opened Spool
  import opened GatewayProtocol

  // ----- log spool conservation -----

  /** The part of a cell that log conservation speaks of. */
  datatype LogView = LogView(
    accepted: seq<LogEntry>,
    received: seq<LogEntry>,
    spool: Option<Spooling>,
    sent: Option<LogBatch>,
    got: bool)

  function ViewLogs(cell: Cell): LogView {
    LogView(cell.accepted, cell.core.received,
            if cell.task.None? then None else Some(SpoolOf(cell.task.value)),
            if cell.position.LogsSent? then Some(cell.position.batch) else None,
            cell.position.LogsSent? && cell.position.got)
  }

  /** `batch` is a slice of what was accepted, starting at the acknowledgement. */
  ghost predicate InFlight(view: LogView, batch: LogBatch) {
    var from := batch.firstSequence - 1;
    && 0 <= from <= |view.received|
    && from + |batch.entries| <= |view.accepted|
    && batch.entries == view.accepted[from..from + |batch.entries|]
    && |batch.entries| <= MAXIMUM_BATCH
    && (view.got ==> from + |batch.entries| <= |view.received|)
    && (view.spool.Some? ==> view.spool.value.acknowledged == from)
  }

  /** Core holds a prefix of what was accepted; the spool holds everything beyond the acknowledgement. */
  ghost predicate Conserved(view: LogView) {
    && Numbered(view.accepted)
    && view.received <= view.accepted
    && (view.spool.Some? ==>
          Spooled(view.spool.value, view.accepted) && view.spool.value.acknowledged <= |view.received|)
    && (view.sent.Some? ==> InFlight(view, view.sent.value))
  }

  ghost predicate LogsConserved(cell: Cell) {
    Conserved(ViewLogs(cell))
  }

  lemma AcceptingConserves(view: LogView, entry: LogEntry)
    requires Conserved(view) && view.spool.Some? && entry.sequence == view.spool.value.nextSequence
    ensures
      var spool := view.spool.value;
      Conserved(view.(accepted := view.accepted + [entry],
                      spool := Some(Spooling(spool.nextSequence + 1, spool.acknowledged, spool.logs + [entry]))))
  {
    AppendKeepsSpooled(view.spool.value, view.accepted, entry);
    if view.sent.Some? {
      var from, size := view.sent.value.firstSequence - 1, |view.sent.value.entries|;
      assert (view.accepted + [entry])[from..from + size] == view.accepted[from..from + size];
    }
  }

  lemma ReceivingConserves(view: LogView)
    requires Conserved(view) && view.sent.Some?
    ensures Conserved(view.(received := Absorb(view.received, view.sent.value), got := true))
  {
    var batch := view.sent.value;
    var from, size := batch.firstSequence - 1, |batch.entries|;
    if |view.received| < from + size {
      assert batch.entries[|view.received| - from..] == view.accepted[|view.received|..from + size];
      assert Absorb(view.received, batch) == view.accepted[..from + size];
    }
  }

  lemma SettlingConserves(view: LogView, spool: Option<Spooling>)
    requires Conserved(view)
    requires spool.Some? ==>
      Spooled(spool.value, view.accepted) && spool.value.acknowledged <= |view.received|
    ensures Conserved(view.(spool := spool, sent := None, got := false))
  {
  }

  lemma ExecutorLeavesLogs(cell: Cell, step: ExecutorStep, budget: int)
    requires ExecutorEnabled(cell, step) && !step.WriteLog? && !step.CleanupAfterExit?
    ensures ViewLogs(ExecutorNext(cell, step, budget)) == ViewLogs(cell)
  {
  }

  lemma WriteKeepsLogs(cell: Cell, stream: string, contents: Bytes, budget: int)
    requires LogsConserved(cell) && ExecutorEnabled(cell, WriteLog(stream, contents))
    ensures LogsConserved(ExecutorNext(cell, WriteLog(stream, contents), budget))
  {
    var view, view' := ViewLogs(cell), ViewLogs(ExecutorNext(cell, WriteLog(stream, contents), budget));
    if cell.task.Some? && Accepts(cell.task.value, budget, contents) {
      var entry := EntryFor(cell.task.value, stream, contents);
      AcceptingConserves(view, entry);
      assert view' == view.(accepted := view.accepted + [entry], spool := view'.spool);
    } else {
      assert view' == view;
    }
  }

  lemma ExecutorKeepsLogs(cell: Cell, step: ExecutorStep, budget: int)
    requires LogsConserved(cell) && ExecutorEnabled(cell, step)
    ensures LogsConserved(ExecutorNext(cell, step, budget))
  {
    if step.WriteLog? {
      WriteKeepsLogs(cell, step.stream, step.contents, budget);
    } else if step.CleanupAfterExit? {
    } else {
      hide ExecutorNext;
      ExecutorLeavesLogs(cell, step, budget);
    }
  }

  predicate MovesLogs(step: PassStep) {
    step.ResumeContinues? || step.SendLogs? || step.LogsReceived? || step.LogsAcknowledged?
    || step.LogsFail? || step.RemoveTask? || step.StopRemoves?
  }

  lemma PassLeavesLogs(cell: Cell, step: PassStep)
    requires PassEnabled(cell, step) && !MovesLogs(step)
    ensures ViewLogs(PassNext(cell, step)) == ViewLogs(cell)
  {
  }

  lemma ResumeKeepsLogs(cell: Cell, through: nat)
    requires LogsConserved(cell) && PassEnabled(cell, ResumeContinues(through))
    ensures LogsConserved(PassNext(cell, ResumeContinues(through)))
  {
    SettlingConserves(ViewLogs(cell), ViewLogs(PassNext(cell, ResumeContinues(through))).spool);
  }

  lemma SendKeepsLogs(cell: Cell)
    requires LogsConserved(cell) && PassEnabled(cell, SendLogs)
    ensures LogsConserved(PassNext(cell, SendLogs))
  {
    BatchIsContiguous(cell.task.value, cell.accepted);
    assert InFlight(ViewLogs(PassNext(cell, SendLogs)), NextBatch(cell.task.value).value);
  }

  lemma ReceiveKeepsLogs(cell: Cell)
    requires LogsConserved(cell) && PassEnabled(cell, LogsReceived)
    ensures LogsConserved(PassNext(cell, LogsReceived))
  {
    ReceivingConserves(ViewLogs(cell));
  }

  lemma AcknowledgeKeepsLogs(cell: Cell, through: nat)
    requires LogsConserved(cell) && PassEnabled(cell, LogsAcknowledged(through))
    ensures LogsConserved(PassNext(cell, LogsAcknowledged(through)))
  {
    if cell.task.Some? {
      AcknowledgeKeepsSpooled(SpoolOf(cell.task.value), cell.accepted,
                              Max(cell.task.value.acknowledged, through));
    }
    SettlingConserves(ViewLogs(cell), ViewLogs(PassNext(cell, LogsAcknowledged(through))).spool);
  }

  lemma DropKeepsLogs(cell: Cell, step: PassStep)
    requires LogsConserved(cell) && PassEnabled(cell, step)
    requires step.RemoveTask? || step.StopRemoves? || step.LogsFail?
    ensures LogsConserved(PassNext(cell, step))
  {
    SettlingConserves(ViewLogs(cell), ViewLogs(PassNext(cell, step)).spool);
  }

  lemma PassKeepsLogs(cell: Cell, step: PassStep)
    requires LogsConserved(cell) && PassEnabled(cell, step)
    ensures LogsConserved(PassNext(cell, step))
  {
    hide PassNext, PassEnabled, Conserved;
    match step
    case ResumeContinues(through) => ResumeKeepsLogs(cell, through);
    case SendLogs => SendKeepsLogs(cell);
    case LogsReceived => ReceiveKeepsLogs(cell);
    case LogsAcknowledged(through) => AcknowledgeKeepsLogs(cell, through);
    case RemoveTask => DropKeepsLogs(cell, step);
    case StopRemoves => DropKeepsLogs(cell, step);
    case LogsFail => DropKeepsLogs(cell, step);
    case _ => PassLeavesLogs(cell, step);
  }

  // ----- the status queue -----

  /** Core's list repeats entries of `queued` in place and never skips or reorders one. */
  ghost predicate Stutters(statuses: seq<Delivery>, queued: seq<Callback>) {
    && (statuses != [] ==> statuses[0].index == 0)
    && (forall i :: 0 <= i < |statuses| ==>
          statuses[i].index < |queued| && statuses[i].callback == queued[statuses[i].index])
    && (forall i :: 0 < i < |statuses| ==>
          statuses[i - 1].index <= statuses[i].index <= statuses[i - 1].index + 1)
  }

  /** How many of the queued statuses Core has taken at least once. */
  function Reached(statuses: seq<Delivery>): nat {
    if statuses == [] then 0 else statuses[|statuses| - 1].index + 1
  }

  /** Core has taken the status that is in flight, but its answer has not arrived. */
  predicate AnswerDue(cell: Cell) {
    cell.position.StatusSent? && cell.position.got
  }

  /** The part of a cell that the status queue speaks of. */
  datatype StatusView = StatusView(
    queued: seq<Callback>,
    popped: nat,
    pending: Option<seq<Callback>>,
    statuses: seq<Delivery>,
    sent: Option<Delivery>,
    got: bool,
    lost: nat)

  function ViewStatuses(cell: Cell): StatusView {
    StatusView(cell.queued, cell.popped,
               if cell.task.None? then None else Some(cell.task.value.pendingStatuses),
               cell.core.statuses,
               if cell.position.StatusSent? then Some(Delivery(cell.position.index, cell.position.callback)) else None,
               AnswerDue(cell),
               cell.lost)
  }

  ghost predicate InOrder(view: StatusView) {
    && view.popped <= |view.queued|
    && (view.pending.Some? ==> view.pending.value == view.queued[view.popped..])
    && Stutters(view.statuses, view.queued)
    && view.popped <= Reached(view.statuses) <= view.popped + 1
    && Reached(view.statuses) <= |view.queued|
    && (view.sent.Some? ==>
          && view.sent.value.index == view.popped < |view.queued|
          && view.sent.value.callback == view.queued[view.popped])
    && (view.got ==> view.sent.Some? && Reached(view.statuses) == view.popped + 1)
  }

  /** Every repetition at Core is paid for by an answer that was lost. */
  ghost predicate RepeatsPaid(view: StatusView) {
    var owed := if Reached(view.statuses) == view.popped + 1 && !view.got then 1 else 0;
    |view.statuses| + owed <= Reached(view.statuses) + view.lost
  }

  ghost predicate StatusesInOrder(cell: Cell) {
    InOrder(ViewStatuses(cell)) && RepeatsPaid(ViewStatuses(cell))
  }

  predicate QueuesStatus(step: ExecutorStep) {
    step.BeginInvalid? || step.BeginFresh? || step.PrepareFails? || step.QueueRunningStatus?
    || step.RunEnds? || step.RunSucceeds? || step.BuildFails?
  }

  lemma QueueingKeepsOrder(view: StatusView, callback: Callback)
    requires InOrder(view) && RepeatsPaid(view) && view.pending.Some?
    ensures var view' := view.(queued := view.queued + [callback], pending := Some(view.pending.value + [callback]));
            InOrder(view') && RepeatsPaid(view')
  {
    assert (view.queued + [callback])[view.popped..] == view.queued[view.popped..] + [callback];
  }

  lemma ExecutorLeavesStatuses(cell: Cell, step: ExecutorStep, budget: int)
    requires ExecutorEnabled(cell, step) && !QueuesStatus(step) && !step.CleanupAfterExit?
    ensures ViewStatuses(ExecutorNext(cell, step, budget)) == ViewStatuses(cell)
  {
  }

  lemma QueueKeepsStatuses(cell: Cell, callback: Callback)
    requires StatusesInOrder(cell)
    ensures StatusesInOrder(QueueIn(cell, callback)) && StatusesInOrder(TerminateIn(cell, callback))
  {
    if cell.task.Some? {
      QueueingKeepsOrder(ViewStatuses(cell), callback);
      assert ViewStatuses(QueueIn(cell, callback)) == ViewStatuses(TerminateIn(cell, callback));
    }
  }

  lemma ExecutorQueuesStatus(cell: Cell, step: ExecutorStep, budget: int) returns (callback: Callback)
    requires ExecutorEnabled(cell, step) && QueuesStatus(step)
    ensures || ViewStatuses(ExecutorNext(cell, step, budget)) == ViewStatuses(QueueIn(cell, callback))
            || ViewStatuses(ExecutorNext(cell, step, budget)) == ViewStatuses(TerminateIn(cell, callback))
  {
    match step
    case BeginFresh => callback := PREPARING;
    case QueueRunningStatus => callback := RUNNING;
    case RunSucceeds(uploading) => callback := uploading;
    case BeginInvalid(failure) => callback := failure;
    case PrepareFails(failure) => callback := failure;
    case RunEnds(failure) => callback := failure;
    case BuildFails(failure) => callback := failure;
    case _ => assert false;
  }

  lemma ExecutorKeepsStatuses(cell: Cell, step: ExecutorStep, budget: int)
    requires StatusesInOrder(cell) && ExecutorEnabled(cell, step)
    ensures StatusesInOrder(ExecutorNext(cell, step, budget))
  {
    if step.CleanupAfterExit? {
    } else {
      hide ExecutorNext, ExecutorEnabled, QueueIn, TerminateIn;
      if QueuesStatus(step) {
        var callback := ExecutorQueuesStatus(cell, step, budget);
        QueueKeepsStatuses(cell, callback);
      } else {
        ExecutorLeavesStatuses(cell, step, budget);
      }
    }
  }

  predicate MovesStatuses(step: PassStep) {
    step.SendStatus? || step.StatusReceived? || step.StatusAccepted? || step.StatusFails?
    || step.RemoveTask? || step.StopRemoves?
  }

  lemma PassLeavesStatuses(cell: Cell, step: PassStep)
    requires PassEnabled(cell, step) && !MovesStatuses(step)
    ensures ViewStatuses(PassNext(cell, step)) == ViewStatuses(cell)
  {
    hide Above, NextEntries, NextBatch, Absorb;
  }

  lemma TakingKeepsOrder(view: StatusView)
    requires InOrder(view) && RepeatsPaid(view) && view.sent.Some? && !view.got
    ensures var view' := view.(statuses := view.statuses + [view.sent.value], got := true);
            InOrder(view') && RepeatsPaid(view')
  {
  }

  lemma ConfirmingKeepsOrder(view: StatusView)
    requires InOrder(view) && RepeatsPaid(view) && view.got
    ensures
      var rest := if view.pending.None? then None else Some(view.pending.value[1..]);
      var view' := view.(popped := view.popped + 1, pending := rest, sent := None, got := false);
      InOrder(view') && RepeatsPaid(view')
  {
    assert view.queued[view.popped..][1..] == view.queued[view.popped + 1..];
  }

  lemma LosingKeepsOrder(view: StatusView)
    requires InOrder(view) && RepeatsPaid(view)
    ensures var view' := view.(sent := None, got := false, lost := view.lost + if view.got then 1 else 0);
            InOrder(view') && RepeatsPaid(view')
    ensures var view' := view.(pending := None); InOrder(view') && RepeatsPaid(view')
  {
  }

  lemma SendKeepsOrder(cell: Cell)
    requires StatusesInOrder(cell) && PassEnabled(cell, SendStatus)
    ensures StatusesInOrder(PassNext(cell, SendStatus))
  {
    var view, view' := ViewStatuses(cell), ViewStatuses(PassNext(cell, SendStatus));
    assert view' == view.(sent := Some(Delivery(cell.popped, cell.task.value.pendingStatuses[0])));
    assert view.queued[view.popped..][0] == view.queued[view.popped];
  }

  lemma AcceptKeepsOrder(cell: Cell)
    requires StatusesInOrder(cell) && PassEnabled(cell, StatusAccepted)
    ensures StatusesInOrder(PassNext(cell, StatusAccepted))
  {
    ConfirmingKeepsOrder(ViewStatuses(cell));
  }

  lemma ReceiveKeepsOrder(cell: Cell)
    requires StatusesInOrder(cell) && PassEnabled(cell, StatusReceived)
    ensures StatusesInOrder(PassNext(cell, StatusReceived))
  {
    var view := ViewStatuses(cell);
    TakingKeepsOrder(view);
    hide InOrder, RepeatsPaid;
    assert ViewStatuses(PassNext(cell, StatusReceived))
        == view.(statuses := view.statuses + [view.sent.value], got := true);
  }

  lemma FailureKeepsOrder(cell: Cell)
    requires StatusesInOrder(cell) && PassEnabled(cell, StatusFails)
    ensures StatusesInOrder(PassNext(cell, StatusFails))
  {
    var view := ViewStatuses(cell);
    LosingKeepsOrder(view);
    hide InOrder, RepeatsPaid;
    assert ViewStatuses(PassNext(cell, StatusFails))
        == view.(sent := None, got := false, lost := view.lost + if view.got then 1 else 0);
  }

  lemma RemovalKeepsOrder(cell: Cell, step: PassStep)
    requires StatusesInOrder(cell) && PassEnabled(cell, step) && (step.RemoveTask? || step.StopRemoves?)
    ensures StatusesInOrder(PassNext(cell, step))
  {
    var view := ViewStatuses(cell);
    LosingKeepsOrder(view);
    hide InOrder, RepeatsPaid;
    assert PassNext(cell, step) == cell.(position := Idle, task := None);
    assert ViewStatuses(cell.(position := Idle, task := None)) == view.(pending := None);
  }

  lemma PassMovesStatuses(cell: Cell, step: PassStep)
    requires StatusesInOrder(cell) && PassEnabled(cell, step) && MovesStatuses(step)
    ensures StatusesInOrder(PassNext(cell, step))
  {
    hide StatusesInOrder, PassEnabled, PassNext;
    match step
    case SendStatus => SendKeepsOrder(cell);
    case StatusReceived => ReceiveKeepsOrder(cell);
    case StatusAccepted => AcceptKeepsOrder(cell);
    case StatusFails => FailureKeepsOrder(cell);
    case RemoveTask => RemovalKeepsOrder(cell, step);
    case StopRemoves => RemovalKeepsOrder(cell, step);
  }

  lemma PassKeepsStatuses(cell: Cell, step: PassStep)
    requires StatusesInOrder(cell) && PassEnabled(cell, step)
    ensures StatusesInOrder(PassNext(cell, step))
  {
    hide PassNext, PassEnabled, InOrder;
    if MovesStatuses(step) {
      PassMovesStatuses(cell, step);
    } else {
      PassLeavesStatuses(cell, step);
    }
  }

  // ----- delivery before deletion -----

  /** The pass has left `flushStatuses` for this task. */
  predicate PastStatuses(position: Position) {
    position.Logs? || position.LogsSent? || PastLogs(position)
  }

  /** The pass has left `flushLogs` for this task. */
  predicate PastLogs(position: Position) {
    position.Bundle? || position.Uploading? || position.Reporting? || position.Removing? || position.Final?
  }

  predicate Closed(position: Position)
    requires PastStatuses(position)
  {
    position.closed
  }

  /** The local record is there for as long as an executor relies on it. */
  predicate RecordPresent(cell: Cell) {
    && (cell.executor.Some? && cell.executor.value.pc.stage !in {Begin, Leave} ==> cell.task.Some?)
    && (cell.executor.Some? && cell.executor.value.pc.stage != Leave && cell.task.Some? ==>
          !cell.task.value.runtimeFinished)
    && (cell.task.Some? ==>
          && (cell.task.value.terminalOnly ==> cell.task.value.runtimeFinished)
          && (cell.task.value.resultPending ==> cell.task.value.runtimeFinished)
          && (cell.task.value.bundleReady ==> cell.task.value.resultPending))
    && (!cell.position.Idle? ==> cell.task.Some? && !cell.position.StopCancel? && !cell.position.StopRemove?)
  }

  /** The executor is building the bundle, or its result or terminal status is ready to go. */
  predicate Concluding(cell: Cell)
    requires cell.task.Some?
  {
    || AtStage(cell, Build)
    || cell.task.value.resultPending
    || (cell.task.value.terminalOnly && cell.task.value.pendingStatuses == [])
  }

  /**
   The heart of the argument: a pass that is past `flushStatuses` while the task
   is concluding started after the writers fell silent, and left no status behind.
   */
  predicate StatusesFirst(cell: Cell) {
    PastStatuses(cell.position) && cell.task.Some? ==>
      && (Concluding(cell) ==> Closed(cell.position) && cell.task.value.pendingStatuses == [])
      && (Closed(cell.position) ==> Silent(cell))
  }

  predicate LogsFirst(cell: Cell) {
    cell.task.Some? ==>
      && (PastLogs(cell.position) && Closed(cell.position) ==>
            (cell.position.full <==> cell.task.value.acknowledged == |cell.accepted|))
      && (cell.position.LogsSent? && cell.position.closed ==>
            cell.position.batch.firstSequence - 1 + |cell.position.batch.entries|
              == Min(cell.position.batch.firstSequence - 1 + MAXIMUM_BATCH, |cell.accepted|))
      && (cell.position.Uploading? || cell.position.Reporting? ==> cell.task.value.resultPending)
      && (cell.position.Removing? ==> Concluding(cell) && cell.task.value.runtimeFinished)
  }

  predicate DeliveryOrdered(cell: Cell) {
    !cell.stopped ==> RecordPresent(cell) && StatusesFirst(cell) && LogsFirst(cell)
  }

  lemma ExecutorKeepsRecord(cell: Cell, step: ExecutorStep, budget: int)
    requires RecordPresent(cell) && ExecutorEnabled(cell, step) && !step.CleanupAfterExit?
    ensures RecordPresent(ExecutorNext(cell, step, budget))
  {
    hide Accepts, EntryFor, CapChunk;
  }

  lemma ExecutorKeepsStatusesFirst(cell: Cell, step: ExecutorStep, budget: int)
    requires RecordPresent(cell) && StatusesFirst(cell)
    requires ExecutorEnabled(cell, step) && !step.CleanupAfterExit?
    ensures StatusesFirst(ExecutorNext(cell, step, budget))
  {
  }

  lemma ExecutorKeepsLogsFirst(cell: Cell, step: ExecutorStep, budget: int)
    requires RecordPresent(cell) && StatusesFirst(cell) && LogsFirst(cell)
    requires ExecutorEnabled(cell, step) && !step.CleanupAfterExit?
    ensures LogsFirst(ExecutorNext(cell, step, budget))
  {
    hide Accepts, EntryFor, CapChunk;
  }

  lemma ExecutorKeepsDelivery(cell: Cell, step: ExecutorStep, budget: int)
    requires DeliveryOrdered(cell) && ExecutorEnabled(cell, step)
    requires step.CleanupAfterExit? ==> cell.stopped
    ensures DeliveryOrdered(ExecutorNext(cell, step, budget))
  {
    var next := ExecutorNext(cell, step, budget);
    assert next.stopped == cell.stopped;
    hide ExecutorNext, ExecutorEnabled, RecordPresent, StatusesFirst, LogsFirst;
    if !cell.stopped {
      ExecutorKeepsRecord(cell, step, budget);
      ExecutorKeepsStatusesFirst(cell, step, budget);
      ExecutorKeepsLogsFirst(cell, step, budget);
    }
  }

  lemma PassKeepsRecord(cell: Cell, step: PassStep)
    requires RecordPresent(cell) && LogsFirst(cell) && PassEnabled(cell, step) && !step.ResumeStops?
    ensures RecordPresent(PassNext(cell, step))
  {
    hide Above, NextEntries, NextBatch, Absorb, SetControl;
  }

  lemma PassKeepsStatusesFirst(cell: Cell, step: PassStep)
    requires RecordPresent(cell) && StatusesFirst(cell)
    requires PassEnabled(cell, step) && !step.ResumeStops?
    ensures StatusesFirst(PassNext(cell, step))
  {
    hide Above, NextEntries, NextBatch, Absorb, SetControl;
  }

  lemma LastBatchSettlesLogs(cell: Cell, through: nat)
    requires LogsConserved(cell) && LogsFirst(cell) && PassEnabled(cell, LogsAcknowledged(through))
    ensures LogsFirst(PassNext(cell, LogsAcknowledged(through)))
  {
  }

  lemma BatchCoversLogs(cell: Cell, step: PassStep)
    requires LogsConserved(cell) && LogsFirst(cell) && PassEnabled(cell, step)
    requires step.LogsDone? || step.SendLogs?
    ensures LogsFirst(PassNext(cell, step))
  {
    if cell.task.Some? {
      BatchIsContiguous(cell.task.value, cell.accepted);
    }
  }

  lemma OthersKeepLogsFirst(cell: Cell, step: PassStep)
    requires RecordPresent(cell) && StatusesFirst(cell) && LogsFirst(cell)
    requires PassEnabled(cell, step)
    requires !step.ResumeStops? && !step.LogsDone? && !step.SendLogs? && !step.LogsAcknowledged?
    ensures LogsFirst(PassNext(cell, step))
  {
    hide Above, NextEntries, NextBatch, Absorb, SetControl, StatusesFirst;
  }

  lemma PassKeepsLogsFirst(cell: Cell, step: PassStep)
    requires RecordPresent(cell) && StatusesFirst(cell) && LogsFirst(cell) && LogsConserved(cell)
    requires PassEnabled(cell, step) && !step.ResumeStops?
    ensures LogsFirst(PassNext(cell, step))
  {
    hide *;
    match step
    case LogsAcknowledged(through) => LastBatchSettlesLogs(cell, through);
    case LogsDone => BatchCoversLogs(cell, step);
    case SendLogs => BatchCoversLogs(cell, step);
    case _ => OthersKeepLogsFirst(cell, step);
  }

  lemma PassKeepsDelivery(cell: Cell, step: PassStep)
    requires DeliveryOrdered(cell) && LogsConserved(cell) && PassEnabled(cell, step)
    ensures DeliveryOrdered(PassNext(cell, step))
  {
    var next := PassNext(cell, step);
    assert next.stopped == (cell.stopped || step.ResumeStops?);
    hide PassNext, PassEnabled, RecordPresent, StatusesFirst, LogsFirst;
    if !next.stopped {
      PassKeepsRecord(cell, step);
      PassKeepsStatusesFirst(cell, step);
      PassKeepsLogsFirst(cell, step);
    }
  }

  /** Core has the artifact and the result before the record of a successful task goes. */
  predicate ResultFirst(cell: Cell) {
    cell.task.Some? ==>
      && (cell.task.value.artifact ==> cell.core.artifact)
      && (cell.position.Reporting? ==> cell.core.artifact && (cell.position.got ==> cell.core.result))
      && (cell.position.Removing? ==> cell.task.value.terminalOnly || (cell.core.artifact && cell.core.result))
  }

  lemma ExecutorKeepsResultFirst(cell: Cell, step: ExecutorStep, budget: int)
    requires ResultFirst(cell) && ExecutorEnabled(cell, step)
    ensures ResultFirst(ExecutorNext(cell, step, budget))
  {
    hide Accepts, EntryFor, CapChunk;
  }

  lemma PassKeepsResultFirst(cell: Cell, step: PassStep)
    requires ResultFirst(cell) && PassEnabled(cell, step)
    ensures ResultFirst(PassNext(cell, step))
  {
    hide Above, NextEntries, NextBatch, Absorb;
  }

  // ----- the stop handshake -----

  /** Somebody still has to tell the runtime of this control to cancel. */
  predicate CancelDue(cell: Cell, ticket: nat) {
    || cell.position == StopCancel(ticket, true)
    || (AtStage(cell, TellCancel) && ticket == |cell.controls| - 1)
  }

  ghost predicate ControlsTold(cell: Cell) {
    forall i :: 0 <= i < |cell.controls| && cell.controls[i].stopRequested && cell.controls[i].attached ==>
      cell.controls[i].told || CancelDue(cell, i)
  }

  /** Somebody still has to remove the local state of a stopped task. */
  predicate CleanupDue(cell: Cell) {
    || cell.leaving > 0
    || cell.position.StopRemove?
    || (cell.executor.Some? && |cell.controls| > 0 && Live(cell).cleanupRequested)
  }

  predicate CleanupPromised(cell: Cell) {
    && (cell.stopping ==> cell.task.None? || CleanupDue(cell))
    && (CleanupDue(cell) ==> cell.stopped)
  }

  predicate ControlKept(cell: Cell) {
    && (cell.executor.Some? ==> |cell.controls| > 0)
    && (cell.position.StopCancel? ==> cell.position.ticket < |cell.controls|)
  }

  ghost predicate StopHandled(cell: Cell) {
    ControlKept(cell) && CleanupPromised(cell) && ControlsTold(cell)
  }

  lemma ExecutorKeepsControl(cell: Cell, step: ExecutorStep, budget: int)
    requires ControlKept(cell) && CleanupPromised(cell) && ExecutorEnabled(cell, step)
    ensures ControlKept(ExecutorNext(cell, step, budget)) && CleanupPromised(ExecutorNext(cell, step, budget))
  {
    hide Accepts, EntryFor, CapChunk;
  }

  lemma ExecutorKeepsTold(cell: Cell, step: ExecutorStep, budget: int)
    requires ControlKept(cell) && ControlsTold(cell) && ExecutorEnabled(cell, step)
    ensures ControlsTold(ExecutorNext(cell, step, budget))
  {
    hide Accepts, EntryFor, CapChunk;
  }

  lemma ExecutorKeepsStop(cell: Cell, step: ExecutorStep, budget: int)
    requires StopHandled(cell) && ExecutorEnabled(cell, step)
    ensures StopHandled(ExecutorNext(cell, step, budget))
  {
    hide ExecutorNext, ExecutorEnabled, ControlKept, CleanupPromised, ControlsTold;
    ExecutorKeepsControl(cell, step, budget);
    ExecutorKeepsTold(cell, step, budget);
  }

  lemma PassKeepsControl(cell: Cell, step: PassStep)
    requires ControlKept(cell) && CleanupPromised(cell) && PassEnabled(cell, step)
    ensures ControlKept(PassNext(cell, step)) && CleanupPromised(PassNext(cell, step))
  {
    hide Above, NextEntries, NextBatch, Absorb, LogAck, ResumeAck;
  }

  lemma PassKeepsTold(cell: Cell, step: PassStep)
    requires ControlKept(cell) && ControlsTold(cell) && PassEnabled(cell, step)
    ensures ControlsTold(PassNext(cell, step))
  {
    hide Above, NextEntries, NextBatch, Absorb;
  }

  lemma PassKeepsStop(cell: Cell, step: PassStep)
    requires StopHandled(cell) && PassEnabled(cell, step)
    ensures StopHandled(PassNext(cell, step))
  {
    hide PassNext, PassEnabled, ControlKept, CleanupPromised, ControlsTold;
    PassKeepsControl(cell, step);
    PassKeepsTold(cell, step);
  }
}
