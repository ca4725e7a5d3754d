/**
 The durable record of one Box task (box/gateway/state.go) and the effect that
 each critical section of the Gateway has on it. Every section ends by
 persisting, so these values are also exactly what a reload finds after a crash.
 */
module Spool {
  import opened Common

  const MAXIMUM_LOG_CHUNK: nat := 20_000
  const MAXIMUM_BATCH: nat := 200

  datatype Callback = Callback(status: string, exitCode: Option<int>, failure: Option<string>)

  datatype LogEntry = LogEntry(sequence: nat, stream: string, message: Bytes)

  datatype LogBatch = LogBatch(firstSequence: nat, entries: seq<LogEntry>, truncated: bool)

  datatype TaskState = TaskState(
    phase: string,
    runtimeStarted: bool,
    runtimeFinished: bool,
    nextSequence: nat,
    acknowledged: nat,
    logs: seq<LogEntry>,
    logBytes: nat,
    logsTruncated: bool,
    truncationAcknowledged: bool,
    pendingStatuses: seq<Callback>,
    bundleReady: bool,
    artifact: bool,
    resultPending: bool,
    terminalOnly: bool)

  const NewTask := TaskState("preparing", false, false, 1, 0, [], 0, false, false, [], false, false, false, false)

  // ----- the critical sections -----

  function Queue(task: TaskState, callback: Callback): TaskState {
    task.(phase := callback.status, pendingStatuses := task.pendingStatuses + [callback])
  }

  function PopStatus(task: TaskState): TaskState {
    if task.pendingStatuses == [] then task
    else task.(pendingStatuses := task.pendingStatuses[1..])
  }

  function Terminate(task: TaskState, callback: Callback): TaskState {
    Queue(task, callback).(runtimeFinished := true, terminalOnly := true)
  }

  function FinishBundle(task: TaskState): TaskState {
    task.(runtimeFinished := true, phase := "uploading", bundleReady := true, resultPending := true)
  }

  function CapChunk(message: Bytes): Bytes {
    if |message| > MAXIMUM_LOG_CHUNK then message[..MAXIMUM_LOG_CHUNK] else message
  }

  predicate Accepts(task: TaskState, budget: int, contents: Bytes) {
    !task.logsTruncated && task.logBytes + |CapChunk(contents)| <= budget
  }

  function EntryFor(task: TaskState, stream: string, contents: Bytes): LogEntry {
    LogEntry(task.nextSequence, stream, CapChunk(contents))
  }

  function Write(task: TaskState, budget: int, stream: string, contents: Bytes): TaskState {
    if Accepts(task, budget, contents) then
      task.(nextSequence := task.nextSequence + 1,
            logBytes := task.logBytes + |CapChunk(contents)|,
            logs := task.logs + [EntryFor(task, stream, contents)])
    else task.(logsTruncated := true)
  }

  /** The spooled entries that Core has not acknowledged, in spool order. */
  function Above(logs: seq<LogEntry>, acknowledged: nat): seq<LogEntry> {
    if logs == [] then []
    else if logs[0].sequence > acknowledged then [logs[0]] + Above(logs[1..], acknowledged)
    else Above(logs[1..], acknowledged)
  }

  function ResumeAck(task: TaskState, acceptedThrough: nat): TaskState {
    task.(acknowledged := Max(task.acknowledged, acceptedThrough))
  }

  function LogAck(task: TaskState, acceptedThrough: nat): TaskState {
    var acknowledged := Max(task.acknowledged, acceptedThrough);
    task.(acknowledged := acknowledged,
          truncationAcknowledged := task.truncationAcknowledged || task.logsTruncated,
          logs := Above(task.logs, acknowledged))
  }

  function NextEntries(task: TaskState): seq<LogEntry> {
    var above := Above(task.logs, task.acknowledged);
    above[..Min(MAXIMUM_BATCH, |above|)]
  }

  /** The batch `flushLogs` sends next; None when it returns without a call. */
  function NextBatch(task: TaskState): Option<LogBatch> {
    var entries := NextEntries(task);
    if entries == [] && (!task.logsTruncated || task.truncationAcknowledged) then None
    else
      var first := if entries == [] then task.acknowledged + 1 else entries[0].sequence;
      Some(LogBatch(first, entries, task.logsTruncated))
  }

  // ----- numbering and conservation -----

  ghost predicate Numbered(all: seq<LogEntry>) {
    forall i :: 0 <= i < |all| ==> all[i].sequence == i + 1
  }

  /** The fields of a task record that hold its log spool. */
  datatype Spooling = Spooling(nextSequence: nat, acknowledged: nat, logs: seq<LogEntry>)

  function SpoolOf(task: TaskState): Spooling {
    Spooling(task.nextSequence, task.acknowledged, task.logs)
  }

  /** The spool is a suffix of `all`, the entries ever accepted, reaching at least below its acknowledgement. */
  ghost predicate Spooled(spool: Spooling, all: seq<LogEntry>) {
    && Numbered(all)
    && spool.nextSequence == |all| + 1
    && |spool.logs| <= |all|
    && |all| - |spool.logs| <= spool.acknowledged <= |all|
    && spool.logs == all[|all| - |spool.logs|..]
  }

  lemma {:induction false} AboveIsSuffix(all: seq<LogEntry>, from: nat, acknowledged: nat)
    requires Numbered(all) && from <= acknowledged <= |all|
    ensures Above(all[from..], acknowledged) == all[acknowledged..]
    decreases |all| - from
  {
    if from < acknowledged {
      assert all[from..][1..] == all[from + 1..];
      AboveIsSuffix(all, from + 1, acknowledged);
    } else {
      AboveNothing(all, from, acknowledged);
    }
  }

  lemma {:induction false} AboveNothing(all: seq<LogEntry>, from: nat, acknowledged: nat)
    requires Numbered(all) && acknowledged <= from <= |all|
    ensures Above(all[from..], acknowledged) == all[from..]
    decreases |all| - from
  {
    if from < |all| {
      assert all[from..][1..] == all[from + 1..];
      AboveNothing(all, from + 1, acknowledged);
    }
  }

  lemma UnacknowledgedIsTail(spool: Spooling, all: seq<LogEntry>)
    requires Spooled(spool, all)
    ensures Above(spool.logs, spool.acknowledged) == all[spool.acknowledged..]
  {
    AboveIsSuffix(all, |all| - |spool.logs|, spool.acknowledged);
  }

  lemma AppendKeepsSpooled(spool: Spooling, all: seq<LogEntry>, entry: LogEntry)
    requires Spooled(spool, all) && entry.sequence == spool.nextSequence
    ensures Spooled(Spooling(spool.nextSequence + 1, spool.acknowledged, spool.logs + [entry]), all + [entry])
  {
    var from := |all| - |spool.logs|;
    assert (all + [entry])[from..] == all[from..] + [entry];
  }

  lemma AcknowledgeKeepsSpooled(spool: Spooling, all: seq<LogEntry>, acknowledged: nat)
    requires Spooled(spool, all) && spool.acknowledged <= acknowledged <= |all|
    ensures Spooled(Spooling(spool.nextSequence, acknowledged, Above(spool.logs, acknowledged)), all)
  {
    AboveIsSuffix(all, |all| - |spool.logs|, acknowledged);
  }

  /** A batch is a contiguous slice that starts just above the acknowledgement. */
  lemma BatchIsContiguous(task: TaskState, all: seq<LogEntry>)
    requires Spooled(SpoolOf(task), all)
    ensures NextEntries(task) == all[task.acknowledged..Min(task.acknowledged + MAXIMUM_BATCH, |all|)]
    ensures NextBatch(task).Some? ==>
              NextBatch(task).value == LogBatch(task.acknowledged + 1, NextEntries(task), task.logsTruncated)
    ensures NextBatch(task).None?
       <==> task.acknowledged == |all| && (task.logsTruncated ==> task.truncationAcknowledged)
  {
    UnacknowledgedIsTail(SpoolOf(task), all);
    hide Above, Spooled;
    var tail := all[task.acknowledged..];
    assert tail[..Min(MAXIMUM_BATCH, |tail|)]
        == all[task.acknowledged..Min(task.acknowledged + MAXIMUM_BATCH, |all|)];
  }
}
