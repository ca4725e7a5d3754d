/**
 The Gateway object itself (box/gateway/gateway.go:86-97): every critical
 section of `mu` as a method proved against the transition functions of `Spool`,
 and the delivery loops of one pass when no other goroutine interferes. How the
 sections interleave is the subject of `GatewayProtocol`.
 */
module GatewayObject {
  import opened Common
  import opened Spool
  import opened GatewayProtocol

  /** What happens to one request: taken and answered, taken but the answer is lost, or never taken. */
  datatype Fate = Answered | AnswerLost | Refused

  /** What the resume request comes back with; any answer but "continue" stops the task. */
  datatype ResumeAnswer = ResumeFailed | Continues(acceptedThrough: nat) | Stops(supported: bool)

  /** A Core that acknowledges what it takes; `fates` is consumed call by call, then every call is answered. */
  class Core {
    var statuses: seq<Callback>
    var received: seq<LogEntry>
    var artifact: bool
    var result: bool
    var fates: seq<Fate>

    constructor (fates: seq<Fate>)
      ensures statuses == [] && received == [] && !artifact && !result && this.fates == fates
    {
      statuses, received, artifact, result := [], [], false, false;
      this.fates := fates;
    }

    /** What becomes of the next call. */
    function Head(): Fate
      reads this`fates
    {
      if fates == [] then Answered else fates[0]
    }

    /** Every call from now on is answered. */
    predicate Prompt()
      reads this`fates
    {
      forall i :: 0 <= i < |fates| ==> fates[i].Answered?
    }

    method NextFate() returns (fate: Fate)
      modifies this`fates
      ensures fate == old(Head())
      ensures old(Prompt()) ==> Prompt() && fate.Answered?
    {
      if fates == [] {
        fate := Answered;
      } else {
        fate := fates[0];
        fates := fates[1..];
      }
    }

    method Status(callback: Callback) returns (ok: bool)
      modifies this`fates, this`statuses
      ensures statuses == if old(Head()).Refused? then old(statuses) else old(statuses) + [callback]
      ensures ok <==> old(Head()).Answered?
      ensures old(Prompt()) ==> ok && Prompt()
    {
      var fate := NextFate();
      if !fate.Refused? {
        statuses := statuses + [callback];
      }
      ok := fate.Answered?;
    }

    method Logs(batch: LogBatch) returns (ok: bool, acceptedThrough: nat)
      modifies this`fates, this`received
      ensures received == if old(Head()).Refused? then old(received) else Absorb(old(received), batch)
      ensures ok <==> old(Head()).Answered?
      ensures old(Prompt()) ==> ok && Prompt()
      ensures acceptedThrough == |received|
    {
      var fate := NextFate();
      if !fate.Refused? {
        received := Absorb(received, batch);
      }
      ok, acceptedThrough := fate.Answered?, |received|;
    }

    method Upload() returns (ok: bool)
      modifies this`fates, this`artifact
      ensures artifact <==> old(artifact) || !old(Head()).Refused?
      ensures ok <==> old(Head()).Answered?
      ensures old(Prompt()) ==> ok && Prompt()
    {
      var fate := NextFate();
      artifact := artifact || !fate.Refused?;
      ok := fate.Answered?;
    }

    method Result() returns (ok: bool)
      modifies this`fates, this`result
      ensures result <==> old(result) || !old(Head()).Refused?
      ensures ok <==> old(Head()).Answered?
      ensures old(Prompt()) ==> ok && Prompt()
    {
      var fate := NextFate();
      result := result || !fate.Refused?;
      ok := fate.Answered?;
    }
  }

  datatype TaskIdentity = TaskIdentity(id: TaskId, epoch: string, boxId: string)

  class Gateway {
    const boxId: string
    const maxConcurrent: nat
    const logBudget: int
    var tasks: map<TaskId, TaskState>
    var running: map<TaskId, Control>

    /** The state file is the task table; executors never survive a restart. */
    constructor (boxId: string, maxConcurrent: nat, logBudget: int, persisted: map<TaskId, TaskState>)
      ensures this.boxId == boxId && this.maxConcurrent == maxConcurrent && this.logBudget == logBudget
      ensures tasks == persisted && running == map[]
    {
      this.boxId := boxId;
      this.maxConcurrent := maxConcurrent;
      this.logBudget := logBudget;
      tasks := persisted;
      running := map[];
    }

    // ----- executors and their controls -----

    /** A task that Core hands out is recorded once and launched; a foreign or nameless one is ignored. */
    method StartTask(task: TaskIdentity) returns (launched: bool)
      modifies this`tasks, this`running
      ensures
        var accepted := task.id != "" && task.epoch != "" && task.boxId == boxId && task.id !in old(tasks);
        && tasks == (if accepted then old(tasks)[task.id := NewTask] else old(tasks))
        && (launched <==> accepted && task.id !in old(running) && |old(running)| < maxConcurrent)
        && running == (if launched then old(running)[task.id := Control(false, false, false, false)] else old(running))
    {
      if task.id == "" || task.epoch == "" || task.boxId != boxId {
        return false;
      }
      if task.id in tasks {
        return false;
      }
      tasks := tasks[task.id := NewTask];
      launched := LaunchTask(task.id);
    }

    method LaunchTask(id: TaskId) returns (launched: bool)
      modifies this`running
      ensures launched <==> id !in old(running) && |old(running)| < maxConcurrent
      ensures running == if launched then old(running)[id := Control(false, false, false, false)] else old(running)
      ensures |old(running)| <= maxConcurrent ==> |running| <= maxConcurrent
    {
      if id in running || |running| >= maxConcurrent {
        return false;
      }
      running := running[id := Control(false, false, false, false)];
      return true;
    }

    /** The tasks `resumeLocalTasks` launches: those whose runtime has not finished. */
    method Unfinished() returns (ids: set<TaskId>)
      ensures forall id :: id in ids <==> id in tasks && !tasks[id].runtimeFinished
    {
      ids := {};
      var rest := tasks.Keys;
      while rest != {}
        invariant rest <= tasks.Keys
        invariant forall id :: id in ids <==> id in tasks.Keys - rest && !tasks[id].runtimeFinished
        decreases |rest|
      {
        var id :| id in rest;
        if !tasks[id].runtimeFinished {
          ids := ids + {id};
        }
        rest := rest - {id};
      }
    }

    method AttachRuntime(id: TaskId) returns (stopRequested: bool)
      modifies this`running
      ensures stopRequested <==> id in old(running) && old(running)[id].stopRequested
      ensures running == if id in old(running) then old(running)[id := old(running)[id].(attached := true)]
                         else old(running)
    {
      if id !in running {
        return false;
      }
      running := running[id := running[id].(attached := true)];
      return running[id].stopRequested;
    }

    /** The critical section of `applyStopAction`; without a control the local state goes at once. */
    method ApplyStop(id: TaskId) returns (cancel: bool)
      modifies this
      ensures cancel <==> id in old(running) && old(running)[id].attached
      ensures id in old(running) ==>
        && tasks == old(tasks)
        && running == old(running)[id := old(running)[id].(stopRequested := true, cleanupRequested := true)]
      ensures id !in old(running) ==> running == old(running) && tasks == old(tasks) - {id}
    {
      if id in running {
        running := running[id := running[id].(stopRequested := true, cleanupRequested := true)];
        return running[id].attached;
      }
      CleanupTask(id);
      return false;
    }

    /** The deferred end of an executor: it gives up its control and then keeps a promised cleanup. */
    method ExitExecutor(id: TaskId)
      modifies this
      ensures running == old(running) - {id}
      ensures tasks == if id in old(running) && old(running)[id].cleanupRequested then old(tasks) - {id}
                       else old(tasks)
    {
      var cleanup := id in running && running[id].cleanupRequested;
      running := running - {id};
      if cleanup {
        CleanupTask(id);
      }
    }

    method CleanupTask(id: TaskId)
      modifies this`tasks
      ensures tasks == old(tasks) - {id}
    {
      tasks := tasks - {id};
    }

    // ----- statuses -----

    method QueueStatus(id: TaskId, callback: Callback)
      modifies this`tasks
      ensures tasks == if id in old(tasks) then old(tasks)[id := Queue(old(tasks)[id], callback)] else old(tasks)
    {
      if id in tasks {
        var task := tasks[id];
        tasks := tasks[id := task.(phase := callback.status, pendingStatuses := task.pendingStatuses + [callback])];
      }
    }

    method TerminalTask(id: TaskId, callback: Callback)
      modifies this`tasks
      ensures tasks == if id in old(tasks) then old(tasks)[id := Terminate(old(tasks)[id], callback)] else old(tasks)
    {
      if id !in tasks {
        return;
      }
      var task := tasks[id].(runtimeFinished := true, terminalOnly := true, phase := callback.status);
      tasks := tasks[id := task.(pendingStatuses := task.pendingStatuses + [callback])];
    }

    /**
     The loop of `flushStatuses`: `popped` statuses left the queue. Core saw
     exactly those, and at most the next one besides: a head whose answer was lost.
     */
    method FlushStatuses(id: TaskId, core: Core) returns (ok: bool, ghost popped: nat)
      requires id in tasks
      modifies this`tasks, core`statuses, core`fates
      ensures popped <= |old(tasks)[id].pendingStatuses|
      ensures tasks == old(tasks)[id := Popped(old(tasks)[id], popped)]
      ensures ok ==> popped == |old(tasks)[id].pendingStatuses|
      ensures old(core.Prompt()) ==> ok && core.Prompt()
      ensures
        var queue := old(tasks)[id].pendingStatuses;
        || core.statuses == old(core.statuses) + queue[..popped]
        || (!ok && popped < |queue| && core.statuses == old(core.statuses) + queue[..popped + 1])
    {
      ghost var before, seen := tasks, core.statuses;
      ghost var queue := tasks[id].pendingStatuses;
      popped := 0;
      while tasks[id].pendingStatuses != []
        invariant popped <= |queue|
        invariant id in tasks && tasks[id].pendingStatuses == queue[popped..]
        invariant tasks == before[id := Popped(before[id], popped)]
        invariant core.statuses == seen + queue[..popped]
        invariant old(core.Prompt()) ==> core.Prompt()
        decreases |queue| - popped
      {
        var head := tasks[id].pendingStatuses[0];
        ok := core.Status(head);
        assert queue[..popped + 1] == queue[..popped] + [head];
        if !ok {
          return;
        }
        PoppedOnce(before[id], popped);
        tasks := tasks[id := PopStatus(tasks[id])];
        popped := popped + 1;
      }
      return true, popped;
    }

    static function Popped(task: TaskState, n: nat): TaskState
      requires n <= |task.pendingStatuses|
    {
      task.(pendingStatuses := task.pendingStatuses[n..])
    }

    static lemma PoppedOnce(task: TaskState, n: nat)
      requires n < |task.pendingStatuses|
      ensures PopStatus(Popped(task, n)) == Popped(task, n + 1)
    {
    }

    // ----- logs -----

    method Write(id: TaskId, stream: string, contents: Bytes)
      modifies this`tasks
      ensures tasks == if id in old(tasks) then old(tasks)[id := Spool.Write(old(tasks)[id], logBudget, stream, contents)]
                       else old(tasks)
    {
      var message := contents;
      if |message| > MAXIMUM_LOG_CHUNK {
        message := message[..MAXIMUM_LOG_CHUNK];
      }
      if id !in tasks {
        return;
      }
      var task := tasks[id];
      if task.logsTruncated || task.logBytes + |message| > logBudget {
        if !task.logsTruncated {
          tasks := tasks[id := task.(logsTruncated := true)];
        }
        return;
      }
      var entry := LogEntry(task.nextSequence, stream, message);
      tasks := tasks[id := task.(nextSequence := task.nextSequence + 1,
                                 logBytes := task.logBytes + |message|,
                                 logs := task.logs + [entry])];
    }

    static lemma AboveUnfolds(logs: seq<LogEntry>, i: nat, acknowledged: nat)
      requires i < |logs|
      ensures Above(logs[i..], acknowledged)
        == (if logs[i].sequence > acknowledged then [logs[i]] else []) + Above(logs[i + 1..], acknowledged)
    {
      assert logs[i..][1..] == logs[i + 1..];
    }

    static lemma AboveNone(acknowledged: nat)
      ensures Above([], acknowledged) == []
    {
    }

    /** The first loop of `flushLogs`: collect up to one batch of unacknowledged entries. */
    method CollectBatch(task: TaskState) returns (entries: seq<LogEntry>)
      ensures entries == NextEntries(task)
    {
      hide Above;
      assert task.logs[0..] == task.logs;
      entries := [];
      var i := 0;
      while i < |task.logs|
        invariant 0 <= i <= |task.logs|
        invariant |entries| < MAXIMUM_BATCH
        invariant entries + Above(task.logs[i..], task.acknowledged) == Above(task.logs, task.acknowledged)
      {
        AboveUnfolds(task.logs, i, task.acknowledged);
        if task.logs[i].sequence > task.acknowledged {
          entries := entries + [task.logs[i]];
          if |entries| == MAXIMUM_BATCH {
            return;
          }
        }
        i := i + 1;
      }
      assert task.logs[i..] == [];
      AboveNone(task.acknowledged);
    }

    /** The second loop of `flushLogs`: keep what Core has not acknowledged. */
    method KeepAbove(logs: seq<LogEntry>, acknowledged: nat) returns (remaining: seq<LogEntry>)
      ensures remaining == Above(logs, acknowledged)
    {
      hide Above;
      assert logs[0..] == logs;
      remaining := [];
      var i := 0;
      while i < |logs|
        invariant 0 <= i <= |logs|
        invariant remaining + Above(logs[i..], acknowledged) == Above(logs, acknowledged)
      {
        AboveUnfolds(logs, i, acknowledged);
        if logs[i].sequence > acknowledged {
          remaining := remaining + [logs[i]];
        }
        i := i + 1;
      }
      assert logs[i..] == [];
      AboveNone(acknowledged);
    }

    method Acknowledge(id: TaskId, acceptedThrough: nat)
      modifies this`tasks
      ensures tasks == if id in old(tasks) then old(tasks)[id := LogAck(old(tasks)[id], acceptedThrough)]
                       else old(tasks)
    {
      if id !in tasks {
        return;
      }
      var task := tasks[id];
      var acknowledged := task.acknowledged;
      if acceptedThrough > acknowledged {
        acknowledged := acceptedThrough;
      }
      var remaining := KeepAbove(task.logs, acknowledged);
      tasks := tasks[id := task.(acknowledged := acknowledged, logs := remaining,
                                 truncationAcknowledged := task.truncationAcknowledged || task.logsTruncated)];
    }

    /** The spool and Core together still hold `accepted`, everything `write` ever took for the task. */
    static ghost predicate Holds(task: TaskState, received: seq<LogEntry>, accepted: seq<LogEntry>) {
      && Spooled(SpoolOf(task), accepted)
      && received <= accepted
      && task.acknowledged <= |received|
    }

    static predicate SameButLogs(task: TaskState, next: TaskState) {
      next == task.(acknowledged := next.acknowledged, logs := next.logs,
                    truncationAcknowledged := next.truncationAcknowledged)
    }

    /** Core has everything, and knows of a truncation. */
    static ghost predicate Flushed(task: TaskState, received: seq<LogEntry>, accepted: seq<LogEntry>) {
      && received == accepted
      && task.acknowledged == |accepted|
      && (task.logsTruncated ==> task.truncationAcknowledged)
    }

    static lemma NothingToSend(task: TaskState, received: seq<LogEntry>, accepted: seq<LogEntry>)
      requires Holds(task, received, accepted) && NextBatch(task).None?
      ensures Flushed(task, received, accepted)
    {
      BatchIsContiguous(task, accepted);
    }

    static lemma SendingHolds(task: TaskState, received: seq<LogEntry>, accepted: seq<LogEntry>)
      requires Holds(task, received, accepted) && NextBatch(task).Some?
      ensures
        var received' := Absorb(received, NextBatch(task).value);
        Holds(task, received', accepted) && |received'| >= task.acknowledged + |NextEntries(task)|
    {
      BatchIsContiguous(task, accepted);
      AbsorbingExtends(received, NextBatch(task).value, accepted);
    }

    /** One acknowledged batch: progress, and after a short batch nothing is left. */
    static lemma AcknowledgingHolds(task: TaskState, received: seq<LogEntry>, accepted: seq<LogEntry>)
      requires Holds(task, received, accepted) && |received| >= task.acknowledged + |NextEntries(task)|
      ensures
        var next := LogAck(task, |received|);
        && Holds(next, received, accepted)
        && next.acknowledged == |received|
        && (|NextEntries(task)| < MAXIMUM_BATCH ==> Flushed(next, received, accepted))
    {
      BatchIsContiguous(task, accepted);
      AcknowledgeKeepsSpooled(SpoolOf(task), accepted, |received|);
    }

    /**
     `flushLogs` with no writer running and a Core that acknowledges what it took:
     it terminates, and when it succeeds Core holds every entry ever accepted.
     */
    method FlushLogs(id: TaskId, core: Core, ghost accepted: seq<LogEntry>) returns (ok: bool)
      requires id in tasks && Holds(tasks[id], core.received, accepted)
      modifies this`tasks, core`received, core`fates
      ensures id in tasks && tasks == old(tasks)[id := tasks[id]] && SameButLogs(old(tasks)[id], tasks[id])
      ensures Holds(tasks[id], core.received, accepted)
      ensures ok ==> Flushed(tasks[id], core.received, accepted)
      ensures old(core.Prompt()) ==> ok && core.Prompt()
      decreases |accepted| - tasks[id].acknowledged
    {
      hide Spooled, Absorb, Above;
      var task := tasks[id];
      var entries := CollectBatch(task);
      if entries == [] && (!task.logsTruncated || task.truncationAcknowledged) {
        NothingToSend(task, core.received, accepted);
        return true;
      }
      var first := if entries != [] then entries[0].sequence else task.acknowledged + 1;
      SendingHolds(task, core.received, accepted);
      var through;
      ok, through := core.Logs(LogBatch(first, entries, task.logsTruncated));
      if !ok {
        return;
      }
      AcknowledgingHolds(task, core.received, accepted);
      Acknowledge(id, through);
      if |entries| == MAXIMUM_BATCH {
        ok := FlushLogs(id, core, accepted);
      }
    }

    static lemma AbsorbingExtends(received: seq<LogEntry>, batch: LogBatch, accepted: seq<LogEntry>)
      requires received <= accepted && 1 <= batch.firstSequence <= |received| + 1
      requires batch.firstSequence - 1 + |batch.entries| <= |accepted|
      requires batch.entries == accepted[batch.firstSequence - 1..batch.firstSequence - 1 + |batch.entries|]
      ensures received <= Absorb(received, batch) <= accepted
      ensures batch.firstSequence - 1 + |batch.entries| <= |Absorb(received, batch)|
    {
      var from, size := batch.firstSequence - 1, |batch.entries|;
      if |received| < from + size {
        assert batch.entries[|received| - from..] == accepted[|received|..from + size];
      }
    }

    // ----- the bundle and the whole pass -----

    method FinishBundle(id: TaskId)
      modifies this`tasks
      ensures tasks == if id in old(tasks) then old(tasks)[id := Spool.FinishBundle(old(tasks)[id])] else old(tasks)
    {
      if id in tasks {
        tasks := tasks[id := tasks[id].(runtimeFinished := true, phase := "uploading", bundleReady := true,
                                        resultPending := true)];
      }
    }

    /** Uploads once, reports, and removes the task only after Core accepted the result. */
    method FlushBundle(id: TaskId, core: Core) returns (ok: bool)
      modifies this`tasks, core
      ensures core.statuses == old(core.statuses) && core.received == old(core.received)
      ensures old(core.Prompt()) ==> ok
      ensures id in old(tasks) && old(tasks)[id].artifact ==> core.artifact == old(core.artifact)
      ensures id !in old(tasks) || !old(tasks)[id].bundleReady || !old(tasks)[id].resultPending ==>
        ok && tasks == old(tasks)
      ensures id in old(tasks) && old(tasks)[id].bundleReady && old(tasks)[id].resultPending ==>
        && (ok ==> tasks == old(tasks) - {id} && core.result && (core.artifact || old(tasks)[id].artifact))
        && (!ok ==> tasks == old(tasks) || (core.artifact && tasks == old(tasks)[id := old(tasks)[id].(artifact := true)]))
    {
      if id !in tasks || !tasks[id].bundleReady || !tasks[id].resultPending {
        return true;
      }
      if !tasks[id].artifact {
        var uploaded := core.Upload();
        if !uploaded {
          return false;
        }
        tasks := tasks[id := tasks[id].(artifact := true)];
      }
      var reported := core.Result();
      if !reported {
        return false;
      }
      CleanupTask(id);
      return true;
    }

    /** The critical section after a "continue" answer. */
    method AcknowledgeResume(id: TaskId, acceptedThrough: nat)
      modifies this`tasks
      ensures tasks == if id in old(tasks) then old(tasks)[id := ResumeAck(old(tasks)[id], acceptedThrough)] else old(tasks)
    {
      if id in tasks && acceptedThrough > tasks[id].acknowledged {
        tasks := tasks[id := tasks[id].(acknowledged := acceptedThrough)];
      }
    }

    static lemma ResumingHolds(task: TaskState, received: seq<LogEntry>, accepted: seq<LogEntry>, acceptedThrough: nat)
      requires Holds(task, received, accepted) && acceptedThrough <= |received|
      ensures Holds(ResumeAck(task, acceptedThrough), received, accepted)
    {
    }

    /** What a pass that succeeded leaves of the task it visited, and what Core then has. */
    ghost predicate Delivered(before: TaskState, statuses: seq<Callback>, accepted: seq<LogEntry>, id: TaskId, core: Core)
      reads this`tasks, core
    {
      && core.statuses == statuses + before.pendingStatuses
      && core.received == accepted
      && (id !in tasks <==> before.resultPending || before.terminalOnly)
      && (before.resultPending ==> core.result && (core.artifact || before.artifact))
      && (id in tasks ==> tasks[id] == before.(pendingStatuses := [], acknowledged := |accepted|, logs := tasks[id].logs,
                                               truncationAcknowledged := tasks[id].truncationAcknowledged))
    }

    /**
     `syncTask` with no other goroutine at work. A stop only marks the control, or removes the
     record when there is none. After "continue" it succeeds whenever every call is answered;
     when it succeeds, Core has the whole queue and every log entry, and the task is gone
     exactly if its result was pending or its terminal status was queued.
     */
    method SyncTask(id: TaskId, core: Core, answer: ResumeAnswer, ghost accepted: seq<LogEntry>)
      returns (ok: bool, cancel: bool)
      requires id in tasks ==>
        Holds(tasks[id], core.received, accepted) && (tasks[id].bundleReady <==> tasks[id].resultPending)
      requires answer.Continues? ==> answer.acceptedThrough <= |core.received|
      modifies this, core
      ensures id !in old(tasks) ==> ok && !cancel && tasks == old(tasks) && running == old(running)
      ensures id in old(tasks) && answer.ResumeFailed? ==> !ok && !cancel && tasks == old(tasks) && running == old(running)
      ensures id in old(tasks) && answer.Stops? ==>
        && (ok <==> answer.supported)
        && (cancel <==> id in old(running) && old(running)[id].attached)
        && (if id in old(running) then
              && tasks == old(tasks)
              && running == old(running)[id := old(running)[id].(stopRequested := true, cleanupRequested := true)]
            else running == old(running) && tasks == old(tasks) - {id})
      ensures !answer.Continues? || id !in old(tasks) ==>
        && core.statuses == old(core.statuses) && core.received == old(core.received)
        && core.artifact == old(core.artifact) && core.result == old(core.result)
      ensures id in old(tasks) && answer.Continues? ==>
        && !cancel && running == old(running)
        && (id in tasks ==> tasks == old(tasks)[id := tasks[id]] && Holds(tasks[id], core.received, accepted))
        && (id !in tasks ==> ok && tasks == old(tasks) - {id})
        && (ok ==> Delivered(old(tasks)[id], old(core.statuses), accepted, id, core))
        && (old(core.Prompt()) ==> ok)
    {
      cancel := false;
      if id !in tasks {
        return true, false;
      }
      match answer
      case ResumeFailed =>
        ok := false;
      case Stops(supported) =>
        cancel := ApplyStop(id);
        ok := supported;
      case Continues(acceptedThrough) =>
        ResumingHolds(tasks[id], core.received, accepted, acceptedThrough);
        AcknowledgeResume(id, acceptedThrough);
        hide Holds, Spool.ResumeAck;
        ghost var resumed := tasks[id];
        assert resumed.pendingStatuses == old(tasks)[id].pendingStatuses && resumed.resultPending == old(tasks)[id].resultPending
          && resumed.terminalOnly == old(tasks)[id].terminalOnly && resumed.bundleReady == old(tasks)[id].bundleReady by {
          ResumeKeepsRest(old(tasks)[id], acceptedThrough);
        }
        ok := DeliverTask(id, core, accepted);
    }

    static lemma ResumeKeepsRest(task: TaskState, acceptedThrough: nat)
      ensures ResumeAck(task, acceptedThrough) == task.(acknowledged := ResumeAck(task, acceptedThrough).acknowledged)
    {
    }

    /** The four deliveries of `syncTask` after Core answered "continue". */
    method DeliverTask(id: TaskId, core: Core, ghost accepted: seq<LogEntry>) returns (ok: bool)
      requires id in tasks && Holds(tasks[id], core.received, accepted)
      requires tasks[id].bundleReady <==> tasks[id].resultPending
      modifies this`tasks, core
      ensures id in tasks ==> tasks == old(tasks)[id := tasks[id]] && Holds(tasks[id], core.received, accepted)
      ensures id !in tasks ==> ok && tasks == old(tasks) - {id}
      ensures ok ==>
        && core.statuses == old(core.statuses) + old(tasks)[id].pendingStatuses
        && core.received == accepted
        && (id !in tasks <==> old(tasks)[id].resultPending || old(tasks)[id].terminalOnly)
        && (old(tasks)[id].resultPending ==> core.result && (core.artifact || old(tasks)[id].artifact))
        && (id in tasks ==>
              tasks[id] == old(tasks)[id].(pendingStatuses := [], acknowledged := |accepted|, logs := tasks[id].logs,
                                           truncationAcknowledged := tasks[id].truncationAcknowledged))
      ensures old(core.Prompt()) ==> ok
    {
      ghost var popped;
      ok, popped := FlushStatuses(id, core);
      if !ok {
        return;
      }
      ghost var queue := old(tasks)[id].pendingStatuses;
      assert queue[..|queue|] == queue;
      ok := FlushLogs(id, core, accepted);
      if !ok {
        return;
      }
      ok := FlushBundle(id, core);
      if !ok {
        return;
      }
      if id in tasks && tasks[id].terminalOnly && tasks[id].pendingStatuses == [] {
        CleanupTask(id);
      }
    }
  }
}
