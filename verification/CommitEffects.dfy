/**
 What each statement of the commit queue does to the columns of the rows, and that no open
 operation is ever stuck (backend/internal/article/commit_operations.go:140-331).
 */
module CommitEffects {
  import opened Common
  import opened CommitOperations
  import opened CommitQueue

  predicate OpenStatus(operation: Operation) {
    operation.status.Queued? || operation.status.Running? || operation.status.RetryWait?
  }

  predicate NoLeaseAt(operation: Operation, now: Time) {
    operation.leaseExpiresAt == None || operation.leaseExpiresAt.value < now
  }

  /** An open row that is due, unleased and has an attempt left. */
  predicate Ready(operation: Operation, now: Time) {
    && OpenStatus(operation)
    && operation.attempts < operation.maxAttempts
    && operation.nextAttemptAt <= now
    && NoLeaseAt(operation, now)
  }

  /** An open, unleased row that has used all of its attempts. */
  predicate Spent(operation: Operation, now: Time) {
    OpenStatus(operation) && operation.attempts >= operation.maxAttempts && NoLeaseAt(operation, now)
  }

  /** The row handed out: one more attempt, under this owner's name, until the lease ends. */
  predicate HandedOut(before: Operation, after: Operation, owner: Owner, expires: Time) {
    after == before.(status := Running, attempts := before.attempts + 1, lockedBy := Some(owner),
                     leaseExpiresAt := Some(expires),
                     stage := if before.kind.Publication? && before.commitSha.Some? then Publishing else Committing)
  }

  /** The row that ran out of attempts: failed, with the reason of its last attempt if there is one. */
  predicate RanOut(before: Operation, after: Operation) {
    && after == before.(status := Failed, stage := Stopped, lockedBy := None, leaseExpiresAt := None,
                        errorCode := after.errorCode)
    && after.errorCode == if before.errorCode.Some? && before.errorCode.value != "" then before.errorCode
                          else Some("ARTICLE_OPERATION_RETRY_EXHAUSTED")
  }

  /** A claim may pick exactly the ready rows: queued, waiting for a retry, or running on a lease that has passed. */
  lemma ClaimPicksReady(world: World, owner: Owner, picked: set<OperationId>, lease: Time)
    ensures Possible(world, Claim(owner, picked, lease))
      <==> lease > 0 && forall id :: id in picked ==> id in world.operations && Ready(world.operations[id], world.clock)
  {
    forall id | id in world.operations
      ensures CommitOperations.Claimable(world.operations[id], world.clock) <==> Ready(world.operations[id], world.clock)
    {
    }
    hide CommitOperations.Claimable, Ready;
  }

  /** What one claim does to every row, and what it hands to its owner. */
  lemma ClaimEffect(world: World, owner: Owner, picked: set<OperationId>, lease: Time, workspace: OperationId -> Sha)
    requires Enabled(world, Claim(owner, picked, lease))
    ensures
      var next := Next(world, Claim(owner, picked, lease), workspace);
      && next.operations.Keys == world.operations.Keys && next.commits == world.commits && next.clock == world.clock
      && (forall id :: id in world.operations ==>
            var before, after := world.operations[id], next.operations[id];
            if id in picked then HandedOut(before, after, owner, world.clock + lease)
            else if Spent(before, world.clock) then RanOut(before, after)
            else after == before)
    ensures
      var next := Next(world, Claim(owner, picked, lease), workspace);
      && (forall id :: id in picked ==>
            var key := Key(owner, id, world.operations[id].attempts + 1);
            key in next.work && next.work[key] == Item(world.clock + lease, false))
      && (forall key: Key :: key.owner != owner ==> (key in next.work <==> key in world.work))
      && (forall key :: key in world.work ==> key in next.work && next.work[key] == world.work[key])
  {
    ClaimPicksReady(world, owner, picked, lease);
    hide HandOut;
    HandingOut(world, owner, picked, lease);
  }

  lemma HandingOut(world: World, owner: Owner, picked: set<OperationId>, lease: Time)
    requires picked <= world.operations.Keys && Idle(world, owner)
    ensures
      var handed := HandOut(world, owner, picked, lease);
      && (forall id :: id in picked ==>
            var key := Key(owner, id, world.operations[id].attempts + 1);
            key in handed && handed[key] == Item(world.clock + lease, false))
      && (forall key :: key in handed ==> key.owner == owner && key !in world.work)
  {
  }

  /** The row runs under the name of the owner of this work. */
  predicate Holds(world: World, key: Key) {
    && Busy(world, key)
    && world.operations[key.id].status.Running? && world.operations[key.id].lockedBy == Some(key.owner)
  }

  /**
   A statement for a work item changes the row of that item and no other. Without the row
   under its owner's name it changes no row at all; with it, the columns become what they
   should: a renewed lease, a commit, success, failure for good, or a wait for the retry time.
   */
  lemma StatementEffect(world: World, step: Step, key: Key, workspace: OperationId -> Sha)
    requires Enabled(world, step) && ActsFor(step, key)
    ensures
      var next := Next(world, step, workspace);
      && next.operations == world.operations[key.id := next.operations[key.id]] && next.clock == world.clock
      && (!Holds(world, key) ==> next.operations == world.operations && next.commits == world.commits)
      && (Holds(world, key) ==>
            var before, after := world.operations[key.id], next.operations[key.id];
            match step
            case RenewLease(_, lease) => after == before.(leaseExpiresAt := Some(world.clock + lease))
            case Finish(_) =>
              && after.status.Succeeded? && after.stage.Completed? && after.errorCode.None?
              && Released(before, after) && after.nextAttemptAt == before.nextAttemptAt
            case GiveUp(_, code, terminal, retryAt) =>
              && Released(before, after) && after.errorCode == Some(code) && after.nextAttemptAt == retryAt
              && (if terminal || before.attempts >= before.maxAttempts then after.status.Failed? && after.stage.Stopped?
                  else after.status.RetryWait? && after.stage.Waiting?)
            case _ => true)
  {
    assert Holds(world, key) <==> HeldBy(world.operations[key.id], key.owner);
    hide BindRow, KeyTaken, CommitFor, ShaOf, Holds;
  }

  /** Nobody's name is on the row any more; the commit and the counters are what they were. */
  predicate Released(before: Operation, after: Operation) {
    && after.lockedBy.None? && after.leaseExpiresAt.None?
    && after.kind == before.kind && after.commitId == before.commitId && after.commitSha == before.commitSha
    && after.attempts == before.attempts && after.maxAttempts == before.maxAttempts && after.createdAt == before.createdAt
  }

  /**
   Binding writes commit and row together. A commit that is already recorded under this hash
   keeps its ID and the row takes it over; otherwise the row's own ID is recorded, unless
   another commit has it, in which case nothing changes.
   */
  lemma BindEffect(world: World, key: Key, workspace: OperationId -> Sha)
    requires Enabled(world, Bind(key)) && Holds(world, key)
    ensures
      var before, next := world.operations[key.id], Next(world, Bind(key), workspace);
      var sha := if before.commitSha.Some? then before.commitSha.value else workspace(key.id);
      var after := next.operations[key.id];
      if sha in world.commits || forall other :: other in world.commits ==> world.commits[other] != before.commitId then
        && sha in next.commits && next.commits == world.commits[sha := next.commits[sha]]
        && next.commits[sha] == (if sha in world.commits then world.commits[sha] else before.commitId)
        && after == before.(commitSha := Some(sha), commitId := next.commits[sha], errorCode := None,
                            stage := if before.kind.Publication? then Publishing else Committing)
        && next.work == world.work[key := Item(world.work[key].expires, true)]
      else next == world
  {
    var before := world.operations[key.id];
    var sha := ShaOf(world, key.id, workspace);
    if sha !in world.commits && before.commitId in world.commits.Values {
      var other :| other in world.commits && world.commits[other] == before.commitId;
    }
  }

  /** The other steps: a new row waits untouched for its time, and no other step changes the tables. */
  lemma QuietEffect(world: World, step: Step, workspace: OperationId -> Sha)
    requires Enabled(world, step) && (step.Tick? || step.Create? || step.Abandon? || step.Crash?)
    ensures
      var next := Next(world, step, workspace);
      && next.commits == world.commits
      && (next.clock == if step.Tick? then step.now else world.clock)
      && (!step.Create? ==> next.operations == world.operations)
      && (step.Create? ==>
            && step.id !in world.operations && step.id in next.operations
            && next.operations == world.operations[step.id := next.operations[step.id]]
            && next.operations[step.id].(stage := Waiting)
               == Operation(step.kind, Queued, Waiting, step.commitId, None, 0, step.maxAttempts, step.notBefore,
                            world.clock, None, None, None))
      && (forall key :: key in next.work <==>
            key in world.work && !(step.Abandon? && key == step.key) && !(step.Crash? && key.owner == step.owner))
  {
  }

  // ----- what every row looks like -----

  predicate RowFits(operation: Operation, now: Time) {
    && 1 <= operation.maxAttempts
    && match operation.status
       case Queued => operation.attempts == 0 && operation.stage.Waiting? && operation.errorCode.None?
       case Running =>
         && operation.attempts >= 1 && operation.nextAttemptAt <= now
         && operation.stage == if operation.kind.Publication? && operation.commitSha.Some? then Publishing else Committing
       case RetryWait =>
         1 <= operation.attempts < operation.maxAttempts && operation.stage.Waiting? && operation.errorCode.Some?
       case Succeeded => operation.attempts >= 1 && operation.stage.Completed? && operation.errorCode.None?
       case Failed => operation.attempts >= 1 && operation.stage.Stopped? && operation.errorCode.Some?
  }

  ghost predicate RowsFit(world: World) {
    forall id :: id in world.operations ==> RowFits(world.operations[id], world.clock)
  }

  lemma ClaimedFits(operation: Operation, picked: bool, owner: Owner, now: Time, lease: Time)
    requires RowFits(operation, now) && (picked ==> CommitOperations.Claimable(operation, now))
    ensures RowFits(AfterClaim(operation, picked, owner, now, lease), now)
  {
  }

  lemma StepKeepsFit(world: World, step: Step, workspace: OperationId -> Sha)
    requires RowsFit(world) && Enabled(world, step)
    ensures RowsFit(Next(world, step, workspace))
  {
    if step.Claim? {
      forall id | id in world.operations
        ensures RowFits(AfterClaim(world.operations[id], id in step.picked, step.owner, world.clock, step.lease), world.clock)
      {
        ClaimedFits(world.operations[id], id in step.picked, step.owner, world.clock, step.lease);
      }
      hide RowFits, AfterClaim, CommitOperations.Claimable;
    } else {
      QuietStepKeepsFit(world, step, workspace);
    }
  }

  lemma QuietStepKeepsFit(world: World, step: Step, workspace: OperationId -> Sha)
    requires RowsFit(world) && Enabled(world, step) && !step.Claim?
    ensures RowsFit(Next(world, step, workspace))
  {
    hide KeyTaken, CommitFor, ShaOf, Idle;
  }

  /** In every reachable state status, stage, attempts and error of a row belong together. */
  lemma {:induction false} RunKeepsFit(worlds: seq<World>, steps: seq<Step>, workspace: OperationId -> Sha, i: nat)
    requires IsRun(worlds, steps, workspace) && i < |worlds|
    ensures RowsFit(worlds[i])
    decreases i
  {
    if i > 0 {
      RunKeepsFit(worlds, steps, workspace, i - 1);
      StepKeepsFit(worlds[i - 1], steps[i - 1], workspace);
      hide Next, Enabled, RowsFit;
    }
  }

  // ----- no open operation is stuck -----

  /**
   In every reachable state an open row is held by an unexpired lease, or waits for its time
   (which a running row never does), or has used its attempts, or any idle coordinator can
   claim it now. A row that has used its attempts fails with the next claim of anyone once
   its lease has passed.
   */
  lemma NoOpenRowIsStuck(worlds: seq<World>, steps: seq<Step>, workspace: OperationId -> Sha, i: nat,
                         id: OperationId, owner: Owner, lease: Time)
    requires IsRun(worlds, steps, workspace) && i < |worlds| && id in worlds[i].operations
    requires !worlds[i].operations[id].status.Succeeded? && !worlds[i].operations[id].status.Failed?
    requires Idle(worlds[i], owner) && lease > 0
    ensures
      var row, now := worlds[i].operations[id], worlds[i].clock;
      || (row.status.Running? && row.leaseExpiresAt.Some? && row.leaseExpiresAt.value >= now)
      || (!row.status.Running? && row.nextAttemptAt > now)
      || row.attempts == row.maxAttempts
      || Enabled(worlds[i], Claim(owner, {id}, lease))
    ensures
      var row, now := worlds[i].operations[id], worlds[i].clock;
      row.attempts == row.maxAttempts && (row.leaseExpiresAt.Some? ==> row.leaseExpiresAt.value < now) ==>
        && Enabled(worlds[i], Claim(owner, {}, lease))
        && RanOut(row, Next(worlds[i], Claim(owner, {}, lease), workspace).operations[id])
  {
    RunKeepsInvariant(worlds, steps, workspace, i);
    RunKeepsFit(worlds, steps, workspace, i);
    var world := worlds[i];
    assert RowSound(world.operations[id], world.commits) && RowFits(world.operations[id], world.clock);
    ClaimPicksReady(world, owner, {id}, lease);
    ClaimPicksReady(world, owner, {}, lease);
    ClaimEffect(world, owner, {}, lease, workspace);
    hide Invariant, IsRun, Possible, Next, RowsFit, Idle;
  }

  /** No claim between the two states picked this row. */
  predicate NotClaimed(steps: seq<Step>, from: nat, until: nat, id: OperationId)
    requires from <= until <= |steps|
  {
    forall k :: from <= k < until && steps[k].Claim? ==> id !in steps[k].picked
  }

  lemma WaitingStaysPut(world: World, step: Step, workspace: OperationId -> Sha, id: OperationId)
    requires Enabled(world, step) && id in world.operations && world.operations[id].status.RetryWait?
    requires world.operations[id].attempts < world.operations[id].maxAttempts
    requires step.Claim? ==> id !in step.picked
    ensures id in Next(world, step, workspace).operations
    ensures Next(world, step, workspace).operations[id] == world.operations[id]
  {
  }

  lemma {:induction false} WaitingRowStays(worlds: seq<World>, steps: seq<Step>, workspace: OperationId -> Sha,
                                           from: nat, until: nat, id: OperationId)
    requires IsRun(worlds, steps, workspace) && from <= until < |worlds|
    requires id in worlds[from].operations && worlds[from].operations[id].status.RetryWait?
    requires worlds[from].operations[id].attempts < worlds[from].operations[id].maxAttempts
    requires NotClaimed(steps, from, until, id)
    ensures id in worlds[until].operations && worlds[until].operations[id] == worlds[from].operations[id]
    decreases until
  {
    hide Next, Enabled;
    if from < until {
      WaitingRowStays(worlds, steps, workspace, from, until - 1, id);
      WaitingStaysPut(worlds[until - 1], steps[until - 1], workspace, id);
    }
  }

  /**
   A failed attempt is retried: after a failure that is not terminal, with attempts left, and
   as long as no claim has picked the row again, it waits with the error for its retry time;
   an idle coordinator can claim it exactly from that time on.
   */
  lemma RetriedWhenDue(worlds: seq<World>, steps: seq<Step>, workspace: OperationId -> Sha, i: nat, j: nat,
                       owner: Owner, lease: Time)
    requires IsRun(worlds, steps, workspace) && i < j < |worlds|
    requires steps[i].GiveUp? && !steps[i].terminal && Holds(worlds[i], steps[i].key)
    requires worlds[i].operations[steps[i].key.id].attempts < worlds[i].operations[steps[i].key.id].maxAttempts
    requires NotClaimed(steps, i + 1, j, steps[i].key.id)
    requires Idle(worlds[j], owner) && lease > 0
    ensures
      var id, retryAt := steps[i].key.id, steps[i].retryAt;
      && id in worlds[j].operations
      && worlds[j].operations[id].status.RetryWait?
      && worlds[j].operations[id].attempts == worlds[i].operations[id].attempts
      && worlds[j].operations[id].errorCode == Some(steps[i].code)
      && (Enabled(worlds[j], Claim(owner, {id}, lease)) <==> worlds[j].clock >= retryAt)
  {
    var key := steps[i].key;
    StatementEffect(worlds[i], steps[i], key, workspace);
    hide Next, Possible;
    WaitingRowStays(worlds, steps, workspace, i + 1, j, key.id);
    ClaimPicksReady(worlds[j], owner, {key.id}, lease);
    hide IsRun, Idle, NotClaimed;
  }

  lemma Extend(worlds: seq<World>, steps: seq<Step>, workspace: OperationId -> Sha, step: Step)
    returns (worlds': seq<World>, steps': seq<Step>)
    requires IsRun(worlds, steps, workspace) && Enabled(worlds[|steps|], step)
    ensures IsRun(worlds', steps', workspace)
    ensures steps' == steps + [step] && worlds' == worlds + [Next(worlds[|steps|], step, workspace)]
  {
    worlds', steps' := worlds + [Next(worlds[|steps|], step, workspace)], steps + [step];
    hide Next, Enabled;
  }

  /** A time at which the row is due and no earlier lease holds it. */
  function DueTime(world: World, id: OperationId): Time
    requires id in world.operations
  {
    var row := world.operations[id];
    Max(Max(world.clock, row.nextAttemptAt), if row.leaseExpiresAt.Some? then row.leaseExpiresAt.value + 1 else world.clock)
  }

  lemma WaitingMakesReady(world: World, id: OperationId, workspace: OperationId -> Sha)
    requires id in world.operations && OpenStatus(world.operations[id])
    ensures
      var step := Tick(DueTime(world, id));
      && Enabled(world, step)
      && Next(world, step, workspace) == world.(clock := DueTime(world, id))
      && (Ready(world.operations[id], DueTime(world, id)) || Spent(world.operations[id], DueTime(world, id)))
  {
  }

  /** The commit of this operation can be recorded: its hash is known, or its ID is free. */
  predicate CanBind(world: World, id: OperationId, workspace: OperationId -> Sha)
    requires id in world.operations
  {
    var row := world.operations[id];
    || (if row.commitSha.Some? then row.commitSha.value else workspace(id)) in world.commits
    || forall other :: other in world.commits ==> world.commits[other] != row.commitId
  }

  /** Bind and finish, from a world in which the key holds its row. */
  lemma BindAndFinish(worlds: seq<World>, steps: seq<Step>, workspace: OperationId -> Sha, key: Key)
    returns (worlds': seq<World>, steps': seq<Step>)
    requires IsRun(worlds, steps, workspace) && Holds(worlds[|steps|], key) && CanBind(worlds[|steps|], key.id, workspace)
    ensures IsRun(worlds', steps', workspace) && steps' == steps + [Bind(key), Finish(key)]
    ensures key.id in worlds'[|steps'|].operations && worlds'[|steps'|].operations[key.id].status.Succeeded?
  {
    var world := worlds[|steps|];
    assert Enabled(world, Bind(key));
    BindEffect(world, key, workspace);
    var bound := Next(world, Bind(key), workspace);
    assert Holds(bound, key) && bound.work[key].bound;
    assert Enabled(bound, Finish(key));
    StatementEffect(bound, Finish(key), key, workspace);
    hide IsRun, Next, Enabled, CanBind, Holds;
    worlds', steps' := Extend(worlds, steps, workspace, Bind(key));
    worlds', steps' := Extend(worlds', steps', workspace, Finish(key));
  }

  /** The claim that takes up this row, or lets it fail when it has used its attempts. */
  function NextClaim(world: World, id: OperationId, owner: Owner): Step
    requires id in world.operations
  {
    Claim(owner, if world.operations[id].attempts < world.operations[id].maxAttempts then {id} else {}, 1)
  }

  lemma ClaimWhenDue(world: World, id: OperationId, owner: Owner, workspace: OperationId -> Sha)
    requires id in world.operations && OpenStatus(world.operations[id]) && Idle(world, owner)
    requires world.clock == DueTime(world, id) && CanBind(world, id, workspace)
    ensures
      var row, step := world.operations[id], NextClaim(world, id, owner);
      && Enabled(world, step)
      && var next := Next(world, step, workspace);
      && id in next.operations
      && (row.attempts >= row.maxAttempts ==> next.operations[id].status.Failed?)
      && (row.attempts < row.maxAttempts ==>
            Holds(next, Key(owner, id, row.attempts + 1)) && CanBind(next, id, workspace))
  {
    WaitingMakesReady(world, id, workspace);
    var step := NextClaim(world, id, owner);
    ClaimPicksReady(world, owner, step.picked, 1);
    ClaimEffect(world, owner, step.picked, 1, workspace);
    if step.picked == {id} {
      assert id in step.picked;
      assert HandedOut(world.operations[id], Next(world, step, workspace).operations[id], owner, world.clock + 1);
    }
    hide Next, Possible, Idle, DueTime, Ready;
  }

  /**
   From every reachable state every open operation can be brought to its end by any one idle
   coordinator in at most four steps: it succeeds if it has an attempt left and its commit can
   be recorded, and fails if it has used its attempts.
   */
  lemma EveryOperationCanEnd(worlds: seq<World>, steps: seq<Step>, workspace: OperationId -> Sha,
                             id: OperationId, owner: Owner)
    returns (worlds': seq<World>, steps': seq<Step>)
    requires IsRun(worlds, steps, workspace) && id in worlds[|steps|].operations && Idle(worlds[|steps|], owner)
    requires OpenStatus(worlds[|steps|].operations[id]) && CanBind(worlds[|steps|], id, workspace)
    ensures IsRun(worlds', steps', workspace)
    ensures steps <= steps' && |steps'| <= |steps| + 4 && id in worlds'[|steps'|].operations
    ensures
      var before, after := worlds[|steps|].operations[id], worlds'[|steps'|].operations[id];
      if before.attempts < before.maxAttempts then after.status.Succeeded? else after.status.Failed?
  {
    var world := worlds[|steps|];
    var row, due := world.operations[id], world.(clock := DueTime(world, id));
    WaitingMakesReady(world, id, workspace);
    ClaimWhenDue(due, id, owner, workspace);
    var claim := NextClaim(due, id, owner);
    hide IsRun, Next, Possible, CanBind, Holds, DueTime, OpenStatus, NextClaim;
    worlds', steps' := Extend(worlds, steps, workspace, Tick(due.clock));
    worlds', steps' := Extend(worlds', steps', workspace, claim);
    if row.attempts < row.maxAttempts {
      worlds', steps' := BindAndFinish(worlds', steps', workspace, Key(owner, id, row.attempts + 1));
    }
  }
}
