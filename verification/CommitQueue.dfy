/**
 The leased queue with several coordinators, crashes and a common clock
 (backend/internal/article/commit_operations.go:390-589). `work` holds what each
 coordinator is processing; `RunOnce` waits for all of it before it claims again.
 */
module CommitQueue {
  import opened Common
  import opened CommitOperations

  /** One attempt that a coordinator was handed. */
  datatype Key = Key(owner: Owner, id: OperationId, attempt: nat)

  /** When the coordinator believes its lease ends, and whether it bound its commit. */
  datatype Item = Item(expires: Time, bound: bool)

  datatype World = World(
    operations: map<OperationId, Operation>,
    commits: Commits,
    work: map<Key, Item>,
    clock: Time)

  const Start := World(map[], map[], map[], 0)

  datatype Step =
    | Tick(now: Time)
    | Create(id: OperationId, kind: Kind, commitId: CommitId, maxAttempts: nat, notBefore: Time)
    | Claim(owner: Owner, picked: set<OperationId>, lease: Time)
    | RenewLease(key: Key, lease: Time)
    | Bind(key: Key)
    | Finish(key: Key)
    | GiveUp(key: Key, code: string, terminal: bool, retryAt: Time)
    | Abandon(key: Key)
    | Crash(owner: Owner)

  predicate Idle(world: World, owner: Owner) {
    forall key :: key in world.work ==> key.owner != owner
  }

  predicate Busy(world: World, key: Key) {
    key in world.work && key.id in world.operations
  }

  /**
   What the database and a coordinator's goroutines allow. `Abandon` is a goroutine that
   returns because a store statement failed; the others go on.
   */
  predicate Possible(world: World, step: Step) {
    match step
    case Tick(now) => world.clock <= now
    case Create(id, _, _, maxAttempts, _) => id !in world.operations && 1 <= maxAttempts <= 20
    case Claim(owner, picked, lease) =>
      lease > 0
      && forall id :: id in picked ==> id in world.operations && CommitOperations.Claimable(world.operations[id], world.clock)
    case RenewLease(key, lease) => Busy(world, key) && lease > 0
    case Bind(key) => Busy(world, key)
    case Finish(key) => Busy(world, key) && world.work[key].bound
    case GiveUp(key, _, _, _) => Busy(world, key)
    case Abandon(key) => key in world.work
    case Crash(owner) => true
  }

  /** `RunOnce` claims only when all of its earlier work has returned. */
  predicate Enabled(world: World, step: Step) {
    Possible(world, step) && (step.Claim? ==> Idle(world, step.owner))
  }

  /** The rows a claim returns to its coordinator. */
  function HandOut(world: World, owner: Owner, picked: set<OperationId>, lease: Time): map<Key, Item>
    requires picked <= world.operations.Keys
  {
    var keys := set id | id in picked :: Key(owner, id, world.operations[id].attempts + 1);
    map key | key in keys :: Item(world.clock + lease, false)
  }

  function PutRow(world: World, id: OperationId, operation: Operation): World {
    world.(operations := world.operations[id := operation])
  }

  function DropWork(world: World, key: Key): World {
    world.(work := world.work - {key})
  }

  /** The workspace answers the same idempotency key with the same commit; a bound operation keeps its own. */
  function ShaOf(world: World, id: OperationId, workspace: OperationId -> Sha): Sha
    requires id in world.operations
  {
    if world.operations[id].commitSha.Some? then world.operations[id].commitSha.value else workspace(id)
  }

  /** A transaction: when the fence or a key refuses it, neither table changes. */
  function BindCommit(world: World, key: Key, workspace: OperationId -> Sha): World
    requires Busy(world, key)
  {
    var operation := world.operations[key.id];
    var sha := ShaOf(world, key.id, workspace);
    if HeldBy(operation, key.owner) && !KeyTaken(world.commits, sha, operation.commitId) then
      var commitId := CommitFor(world.commits, sha, operation.commitId);
      World(world.operations[key.id := BindRow(operation, commitId, sha)],
            world.commits[sha := commitId],
            world.work[key := world.work[key].(bound := true)],
            world.clock)
    else world
  }

  function Next(world: World, step: Step, workspace: OperationId -> Sha): World
    requires Possible(world, step)
  {
    match step
    case Tick(now) => world.(clock := now)
    case Create(id, kind, commitId, maxAttempts, notBefore) =>
      PutRow(world, id, Operation(kind, Queued, Waiting, commitId, None, 0, maxAttempts, notBefore, world.clock,
                                  None, None, None))
    case Claim(owner, picked, lease) =>
      world.(operations := map id | id in world.operations ::
               AfterClaim(world.operations[id], id in picked, owner, world.clock, lease),
             work := world.work + HandOut(world, owner, picked, lease))
    case RenewLease(key, lease) =>
      var operation := world.operations[key.id];
      var renewed := PutRow(world, key.id, Renew(operation, key.owner, world.clock + lease));
      if HeldBy(operation, key.owner) then
        renewed.(work := world.work[key := world.work[key].(expires := world.clock + lease)])
      else renewed
    case Bind(key) => BindCommit(world, key, workspace)
    case Finish(key) => DropWork(PutRow(world, key.id, Complete(world.operations[key.id], key.owner)), key)
    case GiveUp(key, code, terminal, retryAt) =>
      DropWork(PutRow(world, key.id, Fail(world.operations[key.id], key.owner, code, terminal, retryAt)), key)
    case Abandon(key) => DropWork(world, key)
    case Crash(owner) => world.(work := map key | key in world.work && key.owner != owner :: world.work[key])
  }

  ghost predicate IsRun(worlds: seq<World>, steps: seq<Step>, workspace: OperationId -> Sha) {
    && |worlds| == |steps| + 1
    && worlds[0] == Start
    && forall i :: 0 <= i < |steps| ==>
         Enabled(worlds[i], steps[i]) && worlds[i + 1] == Next(worlds[i], steps[i], workspace)
  }

  // ----- invariants -----

  /**
   A coordinator's work item matches the row as long as the row runs under its
   name; once it does not, the item's lease has passed.
   */
  predicate ItemSound(operation: Operation, key: Key, item: Item, clock: Time) {
    && key.attempt <= operation.attempts
    && (HeldBy(operation, key.owner) ==>
          operation.attempts == key.attempt && operation.leaseExpiresAt == Some(item.expires))
    && (!HeldBy(operation, key.owner) ==> item.expires < clock)
    && (item.bound ==> operation.commitSha.Some?)
  }

  ghost predicate WorkSound(world: World) {
    forall key :: key in world.work ==>
      key.id in world.operations && ItemSound(world.operations[key.id], key, world.work[key], world.clock)
  }

  /** An owner works on one attempt of an operation at a time. */
  ghost predicate WorkSingle(world: World) {
    forall left, right :: left in world.work && right in world.work && left.owner == right.owner && left.id == right.id ==>
      left == right
  }

  predicate RowSound(operation: Operation, commits: Commits) {
    && operation.attempts <= operation.maxAttempts
    && (operation.lockedBy.Some? <==> operation.status.Running?)
    && (operation.leaseExpiresAt.Some? <==> operation.status.Running?)
    && (operation.commitSha.Some? ==>
          operation.commitSha.value in commits && commits[operation.commitSha.value] == operation.commitId)
    && (operation.status.Succeeded? ==> operation.commitSha.Some?)
  }

  ghost predicate RowsSound(world: World) {
    forall id :: id in world.operations ==> RowSound(world.operations[id], world.commits)
  }

  ghost predicate Invariant(world: World) {
    WorkSound(world) && WorkSingle(world) && RowsSound(world)
  }

  lemma ClaimedItemSound(operation: Operation, id: OperationId, owner: Owner, now: Time, lease: Time)
    requires Claimable(operation, now)
    ensures ItemSound(AfterClaim(operation, true, owner, now, lease), Key(owner, id, operation.attempts + 1),
                      Item(now + lease, false), now)
  {
  }

  lemma OtherItemSound(operation: Operation, key: Key, item: Item, commits: Commits,
                       picked: bool, owner: Owner, now: Time, lease: Time)
    requires ItemSound(operation, key, item, now) && RowSound(operation, commits) && key.owner != owner
    requires picked ==> Claimable(operation, now)
    ensures ItemSound(AfterClaim(operation, picked, owner, now, lease), key, item, now)
  {
  }

  lemma ClaimKeepsWork(world: World, owner: Owner, picked: set<OperationId>, lease: Time, workspace: OperationId -> Sha)
    requires Invariant(world) && Enabled(world, Claim(owner, picked, lease))
    ensures WorkSound(Next(world, Claim(owner, picked, lease), workspace))
    ensures WorkSingle(Next(world, Claim(owner, picked, lease), workspace))
  {
    hide ItemSound, RowSound, AfterClaim, CommitOperations.Claimable;
    var step := Claim(owner, picked, lease);
    var next := Next(world, step, workspace);
    forall key | key in next.work
      ensures key.id in next.operations && ItemSound(next.operations[key.id], key, next.work[key], next.clock)
      ensures key.owner == owner ==> key.id in picked && key.attempt == world.operations[key.id].attempts + 1
      ensures key.owner != owner ==> key in world.work
    {
      var handed := HandOut(world, owner, picked, lease);
      if key.owner == owner {
        assert key !in world.work;
        ClaimedItemSound(world.operations[key.id], key.id, owner, world.clock, lease);
      } else {
        assert key !in handed;
        OtherItemSound(world.operations[key.id], key, world.work[key], world.commits, key.id in picked, owner, world.clock, lease);
      }
    }
  }

  /** A statement under this owner's name leaves the row alone, or it held the row and may give it up. */
  predicate Follows(before: Operation, after: Operation, owner: Owner) {
    || after == before
    || (&& HeldBy(before, owner)
        && after.attempts == before.attempts
        && (after.lockedBy.None? || after.lockedBy == Some(owner))
        && (before.commitSha.Some? ==> after.commitSha.Some?))
  }

  lemma OtherItemSurvives(before: Operation, after: Operation, owner: Owner, other: Key, item: Item, clock: Time)
    requires ItemSound(before, other, item, clock) && Follows(before, after, owner) && other.owner != owner
    ensures ItemSound(after, other, item, clock)
  {
  }

  lemma StatementKeepsWork(world: World, key: Key, row: Operation, item: Option<Item>, commits: Commits)
    requires Invariant(world) && Busy(world, key) && Follows(world.operations[key.id], row, key.owner)
    requires item.Some? ==> ItemSound(row, key, item.value, world.clock)
    ensures
      var work := if item.Some? then world.work[key := item.value] else world.work - {key};
      var next := World(world.operations[key.id := row], commits, work, world.clock);
      WorkSound(next) && WorkSingle(next)
  {
    hide RowSound, ItemSound, Follows;
    forall other | other in world.work && other.id == key.id && other != key
      ensures ItemSound(row, other, world.work[other], world.clock)
    {
      OtherItemSurvives(world.operations[key.id], row, key.owner, other, world.work[other], world.clock);
    }
  }

  lemma RenewedItemSound(operation: Operation, key: Key, item: Item, clock: Time, expires: Time)
    requires ItemSound(operation, key, item, clock)
    ensures Follows(operation, Renew(operation, key.owner, expires), key.owner)
    ensures HeldBy(operation, key.owner) ==>
      ItemSound(Renew(operation, key.owner, expires), key, item.(expires := expires), clock)
    ensures !HeldBy(operation, key.owner) ==> Renew(operation, key.owner, expires) == operation
  {
  }

  lemma RenewKeepsWork(world: World, key: Key, lease: Time, workspace: OperationId -> Sha)
    requires Invariant(world) && Possible(world, RenewLease(key, lease))
    ensures
      var next := Next(world, RenewLease(key, lease), workspace);
      WorkSound(next) && WorkSingle(next)
  {
    var operation, item, expires := world.operations[key.id], world.work[key], world.clock + lease;
    assert ItemSound(operation, key, item, world.clock);
    RenewedItemSound(operation, key, item, world.clock, expires);
    hide Invariant, WorkSound, WorkSingle, ItemSound, Follows, Renew;
    if HeldBy(operation, key.owner) {
      StatementKeepsWork(world, key, Renew(operation, key.owner, expires), Some(item.(expires := expires)), world.commits);
    } else {
      StatementKeepsWork(world, key, operation, Some(item), world.commits);
      assert world.work[key := item] == world.work;
    }
  }

  lemma BindKeepsWork(world: World, key: Key, workspace: OperationId -> Sha)
    requires Invariant(world) && Possible(world, Bind(key))
    ensures
      var next := Next(world, Bind(key), workspace);
      WorkSound(next) && WorkSingle(next)
  {
    var operation := world.operations[key.id];
    var sha := ShaOf(world, key.id, workspace);
    assert ItemSound(operation, key, world.work[key], world.clock);
    if HeldBy(operation, key.owner) && !KeyTaken(world.commits, sha, operation.commitId) {
      var commitId := CommitFor(world.commits, sha, operation.commitId);
      StatementKeepsWork(world, key, BindRow(operation, commitId, sha), Some(world.work[key].(bound := true)),
                         world.commits[sha := commitId]);
    }
    hide WorkSound, WorkSingle, RowsSound;
  }

  lemma EndKeepsWork(world: World, key: Key, row: Operation)
    requires Invariant(world) && Busy(world, key) && Follows(world.operations[key.id], row, key.owner)
    ensures
      var next := DropWork(PutRow(world, key.id, row), key);
      WorkSound(next) && WorkSingle(next)
  {
    StatementKeepsWork(world, key, row, None, world.commits);
    hide Invariant, WorkSound, WorkSingle;
  }

  lemma StepKeepsWork(world: World, step: Step, workspace: OperationId -> Sha)
    requires Invariant(world) && Enabled(world, step)
    ensures WorkSound(Next(world, step, workspace)) && WorkSingle(Next(world, step, workspace))
  {
    match step
    case Claim(owner, picked, lease) => ClaimKeepsWork(world, owner, picked, lease, workspace);
    case RenewLease(key, lease) => RenewKeepsWork(world, key, lease, workspace);
    case Bind(key) => BindKeepsWork(world, key, workspace);
    case Finish(key) => EndKeepsWork(world, key, Complete(world.operations[key.id], key.owner));
    case GiveUp(key, code, terminal, retryAt) =>
      EndKeepsWork(world, key, Fail(world.operations[key.id], key.owner, code, terminal, retryAt));
    case _ => QuietStepKeepsWork(world, step, workspace);
  }

  lemma QuietStepKeepsWork(world: World, step: Step, workspace: OperationId -> Sha)
    requires Invariant(world) && Enabled(world, step)
    requires step.Tick? || step.Create? || step.Abandon? || step.Crash?
    ensures WorkSound(Next(world, step, workspace)) && WorkSingle(Next(world, step, workspace))
  {
    hide RowSound;
  }

  lemma StepKeepsRows(world: World, step: Step, workspace: OperationId -> Sha)
    requires Invariant(world) && Enabled(world, step)
    ensures RowsSound(Next(world, step, workspace))
  {
  }

  lemma {:induction false} RunKeepsInvariant(worlds: seq<World>, steps: seq<Step>, workspace: OperationId -> Sha, i: nat)
    requires IsRun(worlds, steps, workspace) && i < |worlds|
    ensures Invariant(worlds[i])
    decreases i
  {
    hide Next, Enabled;
    if i > 0 {
      RunKeepsInvariant(worlds, steps, workspace, i - 1);
      StepKeepsWork(worlds[i - 1], steps[i - 1], workspace);
      StepKeepsRows(worlds[i - 1], steps[i - 1], workspace);
    }
  }

  // ----- what follows for every run -----

  predicate Unexpired(item: Item, clock: Time) {
    item.expires >= clock
  }

  /** No two owners hold unexpired leases on one operation, and no owner holds two. */
  lemma NoTwoUnexpiredLeases(worlds: seq<World>, steps: seq<Step>, workspace: OperationId -> Sha, i: nat,
                             left: Key, right: Key)
    requires IsRun(worlds, steps, workspace) && i < |worlds|
    requires left in worlds[i].work && right in worlds[i].work && left.id == right.id
    requires Unexpired(worlds[i].work[left], worlds[i].clock)
    requires Unexpired(worlds[i].work[right], worlds[i].clock)
    ensures left == right
    ensures left.id in worlds[i].operations && HeldBy(worlds[i].operations[left.id], left.owner)
  {
    hide Next, Enabled;
    RunKeepsInvariant(worlds, steps, workspace, i);
    assert ItemSound(worlds[i].operations[left.id], left, worlds[i].work[left], worlds[i].clock);
    assert ItemSound(worlds[i].operations[right.id], right, worlds[i].work[right], worlds[i].clock);
  }

  /** The statements a coordinator issues for one of its work items. */
  predicate ActsFor(step: Step, key: Key) {
    (step.RenewLease? || step.Bind? || step.Finish? || step.GiveUp?) && step.key == key
  }

  /**
   Fencing by owner name is as good as fencing by attempt: work handed out for an
   attempt that is no longer the row's attempt, or whose row was given to someone
   else, can renew, bind, finish or fail as it likes and changes no table.
   */
  lemma TakenOverWorkIsPowerless(worlds: seq<World>, steps: seq<Step>, workspace: OperationId -> Sha, i: nat, key: Key)
    requires IsRun(worlds, steps, workspace) && i < |steps|
    requires key in worlds[i].work && ActsFor(steps[i], key)
    requires worlds[i].operations[key.id].attempts != key.attempt || worlds[i].operations[key.id].lockedBy != Some(key.owner)
    ensures worlds[i + 1].operations == worlds[i].operations && worlds[i + 1].commits == worlds[i].commits
  {
    RunKeepsInvariant(worlds, steps, workspace, i);
    assert ItemSound(worlds[i].operations[key.id], key, worlds[i].work[key], worlds[i].clock);
    hide Invariant;
  }

  // ----- why `RunOnce` waits -----

  /** A run of coordinators that claim without waiting for their earlier work. */
  ghost predicate IsEagerRun(worlds: seq<World>, steps: seq<Step>, workspace: OperationId -> Sha) {
    && |worlds| == |steps| + 1
    && worlds[0] == Start
    && forall i :: 0 <= i < |steps| ==>
         Possible(worlds[i], steps[i]) && worlds[i + 1] == Next(worlds[i], steps[i], workspace)
  }

  lemma ExtendEagerly(worlds: seq<World>, steps: seq<Step>, workspace: OperationId -> Sha, step: Step, next: World)
    returns (worlds': seq<World>, steps': seq<Step>)
    requires IsEagerRun(worlds, steps, workspace)
    requires Possible(worlds[|steps|], step) && next == Next(worlds[|steps|], step, workspace)
    ensures IsEagerRun(worlds', steps', workspace)
    ensures worlds' == worlds + [next] && steps' == steps + [step] && |worlds'| == |steps'| + 1
  {
    worlds', steps' := worlds + [next], steps + [step];
    hide Next, Possible;
  }

  /** The only operation of the run below, after `attempts` claims by the owner "o". */
  function OpRow(attempts: nat, expires: Option<Time>, sha: Option<Sha>): Operation {
    Operation(CommitOnly, if attempts == 0 then Queued else Running, if attempts == 0 then Waiting else Committing,
              "c", sha, attempts, 2, 0, 0, if attempts == 0 then None else Some("o"), expires, None)
  }

  function OpWorld(row: Operation, commits: Commits, work: map<Key, Item>, clock: Time): World {
    World(map["op" := row], commits, work, clock)
  }

  const FIRST := Key("o", "op", 1)
  const SECOND_ATTEMPT := Key("o", "op", 2)

  lemma ClaimsAgain(workspace: OperationId -> Sha, attempts: nat, expires: Option<Time>, work: map<Key, Item>, clock: Time)
    requires attempts < 2 && clock >= 0
    requires if attempts == 0 then expires.None? else expires.Some? && expires.value < clock
    ensures
      var world := OpWorld(OpRow(attempts, expires, None), map[], work, clock);
      && Possible(world, Claim("o", {"op"}, 1))
      && Next(world, Claim("o", {"op"}, 1), workspace)
         == OpWorld(OpRow(attempts + 1, Some(clock + 1), None), map[],
                    work[Key("o", "op", attempts + 1) := Item(clock + 1, false)], clock)
  {
    var world := OpWorld(OpRow(attempts, expires, None), map[], work, clock);
    var key := Key("o", "op", attempts + 1);
    assert Claimable(OpRow(attempts, expires, None), clock);
    var handed := HandOut(world, "o", {"op"}, 1);
    assert handed == map[key := Item(clock + 1, false)] by {
      assert world.operations["op"].attempts + 1 == key.attempt;
    }
    assert work + handed == work[key := Item(clock + 1, false)];
    var next := Next(world, Claim("o", {"op"}, 1), workspace);
    assert next.operations == map["op" := OpRow(attempts + 1, Some(clock + 1), None)];
  }

  lemma StaleAttemptBinds(workspace: OperationId -> Sha)
    ensures
      var work := map[FIRST := Item(1, false)][SECOND_ATTEMPT := Item(3, false)];
      var world := OpWorld(OpRow(2, Some(3), None), map[], work, 2);
      && Possible(world, Bind(FIRST))
      && Next(world, Bind(FIRST), workspace)
         == OpWorld(OpRow(2, Some(3), Some(workspace("op"))), map[workspace("op") := "c"],
                    work[FIRST := Item(1, true)], 2)
  {
    var row, sha := OpRow(2, Some(3), None), workspace("op");
    assert HeldBy(row, "o") && BindRow(row, "c", sha) == OpRow(2, Some(3), Some(sha));
    var commits: Commits := map[];
    assert commits.Values == {} && commits[sha := "c"] == map[sha := "c"];
    var world := OpWorld(row, commits, map[FIRST := Item(1, false)][SECOND_ATTEMPT := Item(3, false)], 2);
    assert world.operations["op" := OpRow(2, Some(3), Some(sha))] == map["op" := OpRow(2, Some(3), Some(sha))];
  }

  /**
   The fence needs the wait: a coordinator that claims again while its first attempt is still
   at work lets that attempt bind and finish the second one, which is still being processed.
   */
  lemma OverlappingClaimBreaksFence(workspace: OperationId -> Sha) returns (worlds: seq<World>, steps: seq<Step>)
    ensures IsEagerRun(worlds, steps, workspace) && |steps| == 6
    ensures steps[1] == Claim("o", {"op"}, 1) == steps[3]
    ensures ActsFor(steps[5], FIRST) && FIRST in worlds[5].work && SECOND_ATTEMPT in worlds[6].work
    ensures "op" in worlds[5].operations && "op" in worlds[6].operations
    ensures worlds[5].operations["op"].attempts == 2 != FIRST.attempt && HeldBy(worlds[5].operations["op"], "o")
    ensures worlds[6].operations["op"].status.Succeeded?
  {
    hide Invariant, HandOut, AfterClaim, IsEagerRun;
    worlds, steps := ClaimsTwice(workspace);
    var work := map[FIRST := Item(1, false)][SECOND_ATTEMPT := Item(3, false)];
    var sha := workspace("op");
    var bound := OpWorld(OpRow(2, Some(3), Some(sha)), map[sha := "c"], work[FIRST := Item(1, true)], 2);
    StaleAttemptBinds(workspace);
    StaleAttemptFinishes(sha, work, workspace);
    hide Next, Possible;
    worlds, steps := ExtendEagerly(worlds, steps, workspace, Bind(FIRST), bound);
    worlds, steps := ExtendEagerly(worlds, steps, workspace, Finish(FIRST), Next(bound, Finish(FIRST), workspace));
  }

  lemma StaleAttemptFinishes(sha: Sha, work: map<Key, Item>, workspace: OperationId -> Sha)
    requires SECOND_ATTEMPT in work
    ensures
      var bound := OpWorld(OpRow(2, Some(3), Some(sha)), map[sha := "c"], work[FIRST := Item(1, true)], 2);
      && Possible(bound, Finish(FIRST))
      && var finished := Next(bound, Finish(FIRST), workspace);
      && "op" in finished.operations && finished.operations["op"].status.Succeeded?
      && SECOND_ATTEMPT in finished.work
  {
  }

  lemma ClaimsTwice(workspace: OperationId -> Sha) returns (worlds: seq<World>, steps: seq<Step>)
    ensures IsEagerRun(worlds, steps, workspace) && |steps| == 4 && |worlds| == 5
    ensures steps[1] == Claim("o", {"op"}, 1) == steps[3]
    ensures worlds[4] == OpWorld(OpRow(2, Some(3), None), map[],
                                 map[FIRST := Item(1, false)][SECOND_ATTEMPT := Item(3, false)], 2)
  {
    var none: map<Key, Item> := map[];
    CreatesAndWaits(workspace);
    ClaimsAgain(workspace, 0, None, none, 0);
    ClaimsAgain(workspace, 1, Some(1), none[FIRST := Item(1, false)], 2);
    worlds, steps := [Start], [];
    hide Next, Possible, OpWorld, OpRow;
    var once, later := none[FIRST := Item(1, false)], none[FIRST := Item(1, false)][SECOND_ATTEMPT := Item(3, false)];
    worlds, steps := ExtendEagerly(worlds, steps, workspace, Create("op", CommitOnly, "c", 2, 0),
                                   OpWorld(OpRow(0, None, None), map[], none, 0));
    hide IsEagerRun;
    worlds, steps := ExtendEagerly(worlds, steps, workspace, Claim("o", {"op"}, 1),
                                   OpWorld(OpRow(1, Some(1), None), map[], once, 0));
    worlds, steps := ExtendEagerly(worlds, steps, workspace, Tick(2), OpWorld(OpRow(1, Some(1), None), map[], once, 2));
    worlds, steps := ExtendEagerly(worlds, steps, workspace, Claim("o", {"op"}, 1),
                                   OpWorld(OpRow(2, Some(3), None), map[], later, 2));
  }

  lemma CreatesAndWaits(workspace: OperationId -> Sha)
    ensures
      var none: map<Key, Item> := map[];
      var create := Create("op", CommitOnly, "c", 2, 0);
      && Possible(Start, create) && Next(Start, create, workspace) == OpWorld(OpRow(0, None, None), map[], none, 0)
    ensures
      var once := map[FIRST := Item(1, false)];
      && Possible(OpWorld(OpRow(1, Some(1), None), map[], once, 0), Tick(2))
      && Next(OpWorld(OpRow(1, Some(1), None), map[], once, 0), Tick(2), workspace)
         == OpWorld(OpRow(1, Some(1), None), map[], once, 2)
  {
    assert Start.operations["op" := OpRow(0, None, None)] == map["op" := OpRow(0, None, None)];
  }

  // ----- progress -----

  function Claims(steps: seq<Step>, id: OperationId): nat {
    if steps == [] then 0
    else
      var last := steps[|steps| - 1];
      Claims(steps[..|steps| - 1], id) + (if last.Claim? && id in last.picked then 1 else 0)
  }

  /** Succeeded and failed rows stay as they are, a bound commit is never replaced, and attempts only grow. */
  predicate Advanced(before: Operation, after: Operation) {
    && (Final(before) ==> after == before)
    && (before.commitSha.Some? ==> after.commitSha == before.commitSha)
    && before.attempts <= after.attempts
    && after.maxAttempts == before.maxAttempts
  }

  lemma StepCountsClaims(world: World, step: Step, workspace: OperationId -> Sha, id: OperationId)
    requires Invariant(world) && Enabled(world, step) && id in world.operations
    ensures id in Next(world, step, workspace).operations
    ensures
      var before, after := world.operations[id], Next(world, step, workspace).operations[id];
      && Advanced(before, after)
      && after.attempts == before.attempts + (if step.Claim? && id in step.picked then 1 else 0)
  {
  }

  /** `attempts` counts the claims of the operation, so it is claimed at most `max_attempts` times. */
  lemma {:induction false} ClaimedAtMostMaxAttempts(worlds: seq<World>, steps: seq<Step>, workspace: OperationId -> Sha,
                                                    i: nat, id: OperationId)
    requires IsRun(worlds, steps, workspace) && i < |worlds|
    ensures id !in worlds[i].operations ==> Claims(steps[..i], id) == 0
    ensures id in worlds[i].operations ==>
      Claims(steps[..i], id) == worlds[i].operations[id].attempts <= worlds[i].operations[id].maxAttempts
    decreases i
  {
    hide Next, Possible, WorkSound, WorkSingle, RowSound;
    RunKeepsInvariant(worlds, steps, workspace, i);
    assert id in worlds[i].operations ==> RowSound(worlds[i].operations[id], worlds[i].commits);
    AttemptsBounded(worlds[i], id);
    hide RowsSound;
    if i > 0 {
      ClaimedAtMostMaxAttempts(worlds, steps, workspace, i - 1, id);
      assert steps[..i][..i - 1] == steps[..i - 1];
      RunKeepsInvariant(worlds, steps, workspace, i - 1);
      assert worlds[i] == Next(worlds[i - 1], steps[i - 1], workspace);
      if id in worlds[i - 1].operations {
        StepCountsClaims(worlds[i - 1], steps[i - 1], workspace, id);
      } else {
        NothingClaimedYet(worlds[i - 1], steps[i - 1], workspace, id);
      }
    }
  }

  lemma AttemptsBounded(world: World, id: OperationId)
    requires RowsSound(world)
    ensures id in world.operations ==> world.operations[id].attempts <= world.operations[id].maxAttempts
  {
    assert id in world.operations ==> RowSound(world.operations[id], world.commits);
  }

  lemma NothingClaimedYet(world: World, step: Step, workspace: OperationId -> Sha, id: OperationId)
    requires Enabled(world, step) && id !in world.operations
    ensures !(step.Claim? && id in step.picked)
    ensures id in Next(world, step, workspace).operations ==> Next(world, step, workspace).operations[id].attempts == 0
  {
  }

  lemma {:induction false} OperationsAdvance(worlds: seq<World>, steps: seq<Step>, workspace: OperationId -> Sha,
                                             i: nat, j: nat, id: OperationId)
    requires IsRun(worlds, steps, workspace) && i <= j < |worlds| && id in worlds[i].operations
    ensures id in worlds[j].operations && Advanced(worlds[i].operations[id], worlds[j].operations[id])
    decreases j
  {
    hide Next, Enabled, Invariant;
    if i < j {
      OperationsAdvance(worlds, steps, workspace, i, j - 1, id);
      RunKeepsInvariant(worlds, steps, workspace, j - 1);
      StepCountsClaims(worlds[j - 1], steps[j - 1], workspace, id);
    }
  }

  /**
   From any state to any later one, operations only advance; across a claim the
   attempts that are left strictly decrease, so no operation is retried forever.
   */
  lemma EveryClaimDescends(worlds: seq<World>, steps: seq<Step>, workspace: OperationId -> Sha,
                           i: nat, j: nat, id: OperationId)
    requires IsRun(worlds, steps, workspace) && i < j < |worlds| && id in worlds[i].operations
    ensures id in worlds[j].operations
    ensures
      var before, after := worlds[i].operations[id], worlds[j].operations[id];
      && Advanced(before, after)
      && (steps[i].Claim? && id in steps[i].picked ==>
            after.maxAttempts - after.attempts < before.maxAttempts - before.attempts)
  {
    hide Next, Enabled, Invariant;
    RunKeepsInvariant(worlds, steps, workspace, i);
    StepCountsClaims(worlds[i], steps[i], workspace, id);
    OperationsAdvance(worlds, steps, workspace, i + 1, j, id);
  }

  /** An operation succeeds only after its commit is recorded, and it names that commit. */
  lemma SucceededIsCommitted(worlds: seq<World>, steps: seq<Step>, workspace: OperationId -> Sha, i: nat, id: OperationId)
    requires IsRun(worlds, steps, workspace) && i < |worlds| && id in worlds[i].operations
    requires worlds[i].operations[id].status.Succeeded?
    ensures
      var operation := worlds[i].operations[id];
      && operation.commitSha.Some? && operation.commitSha.value in worlds[i].commits
      && worlds[i].commits[operation.commitSha.value] == operation.commitId
  {
    hide Next, Enabled;
    RunKeepsInvariant(worlds, steps, workspace, i);
    assert RowSound(worlds[i].operations[id], worlds[i].commits);
  }
}
