/**
 Rows of the leased Article commit queue and the effect of every store statement
 on one row (backend/internal/article/commit_operations.go:140-331).
 */
module CommitOperations {
  import opened Common

  type OperationId = string
  type Owner = string
  type Sha = string
  type CommitId = string
  type Time = int

  /** `UnknownKind` is any other text in the column. */
  datatype Kind = CommitOnly | Publication | UnknownKind

  datatype Status = Queued | Running | RetryWait | Succeeded | Failed

  datatype Stage = Waiting | Committing | Publishing | Completed | Stopped

  datatype Operation = Operation(
    kind: Kind,
    status: Status,
    stage: Stage,
    commitId: CommitId,
    commitSha: Option<Sha>,
    attempts: nat,
    maxAttempts: nat,
    nextAttemptAt: Time,
    createdAt: Time,
    lockedBy: Option<Owner>,
    leaseExpiresAt: Option<Time>,
    errorCode: Option<string>)

  predicate Final(operation: Operation) {
    operation.status.Succeeded? || operation.status.Failed?
  }

  predicate LeaseFree(operation: Operation, now: Time) {
    operation.leaseExpiresAt.None? || operation.leaseExpiresAt.value < now
  }

  predicate Exhausted(operation: Operation, now: Time) {
    !Final(operation) && operation.attempts >= operation.maxAttempts && LeaseFree(operation, now)
  }

  predicate Claimable(operation: Operation, now: Time) {
    && !Final(operation)
    && operation.attempts < operation.maxAttempts
    && operation.nextAttemptAt <= now
    && LeaseFree(operation, now)
  }

  /** The fence of every later statement: the row runs under this owner's name. */
  predicate HeldBy(operation: Operation, owner: Owner) {
    operation.status.Running? && operation.lockedBy == Some(owner)
  }

  const RETRY_EXHAUSTED := "ARTICLE_OPERATION_RETRY_EXHAUSTED"

  function Exhaust(operation: Operation): Operation {
    operation.(status := Failed, stage := Stopped, lockedBy := None, leaseExpiresAt := None,
               errorCode := if operation.errorCode.Some? && operation.errorCode.value != "" then operation.errorCode
                            else Some(RETRY_EXHAUSTED))
  }

  function ClaimRow(operation: Operation, owner: Owner, expires: Time): Operation {
    operation.(status := Running,
               stage := if operation.kind.Publication? && operation.commitSha.Some? then Publishing else Committing,
               attempts := operation.attempts + 1,
               lockedBy := Some(owner), leaseExpiresAt := Some(expires))
  }

  /** What one claim statement does to a row, given the set of rows it picked. */
  function AfterClaim(operation: Operation, picked: bool, owner: Owner, now: Time, lease: Time): Operation {
    if Exhausted(operation, now) then Exhaust(operation)
    else if picked then ClaimRow(operation, owner, now + lease)
    else operation
  }

  function Renew(operation: Operation, owner: Owner, expires: Time): Operation {
    if HeldBy(operation, owner) then operation.(leaseExpiresAt := Some(expires)) else operation
  }

  function BindRow(operation: Operation, commitId: CommitId, sha: Sha): Operation {
    operation.(stage := if operation.kind.Publication? then Publishing else Committing,
               commitSha := Some(sha), commitId := commitId, errorCode := None)
  }

  function Complete(operation: Operation, owner: Owner): Operation {
    if HeldBy(operation, owner) then
      operation.(status := Succeeded, stage := Completed, errorCode := None, lockedBy := None, leaseExpiresAt := None)
    else operation
  }

  function Fail(operation: Operation, owner: Owner, code: string, terminal: bool, retryAt: Time): Operation {
    if HeldBy(operation, owner) then
      var over := terminal || operation.attempts >= operation.maxAttempts;
      operation.(status := if over then Failed else RetryWait,
                 stage := if over then Stopped else Waiting,
                 errorCode := Some(code), nextAttemptAt := retryAt, lockedBy := None, leaseExpiresAt := None)
    else operation
  }

  /** `commitOperationRetry`, in nanoseconds. */
  const SECOND: Time := 1_000_000_000

  function Power2(n: nat): nat {
    if n == 0 then 1 else 2 * Power2(n - 1)
  }

  function RetryDelay(attempt: int): Time {
    var bounded := Min(Max(attempt, 1), 8);
    Min(SECOND * Power2(bounded - 1), 5 * 60 * SECOND)
  }

  lemma {:induction false} Power2Grows(low: nat, high: nat)
    requires low <= high
    ensures Power2(low) <= Power2(high)
    decreases high
  {
    if low < high {
      Power2Grows(low, high - 1);
    }
  }

  /** The delay doubles from one second, never shrinks, and stops at 128 seconds: the cap of five minutes is never reached. */
  lemma RetryDelayBackoff(attempt: int, later: int)
    requires attempt <= later
    ensures SECOND <= RetryDelay(attempt) <= RetryDelay(later) <= 128 * SECOND
    ensures 1 <= attempt < 8 ==> RetryDelay(attempt + 1) == 2 * RetryDelay(attempt)
  {
    Power2Grows(Min(Max(attempt, 1), 8) - 1, Min(Max(later, 1), 8) - 1);
    Power2Grows(0, Min(Max(attempt, 1), 8) - 1);
    Power2Grows(Min(Max(later, 1), 8) - 1, 7);
    Power2Grows(Min(Max(attempt, 1), 8) - 1, 7);
    assert Power2(7) == 128 by {
      assert Power2(3) == 8;
      assert Power2(5) == 32;
    }
  }

  // ----- the commit table -----

  /** One row per commit: `(project, git sha)` is unique, and so is the commit ID. */
  type Commits = map<Sha, CommitId>

  function CommitFor(commits: Commits, sha: Sha, proposed: CommitId): CommitId {
    if sha in commits then commits[sha] else proposed
  }

  /** The insert of `BindCommitOperation` hits the primary key of another commit. */
  predicate KeyTaken(commits: Commits, sha: Sha, proposed: CommitId) {
    sha !in commits && proposed in commits.Values
  }
}
