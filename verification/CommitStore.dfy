/**
 The commit-operation table and the processing of one operation
 (backend/internal/article/commit_operations.go:140-331, 438-589).
 */
module CommitStore {
  import opened Common
  import opened CommitOperations

  datatype Outcome = Done | Conflict

  /** `ORDER BY next_attempt_at, created_at`. */
  predicate NotAfter(left: Operation, right: Operation) {
    left.nextAttemptAt < right.nextAttemptAt
    || (left.nextAttemptAt == right.nextAttemptAt && left.createdAt <= right.createdAt)
  }

  /** Rows are taken by the time they are due, and among equals by age. */
  lemma OrderIsTotal(left: Operation, right: Operation, last: Operation)
    ensures NotAfter(left, right) || NotAfter(right, left)
    ensures NotAfter(left, right) && NotAfter(right, last) ==> NotAfter(left, last)
    ensures left.nextAttemptAt < right.nextAttemptAt ==> NotAfter(left, right) && !NotAfter(right, left)
    ensures left.nextAttemptAt == right.nextAttemptAt && left.createdAt < right.createdAt ==>
      NotAfter(left, right) && !NotAfter(right, left)
  {
  }

  class Store {
    var operations: map<OperationId, Operation>
    var commits: Commits

    constructor ()
      ensures operations == map[] && commits == map[]
    {
      operations, commits := map[], map[];
    }

    method Earliest(ids: set<OperationId>) returns (earliest: OperationId)
      requires ids != {} && ids <= operations.Keys
      ensures earliest in ids
      ensures forall id :: id in ids ==> NotAfter(operations[earliest], operations[id])
    {
      earliest :| earliest in ids;
      var rest := ids - {earliest};
      while rest != {}
        invariant rest <= ids && earliest in ids
        invariant forall id :: id in ids - rest ==> NotAfter(operations[earliest], operations[id])
        decreases |rest|
      {
        var id :| id in rest;
        if !NotAfter(operations[earliest], operations[id]) {
          earliest := id;
        }
        rest := rest - {id};
      }
    }

    /** `LIMIT` over the ordered candidates. */
    method PickEarliest(candidates: set<OperationId>, limit: nat) returns (picked: set<OperationId>)
      requires candidates <= operations.Keys
      ensures picked <= candidates && |picked| == Min(limit, |candidates|)
      ensures forall id, later :: id in picked && later in candidates - picked ==>
        NotAfter(operations[id], operations[later])
    {
      picked := {};
      var rest := candidates;
      while rest != {} && |picked| < limit
        invariant rest <= candidates && picked == candidates - rest
        invariant |picked| + |rest| == |candidates| && |picked| <= limit
        invariant forall id, later :: id in picked && later in rest ==> NotAfter(operations[id], operations[later])
        decreases |rest|
      {
        var id := Earliest(rest);
        picked, rest := picked + {id}, rest - {id};
      }
      assert candidates - picked == rest;
    }

    /** The rows a claim may take, leaving aside those that other transactions have locked. */
    function Candidates(now: Time, locked: set<OperationId>): (ids: set<OperationId>)
      reads this`operations
      ensures ids <= operations.Keys
    {
      set id | id in operations && Claimable(operations[id], now) && id !in locked
    }

    /**
     One claim statement: exhausted rows fail, and the earliest claimable rows
     that no other transaction has locked go to this owner, up to the limit.
     */
    method ClaimCommitOperations(owner: Owner, now: Time, lease: Time, limit: int, locked: set<OperationId>)
      returns (valid: bool, picked: set<OperationId>)
      modifies this`operations
      ensures valid <==> owner != "" && lease > 0 && limit >= 1
      ensures !valid ==> picked == {} && operations == old(operations)
      ensures valid ==>
        && picked <= old(Candidates(now, locked))
        && |picked| == Min(limit, |old(Candidates(now, locked))|)
        && (forall id, later :: id in picked && later in old(Candidates(now, locked)) - picked ==>
              NotAfter(old(operations)[id], old(operations)[later]))
        && operations.Keys == old(operations).Keys
        && forall id :: id in operations ==>
             operations[id] == AfterClaim(old(operations)[id], id in picked, owner, now, lease)
    {
      if owner == "" || lease <= 0 || limit < 1 {
        return false, {};
      }
      picked := PickEarliest(Candidates(now, locked), limit);
      hide AfterClaim;
      operations := map id | id in operations :: AfterClaim(operations[id], id in picked, owner, now, lease);
      return true, picked;
    }

    method RenewCommitOperationLease(id: OperationId, owner: Owner, expires: Time) returns (outcome: Outcome)
      modifies this`operations
      ensures id in old(operations) ==>
        operations == old(operations)[id := Renew(old(operations)[id], owner, expires)]
      ensures id !in old(operations) ==> operations == old(operations)
      ensures outcome.Done? <==> id in old(operations) && HeldBy(old(operations)[id], owner)
    {
      if id !in operations || !operations[id].status.Running? || operations[id].lockedBy != Some(owner) {
        return Conflict;
      }
      operations := operations[id := operations[id].(leaseExpiresAt := Some(expires))];
      return Done;
    }

    /** Insert or find the commit, then update the row; a refused update rolls the insert back. */
    method BindCommitOperation(id: OperationId, owner: Owner, proposed: CommitId, sha: Sha) returns (outcome: Outcome)
      modifies this
      ensures outcome.Done? <==>
        id in old(operations) && HeldBy(old(operations)[id], owner) && !KeyTaken(old(commits), sha, proposed)
      ensures outcome.Done? ==>
        var commitId := CommitFor(old(commits), sha, proposed);
        && commits == old(commits)[sha := commitId]
        && operations == old(operations)[id := BindRow(old(operations)[id], commitId, sha)]
      ensures outcome.Conflict? ==> commits == old(commits) && operations == old(operations)
    {
      var commitId := proposed;
      var inserted := commits;
      if sha in commits {
        commitId := commits[sha];
      } else if proposed in commits.Values {
        return Conflict;
      } else {
        inserted := commits[sha := proposed];
      }
      if id !in operations || !operations[id].status.Running? || operations[id].lockedBy != Some(owner) {
        return Conflict;
      }
      var row := operations[id];
      var stage := if row.kind.Publication? then Publishing else Committing;
      operations := operations[id := row.(stage := stage, commitSha := Some(sha), commitId := commitId, errorCode := None)];
      commits := inserted;
      return Done;
    }

    method CompleteCommitOperation(id: OperationId, owner: Owner) returns (outcome: Outcome)
      modifies this`operations
      ensures id in old(operations) ==> operations == old(operations)[id := Complete(old(operations)[id], owner)]
      ensures id !in old(operations) ==> operations == old(operations)
      ensures outcome.Done? <==> id in old(operations) && HeldBy(old(operations)[id], owner)
    {
      if id !in operations || !operations[id].status.Running? || operations[id].lockedBy != Some(owner) {
        return Conflict;
      }
      operations := operations[id := operations[id].(status := Succeeded, stage := Completed, errorCode := None,
                                                     lockedBy := None, leaseExpiresAt := None)];
      return Done;
    }

    method FailCommitOperation(id: OperationId, owner: Owner, code: string, terminal: bool, retryAt: Time)
      returns (outcome: Outcome)
      modifies this`operations
      ensures id in old(operations) ==>
        operations == old(operations)[id := Fail(old(operations)[id], owner, code, terminal, retryAt)]
      ensures id !in old(operations) ==> operations == old(operations)
      ensures outcome.Done? <==> id in old(operations) && HeldBy(old(operations)[id], owner)
    {
      if id !in operations || !operations[id].status.Running? || operations[id].lockedBy != Some(owner) {
        return Conflict;
      }
      var row := operations[id].(errorCode := Some(code), nextAttemptAt := retryAt,
                                 lockedBy := None, leaseExpiresAt := None);
      if terminal || row.attempts >= row.maxAttempts {
        row := row.(status := Failed, stage := Stopped);
      } else {
        row := row.(status := RetryWait, stage := Waiting);
      }
      operations := operations[id := row];
      return Done;
    }
  }

  // ----- processing one operation -----

  datatype CommitError = HeadChanged | NoChanges | InvalidCommit | WriteInProgress | CommitTrouble

  datatype PublicationError = PublicationInvalid | PublicationConflict | DependencyMissing | NotReady | PublicationTrouble

  datatype Answer<E> = Fine | Error(error: E)

  function CommitFailure(error: CommitError): (string, bool) {
    match error
    case HeadChanged => ("REPO_HEAD_CHANGED", true)
    case NoChanges => ("REPO_NO_CHANGES", true)
    case InvalidCommit => ("REPO_COMMIT_INVALID", true)
    case WriteInProgress => ("REPO_WRITE_IN_PROGRESS", false)
    case CommitTrouble => ("REPO_COMMIT_FAILED", false)
  }

  function PublicationFailure(error: PublicationError): (string, bool) {
    match error
    case PublicationInvalid => ("ARTICLE_PUBLICATION_INVALID", true)
    case PublicationConflict => ("ARTICLE_PUBLICATION_INVALID", true)
    case DependencyMissing => ("ARTICLE_PUBLICATION_DEPENDENCY_NOT_FOUND", true)
    case NotReady => ("ARTICLE_PUBLICATION_NOT_READY", false)
    case PublicationTrouble => ("ARTICLE_PUBLICATION_FAILED", false)
  }

  /** Trying again would not help: the request does not fit the repository as it is. */
  predicate FinalCommitError(error: CommitError) {
    error.HeadChanged? || error.NoChanges? || error.InvalidCommit?
  }

  /** Only what may still become ready, and trouble of other kinds, is worth another attempt. */
  predicate FinalPublicationError(error: PublicationError) {
    !error.NotReady? && !error.PublicationTrouble?
  }

  /** The second part of each answer says whether the operation is given up for good. */
  lemma TerminalExactly(commit: CommitError, publication: PublicationError)
    ensures CommitFailure(commit).1 <==> FinalCommitError(commit)
    ensures PublicationFailure(publication).1 <==> FinalPublicationError(publication)
  {
  }

  /**
   The row keeps the error, and waits for its next attempt unless the error or the attempt
   was final; the wait doubles with the attempts, from one second up to 128.
   */
  predicate GaveUp(before: Operation, after: Operation, code: string, terminal: bool, now: Time) {
    && after.errorCode == Some(code)
    && if terminal || before.attempts >= before.maxAttempts then after.status.Failed?
       else after.status.RetryWait? && after.nextAttemptAt == now + RetryDelay(before.attempts)
  }

  /** What the workspace and the publication service answer for one operation, and when. */
  datatype Answers = Answers(renewals: seq<Time>, commit: Answer<CommitError>, sha: Sha,
                             publication: Answer<PublicationError>, finished: Time)

  /** 90 seconds, in nanoseconds. */
  const DEFAULT_LEASE: Time := 90 * SECOND

  /** What processing makes of a row that runs under the coordinator's name. */
  predicate Processed(before: Operation, after: Operation, commits: Commits, commits': Commits,
                      commit: Answer<CommitError>, sha: Sha, publication: Answer<PublicationError>, now: Time) {
    var bound := !before.kind.UnknownKind? && commit.Fine? && !KeyTaken(commits, sha, before.commitId);
    && after.attempts == before.attempts
    && after.lockedBy.None? && after.leaseExpiresAt.None?
    && (after.status.Succeeded? <==> bound && (before.kind.Publication? ==> publication.Fine?))
    && (before.kind.UnknownKind? ==> GaveUp(before, after, "ARTICLE_OPERATION_INVALID", true, now))
    && (!before.kind.UnknownKind? && commit.Error? ==>
          GaveUp(before, after, CommitFailure(commit.error).0, FinalCommitError(commit.error), now))
    && (!before.kind.UnknownKind? && commit.Fine? && !bound ==>
          GaveUp(before, after, "ARTICLE_COMMIT_PERSIST_FAILED", false, now))
    && (bound && before.kind.Publication? && publication.Error? ==>
          GaveUp(before, after, PublicationFailure(publication.error).0, FinalPublicationError(publication.error), now))
    && (bound ==>
          && after.commitSha == Some(sha) && commits' == commits[sha := after.commitId]
          && after.commitId == if sha in commits then commits[sha] else before.commitId)
    && (!bound ==> after.commitSha == before.commitSha && commits' == commits)
  }

  /** The commit failed, or could not be recorded: one failing statement, tables otherwise as before. */
  lemma FailingBefore(before: Operation, owner: Owner, commits: Commits, commit: Answer<CommitError>, sha: Sha,
                      publication: Answer<PublicationError>, now: Time)
    requires HeldBy(before, owner) && !before.kind.UnknownKind?
    requires commit.Error? || KeyTaken(commits, sha, before.commitId)
    ensures
      var (code, terminal) := if commit.Error? then CommitFailure(commit.error) else ("ARTICLE_COMMIT_PERSIST_FAILED", false);
      Processed(before, Fail(before, owner, code, terminal, now + RetryDelay(before.attempts)), commits, commits,
                commit, sha, publication, now)
  {
    if commit.Error? {
      TerminalExactly(commit.error, NotReady);
    }
    hide RetryDelay, CommitFailure, PublicationFailure, FinalCommitError, FinalPublicationError, KeyTaken;
  }

  /** The commit was recorded; then the publication failed, or everything went well. */
  lemma EndingAfter(before: Operation, owner: Owner, commits: Commits, commit: Answer<CommitError>, sha: Sha,
                    publication: Answer<PublicationError>, now: Time)
    requires HeldBy(before, owner) && !before.kind.UnknownKind?
    requires commit.Fine? && !KeyTaken(commits, sha, before.commitId)
    ensures
      var commitId := CommitFor(commits, sha, before.commitId);
      var bound := BindRow(before, commitId, sha);
      var after :=
        if before.kind.Publication? && publication.Error? then
          var (code, terminal) := PublicationFailure(publication.error);
          Fail(bound, owner, code, terminal, now + RetryDelay(before.attempts))
        else Complete(bound, owner);
      Processed(before, after, commits, commits[sha := commitId], commit, sha, publication, now)
  {
    if publication.Error? {
      TerminalExactly(CommitTrouble, publication.error);
    }
    hide RetryDelay, CommitFailure, PublicationFailure, FinalCommitError, FinalPublicationError, KeyTaken, CommitFor;
  }

  /** The lease plays no part in what becomes of a row. */
  lemma SameUpToLease(before: Operation, renewed: Operation, commits: Commits, commit: Answer<CommitError>, sha: Sha,
                      publication: Answer<PublicationError>, now: Time)
    requires renewed == before.(leaseExpiresAt := renewed.leaseExpiresAt)
    ensures forall after, commits' ::
      Processed(before, after, commits, commits', commit, sha, publication, now)
      <==> Processed(renewed, after, commits, commits', commit, sha, publication, now)
  {
    hide RetryDelay, CommitFailure, PublicationFailure, FinalCommitError, FinalPublicationError;
  }

  /** What became of a row that a coordinator was handed. */
  predicate Settled(before: Operation, after: Operation) {
    && after.attempts == before.attempts + 1
    && (after.status.Succeeded? || after.status.Failed? || after.status.RetryWait?)
    && after.lockedBy.None? && after.leaseExpiresAt.None?
  }

  type Rows = map<OperationId, Operation>

  /** The rows outside `rest` that were picked are settled, all others are as the claim left them. */
  ghost predicate RoundUnderWay(before: Rows, claimed: Rows, rows: Rows, picked: set<OperationId>, rest: set<OperationId>) {
    && picked <= before.Keys && rows.Keys == before.Keys == claimed.Keys
    && (forall id :: id in picked - rest ==> Settled(before[id], rows[id]))
    && forall id :: id in rows && id !in picked - rest ==> rows[id] == claimed[id]
  }

  lemma RoundBegins(before: Rows, claimed: Rows, picked: set<OperationId>)
    requires picked <= before.Keys == claimed.Keys
    ensures RoundUnderWay(before, claimed, claimed, picked, picked)
  {
  }

  lemma OpenRow(before: Rows, claimed: Rows, rows: Rows, picked: set<OperationId>, rest: set<OperationId>, id: OperationId)
    requires RoundUnderWay(before, claimed, rows, picked, rest) && id in rest && rest <= picked
    ensures id in before && id in claimed && id in rows && rows[id] == claimed[id]
  {
  }

  lemma RoundGoesOn(before: Rows, claimed: Rows, rows: Rows, row: Operation, picked: set<OperationId>,
                    rest: set<OperationId>, id: OperationId)
    requires RoundUnderWay(before, claimed, rows, picked, rest) && id in rest && rest <= picked && id in before
    requires Settled(before[id], row)
    ensures RoundUnderWay(before, claimed, rows[id := row], picked, rest - {id})
  {
    hide Settled;
  }

  lemma RoundEnds(before: Rows, claimed: Rows, rows: Rows, picked: set<OperationId>)
    requires RoundUnderWay(before, claimed, rows, picked, {})
    ensures picked <= before.Keys == rows.Keys == claimed.Keys
    ensures forall id :: id in picked ==> Settled(before[id], rows[id])
    ensures forall id :: id in rows && id !in picked ==> rows[id] == claimed[id]
  {
    hide Settled;
  }

  class Coordinator {
    const owner: Owner
    const store: Store

    constructor (owner: Owner, store: Store)
      ensures this.owner == owner && this.store == store
    {
      this.owner, this.store := owner, store;
    }

    /** The goroutine that renews the lease until the work is done or a renewal is refused. */
    method KeepLease(id: OperationId, renewals: seq<Time>)
      requires id in store.operations
      modifies store`operations
      ensures id in store.operations && store.operations == old(store.operations)[id := store.operations[id]]
      ensures store.operations[id]
        == old(store.operations)[id].(leaseExpiresAt := store.operations[id].leaseExpiresAt)
      ensures !HeldBy(old(store.operations)[id], owner) ==> store.operations == old(store.operations)
    {
      for i := 0 to |renewals|
        invariant id in store.operations && store.operations == old(store.operations)[id := store.operations[id]]
        invariant store.operations[id]
          == old(store.operations)[id].(leaseExpiresAt := store.operations[id].leaseExpiresAt)
        invariant !HeldBy(old(store.operations)[id], owner) ==> store.operations == old(store.operations)
      {
        var outcome := store.RenewCommitOperationLease(id, owner, renewals[i]);
        if outcome.Conflict? {
          return;
        }
      }
    }

    /**
     `process` for an operation this coordinator claimed. The answers of the workspace (or of
     the commit lookup) and of the publication are parameters, and so are the renewals made
     before the first of them. A row that still runs under this owner always leaves it: it
     succeeds exactly if every part did, and otherwise waits for a retry or fails for good. A
     row that was taken over is not touched.
     */
    method Process(id: OperationId, claimed: Operation, renewals: seq<Time>, commit: Answer<CommitError>, sha: Sha,
                   publication: Answer<PublicationError>, now: Time)
      requires id in store.operations
      requires HeldBy(store.operations[id], owner) ==>
        store.operations[id].(leaseExpiresAt := claimed.leaseExpiresAt) == claimed
      requires claimed.commitSha.Some? ==> sha == claimed.commitSha.value
      modifies store
      ensures id in store.operations && store.operations == old(store.operations)[id := store.operations[id]]
      ensures !HeldBy(old(store.operations)[id], owner) ==>
        store.operations == old(store.operations) && store.commits == old(store.commits)
      ensures HeldBy(old(store.operations)[id], owner) ==>
        Processed(old(store.operations)[id], store.operations[id], old(store.commits), store.commits,
                  commit, sha, publication, now)
    {
      if claimed.kind.UnknownKind? {
        var _ := store.FailCommitOperation(id, owner, "ARTICLE_OPERATION_INVALID", true, now);
        return;
      }
      KeepLease(id, renewals);
      SameUpToLease(old(store.operations)[id], store.operations[id], old(store.commits), commit, sha, publication, now);
      hide Processed;
      Conclude(id, claimed, commit, sha, publication, now);
    }

    /** What `process` does once the workspace has answered and the renewals have stopped. */
    method Conclude(id: OperationId, claimed: Operation, commit: Answer<CommitError>, sha: Sha,
                    publication: Answer<PublicationError>, now: Time)
      requires id in store.operations && !claimed.kind.UnknownKind?
      requires HeldBy(store.operations[id], owner) ==>
        store.operations[id].(leaseExpiresAt := claimed.leaseExpiresAt) == claimed
      requires claimed.commitSha.Some? ==> sha == claimed.commitSha.value
      modifies store
      ensures id in store.operations && store.operations == old(store.operations)[id := store.operations[id]]
      ensures !HeldBy(old(store.operations)[id], owner) ==>
        store.operations == old(store.operations) && store.commits == old(store.commits)
      ensures HeldBy(old(store.operations)[id], owner) ==>
        Processed(old(store.operations)[id], store.operations[id], old(store.commits), store.commits,
                  commit, sha, publication, now)
    {
      ghost var before := store.operations[id];
      if HeldBy(before, owner) {
        if commit.Error? || KeyTaken(store.commits, sha, claimed.commitId) {
          FailingBefore(before, owner, store.commits, commit, sha, publication, now);
        } else {
          EndingAfter(before, owner, store.commits, commit, sha, publication, now);
        }
      }
      hide RetryDelay, CommitFailure, PublicationFailure, Processed, KeyTaken, CommitFor;
      var retryAt := now + RetryDelay(claimed.attempts);
      if commit.Error? {
        var (code, terminal) := CommitFailure(commit.error);
        var _ := store.FailCommitOperation(id, owner, code, terminal, retryAt);
        return;
      }
      var outcome := store.BindCommitOperation(id, owner, claimed.commitId, sha);
      if outcome.Conflict? {
        var _ := store.FailCommitOperation(id, owner, "ARTICLE_COMMIT_PERSIST_FAILED", false, retryAt);
        return;
      }
      if claimed.kind.Publication? && publication.Error? {
        var (code, terminal) := PublicationFailure(publication.error);
        var _ := store.FailCommitOperation(id, owner, code, terminal, retryAt);
        return;
      }
      var _ := store.CompleteCommitOperation(id, owner);
    }

    /** One goroutine of `RunOnce`: the row it was handed does not stay with this owner. */
    method ProcessClaimed(id: OperationId, ghost before: Operation, ghost expires: Time, answer: Answers)
      requires id in store.operations && store.operations[id] == ClaimRow(before, owner, expires)
      modifies store
      ensures id in store.operations && store.operations == old(store.operations)[id := store.operations[id]]
      ensures Settled(before, store.operations[id])
    {
      var row := store.operations[id];
      var sha := if row.commitSha.Some? then row.commitSha.value else answer.sha;
      Process(id, row, answer.renewals, answer.commit, sha, answer.publication, answer.finished);
    }

    /**
     `RunOnce` without interference: claim, process every claimed row, in any order, and
     return only when none of them runs under this owner any more. That is what lets the
     store fence by owner name. `limit` and `lease` default when they are not positive.
     */
    method RunOnce(now: Time, lease: Time, limit: int, locked: set<OperationId>, answers: OperationId -> Answers)
      returns (picked: set<OperationId>)
      requires owner != ""
      modifies store
      ensures picked <= old(store.Candidates(now, locked))
      ensures |picked| == Min(if limit < 1 then 4 else limit, |old(store.Candidates(now, locked))|)
      ensures store.operations.Keys == old(store.operations).Keys
      ensures forall id :: id in picked ==> Settled(old(store.operations)[id], store.operations[id])
      ensures forall id :: id in store.operations && id !in picked ==>
        store.operations[id] == if Exhausted(old(store.operations)[id], now) then Exhaust(old(store.operations)[id])
                                else old(store.operations)[id]
    {
      hide AfterClaim, Exhaust, Exhausted, Settled, ClaimRow, NotAfter;
      var valid;
      ghost var before := store.operations;
      var lease' := if lease <= 0 then DEFAULT_LEASE else lease;
      valid, picked := store.ClaimCommitOperations(owner, now, lease', if limit < 1 then 4 else limit, locked);
      ghost var claimed := store.operations;
      forall id | id in before
        ensures id in picked ==> claimed[id] == ClaimRow(before[id], owner, now + lease')
        ensures id !in picked ==> claimed[id] == if Exhausted(before[id], now) then Exhaust(before[id]) else before[id]
      {
        ClaimSplits(before[id], id in picked, owner, now, lease');
      }
      RoundBegins(before, claimed, picked);
      hide *;
      var rest := picked;
      while rest != {}
        invariant rest <= picked
        invariant RoundUnderWay(before, claimed, store.operations, picked, rest)
        decreases |rest|
      {
        var id :| id in rest;
        OpenRow(before, claimed, store.operations, picked, rest, id);
        ghost var earlier := store.operations;
        ProcessClaimed(id, before[id], now + lease', answers(id));
        RoundGoesOn(before, claimed, earlier, store.operations[id], picked, rest, id);
        rest := rest - {id};
      }
      RoundEnds(before, claimed, store.operations, picked);
    }
  }

  lemma ClaimSplits(operation: Operation, picked: bool, owner: Owner, now: Time, lease: Time)
    requires picked ==> Claimable(operation, now)
    ensures AfterClaim(operation, picked, owner, now, lease)
         == if picked then ClaimRow(operation, owner, now + lease)
            else if Exhausted(operation, now) then Exhaust(operation)
            else operation
  {
  }
}
