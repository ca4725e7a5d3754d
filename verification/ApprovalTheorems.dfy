/** Queue discipline, claim fencing and the two resolution channels of run approvals. */
module ApprovalTheorems {
  import opened Common
  import opened Approvals

  // ----- queue discipline -----

  /** Every open row before `i` is closed: `i` is the lowest-order open one, if it is open. */
  ghost predicate NothingOpenBefore(approvals: seq<Approval>, i: nat)
    requires i <= |approvals|
  {
    forall j :: 0 <= j < i ==> !Open(approvals[j])
  }

  /** At most one row is being responded to, and it is the lowest-order open row. */
  ghost predicate OneResponder(approvals: seq<Approval>) {
    forall i :: 0 <= i < |approvals| && approvals[i].status.Responding? ==>
      && NothingOpenBefore(approvals, i)
      && forall j :: 0 <= j < |approvals| && approvals[j].status.Responding? ==> j == i
  }

  ghost predicate Disciplined(run: Run) {
    && DistinctIds(run.approvals)
    && OneResponder(run.approvals)
    && (run.status.Running? || Terminal(run.status) ==> !AnyOpen(run.approvals))
  }

  lemma AppendKeepsRows(approvals: seq<Approval>, approval: Approval)
    requires DistinctIds(approvals) && OneResponder(approvals) && approval.status.Pending?
    requires forall j :: 0 <= j < |approvals| ==> approvals[j].id != approval.id
    ensures DistinctIds(approvals + [approval]) && OneResponder(approvals + [approval])
  {
    var longer := approvals + [approval];
    forall i | 0 <= i < |longer| && longer[i].status.Responding?
      ensures NothingOpenBefore(longer, i)
    {
      assert NothingOpenBefore(approvals, i);
    }
  }

  /** Closing, releasing or claiming a row keeps the discipline; claiming needs the row to be first. */
  lemma ReplaceKeepsRows(approvals: seq<Approval>, i: nat, approval: Approval)
    requires DistinctIds(approvals) && OneResponder(approvals) && i < |approvals| && approval.id == approvals[i].id
    requires Open(approval) ==> Open(approvals[i])
    requires approval.status.Responding? ==> NothingOpenBefore(approvals, i)
    ensures DistinctIds(approvals[i := approval]) && OneResponder(approvals[i := approval])
  {
    var rows := approvals[i := approval];
    forall k | 0 <= k < |rows| && rows[k].status.Responding?
      ensures NothingOpenBefore(rows, k)
    {
      assert k != i ==> NothingOpenBefore(approvals, k);
    }
  }

  lemma RecordKeepsDiscipline(run: Run, id: ApprovalId, now: Time)
    requires Disciplined(run)
    ensures Disciplined(Apply(run, Record(id, now)).0)
  {
    if IndexOf(run.approvals, id).None? {
      AppendKeepsRows(run.approvals, Approval(id, Pending, None, now, None));
    }
    hide OneResponder, DistinctIds;
  }

  lemma ClaimKeepsDiscipline(run: Run, id: ApprovalId, claim: ClaimId, now: Time)
    requires Disciplined(run)
    ensures Disciplined(Apply(run, Claim(id, claim, now)).0)
  {
    if MayClaim(run, id, now) {
      var i := FirstOpen(run.approvals).value;
      ReplaceKeepsRows(run.approvals, i, run.approvals[i].(status := Responding, claim := Some(claim), updatedAt := now));
    }
    hide OneResponder, DistinctIds;
  }

  lemma ReleaseKeepsDiscipline(run: Run, id: ApprovalId, claim: ClaimId, now: Time)
    requires Disciplined(run)
    ensures Disciplined(Apply(run, Release(id, claim, now)).0)
  {
    var i := IndexOf(run.approvals, id);
    if i.Some? && HeldBy(run.approvals[i.value], claim) {
      ReplaceKeepsRows(run.approvals, i.value,
                       run.approvals[i.value].(status := Pending, claim := None, updatedAt := now));
    }
    hide OneResponder, DistinctIds;
  }

  lemma ResolveKeepsDiscipline(run: Run, i: nat, now: Time)
    requires Disciplined(run) && i < |run.approvals|
    ensures Disciplined(Resolve(run, i, now))
  {
    ReplaceKeepsRows(run.approvals, i, ResolvedRow(run.approvals[i], now));
    hide OneResponder, DistinctIds, AnyOpen, ResolvedRow;
  }

  lemma UpdateKeepsDiscipline(run: Run, status: RunStatus, now: Time)
    requires Disciplined(run)
    ensures Disciplined(Apply(run, Update(status, now)).0)
  {
  }

  lemma OperationKeepsDiscipline(run: Run, operation: Operation)
    requires Disciplined(run)
    ensures Disciplined(Apply(run, operation).0)
  {
    hide Disciplined, Resolve, RecordRow, MayClaim, HeldBy, AnyOpen;
    match operation
    case Record(id, now) => RecordKeepsDiscipline(run, id, now);
    case Claim(id, claim, now) => ClaimKeepsDiscipline(run, id, claim, now);
    case Release(id, claim, now) => ReleaseKeepsDiscipline(run, id, claim, now);
    case Complete(id, claim, now) =>
      if IndexOf(run.approvals, id).Some? {
        ResolveKeepsDiscipline(run, IndexOf(run.approvals, id).value, now);
      }
    case Respond(id, now) =>
      if IndexOf(run.approvals, id).Some? {
        ResolveKeepsDiscipline(run, IndexOf(run.approvals, id).value, now);
      }
    case RespondNext(now) =>
      if FirstOpen(run.approvals).Some? {
        ResolveKeepsDiscipline(run, FirstOpen(run.approvals).value, now);
      }
    case Update(status, now) => UpdateKeepsDiscipline(run, status, now);
  }

  function Perform(run: Run, operations: seq<Operation>): Run
    decreases |operations|
  {
    if operations == [] then run
    else Perform(Apply(run, operations[0]).0, operations[1..])
  }

  /**
   From an activated run without approvals, in every sequence of transactions: at
   most one approval is being responded to and it is the lowest-order open one,
   and a run that is running, completed, failed or stopped has no open approval.
   */
  lemma {:induction false} QueueDiscipline(run: Run, operations: seq<Operation>)
    requires Disciplined(run)
    ensures Disciplined(Perform(run, operations))
    decreases |operations|
  {
    if operations != [] {
      OperationKeepsDiscipline(run, operations[0]);
      QueueDiscipline(Apply(run, operations[0]).0, operations[1..]);
    }
  }

  // ----- rows that are closed stay as they are -----

  /** The row with this ID, which no operation ever removes or moves. */
  ghost predicate RowIs(run: Run, i: nat, approval: Approval) {
    i < |run.approvals| && run.approvals[i] == approval
  }

  lemma ClosedRowUntouched(run: Run, i: nat, operation: Operation)
    requires DistinctIds(run.approvals) && i < |run.approvals| && !Open(run.approvals[i])
    ensures RowIs(Apply(run, operation).0, i, run.approvals[i])
  {
  }

  /** A resolved or expired approval never changes again, whatever happens to its run, even if recorded again. */
  lemma {:induction false} ClosedForever(run: Run, i: nat, operations: seq<Operation>)
    requires Disciplined(run) && i < |run.approvals| && !Open(run.approvals[i])
    ensures RowIs(Perform(run, operations), i, run.approvals[i])
    decreases |operations|
  {
    if operations != [] {
      ClosedRowUntouched(run, i, operations[0]);
      OperationKeepsDiscipline(run, operations[0]);
      ClosedForever(Apply(run, operations[0]).0, i, operations[1..]);
    }
  }

  // ----- claim fencing -----

  predicate Claims(run: Run, operation: Operation, id: ApprovalId) {
    operation.Claim? && operation.id == id && Apply(run, operation).1.Done?
  }

  predicate Releases(run: Run, operation: Operation, id: ApprovalId) {
    operation.Release? && operation.id == id && Apply(run, operation).1.Done?
  }

  /** No operation of the sequence releases the approval. */
  ghost predicate NeverReleased(run: Run, operations: seq<Operation>, id: ApprovalId)
    decreases |operations|
  {
    operations != [] ==>
      !Releases(run, operations[0], id) && NeverReleased(Apply(run, operations[0]).0, operations[1..], id)
  }

  /** Row `i` was claimed at `since` or later and not released: it is responding, or closed for good. */
  ghost predicate ClaimedSince(run: Run, i: nat, id: ApprovalId, since: Time) {
    && i < |run.approvals| && run.approvals[i].id == id
    && !run.approvals[i].status.Pending?
    && (run.approvals[i].status.Responding? ==> run.approvals[i].updatedAt >= since)
  }

  lemma StepKeepsClaimed(run: Run, i: nat, id: ApprovalId, since: Time, operation: Operation)
    requires Disciplined(run) && ClaimedSince(run, i, id, since) && !Releases(run, operation, id)
    ensures ClaimedSince(Apply(run, operation).0, i, id, since)
    ensures Claims(run, operation, id) ==> operation.now >= since + CLAIM_LEASE
  {
    IndexIsUnique(run.approvals, i);
  }

  lemma {:induction false} ClaimedStaysClaimed(run: Run, i: nat, id: ApprovalId, since: Time, operations: seq<Operation>)
    requires Disciplined(run) && ClaimedSince(run, i, id, since) && NeverReleased(run, operations, id)
    ensures Disciplined(Perform(run, operations)) && ClaimedSince(Perform(run, operations), i, id, since)
    decreases |operations|
  {
    if operations != [] {
      StepKeepsClaimed(run, i, id, since, operations[0]);
      OperationKeepsDiscipline(run, operations[0]);
      ClaimedStaysClaimed(Apply(run, operations[0]).0, i, id, since, operations[1..]);
    }
  }

  /**
   Two successful claims on one approval, with any other operations but no
   release of it between them, are at least the lease apart by recorded time.
   */
  lemma ClaimsAreLeaseApart(run: Run, first: Operation, between: seq<Operation>, second: Operation, id: ApprovalId)
    requires Disciplined(run) && Claims(run, first, id)
    requires NeverReleased(Apply(run, first).0, between, id)
    requires Claims(Perform(Apply(run, first).0, between), second, id)
    ensures second.now >= first.now + CLAIM_LEASE
  {
    var i := FirstOpen(run.approvals).value;
    var claimed := Apply(run, first).0;
    OperationKeepsDiscipline(run, first);
    assert ClaimedSince(claimed, i, id, first.now);
    ClaimedStaysClaimed(claimed, i, id, first.now, between);
    StepKeepsClaimed(Perform(claimed, between), i, id, first.now, second);
  }

  predicate UsesClaim(operation: Operation, id: ApprovalId, claim: ClaimId) {
    (operation.Complete? || operation.Release?) && operation.id == id && operation.claim == claim
  }

  /** No operation of the sequence hands out this claim token. */
  predicate NeverIssued(operations: seq<Operation>, claim: ClaimId) {
    forall k :: 0 <= k < |operations| && operations[k].Claim? ==> operations[k].claim != claim
  }

  ghost predicate LostClaim(run: Run, claim: ClaimId) {
    forall i :: 0 <= i < |run.approvals| ==> run.approvals[i].claim != Some(claim)
  }

  lemma StepKeepsLost(run: Run, claim: ClaimId, operation: Operation)
    requires LostClaim(run, claim) && (operation.Claim? ==> operation.claim != claim)
    ensures LostClaim(Apply(run, operation).0, claim)
  {
  }

  lemma {:induction false} LostStaysLost(run: Run, claim: ClaimId, operations: seq<Operation>)
    requires LostClaim(run, claim) && NeverIssued(operations, claim)
    ensures LostClaim(Perform(run, operations), claim)
    decreases |operations|
  {
    if operations != [] {
      StepKeepsLost(run, claim, operations[0]);
      assert forall k :: 0 <= k < |operations[1..]| ==> operations[1..][k] == operations[k + 1];
      LostStaysLost(Apply(run, operations[0]).0, claim, operations[1..]);
    }
  }

  /** The token `claim` is on row `i` and nowhere else. */
  ghost predicate OnlyOn(run: Run, i: nat, claim: ClaimId) {
    && i < |run.approvals|
    && run.approvals[i].claim == Some(claim)
    && forall j :: 0 <= j < |run.approvals| && j != i ==> run.approvals[j].claim != Some(claim)
  }

  /**
   After a takeover the old claim is powerless: whatever happens in between,
   Complete or Release with it is refused and changes nothing.
   */
  lemma TakenOverClaimIsPowerless(run: Run, i: nat, old_claim: ClaimId, takeover: Operation,
                                  between: seq<Operation>, late: Operation)
    requires Disciplined(run) && OnlyOn(run, i, old_claim)
    requires Claims(run, takeover, run.approvals[i].id) && takeover.claim != old_claim
    requires NeverIssued(between, old_claim)
    requires UsesClaim(late, run.approvals[i].id, old_claim)
    ensures var after := Perform(Apply(run, takeover).0, between); Apply(after, late) == (after, Conflict)
  {
    var taken := Apply(run, takeover).0;
    assert FirstOpen(run.approvals) == Some(i);
    assert LostClaim(taken, old_claim);
    LostStaysLost(taken, old_claim, between);
  }

  // ----- the two resolution channels -----

  /** Runs compared up to the instants recorded in them. */
  ghost predicate SameUpToTimes(left: Run, right: Run) {
    && left.status == right.status && left.version == right.version
    && |left.approvals| == |right.approvals|
    && forall i :: 0 <= i < |left.approvals| ==>
         && left.approvals[i].id == right.approvals[i].id
         && left.approvals[i].status == right.approvals[i].status
         && left.approvals[i].claim == right.approvals[i].claim
  }

  function Resolutions(approvals: seq<Approval>): nat {
    if approvals == [] then 0
    else (if approvals[0].status.Resolved? then 1 else 0) + Resolutions(approvals[1..])
  }

  lemma {:induction false} ResolvingCountsOne(approvals: seq<Approval>, i: nat, now: Time)
    requires i < |approvals| && !approvals[i].status.Resolved?
    ensures Resolutions(approvals[i := ResolvedRow(approvals[i], now)]) == Resolutions(approvals) + 1
  {
    var rows := approvals[i := ResolvedRow(approvals[i], now)];
    if i == 0 {
      assert rows[1..] == approvals[1..];
    } else {
      assert rows[1..] == approvals[1..][i - 1 := ResolvedRow(approvals[1..][i - 1], now)];
      ResolvingCountsOne(approvals[1..], i - 1, now);
    }
  }

  /**
   The HTTP completion and the targeted event commute. From a claimed approval
   both channels succeed in either order exactly when the run is waiting; they
   then reach the same run, resolve exactly one approval and bump the version
   once. Otherwise both are refused and nothing changes.
   */
  lemma ChannelsCommute(run: Run, i: nat, claim: ClaimId, http: Time, event: Time)
    requires Disciplined(run) && i < |run.approvals| && HeldBy(run.approvals[i], claim)
    ensures
      var id := run.approvals[i].id;
      var (httpFirst, a1) := Apply(run, Complete(id, claim, http));
      var (httpThenEvent, a2) := Apply(httpFirst, Respond(id, event));
      var (eventFirst, b1) := Apply(run, Respond(id, event));
      var (eventThenHttp, b2) := Apply(eventFirst, Complete(id, claim, http));
      && (a1.Done? && a2.Done? && b1.Done? && b2.Done? <==> run.status.WaitingForApproval?)
      && SameUpToTimes(httpThenEvent, eventThenHttp)
      && (run.status.WaitingForApproval? ==>
            && httpThenEvent.version == run.version + 1
            && Resolutions(httpThenEvent.approvals) == Resolutions(run.approvals) + 1)
      && (!run.status.WaitingForApproval? ==> httpThenEvent == run && eventThenHttp == run)
  {
    var id := run.approvals[i].id;
    IndexIsUnique(run.approvals, i);
    if run.status.WaitingForApproval? {
      ResolvingCountsOne(run.approvals, i, http);
      var httpFirst, eventFirst := Resolve(run, i, http), Resolve(run, i, event);
      IndexIsUnique(httpFirst.approvals, i);
      IndexIsUnique(eventFirst.approvals, i);
      SameOpenRows(run.approvals, i, http, event);
    }
  }

  lemma SameOpenRows(approvals: seq<Approval>, i: nat, now: Time, later: Time)
    requires i < |approvals|
    ensures AnyOpen(approvals[i := ResolvedRow(approvals[i], now)])
       <==> AnyOpen(approvals[i := ResolvedRow(approvals[i], later)])
  {
    var left, right := approvals[i := ResolvedRow(approvals[i], now)], approvals[i := ResolvedRow(approvals[i], later)];
    assert forall j :: 0 <= j < |approvals| ==> (Open(left[j]) <==> Open(right[j]));
  }

  /**
   The slower channel always hears success: once the event resolved a claimed
   approval, any operations may follow and the claimant's completion is still
   accepted and changes nothing. The same holds the other way round.
   */
  lemma SlowerChannelSucceeds(run: Run, i: nat, claim: ClaimId, fast: Time, between: seq<Operation>, slow: Time)
    requires Disciplined(run) && i < |run.approvals| && HeldBy(run.approvals[i], claim)
    requires run.status.WaitingForApproval?
    ensures
      var id := run.approvals[i].id;
      var afterEvent := Perform(Apply(run, Respond(id, fast)).0, between);
      var afterHttp := Perform(Apply(run, Complete(id, claim, fast)).0, between);
      && Apply(afterEvent, Complete(id, claim, slow)) == (afterEvent, Done)
      && Apply(afterHttp, Respond(id, slow)) == (afterHttp, Done)
  {
    var id := run.approvals[i].id;
    IndexIsUnique(run.approvals, i);
    var resolved := Resolve(run, i, fast);
    OperationKeepsDiscipline(run, Respond(id, fast));
    ClosedForever(resolved, i, between);
    QueueDiscipline(resolved, between);
    var after := Perform(resolved, between);
    IndexIsUnique(after.approvals, i);
  }
}
