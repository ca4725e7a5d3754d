/**
 What each approval transaction does to the columns of the rows, when it is refused, and that
 the queue always moves on (backend/internal/agent/postgres.go:803-1207).
 */
module ApprovalEffects {
  import opened Common
  import opened Approvals
  import opened ApprovalTheorems

  /** Ten minutes. */
  const LEASE_NANOSECONDS: Time := 600_000_000_000

  predicate Closed(approval: Approval) {
    approval.status.Resolved? || approval.status.Expired?
  }

  /** No row of lower order is waiting for an answer. */
  predicate ClosedBefore(approvals: seq<Approval>, i: nat)
    requires i <= |approvals|
  {
    forall j :: 0 <= j < i ==> Closed(approvals[j])
  }

  predicate ClosedBesides(approvals: seq<Approval>, i: nat) {
    forall j :: 0 <= j < |approvals| && j != i ==> Closed(approvals[j])
  }

  /** Nobody is at work on the row, or whoever was has let the lease run out. */
  predicate FreeToClaim(approval: Approval, now: Time) {
    || approval.status.Pending?
    || (approval.status.Responding? && approval.updatedAt <= now - LEASE_NANOSECONDS)
  }

  lemma LowestOpenIs(approvals: seq<Approval>, i: nat)
    requires i < |approvals| && !Closed(approvals[i])
    ensures FirstOpen(approvals) == Some(i) <==> ClosedBefore(approvals, i)
  {
    assert Open(approvals[i]);
    if ClosedBefore(approvals, i) {
      var k := FirstOpen(approvals).value;
      assert !(k < i) && !(i < k);
    }
  }

  /**
   A claim succeeds exactly when the run waits for approval, no row of lower order is open,
   and the row is pending or its claimant was last heard of at least ten minutes ago. Then
   the row is being responded to under the new token since `now`, and nothing else changes.
   */
  lemma ClaimEffect(run: Run, i: nat, claim: ClaimId, now: Time)
    requires DistinctIds(run.approvals) && i < |run.approvals|
    ensures
      var row := run.approvals[i];
      var (next, outcome) := Apply(run, Claim(row.id, claim, now));
      if run.status.WaitingForApproval? && ClosedBefore(run.approvals, i) && FreeToClaim(row, now) then
        && outcome.Done?
        && next.status == run.status && next.version == run.version
        && next.approvals == run.approvals[i := Approval(row.id, Responding, Some(claim), now, row.resolvedAt)]
      else next == run && outcome.Conflict?
  {
    if !Closed(run.approvals[i]) {
      LowestOpenIs(run.approvals, i);
    }
    if FirstOpen(run.approvals).Some? {
      IndexIsUnique(run.approvals, FirstOpen(run.approvals).value);
      IndexIsUnique(run.approvals, i);
    }
    hide DistinctIds, IndexOf, FirstOpen, AnyOpen;
  }

  /** No row answers to this ID: every targeted transaction is refused and changes nothing. */
  lemma UnknownIsRefused(run: Run, id: ApprovalId, claim: ClaimId, now: Time)
    requires forall i :: 0 <= i < |run.approvals| ==> run.approvals[i].id != id
    ensures Apply(run, Claim(id, claim, now)) == (run, Conflict)
    ensures Apply(run, Release(id, claim, now)) == (run, Conflict)
    ensures Apply(run, Complete(id, claim, now)) == (run, Conflict)
    ensures Apply(run, Respond(id, now)) == (run, Conflict)
  {
    assert IndexOf(run.approvals, id).None?;
    hide AnyOpen, IndexOf;
  }

  /** A release succeeds exactly under the current token of a row being responded to, which is pending again. */
  lemma ReleaseEffect(run: Run, i: nat, claim: ClaimId, now: Time)
    requires DistinctIds(run.approvals) && i < |run.approvals|
    ensures
      var row := run.approvals[i];
      var (next, outcome) := Apply(run, Release(row.id, claim, now));
      if row.status.Responding? && row.claim == Some(claim) then
        && outcome.Done?
        && next.status == run.status && next.version == run.version
        && next.approvals == run.approvals[i := Approval(row.id, Pending, None, now, row.resolvedAt)]
      else next == run && outcome.Conflict?
  {
    IndexIsUnique(run.approvals, i);
    hide DistinctIds, IndexOf;
  }

  /** The run after row `i` was resolved at `now`: it waits exactly as long as another row is open. */
  predicate ResolvedAt(run: Run, next: Run, i: nat, now: Time)
    requires i < |run.approvals|
  {
    var row := run.approvals[i];
    && next.approvals == run.approvals[i := Approval(row.id, Resolved, row.claim, now, Some(now))]
    && next.version == run.version + 1
    && next.status == if ClosedBesides(run.approvals, i) then Running else WaitingForApproval
  }

  lemma ResolvingEffect(run: Run, i: nat, now: Time)
    requires i < |run.approvals|
    ensures ResolvedAt(run, Resolve(run, i, now), i, now)
  {
    var rows := run.approvals[i := ResolvedRow(run.approvals[i], now)];
    if !ClosedBesides(run.approvals, i) {
      var j :| 0 <= j < |run.approvals| && j != i && !Closed(run.approvals[j]);
      assert Open(rows[j]);
    }
  }

  /**
   The HTTP completion: it repeats a success under its own token, resolves a row held under
   the token while the run waits, and is refused otherwise.
   */
  lemma CompleteEffect(run: Run, i: nat, claim: ClaimId, now: Time)
    requires DistinctIds(run.approvals) && i < |run.approvals|
    ensures
      var row := run.approvals[i];
      var (next, outcome) := Apply(run, Complete(row.id, claim, now));
      if row.claim == Some(claim) && row.status.Resolved? then next == run && outcome.Done?
      else if row.claim == Some(claim) && row.status.Responding? && run.status.WaitingForApproval? then
        outcome.Done? && ResolvedAt(run, next, i, now)
      else next == run && outcome.Conflict?
  {
    IndexIsUnique(run.approvals, i);
    ResolvingEffect(run, i, now);
    hide DistinctIds, IndexOf, Resolve, ResolvedAt;
  }

  /** The targeted event: it needs no token, and is refused for an expired row or a run that does not wait. */
  lemma RespondEffect(run: Run, i: nat, now: Time)
    requires DistinctIds(run.approvals) && i < |run.approvals|
    ensures
      var row := run.approvals[i];
      var (next, outcome) := Apply(run, Respond(row.id, now));
      if row.status.Resolved? then next == run && outcome.Done?
      else if !row.status.Expired? && run.status.WaitingForApproval? then
        outcome.Done? && ResolvedAt(run, next, i, now)
      else next == run && outcome.Conflict?
  {
    IndexIsUnique(run.approvals, i);
    ResolvingEffect(run, i, now);
    hide DistinctIds, IndexOf, Resolve, ResolvedAt;
  }

  /** The untargeted event resolves the open row of lowest order, whoever has claimed it. */
  lemma RespondNextEffect(run: Run, now: Time)
    ensures
      var (next, outcome) := Apply(run, RespondNext(now));
      && (outcome.Done? <==>
            run.status.WaitingForApproval? && exists i :: 0 <= i < |run.approvals| && !Closed(run.approvals[i]))
      && (outcome.Conflict? ==> next == run)
      && forall i: nat :: i < |run.approvals| && outcome.Done? && !Closed(run.approvals[i]) && ClosedBefore(run.approvals, i)
           ==> ResolvedAt(run, next, i, now)
  {
    forall i: nat | i < |run.approvals| && !Closed(run.approvals[i]) && ClosedBefore(run.approvals, i)
      ensures FirstOpen(run.approvals) == Some(i) && ResolvedAt(run, Resolve(run, i, now), i, now)
    {
      LowestOpenIs(run.approvals, i);
      ResolvingEffect(run, i, now);
    }
    hide Resolve, ResolvedAt, ClosedBefore;
  }

  /**
   Recording an approval: an ending run refuses it. A new one joins the queue as pending; the
   run then waits, unless the approval was already closed.
   */
  lemma RecordEffect(run: Run, id: ApprovalId, now: Time)
    ensures
      var (next, outcome) := Apply(run, Record(id, now));
      var ending := run.status.Stopping? || run.status.Completed? || run.status.Failed? || run.status.Stopped?;
      var known := exists i :: 0 <= i < |run.approvals| && run.approvals[i].id == id;
      && (outcome.Done? <==> !ending)
      && (ending ==> next == run)
      && (!ending ==>
            next.approvals == if known then run.approvals else run.approvals + [Approval(id, Pending, None, now, None)])
      && (!ending && !known ==> next.status.WaitingForApproval?)
      && forall i: nat :: !ending && i < |run.approvals| && run.approvals[i].id == id && DistinctIds(run.approvals) ==>
           next.status == if Closed(run.approvals[i]) then run.status else WaitingForApproval
    ensures
      var next := Apply(run, Record(id, now)).0;
      next.version == run.version + if next.status == run.status then 0 else 1
  {
    forall i: nat | i < |run.approvals| && run.approvals[i].id == id && DistinctIds(run.approvals)
      ensures IndexOf(run.approvals, id) == Some(i)
    {
      IndexIsUnique(run.approvals, i);
    }
    hide DistinctIds;
  }

  /** An approval recorded while no other is open can be claimed at once, and at any later time. */
  lemma RecordedIsClaimable(run: Run, id: ApprovalId, recorded: Time, claim: ClaimId, now: Time)
    requires Disciplined(run) && forall i :: 0 <= i < |run.approvals| ==> Closed(run.approvals[i]) && run.approvals[i].id != id
    requires !Terminal(run.status) && !run.status.Stopping?
    ensures
      var asked := Apply(run, Record(id, recorded)).0;
      var (next, outcome) := Apply(asked, Claim(id, claim, now));
      && outcome.Done? && |next.approvals| == |run.approvals| + 1
      && next.approvals[..|run.approvals|] == run.approvals
      && next.approvals[|run.approvals|] == Approval(id, Responding, Some(claim), now, None)
  {
    RecordEffect(run, id, recorded);
    OperationKeepsDiscipline(run, Record(id, recorded));
    var asked := Apply(run, Record(id, recorded)).0;
    ClaimEffect(asked, |run.approvals|, claim, now);
    hide Apply, OneResponder, DistinctIds;
  }

  /** A released row can be claimed again at once. */
  lemma ReleasedIsClaimable(run: Run, i: nat, claim: ClaimId, released: Time, next: ClaimId, now: Time)
    requires Disciplined(run) && i < |run.approvals| && run.status.WaitingForApproval?
    requires run.approvals[i].status.Responding? && run.approvals[i].claim == Some(claim)
    ensures
      var id := run.approvals[i].id;
      Apply(Apply(run, Release(id, claim, released)).0, Claim(id, next, now)).1.Done?
  {
    ReleaseEffect(run, i, claim, released);
    OperationKeepsDiscipline(run, Release(run.approvals[i].id, claim, released));
    assert NothingOpenBefore(run.approvals, i);
    ClaimEffect(Apply(run, Release(run.approvals[i].id, claim, released)).0, i, next, now);
    hide Apply, DistinctIds, OneResponder;
  }

  /**
   An update of the run: an ending status expires every open row and clears its claim;
   "running" becomes waiting while a row is open; any other status is taken as it is.
   */
  lemma UpdateEffect(run: Run, status: RunStatus, now: Time)
    ensures
      var (next, outcome) := Apply(run, Update(status, now));
      var ending := status.Completed? || status.Failed? || status.Stopped?;
      && outcome.Done? && next.version == run.version + 1
      && |next.approvals| == |run.approvals|
      && (forall i :: 0 <= i < |run.approvals| ==>
            next.approvals[i] == if ending && !Closed(run.approvals[i])
                                 then Approval(run.approvals[i].id, Expired, None, now, Some(now))
                                 else run.approvals[i])
      && next.status == if status.Running? && exists i :: 0 <= i < |run.approvals| && !Closed(run.approvals[i])
                        then WaitingForApproval else status
  {
    assert AnyOpen(run.approvals) <==> exists i :: 0 <= i < |run.approvals| && !Closed(run.approvals[i]);
  }

  // ----- the queue moves on -----

  function OpenCount(approvals: seq<Approval>): nat {
    if approvals == [] then 0 else OpenCount(approvals[1..]) + if Closed(approvals[0]) then 0 else 1
  }

  lemma {:induction false} ClosingCounts(approvals: seq<Approval>, i: nat, approval: Approval)
    requires i < |approvals| && !Closed(approvals[i]) && Closed(approval)
    ensures OpenCount(approvals[i := approval]) == OpenCount(approvals) - 1
  {
    var rows := approvals[i := approval];
    if i == 0 {
      assert rows[1..] == approvals[1..];
    } else {
      assert rows[1..] == approvals[1..][i - 1 := approval];
      ClosingCounts(approvals[1..], i - 1, approval);
    }
  }

  /** Claim the row and complete it, both at the same time. */
  lemma ClaimAndComplete(run: Run, i: nat, claim: ClaimId, now: Time)
    requires Disciplined(run) && run.status.WaitingForApproval?
    requires i < |run.approvals| && ClosedBefore(run.approvals, i) && FreeToClaim(run.approvals[i], now)
    ensures
      var row := run.approvals[i];
      var claimed := Apply(run, Claim(row.id, claim, now)).0;
      var done := Apply(claimed, Complete(row.id, claim, now)).0;
      && done.approvals == run.approvals[i := Approval(row.id, Resolved, Some(claim), now, Some(now))]
      && Disciplined(done)
      && done.status == if ClosedBesides(run.approvals, i) then Running else WaitingForApproval
  {
    var row := run.approvals[i];
    ClaimEffect(run, i, claim, now);
    OperationKeepsDiscipline(run, Claim(row.id, claim, now));
    var claimed := Apply(run, Claim(row.id, claim, now)).0;
    CompleteEffect(claimed, i, claim, now);
    OperationKeepsDiscipline(claimed, Complete(row.id, claim, now));
    BesidesUnchanged(run.approvals, i, claimed.approvals[i]);
    hide Apply, OneResponder, DistinctIds, ClosedBesides;
  }

  lemma BesidesUnchanged(approvals: seq<Approval>, i: nat, row: Approval)
    requires i < |approvals|
    ensures ClosedBesides(approvals[i := row], i) <==> ClosedBesides(approvals, i)
  {
    assert forall j :: 0 <= j < |approvals| && j != i ==> approvals[i := row][j] == approvals[j];
  }

  /** Every open row is free to be claimed by now. */
  predicate LeasesOver(approvals: seq<Approval>, now: Time) {
    forall i :: 0 <= i < |approvals| && !Closed(approvals[i]) ==> FreeToClaim(approvals[i], now)
  }

  /** The open rows are resolved by this token, the closed ones are what they were. */
  predicate AllAnswered(before: seq<Approval>, after: seq<Approval>, claim: ClaimId, now: Time) {
    && |after| == |before|
    && forall i :: 0 <= i < |before| ==>
         after[i] == if Closed(before[i]) then before[i] else Approval(before[i].id, Resolved, Some(claim), now, Some(now))
  }

  /** The open row of lowest order is claimed and completed; one row fewer is open. */
  lemma DrainStep(run: Run, claim: ClaimId, now: Time) returns (i: nat, next: Run)
    requires Disciplined(run) && run.status.WaitingForApproval? && OpenCount(run.approvals) > 0
    requires LeasesOver(run.approvals, now)
    ensures i < |run.approvals| && !Closed(run.approvals[i])
    ensures
      var row := run.approvals[i];
      && next == Apply(Apply(run, Claim(row.id, claim, now)).0, Complete(row.id, claim, now)).0
      && next.approvals == run.approvals[i := Approval(row.id, Resolved, Some(claim), now, Some(now))]
    ensures Disciplined(next) && LeasesOver(next.approvals, now)
    ensures OpenCount(next.approvals) == OpenCount(run.approvals) - 1
    ensures next.status == if OpenCount(next.approvals) == 0 then Running else WaitingForApproval
  {
    i := LowestOpenRow(run.approvals);
    var row := run.approvals[i];
    assert FreeToClaim(row, now);
    hide Apply, Disciplined, OpenCount, ClosedBesides, LeasesOver, ClosedBefore, FreeToClaim;
    ClaimAndComplete(run, i, claim, now);
    next := Apply(Apply(run, Claim(row.id, claim, now)).0, Complete(row.id, claim, now)).0;
    ClosingLeaves(run.approvals, i, next.approvals[i], now);
  }

  lemma ClosingLeaves(approvals: seq<Approval>, i: nat, row: Approval, now: Time)
    requires i < |approvals| && !Closed(approvals[i]) && Closed(row) && LeasesOver(approvals, now)
    ensures LeasesOver(approvals[i := row], now)
    ensures OpenCount(approvals[i := row]) == OpenCount(approvals) - 1
    ensures OpenCount(approvals[i := row]) == 0 <==> ClosedBesides(approvals, i)
  {
    ClosingCounts(approvals, i, row);
    SomeOpen(approvals[i := row]);
    BesidesUnchanged(approvals, i, row);
    hide OpenCount, FreeToClaim;
  }

  lemma AnsweredOn(before: seq<Approval>, next: seq<Approval>, after: seq<Approval>, i: nat, claim: ClaimId, now: Time)
    requires i < |before| && !Closed(before[i])
    requires next == before[i := Approval(before[i].id, Resolved, Some(claim), now, Some(now))]
    requires AllAnswered(next, after, claim, now)
    ensures AllAnswered(before, after, claim, now)
  {
  }

  lemma NothingLeft(approvals: seq<Approval>, claim: ClaimId, now: Time)
    requires OpenCount(approvals) == 0
    ensures AllAnswered(approvals, approvals, claim, now)
  {
    SomeOpen(approvals);
  }

  /**
   No run is stuck: once earlier leases are over, one client can claim and complete the open
   approvals one after another, and when the last one is resolved the run is running again.
   */
  lemma {:induction false} QueueDrains(run: Run, claim: ClaimId, now: Time) returns (operations: seq<Operation>)
    requires Disciplined(run) && run.status.WaitingForApproval? && OpenCount(run.approvals) > 0
    requires LeasesOver(run.approvals, now)
    ensures forall k :: 0 <= k < |operations| ==>
      (operations[k].Claim? || operations[k].Complete?) && operations[k].claim == claim && operations[k].now == now
    ensures
      var done := Perform(run, operations);
      done.status.Running? && AllAnswered(run.approvals, done.approvals, claim, now)
    decreases OpenCount(run.approvals)
  {
    hide Apply, Perform, Disciplined, OpenCount, LeasesOver, AllAnswered, Closed;
    var i, next := DrainStep(run, claim, now);
    var row := run.approvals[i];
    var rest: seq<Operation> := [];
    if OpenCount(next.approvals) == 0 {
      NothingLeft(next.approvals, claim, now);
      PerformNothing(next);
    } else {
      rest := QueueDrains(next, claim, now);
    }
    operations := [Claim(row.id, claim, now), Complete(row.id, claim, now)] + rest;
    Performed(run, operations[0], operations[1], rest);
    AnsweredOn(run.approvals, next.approvals, Perform(next, rest).approvals, i, claim, now);
  }

  lemma PerformNothing(run: Run)
    ensures Perform(run, []) == run
  {
  }

  lemma {:induction false} SomeOpen(approvals: seq<Approval>)
    ensures OpenCount(approvals) > 0 <==> exists i :: 0 <= i < |approvals| && !Closed(approvals[i])
  {
    if approvals != [] {
      SomeOpen(approvals[1..]);
      if i :| 0 <= i < |approvals[1..]| && !Closed(approvals[1..][i]) {
        assert !Closed(approvals[i + 1]);
      }
      if i :| 0 < i < |approvals| && !Closed(approvals[i]) {
        assert !Closed(approvals[1..][i - 1]);
      }
    }
  }

  lemma {:induction false} LowestOpenRow(approvals: seq<Approval>) returns (i: nat)
    requires OpenCount(approvals) > 0
    ensures i < |approvals| && !Closed(approvals[i]) && ClosedBefore(approvals, i)
  {
    if !Closed(approvals[0]) {
      i := 0;
    } else {
      var k := LowestOpenRow(approvals[1..]);
      assert forall j :: 0 < j < k + 1 ==> approvals[j] == approvals[1..][j - 1];
      i := k + 1;
    }
  }

  lemma Performed(run: Run, first: Operation, second: Operation, rest: seq<Operation>)
    ensures Perform(run, [first, second] + rest) == Perform(Apply(Apply(run, first).0, second).0, rest)
  {
    var operations := [first, second] + rest;
    assert operations[1..] == [second] + rest && operations[1..][1..] == rest;
    hide Apply;
  }
}
