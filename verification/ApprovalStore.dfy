/** The approval store (backend/internal/agent/postgres.go): one method per transaction, working row by row. */
module ApprovalStore {
  import opened Common
  import opened Approvals

  class Store {
    var status: RunStatus
    var version: nat
    var approvals: seq<Approval>

    function Snapshot(): Run
      reads this
    {
      Run(status, version, approvals)
    }

    /** An activated run that nobody has asked an approval for. */
    constructor (status: RunStatus)
      requires !status.Queued?
      ensures Snapshot() == Run(status, 1, [])
    {
      this.status, version, approvals := status, 1, [];
    }

    method Find(id: ApprovalId) returns (i: nat)
      ensures i <= |approvals|
      ensures IndexOf(approvals, id) == if i < |approvals| then Some(i) else None
    {
      i := 0;
      while i < |approvals| && approvals[i].id != id
        invariant i <= |approvals|
        invariant forall j :: 0 <= j < i ==> approvals[j].id != id
      {
        i := i + 1;
      }
    }

    /** `ORDER BY approval_order LIMIT 1` over the open rows. */
    method LowestOpen() returns (i: nat)
      ensures i <= |approvals|
      ensures FirstOpen(approvals) == if i < |approvals| then Some(i) else None
    {
      i := 0;
      while i < |approvals| && !Open(approvals[i])
        invariant i <= |approvals|
        invariant forall j :: 0 <= j < i ==> !Open(approvals[j])
      {
        i := i + 1;
      }
    }

    method RecordRunApproval(id: ApprovalId, now: Time) returns (outcome: Outcome)
      modifies this
      ensures (Snapshot(), outcome) == Apply(old(Snapshot()), Record(id, now))
    {
      if Terminal(status) || status.Stopping? {
        return Conflict;
      }
      var i := Find(id);
      if i == |approvals| {
        approvals := approvals + [Approval(id, Pending, None, now, None)];
      }
      if !Open(approvals[i]) || status.WaitingForApproval? {
        return Done;
      }
      status, version := WaitingForApproval, version + 1;
      return Done;
    }

    method ClaimRunApproval(id: ApprovalId, claim: ClaimId, now: Time) returns (outcome: Outcome)
      requires DistinctIds(approvals)
      modifies this
      ensures (Snapshot(), outcome) == Apply(old(Snapshot()), Claim(id, claim, now))
    {
      if !status.WaitingForApproval? {
        return Conflict;
      }
      var i := Find(id);
      var lowest := LowestOpen();
      if lowest < |approvals| {
        IndexIsUnique(approvals, lowest);
      }
      if i == |approvals| || i != lowest {
        return Conflict;
      }
      var row := approvals[i];
      if !(row.status.Pending? || (row.status.Responding? && row.updatedAt <= now - CLAIM_LEASE)) {
        return Conflict;
      }
      approvals := approvals[i := row.(status := Responding, claim := Some(claim), updatedAt := now)];
      return Done;
    }

    method ReleaseRunApprovalClaim(id: ApprovalId, claim: ClaimId, now: Time) returns (outcome: Outcome)
      modifies this
      ensures (Snapshot(), outcome) == Apply(old(Snapshot()), Release(id, claim, now))
    {
      var i := Find(id);
      if i == |approvals| || !approvals[i].status.Responding? || approvals[i].claim != Some(claim) {
        return Conflict;
      }
      approvals := approvals[i := approvals[i].(status := Pending, claim := None, updatedAt := now)];
      return Done;
    }

    method CompleteRunApproval(id: ApprovalId, claim: ClaimId, now: Time) returns (outcome: Outcome)
      modifies this
      ensures (Snapshot(), outcome) == Apply(old(Snapshot()), Complete(id, claim, now))
    {
      var i := Find(id);
      if i == |approvals| {
        return Conflict;
      }
      if approvals[i].status.Resolved? && approvals[i].claim == Some(claim) {
        return Done;
      }
      if !approvals[i].status.Responding? || approvals[i].claim != Some(claim) || !status.WaitingForApproval? {
        return Conflict;
      }
      ResolveRow(i, now);
      return Done;
    }

    method ApplyRunApprovalResponse(id: ApprovalId, now: Time) returns (outcome: Outcome)
      modifies this
      ensures (Snapshot(), outcome) == Apply(old(Snapshot()), Respond(id, now))
    {
      var i := Find(id);
      if i == |approvals| {
        return Conflict;
      }
      if approvals[i].status.Resolved? {
        return Done;
      }
      if !Open(approvals[i]) || !status.WaitingForApproval? {
        return Conflict;
      }
      ResolveRow(i, now);
      return Done;
    }

    method ApplyNextRunApprovalResponse(now: Time) returns (outcome: Outcome)
      modifies this
      ensures (Snapshot(), outcome) == Apply(old(Snapshot()), RespondNext(now))
    {
      if !status.WaitingForApproval? {
        return Conflict;
      }
      var i := LowestOpen();
      if i == |approvals| {
        return Conflict;
      }
      ResolveRow(i, now);
      return Done;
    }

    /** Close one row, then `updateRunAfterApprovalResolution`. */
    method ResolveRow(i: nat, now: Time)
      requires i < |approvals| && status.WaitingForApproval?
      modifies this
      ensures Snapshot() == Resolve(old(Snapshot()), i, now)
    {
      approvals := approvals[i := approvals[i].(status := Resolved, resolvedAt := Some(now), updatedAt := now)];
      var open := LowestOpen();
      assert open < |approvals| ==> Open(approvals[open]) && AnyOpen(approvals);
      status := if open < |approvals| then WaitingForApproval else RunStatus.Running;
      version := version + 1;
    }

    /** The update that a completed run applies to all of its open rows. */
    method ExpireOpen(now: Time)
      modifies this`approvals
      ensures approvals == Expire(old(approvals), now)
    {
      ghost var before := approvals;
      var i := 0;
      while i < |approvals|
        invariant i <= |approvals| == |before|
        invariant forall j :: 0 <= j < i ==> approvals[j] == Expire(before, now)[j]
        invariant forall j :: i <= j < |approvals| ==> approvals[j] == before[j]
      {
        var row := approvals[i];
        if Open(row) {
          row := row.(status := Expired, claim := None, resolvedAt := Some(now), updatedAt := now);
        }
        approvals := approvals[i := row];
        i := i + 1;
      }
    }

    method UpdateRun(requested: RunStatus, now: Time)
      modifies this
      ensures Snapshot() == Apply(old(Snapshot()), Update(requested, now)).0
    {
      var next := requested;
      if requested.Running? {
        var open := LowestOpen();
        assert open < |approvals| ==> Open(approvals[open]) && AnyOpen(approvals);
        if open < |approvals| {
          next := WaitingForApproval;
        }
      }
      if Terminal(requested) {
        ExpireOpen(now);
      }
      status, version := next, version + 1;
    }
  }
}
