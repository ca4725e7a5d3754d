/**
 The approval rows of one Agent run and the effect of every store transaction on
 them (backend/internal/agent/postgres.go:803-1207). Rows are kept in
 `approval_order`, which the database hands out in insertion order.
 */
module Approvals {
  import opened Common

  type ApprovalId = string
  type ClaimId = string

  /** Times are instants in nanoseconds. */
  type Time = int

  /** `runApprovalClaimLease`, ten minutes. */
  const CLAIM_LEASE: Time := 10 * 60 * 1_000_000_000

  datatype RunStatus = Queued | Running | WaitingForApproval | Stopping | Completed | Failed | Stopped

  datatype ApprovalStatus = Pending | Responding | Resolved | Expired

  datatype Approval = Approval(
    id: ApprovalId,
    status: ApprovalStatus,
    claim: Option<ClaimId>,
    updatedAt: Time,
    resolvedAt: Option<Time>)

  datatype Run = Run(status: RunStatus, version: nat, approvals: seq<Approval>)

  datatype Outcome = Done | Conflict

  predicate Terminal(status: RunStatus) {
    status.Completed? || status.Failed? || status.Stopped?
  }

  predicate Open(approval: Approval) {
    approval.status.Pending? || approval.status.Responding?
  }

  predicate AnyOpen(approvals: seq<Approval>) {
    exists i :: 0 <= i < |approvals| && Open(approvals[i])
  }

  /** The rows are keyed by approval ID within a run. */
  ghost predicate DistinctIds(approvals: seq<Approval>) {
    forall i, j :: 0 <= i < j < |approvals| ==> approvals[i].id != approvals[j].id
  }

  function IndexOf(approvals: seq<Approval>, id: ApprovalId): (i: Option<nat>)
    ensures i.Some? ==> i.value < |approvals| && approvals[i.value].id == id
    ensures i.None? ==> forall j :: 0 <= j < |approvals| ==> approvals[j].id != id
    ensures i.Some? ==> forall j :: 0 <= j < i.value ==> approvals[j].id != id
  {
    if approvals == [] then None
    else if approvals[0].id == id then Some(0)
    else
      match IndexOf(approvals[1..], id)
      case None => None
      case Some(k) => Some(k + 1)
  }

  lemma {:induction false} IndexIsUnique(approvals: seq<Approval>, i: nat)
    requires DistinctIds(approvals) && i < |approvals|
    ensures IndexOf(approvals, approvals[i].id) == Some(i)
  {
    var k := IndexOf(approvals, approvals[i].id);
    assert k.Some? && !(k.value < i) && !(i < k.value);
  }

  /** The open row with the lowest order, if there is one. */
  function FirstOpen(approvals: seq<Approval>): (i: Option<nat>)
    ensures i.Some? ==> i.value < |approvals| && Open(approvals[i.value])
    ensures i.Some? ==> forall j :: 0 <= j < i.value ==> !Open(approvals[j])
    ensures i.None? ==> !AnyOpen(approvals)
  {
    if approvals == [] then None
    else if Open(approvals[0]) then Some(0)
    else
      match FirstOpen(approvals[1..])
      case None => None
      case Some(k) => Some(k + 1)
  }

  // ----- the transactions -----

  datatype Operation =
    | Record(id: ApprovalId, now: Time)
    | Claim(id: ApprovalId, claim: ClaimId, now: Time)
    | Release(id: ApprovalId, claim: ClaimId, now: Time)
    | Complete(id: ApprovalId, claim: ClaimId, now: Time)
    | Respond(id: ApprovalId, now: Time)
    | RespondNext(now: Time)
    | Update(status: RunStatus, now: Time)

  function Replace(run: Run, i: nat, approval: Approval): Run
    requires i < |run.approvals|
  {
    run.(approvals := run.approvals[i := approval])
  }

  function ResolvedRow(approval: Approval, now: Time): Approval {
    approval.(status := Resolved, resolvedAt := Some(now), updatedAt := now)
  }

  /** Resolve row `i`, then `updateRunAfterApprovalResolution`. */
  function Resolve(run: Run, i: nat, now: Time): Run
    requires i < |run.approvals|
  {
    var resolved := Replace(run, i, ResolvedRow(run.approvals[i], now));
    resolved.(status := if AnyOpen(resolved.approvals) then WaitingForApproval else Running,
              version := run.version + 1)
  }

  function Expire(approvals: seq<Approval>, now: Time): (expired: seq<Approval>)
    ensures |expired| == |approvals|
    ensures forall i :: 0 <= i < |approvals| ==>
      expired[i] == if Open(approvals[i])
                    then approvals[i].(status := Expired, claim := None, resolvedAt := Some(now), updatedAt := now)
                    else approvals[i]
  {
    if approvals == [] then []
    else
      var first := if Open(approvals[0])
                   then approvals[0].(status := Expired, claim := None, resolvedAt := Some(now), updatedAt := now)
                   else approvals[0];
      [first] + Expire(approvals[1..], now)
  }

  function RecordRow(run: Run, id: ApprovalId, now: Time): Run {
    if IndexOf(run.approvals, id).Some? then run
    else run.(approvals := run.approvals + [Approval(id, Pending, None, now, None)])
  }

  predicate Claimable(approval: Approval, now: Time) {
    approval.status.Pending? || (approval.status.Responding? && approval.updatedAt <= now - CLAIM_LEASE)
  }

  /** May the row with this ID be claimed now? Only the lowest-order open one ever may. */
  predicate MayClaim(run: Run, id: ApprovalId, now: Time) {
    && run.status.WaitingForApproval?
    && FirstOpen(run.approvals).Some?
    && run.approvals[FirstOpen(run.approvals).value].id == id
    && Claimable(run.approvals[FirstOpen(run.approvals).value], now)
  }

  predicate HeldBy(approval: Approval, claim: ClaimId) {
    approval.status.Responding? && approval.claim == Some(claim)
  }

  function Apply(run: Run, operation: Operation): (Run, Outcome) {
    match operation
    case Record(id, now) =>
      if Terminal(run.status) || run.status.Stopping? then (run, Conflict)
      else
        var known := IndexOf(run.approvals, id);
        var recorded := RecordRow(run, id, now);
        var closed := known.Some? && !Open(run.approvals[known.value]);
        if closed || run.status.WaitingForApproval? then (recorded, Done)
        else (recorded.(status := WaitingForApproval, version := run.version + 1), Done)
    case Claim(id, claim, now) =>
      if MayClaim(run, id, now) then
        var i := FirstOpen(run.approvals).value;
        (Replace(run, i, run.approvals[i].(status := Responding, claim := Some(claim), updatedAt := now)), Done)
      else (run, Conflict)
    case Release(id, claim, now) =>
      var i := IndexOf(run.approvals, id);
      if i.Some? && HeldBy(run.approvals[i.value], claim) then
        (Replace(run, i.value, run.approvals[i.value].(status := Pending, claim := None, updatedAt := now)), Done)
      else (run, Conflict)
    case Complete(id, claim, now) =>
      var i := IndexOf(run.approvals, id);
      if i.None? then (run, Conflict)
      else if run.approvals[i.value].status.Resolved? && run.approvals[i.value].claim == Some(claim) then (run, Done)
      else if HeldBy(run.approvals[i.value], claim) && run.status.WaitingForApproval? then
        (Resolve(run, i.value, now), Done)
      else (run, Conflict)
    case Respond(id, now) =>
      var i := IndexOf(run.approvals, id);
      if i.None? then (run, Conflict)
      else if run.approvals[i.value].status.Resolved? then (run, Done)
      else if Open(run.approvals[i.value]) && run.status.WaitingForApproval? then (Resolve(run, i.value, now), Done)
      else (run, Conflict)
    case RespondNext(now) =>
      if run.status.WaitingForApproval? && FirstOpen(run.approvals).Some? then
        (Resolve(run, FirstOpen(run.approvals).value, now), Done)
      else (run, Conflict)
    case Update(status, now) =>
      if Terminal(status) then
        (Run(status, run.version + 1, Expire(run.approvals, now)), Done)
      else
        var status' := if status.Running? && AnyOpen(run.approvals) then WaitingForApproval else status;
        (Run(status', run.version + 1, run.approvals), Done)
  }
}
