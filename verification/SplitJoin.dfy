/** Splitting a file by its plan and joining the stored parts gives the file back. */
module SplitJoin {
  import opened Common
  import opened MultipartPlan
  import opened Blobs

  /** The plan was made for a file of this length. */
  ghost predicate Fits(plan: Plan, bytes: Bytes) {
    Covers(plan) && plan.sizeBytes as int == |bytes|
  }

  ghost function Slice(plan: Plan, bytes: Bytes, number: int): Bytes
    requires Fits(plan, bytes) && 1 <= number <= plan.partCount as int
  {
    PartSizeIsInterval(plan, number);
    bytes[PartStart(plan, number)..PartEnd(plan, number)]
  }

  ghost function PlannedPut(handle: Handle, plan: Plan, bytes: Bytes, number: int): Operation
    requires Fits(plan, bytes) && 1 <= number <= plan.partCount as int
  {
    var slice := Slice(plan, bytes, number);
    DoPut(handle, number, slice, |slice|)
  }

  /**
   What may happen between opening and completing an upload: planned parts of this file in
   any order and any number of times, transfers that break off, and anything that belongs to
   other uploads or to finished objects.
   */
  ghost predicate Undisturbed(operation: Operation, handle: Handle, plan: Plan, bytes: Bytes)
    requires Fits(plan, bytes)
  {
    match operation
    case DoPut(other, number, body, size) =>
      || other.id != handle.id
      || |body| != size
      || (1 <= number <= plan.partCount as int && operation == PlannedPut(handle, plan, bytes, number))
    case DoComplete(other, _) => other.id != handle.id
    case DoAbort(other) => other.id != handle.id
    case _ => true
  }

  ghost predicate AllUndisturbed(operations: seq<Operation>, handle: Handle, plan: Plan, bytes: Bytes)
    requires Fits(plan, bytes)
  {
    forall i :: 0 <= i < |operations| ==> Undisturbed(operations[i], handle, plan, bytes)
  }

  ghost predicate Sent(operations: seq<Operation>, handle: Handle, plan: Plan, bytes: Bytes, number: int)
    requires Fits(plan, bytes)
  {
    1 <= number <= plan.partCount as int && PlannedPut(handle, plan, bytes, number) in operations
  }

  /** The upload is open, and what was sent so far is what is stored. */
  ghost predicate Uploading(provider: Provider, before: Contents, after: Contents, handle: Handle, plan: Plan, bytes: Bytes,
                            sent: seq<Operation>)
    requires Fits(plan, bytes)
    requires LoadUpload(provider, before, handle).Ok?
  {
    && LoadUpload(provider, after, handle).Ok?
    && var was := before.uploads[handle.id];
    var stored := after.uploads[handle.id];
    && stored.key == was.key && stored.contentType == was.contentType
    && (forall n :: n in stored.parts <==> n in was.parts || Sent(sent, handle, plan, bytes, n))
    && (forall n :: Sent(sent, handle, plan, bytes, n) ==> stored.parts[n] == Slice(plan, bytes, n))
  }

  /** A step that is not a planned put of this file leaves the upload alone. */
  lemma OthersLeaveUpload(provider: Provider, blobs: Contents, handle: Handle, plan: Plan, bytes: Bytes, operation: Operation)
    requires Fits(plan, bytes) && LoadUpload(provider, blobs, handle).Ok?
    requires Undisturbed(operation, handle, plan, bytes)
    requires forall n :: 1 <= n <= plan.partCount as int ==> operation != PlannedPut(handle, plan, bytes, n)
    ensures handle.id in Apply(provider, blobs, operation).uploads
    ensures Apply(provider, blobs, operation).uploads[handle.id] == blobs.uploads[handle.id]
  {
    hide PlannedPut, Covers;
  }

  lemma StepKeepsUploading(provider: Provider, before: Contents, after: Contents, handle: Handle, plan: Plan, bytes: Bytes,
                           sent: seq<Operation>, operation: Operation)
    requires Fits(plan, bytes) && LoadUpload(provider, before, handle).Ok?
    requires Uploading(provider, before, after, handle, plan, bytes, sent)
    requires Undisturbed(operation, handle, plan, bytes)
    ensures Uploading(provider, before, Apply(provider, after, operation), handle, plan, bytes, sent + [operation])
  {
    hide Slice, Covers;
    if n :| 1 <= n <= plan.partCount as int && operation == PlannedPut(handle, plan, bytes, n) {
      assert Covers(plan) && n <= MAX_PART_NUMBER by {
        assert MAX_PARTS as int == MAX_PART_NUMBER;
        PartCountIsBounded(plan);
      }
      SentGrows(sent, operation, handle, plan, bytes);
    } else {
      OthersLeaveUpload(provider, after, handle, plan, bytes, operation);
      SentGrows(sent, operation, handle, plan, bytes);
      hide Apply;
    }
  }

  lemma PartCountIsBounded(plan: Plan)
    requires Covers(plan)
    ensures 1 <= plan.partCount as int <= MAX_PART_NUMBER
  {
  }

  lemma SentGrows(sent: seq<Operation>, operation: Operation, handle: Handle, plan: Plan, bytes: Bytes)
    requires Fits(plan, bytes)
    ensures forall n ::
      Sent(sent + [operation], handle, plan, bytes, n)
      <==> Sent(sent, handle, plan, bytes, n)
           || (1 <= n <= plan.partCount as int && operation == PlannedPut(handle, plan, bytes, n))
  {
  }

  /** Over a whole run the upload holds what it held before plus the slices sent, the latest content winning. */
  lemma {:induction false} RunKeepsUploading(
    provider: Provider, before: Contents, after: Contents, handle: Handle, plan: Plan, bytes: Bytes,
    sent: seq<Operation>, operations: seq<Operation>)
    requires Fits(plan, bytes) && LoadUpload(provider, before, handle).Ok?
    requires Uploading(provider, before, after, handle, plan, bytes, sent)
    requires AllUndisturbed(operations, handle, plan, bytes)
    ensures Uploading(provider, before, ApplyAll(provider, after, operations), handle, plan, bytes, sent + operations)
    decreases |operations|
  {
    if operations == [] {
      assert sent + operations == sent;
    } else {
      StepKeepsUploading(provider, before, after, handle, plan, bytes, sent, operations[0]);
      RunKeepsUploading(provider, before, Apply(provider, after, operations[0]), handle, plan, bytes,
                        sent + [operations[0]], operations[1..]);
      assert sent + [operations[0]] + operations[1..] == sent + operations;
    }
  }

  // ----- the join -----

  /** What `PutPart` answers for the parts 1, ..., upTo. */
  ghost function Receipts(provider: Provider, plan: Plan, bytes: Bytes, upTo: nat): (receipts: seq<CompletedPart>)
    requires Fits(plan, bytes) && upTo <= plan.partCount as int
    ensures |receipts| == upTo
  {
    if upTo == 0 then []
    else
      var slice := Slice(plan, bytes, upTo);
      Receipts(provider, plan, bytes, upTo - 1) + [CompletedPart(provider.digest(slice), upTo, |slice|)]
  }

  /** The stored parts are the slices of the file, and beyond the plan there is none. */
  ghost predicate HoldsSlices(parts: map<int, Bytes>, plan: Plan, bytes: Bytes)
    requires Fits(plan, bytes)
  {
    forall n :: 1 <= n <= plan.partCount as int ==> n in parts && parts[n] == Slice(plan, bytes, n)
  }

  ghost predicate Stray(parts: map<int, Bytes>, plan: Plan) {
    exists n :: n in parts && plan.partCount as int < n <= MAX_PART_NUMBER
  }

  lemma {:induction false} JoiningPrefix(parts: map<int, Bytes>, plan: Plan, bytes: Bytes, upTo: nat)
    requires Fits(plan, bytes) && HoldsSlices(parts, plan, bytes) && upTo <= plan.partCount as int
    ensures 0 <= PartEnd(plan, upTo) <= |bytes|
    ensures Joined(parts, upTo) == bytes[..PartEnd(plan, upTo)]
    decreases upTo
  {
    if upTo > 0 {
      JoiningPrefix(parts, plan, bytes, upTo - 1);
      PartSizeIsInterval(plan, upTo);
      PreviousEndsAtStart(plan, upTo);
      hide PartEnd, PartStart, PartSize, Covers;
      assert bytes[..PartEnd(plan, upTo)] == bytes[..PartStart(plan, upTo)] + Slice(plan, bytes, upTo);
    }
  }

  lemma PreviousEndsAtStart(plan: Plan, number: int)
    requires Covers(plan) && 1 <= number <= plan.partCount as int
    ensures PartEnd(plan, number - 1) == PartStart(plan, number)
  {
    PartSizeIsInterval(plan, number);
  }

  lemma JoiningGivesFile(parts: map<int, Bytes>, plan: Plan, bytes: Bytes)
    requires Fits(plan, bytes) && HoldsSlices(parts, plan, bytes)
    ensures Joined(parts, plan.partCount as int) == bytes
  {
    JoiningPrefix(parts, plan, bytes, plan.partCount as int);
    assert bytes[..|bytes|] == bytes;
  }

  lemma {:induction false} ListingSlices(provider: Provider, parts: map<int, Bytes>, plan: Plan, bytes: Bytes, upTo: nat)
    requires Fits(plan, bytes) && HoldsSlices(parts, plan, bytes) && !Stray(parts, plan) && upTo <= MAX_PART_NUMBER
    ensures Listed(provider, parts, upTo) == Receipts(provider, plan, bytes, Min(upTo, plan.partCount as int))
    decreases upTo
  {
    if upTo > 0 {
      ListingSlices(provider, parts, plan, bytes, upTo - 1);
    }
  }

  lemma {:induction false} ListingStrays(provider: Provider, parts: map<int, Bytes>, count: nat, stray: nat, upTo: nat)
    requires forall n :: 1 <= n <= count ==> n in parts
    requires count < stray && stray in parts
    ensures |Listed(provider, parts, upTo)| >= Min(upTo, count) + if upTo >= stray then 1 else 0
    decreases upTo
  {
    if upTo > 0 {
      ListingStrays(provider, parts, count, stray, upTo - 1);
    }
  }

  lemma {:induction false} ReceiptsAgree(provider: Provider, plan: Plan, bytes: Bytes, upTo: nat)
    requires Fits(plan, bytes) && upTo <= plan.partCount as int
    ensures PartsAgree(provider, Receipts(provider, plan, bytes, upTo), Receipts(provider, plan, bytes, upTo))
    decreases upTo
  {
    if upTo > 0 {
      ReceiptsAgree(provider, plan, bytes, upTo - 1);
    }
  }

  lemma SlicesAgreeUnlessStray(provider: Provider, parts: map<int, Bytes>, plan: Plan, bytes: Bytes)
    requires Fits(plan, bytes) && HoldsSlices(parts, plan, bytes)
    ensures
      PartsAgree(provider, Listed(provider, parts, MAX_PART_NUMBER), Receipts(provider, plan, bytes, plan.partCount as int))
      <==> !Stray(parts, plan)
  {
    var count := plan.partCount as int;
    PartCountIsBounded(plan);
    hide Listed, Receipts, Covers, SamePart;
    if Stray(parts, plan) {
      var stray :| stray in parts && count < stray <= MAX_PART_NUMBER;
      ListingStrays(provider, parts, count, stray, MAX_PART_NUMBER);
    } else {
      ListingSlices(provider, parts, plan, bytes, MAX_PART_NUMBER);
      ReceiptsAgree(provider, plan, bytes, count);
    }
  }

  /** Completing an upload that holds every slice: it fails only on a stray part or an occupied key. */
  lemma CompletingSlices(provider: Provider, blobs: Contents, handle: Handle, plan: Plan, bytes: Bytes)
    requires Fits(plan, bytes) && LoadUpload(provider, blobs, handle).Ok?
    requires HoldsSlices(blobs.uploads[handle.id].parts, plan, bytes)
    ensures
      var upload := blobs.uploads[handle.id];
      var receipts := Receipts(provider, plan, bytes, plan.partCount as int);
      var reply := CompleteReply(provider, blobs, handle, receipts);
      var next := Complete(provider, blobs, handle, receipts);
      if Stray(upload.parts, plan) then reply == Err(InvalidPart) && next == blobs
      else if handle.key in blobs.objects then reply == Err(ObjectExists) && next == blobs
      else
        && reply == Ok(ObjectInfo(upload.contentType, |bytes|))
        && next == Contents(blobs.objects[handle.key := bytes], blobs.uploads - {handle.id})
  {
    SlicesAgreeUnlessStray(provider, blobs.uploads[handle.id].parts, plan, bytes);
    JoiningGivesFile(blobs.uploads[handle.id].parts, plan, bytes);
    PartCountIsBounded(plan);
    hide Listed, Joined, Receipts, HoldsSlices, Stray, SamePart, Covers, PartsAgree, Fits;
  }

  /**
   The round trip. Split a file by its plan and put the slices into an open upload in any
   order, with any repeats, among broken transfers and operations on other uploads and
   objects. Once every slice was sent, completing with the receipts stores exactly the file,
   unless the upload already held parts beyond the plan or the key has been taken.
   */
  lemma SplitJoin(provider: Provider, before: Contents, handle: Handle, bytes: Bytes, configured: int64, maximum: int64,
                  operations: seq<Operation>)
    requires |bytes| <= maximum as int && ValidArguments(|bytes| as int64, configured, maximum)
    requires LoadUpload(provider, before, handle).Ok?
    ensures CalculateMultipartPlan(|bytes| as int64, configured, maximum).Planned?
    ensures
      var plan := CalculateMultipartPlan(|bytes| as int64, configured, maximum).plan;
      var after := ApplyAll(provider, before, operations);
      var upload := before.uploads[handle.id];
      && Fits(plan, bytes)
      && var receipts := Receipts(provider, plan, bytes, plan.partCount as int);
      && (AllUndisturbed(operations, handle, plan, bytes)
          && (forall n :: 1 <= n <= plan.partCount as int ==> Sent(operations, handle, plan, bytes, n))
          ==> if Stray(upload.parts, plan) then CompleteReply(provider, after, handle, receipts) == Err(InvalidPart)
              else if handle.key in after.objects then
                CompleteReply(provider, after, handle, receipts) == Err(ObjectExists)
              else
                && CompleteReply(provider, after, handle, receipts) == Ok(ObjectInfo(upload.contentType, |bytes|))
                && Complete(provider, after, handle, receipts)
                   == Contents(after.objects[handle.key := bytes], after.uploads - {handle.id}))
  {
    PlanSucceedsExactly(|bytes| as int64, configured, maximum);
    PlanCovers(|bytes| as int64, configured, maximum);
    var plan := CalculateMultipartPlan(|bytes| as int64, configured, maximum).plan;
    if AllUndisturbed(operations, handle, plan, bytes)
       && forall n :: 1 <= n <= plan.partCount as int ==> Sent(operations, handle, plan, bytes, n) {
      RunJoins(provider, before, handle, plan, bytes, operations);
    }
  }

  lemma RunJoins(provider: Provider, before: Contents, handle: Handle, plan: Plan, bytes: Bytes, operations: seq<Operation>)
    requires Fits(plan, bytes) && LoadUpload(provider, before, handle).Ok?
    requires AllUndisturbed(operations, handle, plan, bytes)
    requires forall n :: 1 <= n <= plan.partCount as int ==> Sent(operations, handle, plan, bytes, n)
    ensures
      var after := ApplyAll(provider, before, operations);
      var upload := before.uploads[handle.id];
      var receipts := Receipts(provider, plan, bytes, plan.partCount as int);
      var reply := CompleteReply(provider, after, handle, receipts);
      if Stray(upload.parts, plan) then reply == Err(InvalidPart)
      else if handle.key in after.objects then reply == Err(ObjectExists)
      else
        && reply == Ok(ObjectInfo(upload.contentType, |bytes|))
        && Complete(provider, after, handle, receipts)
           == Contents(after.objects[handle.key := bytes], after.uploads - {handle.id})
  {
    var after := ApplyAll(provider, before, operations);
    RunKeepsUploading(provider, before, before, handle, plan, bytes, [], operations);
    assert [] + operations == operations;
    var was, stored := before.uploads[handle.id].parts, after.uploads[handle.id].parts;
    assert HoldsSlices(stored, plan, bytes) by {
      forall n | 1 <= n <= plan.partCount as int
        ensures n in stored && stored[n] == Slice(plan, bytes, n)
      {
        assert Sent(operations, handle, plan, bytes, n);
      }
    }
    assert Stray(stored, plan) <==> Stray(was, plan);
    CompletingSlices(provider, after, handle, plan, bytes);
  }

  // ----- what completing checks -----

  /** Each listed entry describes the stored part with its number. */
  lemma {:induction false} ListedEntry(provider: Provider, parts: map<int, Bytes>, upTo: nat, i: nat)
    requires i < |Listed(provider, parts, upTo)|
    ensures
      var entry := Listed(provider, parts, upTo)[i];
      && 1 <= entry.number <= upTo && entry.number in parts
      && entry.size == |parts[entry.number]| && entry.etag == provider.digest(parts[entry.number])
    decreases upTo
  {
    if i < |Listed(provider, parts, upTo - 1)| {
      ListedEntry(provider, parts, upTo - 1, i);
    }
  }

  lemma {:induction false} ListedContains(provider: Provider, parts: map<int, Bytes>, upTo: nat, number: int)
    requires number in parts && 1 <= number <= upTo
    ensures exists i :: 0 <= i < |Listed(provider, parts, upTo)| && Listed(provider, parts, upTo)[i].number == number
    decreases upTo
  {
    var earlier := Listed(provider, parts, upTo - 1);
    if number < upTo {
      ListedContains(provider, parts, upTo - 1, number);
      var i :| 0 <= i < |earlier| && earlier[i].number == number;
      assert Listed(provider, parts, upTo)[i] == earlier[i];
    } else {
      assert Listed(provider, parts, upTo)[|earlier|].number == number;
    }
  }

  function TotalSize(requested: seq<CompletedPart>): int {
    if requested == [] then 0 else TotalSize(requested[..|requested| - 1]) + requested[|requested| - 1].size
  }

  /** The request names this stored part: its size and, up to quoting, its digest. */
  predicate Describes(provider: Provider, requested: CompletedPart, parts: map<int, Bytes>, number: int) {
    && requested.number == number && number in parts
    && requested.size == |parts[number]|
    && provider.normalize(requested.etag) == provider.normalize(provider.digest(parts[number]))
  }

  lemma {:induction false} JoinedSize(provider: Provider, requested: seq<CompletedPart>, parts: map<int, Bytes>)
    requires forall i :: 0 <= i < |requested| ==> Describes(provider, requested[i], parts, i + 1)
    ensures |Joined(parts, |requested|)| == TotalSize(requested)
    decreases |requested|
  {
    if requested != [] {
      var last := |requested| - 1;
      assert Describes(provider, requested[last], parts, last + 1);
      assert forall i :: 0 <= i < last ==> requested[..last][i] == requested[i];
      JoinedSize(provider, requested[..last], parts);
    }
  }

  /**
   Completing succeeds only with the exact list: every requested part is the stored part of
   its place, no stored part is left out, and the object is these parts in order, as long as
   the requested sizes say.
   */
  lemma CompletionIsExact(provider: Provider, blobs: Contents, handle: Handle, requested: seq<CompletedPart>)
    requires CompleteReply(provider, blobs, handle, requested).Ok?
    ensures
      var parts := blobs.uploads[handle.id].parts;
      var after := Complete(provider, blobs, handle, requested);
      && (forall i :: 0 <= i < |requested| ==> Describes(provider, requested[i], parts, i + 1))
      && (forall n :: n in parts && 1 <= n <= MAX_PART_NUMBER ==> n <= |requested|)
      && handle.key !in blobs.objects
      && after.objects == blobs.objects[handle.key := Joined(parts, |requested|)]
      && |after.objects[handle.key]| == TotalSize(requested)
      && handle.id !in after.uploads
  {
    var parts := blobs.uploads[handle.id].parts;
    var actual := Listed(provider, parts, MAX_PART_NUMBER);
    assert PartsAgree(provider, actual, requested);
    forall i | 0 <= i < |requested|
      ensures Describes(provider, requested[i], parts, i + 1)
    {
      ListedEntry(provider, parts, MAX_PART_NUMBER, i);
      assert SamePart(provider, actual[i], requested[i]);
    }
    forall n | n in parts && 1 <= n <= MAX_PART_NUMBER
      ensures n <= |requested|
    {
      ListedContains(provider, parts, MAX_PART_NUMBER, n);
      var i :| 0 <= i < |actual| && actual[i].number == n;
      assert SamePart(provider, actual[i], requested[i]);
    }
    JoinedSize(provider, requested, parts);
    hide Listed, Joined, TotalSize, Describes, PartsAgree;
  }

  // ----- stored bytes are immutable -----

  /** An object disappears from its key by deletion or by being promoted away, and in no other way does it change. */
  lemma ObjectsChangeOnlyBy(provider: Provider, blobs: Contents, operation: Operation, key: Key)
    requires key in blobs.objects
    ensures
      var after := Apply(provider, blobs, operation);
      (key in after.objects && after.objects[key] == blobs.objects[key])
      <==> !(|| (operation == DoDelete(key) && provider.validKey(key))
             || (operation.DoPromote? && operation.source == key
                 && PromoteReply(provider, blobs, key, operation.destination).Ok?))
    ensures operation.DoPromote? && PromoteReply(provider, blobs, operation.source, operation.destination).Ok? ==>
      var after := Apply(provider, blobs, operation);
      && operation.destination !in blobs.objects
      && after.objects[operation.destination] == blobs.objects[operation.source]
  {
  }

  lemma {:induction false} StoredBytesNeverChange(
    provider: Provider, blobs: Contents, operations: seq<Operation>, key: Key)
    requires key in blobs.objects
    requires forall i :: 0 <= i < |operations| ==>
      && operations[i] != DoDelete(key)
      && !(operations[i].DoPromote? && operations[i].source == key)
    ensures
      var after := ApplyAll(provider, blobs, operations);
      key in after.objects && after.objects[key] == blobs.objects[key]
    decreases |operations|
  {
    if operations != [] {
      ObjectsChangeOnlyBy(provider, blobs, operations[0], key);
      StoredBytesNeverChange(provider, Apply(provider, blobs, operations[0]), operations[1..], key);
    }
  }
}
