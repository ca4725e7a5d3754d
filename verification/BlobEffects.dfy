/**
 When each call of the object store succeeds, and what it then changes
 (backend/internal/artifact/local_blobstore.go:76-419, 508-525).
 */
module BlobEffects {
  import opened Common
  import opened Blobs
  import opened SplitJoin

  /** The handle names an open upload, under its own key. */
  predicate NamesUpload(provider: Provider, blobs: Contents, handle: Handle) {
    && provider.validId(handle.id) && provider.validKey(handle.key)
    && handle.id in blobs.uploads && blobs.uploads[handle.id].key == handle.key
  }

  /** Opening an upload adds one without parts, under an identity that was free. */
  lemma CreateEffect(provider: Provider, blobs: Contents, key: Key, contentType: string, id: UploadId)
    ensures
      var reply, after := CreateReply(provider, blobs, key, id), Create(provider, blobs, key, contentType, id);
      if provider.validKey(key) && id !in blobs.uploads then
        && reply == Ok(Handle(key, id)) && after.objects == blobs.objects
        && after.uploads == blobs.uploads[id := Upload(key, contentType, map[])]
      else reply.Err? && after == blobs
  {
  }

  /** A part is kept exactly if its number is possible, the upload is open, and as many bytes arrive as announced. */
  lemma PutEffect(provider: Provider, blobs: Contents, handle: Handle, number: int, body: Bytes, size: int)
    ensures
      var reply := PutReply(provider, blobs, handle, number, body, size);
      var after := Put(provider, blobs, handle, number, body, size);
      if 1 <= number <= 10_000 && |body| == size && NamesUpload(provider, blobs, handle) then
        var upload := blobs.uploads[handle.id];
        && reply == Ok(CompletedPart(provider.digest(body), number, size))
        && after.objects == blobs.objects
        && after.uploads == blobs.uploads[handle.id := Upload(upload.key, upload.contentType, upload.parts[number := body])]
      else reply.Err? && after == blobs
  {
  }

  /** Aborting removes exactly this upload; one that is not there is no error. */
  lemma AbortEffect(provider: Provider, blobs: Contents, handle: Handle)
    ensures
      var reply, after := AbortReply(provider, blobs, handle), Abort(provider, blobs, handle);
      && after.objects == blobs.objects
      && (reply == Ok(true) <==> NamesUpload(provider, blobs, handle))
      && (reply.Err? <==> provider.validId(handle.id) && !provider.validKey(handle.key))
      && (forall id :: id in after.uploads <==>
            id in blobs.uploads && !(id == handle.id && NamesUpload(provider, blobs, handle)))
      && (forall id :: id in after.uploads ==> after.uploads[id] == blobs.uploads[id])
  {
  }

  /** Promoting moves an object to a key that was free; the source is gone, everything else stays. */
  lemma PromoteEffect(provider: Provider, blobs: Contents, source: Key, destination: Key)
    ensures
      var reply, after := PromoteReply(provider, blobs, source, destination), Promote(provider, blobs, source, destination);
      if provider.validKey(source) && provider.validKey(destination)
         && source in blobs.objects && destination !in blobs.objects then
        && reply == Ok(()) && after.uploads == blobs.uploads
        && after.objects.Keys == blobs.objects.Keys - {source} + {destination}
        && after.objects[destination] == blobs.objects[source]
        && forall key :: key in blobs.objects && key != source ==> after.objects[key] == blobs.objects[key]
      else reply.Err? && after == blobs
  {
  }

  lemma DeleteEffect(provider: Provider, blobs: Contents, key: Key)
    ensures
      var after := Delete(provider, blobs, key);
      && after.uploads == blobs.uploads
      && (forall other :: other in after.objects <==> other in blobs.objects && !(other == key && provider.validKey(key)))
      && forall other :: other in after.objects ==> after.objects[other] == blobs.objects[other]
  {
  }

  // ----- completing -----

  /** The list names the stored parts 1, 2, ... by number, size and digest, and leaves none out. */
  predicate ListsEveryPart(provider: Provider, requested: seq<CompletedPart>, parts: map<int, Bytes>) {
    && requested != [] && |requested| <= 10_000
    && (forall i :: 0 <= i < |requested| ==> Describes(provider, requested[i], parts, i + 1))
    && forall n :: n in parts && 1 <= n <= 10_000 ==> n <= |requested|
  }

  lemma {:induction false} ListedExactly(provider: Provider, parts: map<int, Bytes>, count: nat, upTo: nat)
    requires forall n :: 1 <= n <= count ==> n in parts
    requires forall n :: n in parts && 1 <= n <= upTo ==> n <= count
    ensures
      var listed := Listed(provider, parts, upTo);
      && |listed| == Min(upTo, count)
      && forall i :: 0 <= i < |listed| ==>
           listed[i] == CompletedPart(provider.digest(parts[i + 1]), i + 1, |parts[i + 1]|)
    decreases upTo
  {
    if upTo > 0 {
      ListedExactly(provider, parts, count, upTo - 1);
    }
  }

  lemma ListingAgrees(provider: Provider, requested: seq<CompletedPart>, parts: map<int, Bytes>)
    requires ListsEveryPart(provider, requested, parts)
    ensures PartsAgree(provider, Listed(provider, parts, MAX_PART_NUMBER), requested)
  {
    forall n | 1 <= n <= |requested|
      ensures n in parts
      ensures requested[n - 1].number == n && requested[n - 1].size == |parts[n]|
    {
      assert Describes(provider, requested[n - 1], parts, (n - 1) + 1);
    }
    ListedExactly(provider, parts, |requested|, MAX_PART_NUMBER);
    hide Listed;
  }

  lemma AgreementLists(provider: Provider, requested: seq<CompletedPart>, parts: map<int, Bytes>)
    requires requested != [] && PartsAgree(provider, Listed(provider, parts, MAX_PART_NUMBER), requested)
    ensures ListsEveryPart(provider, requested, parts)
  {
    var listed := Listed(provider, parts, MAX_PART_NUMBER);
    hide Listed;
    forall i | 0 <= i < |requested|
      ensures Describes(provider, requested[i], parts, i + 1) && requested[i].number <= 10_000
    {
      ListedEntry(provider, parts, MAX_PART_NUMBER, i);
      assert SamePart(provider, listed[i], requested[i]);
    }
    assert requested[|requested| - 1].number <= 10_000;
    forall n | n in parts && 1 <= n <= 10_000
      ensures n <= |requested|
    {
      ListedContains(provider, parts, MAX_PART_NUMBER, n);
      var i :| 0 <= i < |listed| && listed[i].number == n;
      assert SamePart(provider, listed[i], requested[i]);
    }
  }

  lemma AgreesExactly(provider: Provider, requested: seq<CompletedPart>, parts: map<int, Bytes>)
    requires requested != []
    ensures PartsAgree(provider, Listed(provider, parts, MAX_PART_NUMBER), requested)
      <==> ListsEveryPart(provider, requested, parts)
  {
    hide Listed, PartsAgree, ListsEveryPart;
    if ListsEveryPart(provider, requested, parts) {
      ListingAgrees(provider, requested, parts);
    }
    if PartsAgree(provider, Listed(provider, parts, MAX_PART_NUMBER), requested) {
      AgreementLists(provider, requested, parts);
    }
  }

  /**
   Completing succeeds exactly if the handle names an open upload, the list names every stored
   part, and the key is free. Then the object appears under the key, as long as the sizes say,
   and the upload is closed. Otherwise nothing changes.
   */
  lemma CompletionSucceedsExactly(provider: Provider, blobs: Contents, handle: Handle, requested: seq<CompletedPart>)
    ensures
      var reply, after := CompleteReply(provider, blobs, handle, requested), Complete(provider, blobs, handle, requested);
      && (reply.Ok? <==>
            && NamesUpload(provider, blobs, handle)
            && ListsEveryPart(provider, requested, blobs.uploads[handle.id].parts)
            && handle.key !in blobs.objects)
      && (reply == Err(ObjectExists) <==>
            && NamesUpload(provider, blobs, handle)
            && ListsEveryPart(provider, requested, blobs.uploads[handle.id].parts)
            && handle.key in blobs.objects)
      && (reply.Err? ==> after == blobs)
      && (reply.Ok? ==>
            && after.uploads == blobs.uploads - {handle.id}
            && after.objects.Keys == blobs.objects.Keys + {handle.key}
            && (forall key :: key in blobs.objects ==> after.objects[key] == blobs.objects[key])
            && reply.value == ObjectInfo(blobs.uploads[handle.id].contentType, |after.objects[handle.key]|))
  {
    if requested != [] && handle.id in blobs.uploads {
      AgreesExactly(provider, requested, blobs.uploads[handle.id].parts);
    }
    hide Listed, Joined, PartsAgree, ListsEveryPart;
  }

  lemma {:induction false} JoinedAt(parts: map<int, Bytes>, upTo: nat, number: nat)
    requires 1 <= number <= upTo && forall n :: 1 <= n <= upTo ==> n in parts
    ensures
      var before, joined := |Joined(parts, number - 1)|, Joined(parts, upTo);
      before + |parts[number]| <= |joined| && joined[before..before + |parts[number]|] == parts[number]
    decreases upTo
  {
    if number < upTo {
      JoinedAt(parts, upTo - 1, number);
    }
  }

  /** In the completed object every part lies behind the one before it, byte for byte. */
  lemma PartsLieInOrder(provider: Provider, blobs: Contents, handle: Handle, requested: seq<CompletedPart>, number: nat)
    requires CompleteReply(provider, blobs, handle, requested).Ok? && 1 <= number <= |requested|
    ensures
      var parts, joined := blobs.uploads[handle.id].parts, Complete(provider, blobs, handle, requested).objects[handle.key];
      var start := TotalSize(requested[..number - 1]);
      && 0 <= start && 0 <= requested[number - 1].size && start + requested[number - 1].size <= |joined| == TotalSize(requested)
      && number in parts && joined[start..start + requested[number - 1].size] == parts[number]
  {
    CompletionIsExact(provider, blobs, handle, requested);
    var parts := blobs.uploads[handle.id].parts;
    forall n | 1 <= n <= |requested|
      ensures n in parts
    {
      assert Describes(provider, requested[n - 1], parts, (n - 1) + 1);
    }
    assert Describes(provider, requested[number - 1], parts, (number - 1) + 1);
    JoinedAt(parts, |requested|, number);
    JoinedSize(provider, requested[..number - 1], parts);
    hide CompleteReply, Joined, TotalSize;
  }
}
