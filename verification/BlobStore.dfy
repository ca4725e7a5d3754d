/**
 The store itself (backend/internal/artifact/local_blobstore.go) and the part-by-part upload
 loops that drive it (backend/internal/artifact/article.go:177-211,
 backend/internal/artifact/model_import.go:108-127).
 */
module BlobStore {
  import opened Common
  import opened MultipartPlan
  import opened Blobs
  import opened SplitJoin

  class LocalBlobStore {
    const provider: Provider
    var objects: map<Key, Bytes>
    var uploads: map<UploadId, Upload>

    ghost function Snapshot(): Contents
      reads this
    {
      Contents(objects, uploads)
    }

    constructor (provider: Provider)
      ensures this.provider == provider && Snapshot() == Contents(map[], map[])
    {
      this.provider := provider;
      objects, uploads := map[], map[];
    }

    method CreateMultipart(key: Key, contentType: string, id: UploadId) returns (reply: Reply<Handle>)
      modifies this
      ensures reply == CreateReply(provider, old(Snapshot()), key, id)
      ensures Snapshot() == Create(provider, old(Snapshot()), key, contentType, id)
    {
      if !provider.validKey(key) {
        return Err(InvalidKey);
      }
      if id in uploads {
        return Err(UploadExists);
      }
      uploads := uploads[id := Upload(key, contentType, map[])];
      reply := Ok(Handle(key, id));
    }

    method Load(handle: Handle) returns (reply: Reply<Upload>)
      ensures reply == LoadUpload(provider, Snapshot(), handle)
    {
      if !provider.validId(handle.id) {
        return Err(UploadNotFound);
      }
      if !provider.validKey(handle.key) {
        return Err(InvalidKey);
      }
      if handle.id !in uploads || uploads[handle.id].key != handle.key {
        return Err(UploadNotFound);
      }
      reply := Ok(uploads[handle.id]);
    }

    method PutPart(handle: Handle, number: int, body: Bytes, size: int) returns (reply: Reply<CompletedPart>)
      modifies this
      ensures reply == PutReply(provider, old(Snapshot()), handle, number, body, size)
      ensures Snapshot() == Put(provider, old(Snapshot()), handle, number, body, size)
    {
      if number < 1 || number > MAX_PART_NUMBER || size < 0 {
        return Err(InvalidPart);
      }
      var loaded := Load(handle);
      if loaded.Err? {
        return Err(loaded.error);
      }
      // The copy reads at most one byte more than announced.
      var received := body[..Min(|body|, size + 1)];
      if |received| != size {
        return Err(InvalidPart);
      }
      assert received == body;
      var upload := loaded.value;
      uploads := uploads[handle.id := upload.(parts := upload.parts[number := received])];
      reply := Ok(CompletedPart(provider.digest(received), number, size));
    }

    method ListUploadedParts(handle: Handle) returns (reply: Reply<seq<CompletedPart>>)
      ensures reply == ListParts(provider, Snapshot(), handle)
    {
      var loaded := Load(handle);
      if loaded.Err? {
        return Err(loaded.error);
      }
      var stored := loaded.value.parts;
      var parts: seq<CompletedPart> := [];
      for number := 1 to MAX_PART_NUMBER + 1
        invariant parts == Listed(provider, stored, number - 1)
      {
        if number in stored {
          parts := parts + [CompletedPart(provider.digest(stored[number]), number, |stored[number]|)];
        }
      }
      reply := Ok(parts);
    }

    method CompareCompletedParts(actual: seq<CompletedPart>, requested: seq<CompletedPart>) returns (agree: bool)
      ensures agree == PartsAgree(provider, actual, requested)
    {
      if |actual| != |requested| {
        return false;
      }
      for i := 0 to |requested|
        invariant forall j :: 0 <= j < i ==>
          requested[j].number == j + 1 && SamePart(provider, actual[j], requested[j])
      {
        if requested[i].number != i + 1
           || actual[i].number != requested[i].number
           || actual[i].size != requested[i].size
           || provider.normalize(actual[i].etag) != provider.normalize(requested[i].etag) {
          return false;
        }
      }
      agree := true;
    }

    method CompleteMultipart(handle: Handle, requested: seq<CompletedPart>) returns (reply: Reply<ObjectInfo>)
      modifies this
      ensures reply == CompleteReply(provider, old(Snapshot()), handle, requested)
      ensures Snapshot() == Complete(provider, old(Snapshot()), handle, requested)
    {
      if requested == [] {
        return Err(InvalidPart);
      }
      var loaded := Load(handle);
      if loaded.Err? {
        return Err(loaded.error);
      }
      var listed := ListUploadedParts(handle);
      var agree := CompareCompletedParts(listed.value, requested);
      if !agree {
        return Err(InvalidPart);
      }
      if handle.key in objects {
        return Err(ObjectExists);
      }
      var stored := loaded.value.parts;
      var joined: Bytes := [];
      var total := 0;
      for i := 0 to |requested|
        invariant joined == Joined(stored, i) && total == |joined|
        invariant objects == old(objects) && uploads == old(uploads)
      {
        hide Listed, Joined;
        ListedEntry(provider, stored, MAX_PART_NUMBER, i);
        var source := stored[requested[i].number];
        // The source compares the two lengths again; under the listing they are equal.
        assert |source| == requested[i].size;
        JoinedNext(stored, i + 1);
        joined := joined + source;
        total := total + |source|;
      }
      objects := objects[handle.key := joined];
      uploads := uploads - {handle.id};
      reply := Ok(ObjectInfo(loaded.value.contentType, total));
    }

    method AbortMultipart(handle: Handle) returns (reply: Reply<bool>)
      modifies this
      ensures reply == AbortReply(provider, old(Snapshot()), handle)
      ensures Snapshot() == Abort(provider, old(Snapshot()), handle)
    {
      var loaded := Load(handle);
      if loaded.Err? {
        if loaded.error == UploadNotFound {
          return Ok(false);
        }
        return Err(loaded.error);
      }
      uploads := uploads - {handle.id};
      reply := Ok(true);
    }

    method PromoteObject(source: Key, destination: Key) returns (reply: Reply<()>)
      modifies this
      ensures reply == PromoteReply(provider, old(Snapshot()), source, destination)
      ensures Snapshot() == Promote(provider, old(Snapshot()), source, destination)
    {
      if !provider.validKey(source) || !provider.validKey(destination) {
        return Err(InvalidKey);
      }
      if destination in objects {
        return Err(ObjectExists);
      }
      if source !in objects {
        return Err(ObjectNotFound);
      }
      var content := objects[source];
      objects := objects - {source};
      objects := objects[destination := content];
      reply := Ok(());
    }

    method DeleteObject(key: Key) returns (reply: Reply<()>)
      modifies this
      ensures reply == if provider.validKey(key) then Ok(()) else Err(InvalidKey)
      ensures Snapshot() == Delete(provider, old(Snapshot()), key)
    {
      if !provider.validKey(key) {
        return Err(InvalidKey);
      }
      objects := objects - {key};
      reply := Ok(());
    }
  }

  lemma JoinedNext(parts: map<int, Bytes>, upTo: nat)
    requires 1 <= upTo && upTo in parts
    ensures Joined(parts, upTo) == Joined(parts, upTo - 1) + parts[upTo]
  {
  }

  // ----- uploading a file -----

  ghost function PlannedPuts(handle: Handle, plan: Plan, bytes: Bytes, upTo: nat): (puts: seq<Operation>)
    requires Fits(plan, bytes) && upTo <= plan.partCount as int
    ensures |puts| == upTo
    ensures forall n :: 1 <= n <= upTo ==> puts[n - 1] == PlannedPut(handle, plan, bytes, n)
  {
    if upTo == 0 then [] else PlannedPuts(handle, plan, bytes, upTo - 1) + [PlannedPut(handle, plan, bytes, upTo)]
  }

  lemma {:induction false} ApplyLast(provider: Provider, blobs: Contents, operations: seq<Operation>, last: Operation)
    ensures ApplyAll(provider, blobs, operations + [last]) == Apply(provider, ApplyAll(provider, blobs, operations), last)
    decreases |operations|
  {
    if operations != [] {
      assert (operations + [last])[1..] == operations[1..] + [last];
      ApplyLast(provider, Apply(provider, blobs, operations[0]), operations[1..], last);
    } else {
      assert [last][1..] == [];
    }
  }

  lemma PuttingSlice(provider: Provider, blobs: Contents, handle: Handle, plan: Plan, bytes: Bytes, number: int)
    requires Fits(plan, bytes) && 1 <= number <= plan.partCount as int
    ensures
      var slice := Slice(plan, bytes, number);
      var loaded := LoadUpload(provider, blobs, handle);
      && PutReply(provider, blobs, handle, number, slice, |slice|)
         == (if loaded.Err? then Err(loaded.error) else Ok(CompletedPart(provider.digest(slice), number, |slice|)))
      && (LoadUpload(provider, Put(provider, blobs, handle, number, slice, |slice|), handle).Ok? <==> loaded.Ok?)
      && (loaded.Err? ==> Put(provider, blobs, handle, number, slice, |slice|) == blobs)
  {
    PartCountIsBounded(plan);
    hide Covers, Slice;
  }

  /**
   The loop shared by the upload routes. The reader stands at the start of the file; the
   session may be new or left over from an attempt that broke off.
   */
  method UploadParts(store: LocalBlobStore, handle: Handle, file: Bytes, plan: Plan)
    returns (reply: Reply<seq<CompletedPart>>, copied: int)
    requires Fits(plan, file)
    modifies store
    ensures
      var before := old(store.Snapshot());
      if LoadUpload(store.provider, before, handle).Err? then
        reply == Err(LoadUpload(store.provider, before, handle).error) && store.Snapshot() == before
      else
        && reply == Ok(Receipts(store.provider, plan, file, plan.partCount as int))
        && copied == |file|
        && store.Snapshot()
           == ApplyAll(store.provider, before, PlannedPuts(handle, plan, file, plan.partCount as int))
  {
    ghost var before := store.Snapshot();
    var parts: seq<CompletedPart> := [];
    var position := 0;
    copied := 0;
    for number := 1 to plan.partCount as int + 1
      invariant position == copied == PartEnd(plan, number - 1)
      invariant number > 1 ==> LoadUpload(store.provider, before, handle).Ok?
      invariant parts == Receipts(store.provider, plan, file, number - 1)
      invariant store.Snapshot() == ApplyAll(store.provider, before, PlannedPuts(handle, plan, file, number - 1))
      invariant LoadUpload(store.provider, store.Snapshot(), handle).Ok?
        <==> LoadUpload(store.provider, before, handle).Ok?
    {
      PartSizeIsInterval(plan, number);
      PreviousEndsAtStart(plan, number);
      PutsGoOn(store.provider, before, handle, plan, file, number);
      PuttingSlice(store.provider, store.Snapshot(), handle, plan, file, number);
      ReceiptsGoOn(store.provider, plan, file, number);
      hide Covers, PartEnd, PartStart, PartSize, ApplyAll, LoadUpload, Put, PutReply, PlannedPuts, Receipts;
      var size := PartSize(plan, number).value as int;
      var body := file[position..position + size];
      var part := store.PutPart(handle, number, body, size);
      if part.Err? {
        return Err(part.error), copied;
      }
      position := position + size;
      copied := copied + part.value.size;
      parts := parts + [part.value];
    }
    EndIsSize(plan);
    reply := Ok(parts);
  }

  lemma PutsGoOn(provider: Provider, before: Contents, handle: Handle, plan: Plan, file: Bytes, number: nat)
    requires Fits(plan, file) && 1 <= number <= plan.partCount as int
    ensures
      var earlier, slice := ApplyAll(provider, before, PlannedPuts(handle, plan, file, number - 1)), Slice(plan, file, number);
      ApplyAll(provider, before, PlannedPuts(handle, plan, file, number))
      == Put(provider, earlier, handle, number, slice, |slice|)
  {
    ApplyLast(provider, before, PlannedPuts(handle, plan, file, number - 1), PlannedPut(handle, plan, file, number));
    hide ApplyAll, Put, Slice, Fits;
  }

  lemma ReceiptsGoOn(provider: Provider, plan: Plan, file: Bytes, number: nat)
    requires Fits(plan, file) && 1 <= number <= plan.partCount as int
    ensures
      var slice := Slice(plan, file, number);
      Receipts(provider, plan, file, number)
      == Receipts(provider, plan, file, number - 1) + [CompletedPart(provider.digest(slice), number, |slice|)]
  {
    hide Slice, Fits;
  }

  lemma EndIsSize(plan: Plan)
    requires Covers(plan)
    ensures PartEnd(plan, plan.partCount as int) == plan.sizeBytes as int
  {
  }

  datatype ArchiveError = SizeMismatch | Storage(error: BlobError)

  /**
   Upload and complete. From any open session, fresh or left over, the file is stored whole
   exactly when the session holds nothing beyond the plan and the key is free.
   */
  method Archive(store: LocalBlobStore, handle: Handle, file: Bytes, plan: Plan)
    returns (failure: Option<ArchiveError>)
    requires Fits(plan, file)
    modifies store
    ensures
      var before := old(store.Snapshot());
      var loaded := LoadUpload(store.provider, before, handle);
      if loaded.Err? then failure == Some(Storage(loaded.error)) && store.Snapshot() == before
      else if Stray(loaded.value.parts, plan) then failure == Some(Storage(InvalidPart))
      else if handle.key in before.objects then failure == Some(Storage(ObjectExists))
      else
        && failure == None
        && store.objects == before.objects[handle.key := file]
        && store.uploads == before.uploads - {handle.id}
  {
    ghost var before := store.Snapshot();
    var parts, copied := UploadParts(store, handle, file, plan);
    if parts.Err? {
      return Some(Storage(parts.error));
    }
    if copied != plan.sizeBytes as int {
      return Some(SizeMismatch);
    }
    PutsLeaveTheRest(store.provider, before, handle, plan, file, plan.partCount as int);
    PutsSendEverything(store.provider, before, handle, plan, file);
    hide ApplyAll, Stray, Covers, Complete, CompleteReply;
    var info := store.CompleteMultipart(handle, parts.value);
    failure := if info.Err? then Some(Storage(info.error)) else None;
  }

  lemma {:induction false} PutsLeaveTheRest(
    provider: Provider, before: Contents, handle: Handle, plan: Plan, bytes: Bytes, upTo: nat)
    requires Fits(plan, bytes) && upTo <= plan.partCount as int && LoadUpload(provider, before, handle).Ok?
    ensures
      var after := ApplyAll(provider, before, PlannedPuts(handle, plan, bytes, upTo));
      && after.objects == before.objects
      && after.uploads - {handle.id} == before.uploads - {handle.id}
    decreases upTo
  {
    if upTo > 0 {
      PutsLeaveTheRest(provider, before, handle, plan, bytes, upTo - 1);
      ApplyLast(provider, before, PlannedPuts(handle, plan, bytes, upTo - 1), PlannedPut(handle, plan, bytes, upTo));
    }
  }

  lemma PutsSendEverything(provider: Provider, before: Contents, handle: Handle, plan: Plan, bytes: Bytes)
    requires Fits(plan, bytes) && LoadUpload(provider, before, handle).Ok?
    ensures
      var after := ApplyAll(provider, before, PlannedPuts(handle, plan, bytes, plan.partCount as int));
      var upload := before.uploads[handle.id];
      var receipts := Receipts(provider, plan, bytes, plan.partCount as int);
      var reply := CompleteReply(provider, after, handle, receipts);
      if Stray(upload.parts, plan) then reply == Err(InvalidPart)
      else if handle.key in after.objects then reply == Err(ObjectExists)
      else
        && reply == Ok(ObjectInfo(upload.contentType, |bytes|))
        && Complete(provider, after, handle, receipts)
           == Contents(after.objects[handle.key := bytes], after.uploads - {handle.id})
  {
    var puts := PlannedPuts(handle, plan, bytes, plan.partCount as int);
    forall n | 1 <= n <= plan.partCount as int
      ensures Sent(puts, handle, plan, bytes, n)
    {
      assert puts[n - 1] == PlannedPut(handle, plan, bytes, n);
    }
    forall i | 0 <= i < |puts|
      ensures Undisturbed(puts[i], handle, plan, bytes)
    {
      assert puts[(i + 1) - 1] == PlannedPut(handle, plan, bytes, i + 1);
    }
    RunJoins(provider, before, handle, plan, bytes, puts);
  }
}
