/**
 The local object store (backend/internal/artifact/local_blobstore.go:82-317, 347-406,
 417-441, 508-525) as transitions on a value: objects by key, open multipart uploads by ID.
 */
module Blobs {
  import opened Common

  type Key = string
  type UploadId = string
  type ETag = string

  const MAX_PART_NUMBER := 10000

  /** Key and identity checks, the part digest and the trimming of quoted ETags. */
  datatype Provider = Provider(
    validKey: Key -> bool,
    validId: UploadId -> bool,
    digest: Bytes -> ETag,
    normalize: ETag -> ETag)

  datatype Upload = Upload(key: Key, contentType: string, parts: map<int, Bytes>)

  datatype Contents = Contents(objects: map<Key, Bytes>, uploads: map<UploadId, Upload>)

  datatype Handle = Handle(key: Key, id: UploadId)

  datatype CompletedPart = CompletedPart(etag: ETag, number: int, size: int)

  datatype ObjectInfo = ObjectInfo(contentType: string, size: int)

  datatype BlobError =
    | InvalidKey | InvalidPart | ObjectExists | ObjectNotFound | UploadNotFound | UploadExists

  datatype Reply<+T> = Ok(value: T) | Err(error: BlobError)

  // ----- multipart uploads -----

  /** `loadUpload`: the upload, unless the handle names none. */
  function LoadUpload(provider: Provider, blobs: Contents, handle: Handle): Reply<Upload> {
    if !provider.validId(handle.id) then Err(UploadNotFound)
    else if !provider.validKey(handle.key) then Err(InvalidKey)
    else if handle.id !in blobs.uploads then Err(UploadNotFound)
    else if blobs.uploads[handle.id].key != handle.key then Err(UploadNotFound)
    else Ok(blobs.uploads[handle.id])
  }

  function CreateReply(provider: Provider, blobs: Contents, key: Key, id: UploadId): Reply<Handle> {
    if !provider.validKey(key) then Err(InvalidKey)
    else if id in blobs.uploads then Err(UploadExists)
    else Ok(Handle(key, id))
  }

  function Create(provider: Provider, blobs: Contents, key: Key, contentType: string, id: UploadId): Contents {
    if CreateReply(provider, blobs, key, id).Err? then blobs
    else blobs.(uploads := blobs.uploads[id := Upload(key, contentType, map[])])
  }

  /** The reader yields `body`; the part is kept only when exactly `size` bytes arrive. */
  function PutReply(provider: Provider, blobs: Contents, handle: Handle, number: int, body: Bytes, size: int)
    : Reply<CompletedPart>
  {
    if number < 1 || number > MAX_PART_NUMBER || size < 0 then Err(InvalidPart)
    else if LoadUpload(provider, blobs, handle).Err? then Err(LoadUpload(provider, blobs, handle).error)
    else if |body| != size then Err(InvalidPart)
    else Ok(CompletedPart(provider.digest(body), number, size))
  }

  function Put(provider: Provider, blobs: Contents, handle: Handle, number: int, body: Bytes, size: int): Contents {
    if PutReply(provider, blobs, handle, number, body, size).Err? then blobs
    else
      var upload := LoadUpload(provider, blobs, handle).value;
      blobs.(uploads := blobs.uploads[handle.id := upload.(parts := upload.parts[number := body])])
  }

  /** The parts numbered up to `upTo`, in ascending order. */
  function Listed(provider: Provider, parts: map<int, Bytes>, upTo: nat): seq<CompletedPart> {
    if upTo == 0 then []
    else
      Listed(provider, parts, upTo - 1)
      + if upTo in parts then [CompletedPart(provider.digest(parts[upTo]), upTo, |parts[upTo]|)] else []
  }

  function ListParts(provider: Provider, blobs: Contents, handle: Handle): Reply<seq<CompletedPart>> {
    match LoadUpload(provider, blobs, handle)
    case Err(error) => Err(error)
    case Ok(upload) => Ok(Listed(provider, upload.parts, MAX_PART_NUMBER))
  }

  predicate SamePart(provider: Provider, actual: CompletedPart, requested: CompletedPart) {
    && actual.number == requested.number
    && actual.size == requested.size
    && provider.normalize(actual.etag) == provider.normalize(requested.etag)
  }

  /** `compareCompletedParts`: numbered from one without gaps, and equal to the stored parts. */
  predicate PartsAgree(provider: Provider, actual: seq<CompletedPart>, requested: seq<CompletedPart>) {
    && |actual| == |requested|
    && forall i :: 0 <= i < |requested| ==>
         requested[i].number == i + 1 && SamePart(provider, actual[i], requested[i])
  }

  /** The parts 1, ..., upTo one after another. */
  function Joined(parts: map<int, Bytes>, upTo: nat): Bytes {
    if upTo == 0 then []
    else Joined(parts, upTo - 1) + if upTo in parts then parts[upTo] else []
  }

  function CompleteReply(provider: Provider, blobs: Contents, handle: Handle, requested: seq<CompletedPart>)
    : Reply<ObjectInfo>
  {
    if requested == [] then Err(InvalidPart)
    else
      match ListParts(provider, blobs, handle)
      case Err(error) => Err(error)
      case Ok(actual) =>
        var upload := blobs.uploads[handle.id];
        if !PartsAgree(provider, actual, requested) then Err(InvalidPart)
        else if upload.key in blobs.objects then Err(ObjectExists)
        else Ok(ObjectInfo(upload.contentType, |Joined(upload.parts, |requested|)|))
  }

  function Complete(provider: Provider, blobs: Contents, handle: Handle, requested: seq<CompletedPart>): Contents {
    if CompleteReply(provider, blobs, handle, requested).Err? then blobs
    else
      var upload := blobs.uploads[handle.id];
      Contents(blobs.objects[upload.key := Joined(upload.parts, |requested|)], blobs.uploads - {handle.id})
  }

  /** Aborting an upload that is gone succeeds. */
  function AbortReply(provider: Provider, blobs: Contents, handle: Handle): Reply<bool> {
    match LoadUpload(provider, blobs, handle)
    case Err(error) => if error == UploadNotFound then Ok(false) else Err(error)
    case Ok(_) => Ok(true)
  }

  function Abort(provider: Provider, blobs: Contents, handle: Handle): Contents {
    if LoadUpload(provider, blobs, handle).Err? then blobs
    else blobs.(uploads := blobs.uploads - {handle.id})
  }

  // ----- objects -----

  function PromoteReply(provider: Provider, blobs: Contents, source: Key, destination: Key): Reply<()> {
    if !provider.validKey(source) || !provider.validKey(destination) then Err(InvalidKey)
    else if destination in blobs.objects then Err(ObjectExists)
    else if source !in blobs.objects then Err(ObjectNotFound)
    else Ok(())
  }

  function Promote(provider: Provider, blobs: Contents, source: Key, destination: Key): Contents {
    if PromoteReply(provider, blobs, source, destination).Err? then blobs
    else blobs.(objects := (blobs.objects - {source})[destination := blobs.objects[source]])
  }

  function Delete(provider: Provider, blobs: Contents, key: Key): Contents {
    if provider.validKey(key) then blobs.(objects := blobs.objects - {key}) else blobs
  }

  // ----- runs -----

  datatype Operation =
    | DoCreate(key: Key, contentType: string, id: UploadId)
    | DoPut(handle: Handle, number: int, body: Bytes, size: int)
    | DoComplete(handle: Handle, requested: seq<CompletedPart>)
    | DoAbort(handle: Handle)
    | DoPromote(source: Key, destination: Key)
    | DoDelete(key: Key)

  function Apply(provider: Provider, blobs: Contents, operation: Operation): Contents {
    match operation
    case DoCreate(key, contentType, id) => Create(provider, blobs, key, contentType, id)
    case DoPut(handle, number, body, size) => Put(provider, blobs, handle, number, body, size)
    case DoComplete(handle, requested) => Complete(provider, blobs, handle, requested)
    case DoAbort(handle) => Abort(provider, blobs, handle)
    case DoPromote(source, destination) => Promote(provider, blobs, source, destination)
    case DoDelete(key) => Delete(provider, blobs, key)
  }

  function ApplyAll(provider: Provider, blobs: Contents, operations: seq<Operation>): Contents
    decreases |operations|
  {
    if operations == [] then blobs
    else ApplyAll(provider, Apply(provider, blobs, operations[0]), operations[1..])
  }
}
