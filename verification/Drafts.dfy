/**
 The stored article draft: flushes, restores and accepted patches, block review, and chapter
 tags (backend/internal/article/postgres.go:112-258, 313-337;
 backend/internal/article/chapter_tags.go:10-48, 101-132;
 backend/internal/article/chapter_tags_postgres.go:38-260). One step per transaction.
 */
module Drafts {
  import opened Common
  import opened Documents

  // ----- reviewing a block -----

  const REVIEW_KEYS := {"reviewed_by", "reviewed_at", "reviewed_from_tag"}

  /** Who toggles, the time as text for the provenance, and the time of the row. */
  datatype Editor = Editor(actor: string, stamp: string, now: int)

  predicate SourceTag(tag: string) {
    tag in {"ai_draft", "human_draft", "ai_revision", "human_revision"}
  }

  function ReviewSourceTag(tag: string): (source: string)
    ensures SourceTag(source)
  {
    if SourceTag(tag) then tag else "human_revision"
  }

  function Unreview(block: Block, now: int): Block {
    var provenance := ProvenanceOf(block);
    block.(attrs := Tagged(block.attrs, ReviewSourceTag(AsText(Get(provenance, "reviewed_from_tag"))), provenance - REVIEW_KEYS),
           updatedAt := now)
  }

  function Review(block: Block, editor: Editor): Block {
    var provenance := ProvenanceOf(block)["reviewed_from_tag" := Text(ReviewSourceTag(TagOf(block)))]
                                         ["reviewed_by" := Text(editor.actor)]["reviewed_at" := Text(editor.stamp)];
    block.(attrs := Tagged(block.attrs, "reviewed", provenance), updatedAt := editor.now)
  }

  function Toggle(block: Block, editor: Editor): Block {
    if TagOf(block) == "reviewed" then Unreview(block, editor.now) else Review(block, editor)
  }

  function IndexOf(blocks: seq<Block>, id: string): (i: nat)
    ensures i <= |blocks|
    ensures i < |blocks| ==> blocks[i].id == id
    ensures forall j :: 0 <= j < i ==> blocks[j].id != id
  {
    if blocks == [] || blocks[0].id == id then 0 else 1 + IndexOf(blocks[1..], id)
  }

  function ReviewFailure(blocks: seq<Block>, id: string, expected: Fingerprint): Option<Failure> {
    var i := IndexOf(blocks, id);
    if i == |blocks| then Some(NotFound)
    else if blocks[i].fingerprint.Unrecorded? || blocks[i].fingerprint != expected then Some(BlockChanged)
    else None
  }

  // ----- chapter tags -----

  datatype ChapterStatus = Unedited | Unreviewed | Reviewed | NeedsReview

  datatype Reason = NoReason | HeadingMissing | HeadingTypeChanged | HeadingContentChanged

  /** What the digest of a heading covers. */
  datatype HeadingPrint = HeadingPrint(nodeType: string, text: string, attrs: Fields)

  datatype ChapterTag = ChapterTag(
    id: string,
    heading: string,
    status: ChapterStatus,
    blockType: string,
    digest: HeadingPrint,
    reason: Reason,
    reviewedBy: Option<string>)

  function PrintOf(block: Block): HeadingPrint {
    HeadingPrint(block.nodeType, block.text, block.attrs - {"id", "tag", "provenance"})
  }

  predicate IsHeading(block: Block) {
    block.nodeType == "heading" && block.id != ""
  }

  function LastHeading(blocks: seq<Block>, id: string): Option<Block> {
    if blocks == [] then None
    else
      var last := blocks[|blocks| - 1];
      if IsHeading(last) && last.id == id then Some(last) else LastHeading(blocks[..|blocks| - 1], id)
  }

  predicate Editable(status: ChapterStatus) {
    status.Unedited? || status.Unreviewed?
  }

  function InitialStatus(block: Block): ChapterStatus {
    if Blank(block.text) then Unedited else Unreviewed
  }

  datatype Verdict = Verdict(status: ChapterStatus, reason: Reason, blockType: string, changed: bool)

  /** `reconcileChapterTagState`. */
  function ReconcileState(item: ChapterTag, current: Option<Block>, currentExists: bool): Verdict
    requires currentExists ==> current.Some?
  {
    if !currentExists then Verdict(NeedsReview, HeadingMissing, item.blockType, true)
    else
      var block := current.value;
      if block.nodeType != "heading" then Verdict(NeedsReview, HeadingTypeChanged, block.nodeType, true)
      else if item.blockType != block.nodeType || item.digest != PrintOf(block) then
        if item.blockType != block.nodeType then Verdict(NeedsReview, HeadingTypeChanged, block.nodeType, true)
        else if item.status.Reviewed? || item.status.NeedsReview? then
          Verdict(NeedsReview, HeadingContentChanged, block.nodeType, true)
        else if Blank(block.text) then Verdict(Unedited, NoReason, block.nodeType, true)
        else Verdict(Unreviewed, NoReason, block.nodeType, true)
      else Verdict(item.status, item.reason, item.blockType, false)
  }

  function ReconcileTag(item: ChapterTag, blocks: seq<Block>): ChapterTag {
    var heading := LastHeading(blocks, item.heading);
    var current := if heading.Some? then heading else LastBlock(blocks, item.heading);
    var verdict := ReconcileState(item, current, heading.Some?);
    if !verdict.changed then item
    else
      item.(status := verdict.status, blockType := verdict.blockType,
            digest := if heading.Some? then PrintOf(heading.value) else item.digest,
            reason := verdict.reason, reviewedBy := None)
  }

  predicate HasTag(tags: seq<ChapterTag>, heading: string) {
    exists i :: 0 <= i < |tags| && tags[i].heading == heading
  }

  /** Headings that have no tag yet, in document order. */
  function Untagged(tags: seq<ChapterTag>, blocks: seq<Block>): (missing: seq<Block>)
    ensures |missing| <= |blocks|
  {
    if blocks == [] then []
    else
      var last := blocks[|blocks| - 1];
      Untagged(tags, blocks[..|blocks| - 1])
      + if IsHeading(last) && !HasTag(tags, last.id) then [last] else []
  }

  function NewTag(id: string, block: Block, status: ChapterStatus): ChapterTag {
    ChapterTag(id, block.id, status, block.nodeType, PrintOf(block), NoReason, None)
  }

  function NewTags(missing: seq<Block>, ids: seq<string>): (created: seq<ChapterTag>)
    requires |missing| <= |ids|
    ensures |created| == |missing|
    ensures forall i :: 0 <= i < |missing| ==> created[i] == NewTag(ids[i], missing[i], InitialStatus(missing[i]))
  {
    seq(|missing|, i requires 0 <= i < |missing| => NewTag(ids[i], missing[i], InitialStatus(missing[i])))
  }

  function ReconcileEach(tags: seq<ChapterTag>, blocks: seq<Block>): (result: seq<ChapterTag>)
    ensures |result| == |tags|
    ensures forall i :: 0 <= i < |tags| ==> result[i] == ReconcileTag(tags[i], blocks)
  {
    seq(|tags|, i requires 0 <= i < |tags| => ReconcileTag(tags[i], blocks))
  }

  /** `reconcileChapterTagsInTransaction`. */
  function ReconcileTags(tags: seq<ChapterTag>, blocks: seq<Block>, ids: seq<string>): Result<seq<ChapterTag>> {
    var missing := Untagged(tags, blocks);
    if |ids| < |missing| then Err(GeneratorFailed)
    else Ok(ReconcileEach(tags, blocks) + NewTags(missing, ids))
  }

  function TagIndex(tags: seq<ChapterTag>, id: string): (i: nat)
    ensures i <= |tags|
    ensures i < |tags| ==> tags[i].id == id
    ensures forall j :: 0 <= j < i ==> tags[j].id != id
  {
    if tags == [] || tags[0].id == id then 0 else 1 + TagIndex(tags[1..], id)
  }

  /** The new row for `UpdateChapterTag`, or the failure. */
  function Updated(tag: ChapterTag, block: Option<Block>, status: ChapterStatus): Result<ChapterTag> {
    if block.None? || block.value.nodeType != "heading" then Err(Conflict)
    else Ok(tag.(status := status, blockType := "heading", digest := PrintOf(block.value), reason := NoReason, reviewedBy := None))
  }

  function MarkNeedsReview(tag: ChapterTag, reason: Reason): ChapterTag {
    tag.(status := NeedsReview, reason := reason)
  }

  /** The new row for `ReviewChapterTag`; a stale tag is marked and the caller gets a conflict. */
  function ReviewedTag(tag: ChapterTag, block: Option<Block>, actor: string): ChapterTag {
    if block.None? then MarkNeedsReview(tag, HeadingMissing)
    else if block.value.nodeType != "heading" then MarkNeedsReview(tag, HeadingTypeChanged)
    else if PrintOf(block.value) != tag.digest then MarkNeedsReview(tag, HeadingContentChanged)
    else tag.(status := Reviewed, reviewedBy := Some(actor), reason := NoReason)
  }

  predicate Stale(tag: ChapterTag, block: Option<Block>) {
    block.None? || block.value.nodeType != "heading" || PrintOf(block.value) != tag.digest
  }

  // ----- the article -----

  /** A prepared write on its way to the store. */
  datatype Flush = Flush(prepared: Prepared, expectedRevision: int)

  datatype Article = Article(draft: Draft, tags: seq<ChapterTag>, proposed: set<string>, flushes: seq<Flush>)

  const EMPTY := Article(Draft(0, [], []), [], {}, [])

  datatype Step =
    | PrepareFlush(author: Author, document: Fields, ids: seq<string>, expectedRevision: int)
    | Persist(flush: nat, accepting: Option<string>, ids: seq<string>)
    | ReviewBlock(id: string, expected: Fingerprint, editor: Editor)
    | ProposePatch(patch: string)
    | RejectPatch(patch: string)
    | CreateTag(id: string, seen: Block, chosen: Option<ChapterStatus>)
    | UpdateTag(id: string, status: ChapterStatus)
    | DeleteTag(id: string)
    | ReviewTag(id: string, actor: string)

  predicate Repeats(blocks: seq<Block>) {
    exists i, j :: 0 <= i < j < |blocks| && blocks[i].id == blocks[j].id
  }

  /** `persistDraftInTransaction`; the primary key refuses a repeated block identity. */
  function PersistDraft(article: Article, flush: Flush, ids: seq<string>): Result<Article> {
    if article.draft.revision != flush.expectedRevision then Err(Conflict)
    else if Repeats(flush.prepared.blocks) then Err(DuplicateBlock)
    else
      match ReconcileTags(article.tags, flush.prepared.blocks, ids)
      case Err(failure) => Err(failure)
      case Ok(tags) =>
        Ok(article.(draft := Draft(article.draft.revision + 1, flush.prepared.nodes, flush.prepared.blocks), tags := tags))
  }

  /** What a step does, and why it fails if it does. A failing transaction leaves no trace. */
  function Apply(article: Article, step: Step): (Article, Option<Failure>) {
    match step
    case PrepareFlush(author, document, ids, expected) =>
      (match Prepare(author, article.draft, document, ids)
       case Err(failure) => (article, Some(failure))
       case Ok(prepared) => (article.(flushes := article.flushes + [Flush(prepared, expected)]), None))
    case Persist(k, patch, ids) => ApplyPersist(article, k, patch, ids)
    case ReviewBlock(id, expected, editor) =>
      var blocks := article.draft.blocks;
      var failure := ReviewFailure(blocks, id, expected);
      if failure.Some? then (article, failure)
      else
        var i := IndexOf(blocks, id);
        (article.(draft := article.draft.(blocks := blocks[i := Toggle(blocks[i], editor)])), None)
    case ProposePatch(patch) => (article.(proposed := article.proposed + {patch}), None)
    case RejectPatch(patch) =>
      if patch in article.proposed then (article.(proposed := article.proposed - {patch}), None)
      else (article, Some(Conflict))
    case _ => ApplyToTags(article, step)
  }

  /** `PersistDraft` and, when a patch is being accepted, `AcceptPatch`. */
  function ApplyPersist(article: Article, k: nat, patch: Option<string>, ids: seq<string>): (Article, Option<Failure>) {
    if k >= |article.flushes| then (article, Some(NotFound))
    else if patch.Some? && patch.value !in article.proposed then (article, Some(Conflict))
    else
      match PersistDraft(article, article.flushes[k], ids)
      case Err(failure) => (article, Some(failure))
      case Ok(next) =>
        (if patch.Some? then next.(proposed := next.proposed - {patch.value}) else next, None)
  }

  function ApplyToTags(article: Article, step: Step): (Article, Option<Failure>) {
    var tags := article.tags;
    match step
    case CreateTag(id, seen, status) =>
      if Blank(seen.id) || (status.Some? && !Editable(status.value)) then (article, Some(Invalid))
      else if seen.nodeType != "heading" then (article, Some(Conflict))
      else if HasTag(tags, seen.id) then (article, None)
      else (article.(tags := tags + [NewTag(id, seen, if status.Some? then status.value else InitialStatus(seen))]), None)
    case UpdateTag(id, status) =>
      var i := TagIndex(tags, id);
      if !Editable(status) then (article, Some(Invalid))
      else if i == |tags| then (article, Some(NotFound))
      else
        (match Updated(tags[i], LastBlock(article.draft.blocks, tags[i].heading), status)
         case Err(failure) => (article, Some(failure))
         case Ok(tag) => (article.(tags := tags[i := tag]), None))
    case DeleteTag(id) =>
      var i := TagIndex(tags, id);
      if i == |tags| then (article, Some(NotFound))
      else (article.(tags := tags[..i] + tags[i + 1..]), None)
    case ReviewTag(id, actor) =>
      var i := TagIndex(tags, id);
      if i == |tags| then (article, Some(NotFound))
      else
        var block := LastBlock(article.draft.blocks, tags[i].heading);
        (article.(tags := tags[i := ReviewedTag(tags[i], block, actor)]),
         if Stale(tags[i], block) then Some(Conflict) else None)
    case _ => (article, None)
  }

  /** The article after the first `n` steps of a run that starts empty. */
  function After(steps: seq<Step>, n: nat): Article
    requires n <= |steps|
  {
    if n == 0 then EMPTY else Apply(After(steps, n - 1), steps[n - 1]).0
  }
}
