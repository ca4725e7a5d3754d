/**
 Chapter tags on the fields of the headings themselves: what a digest covers, what each
 operation does to a tag, and that a reviewed chapter is the one that was reviewed
 (backend/internal/article/document.go:203-215; backend/internal/article/chapter_tags.go:22-48, 101-149;
 backend/internal/article/chapter_tags_postgres.go:97-260).
 */
module ChapterEffects {
  import opened Common
  import opened Documents
  import opened DraftCoherence
  import opened Drafts
  import opened ReviewTheorems
  import opened ReviewDecisions
  import opened ChapterTheorems

  /** Attributes that say nothing about the heading's content. */
  predicate Incidental(key: string) {
    key == "id" || key == "tag" || key == "provenance"
  }

  /** The attribute is absent from both, or present in both with the same value. */
  predicate Agree(left: Fields, right: Fields, key: string) {
    (key in left <==> key in right) && (key in left ==> left[key] == right[key])
  }

  /** Same kind of block, same text, same attributes. */
  ghost predicate SameHeading(left: Block, right: Block) {
    && left.nodeType == right.nodeType
    && left.text == right.text
    && forall key :: !Incidental(key) ==> Agree(left.attrs, right.attrs, key)
  }

  /** The digest is that of this block. */
  ghost predicate Shows(digest: HeadingPrint, block: Block) {
    && digest.nodeType == block.nodeType
    && digest.text == block.text
    && forall key :: if Incidental(key) then key !in digest.attrs else Agree(digest.attrs, block.attrs, key)
  }

  lemma PrintShows(digest: HeadingPrint, block: Block)
    ensures PrintOf(block) == digest <==> Shows(digest, block)
  {
    var attrs := block.attrs - {"id", "tag", "provenance"};
    forall key
      ensures key in attrs <==> key in block.attrs && !Incidental(key)
    {
    }
    if Shows(digest, block) {
      assert digest.attrs.Keys == attrs.Keys;
      assert digest.attrs == attrs;
    }
  }

  /**
   Two blocks have the same digest exactly if they agree in type, in text and in every
   attribute other than identity, tag and provenance.
   */
  lemma SamePrintExactly(left: Block, right: Block)
    ensures PrintOf(left) == PrintOf(right) <==> SameHeading(left, right)
  {
    PrintShows(PrintOf(right), left);
    PrintShows(PrintOf(right), right);
    hide PrintOf;
    var digest := PrintOf(right);
    forall key | !Incidental(key)
      ensures Shows(digest, left) ==> Agree(left.attrs, right.attrs, key)
      ensures Agree(left.attrs, right.attrs, key) ==> Agree(digest.attrs, left.attrs, key)
    {
      assert Agree(digest.attrs, right.attrs, key);
      assert Shows(digest, left) ==> Agree(digest.attrs, left.attrs, key);
    }
  }

  // ----- the heading of a tag -----

  /** Block `i` is the heading with this identity. */
  predicate HeadingAt(blocks: seq<Block>, id: string, i: nat) {
    i < |blocks| && blocks[i].id == id && blocks[i].nodeType == "heading"
  }

  predicate BlockAt(blocks: seq<Block>, id: string, i: nat) {
    i < |blocks| && blocks[i].id == id
  }

  ghost predicate HasHeading(blocks: seq<Block>, id: string) {
    exists i: nat :: HeadingAt(blocks, id, i)
  }

  ghost predicate HasBlock(blocks: seq<Block>, id: string) {
    exists i: nat :: BlockAt(blocks, id, i)
  }

  lemma HeadingLookup(blocks: seq<Block>, id: string)
    requires DistinctIds(blocks) && id != ""
    ensures LastHeading(blocks, id).Some? <==> HasHeading(blocks, id)
    ensures forall i: nat :: HeadingAt(blocks, id, i) ==> LastHeading(blocks, id) == Some(blocks[i])
  {
    HeadingFound(blocks, id);
    HeadingIsListed(blocks, id);
    if LastHeading(blocks, id).Some? {
      var i :| 0 <= i < |blocks| && blocks[i] == LastHeading(blocks, id).value;
      assert HeadingAt(blocks, id, i);
    }
    forall i: nat | HeadingAt(blocks, id, i)
      ensures LastHeading(blocks, id) == Some(blocks[i])
    {
      HeadingOfDistinct(blocks, i);
    }
    hide LastHeading;
  }

  lemma BlockLookup(blocks: seq<Block>, id: string)
    requires DistinctIds(blocks)
    ensures LastBlock(blocks, id).Some? <==> HasBlock(blocks, id)
    ensures forall i: nat :: BlockAt(blocks, id, i) ==> LastBlock(blocks, id) == Some(blocks[i])
  {
    Found(blocks, id);
    if LastBlock(blocks, id).Some? {
      var i :| 0 <= i < |blocks| && blocks[i] == LastBlock(blocks, id).value;
      assert BlockAt(blocks, id, i);
    }
    forall i: nat | BlockAt(blocks, id, i)
      ensures LastBlock(blocks, id) == Some(blocks[i])
    {
      DistinctFound(blocks, i);
    }
    hide LastBlock;
  }

  // ----- what a flush does to one tag -----

  /** A tag whose heading now shows something else than its digest. */
  ghost predicate Rebound(tag: ChapterTag, next: ChapterTag, heading: Block) {
    && Shows(next.digest, heading)
    && next == tag.(digest := next.digest, status := next.status, reason := next.reason, reviewedBy := None)
    && (if tag.status.Reviewed? || tag.status.NeedsReview? then
          next.status.NeedsReview? && next.reason.HeadingContentChanged?
        else
          && next.reason.NoReason?
          && next.status == if forall i :: 0 <= i < |heading.text| ==> Space(heading.text[i]) then Unedited else Unreviewed)
  }

  /**
   A flush leaves a tag alone exactly if its heading is there and shows its digest. A heading
   that changed is bound anew: a review, given or due, becomes due, and any other tag is
   unreviewed or, without text, unedited. A heading that is gone makes a review due.
   */
  lemma ReconcileEffect(tag: ChapterTag, blocks: seq<Block>)
    requires DistinctIds(blocks) && tag.heading != "" && tag.blockType == "heading"
    ensures !HasHeading(blocks, tag.heading) ==>
      ReconcileTag(tag, blocks) == tag.(status := NeedsReview, reason := HeadingMissing, reviewedBy := None)
    ensures forall i: nat :: HeadingAt(blocks, tag.heading, i) ==>
      var next := ReconcileTag(tag, blocks);
      if Shows(tag.digest, blocks[i]) then next == tag else Rebound(tag, next, blocks[i])
  {
    HeadingLookup(blocks, tag.heading);
    forall i: nat | HeadingAt(blocks, tag.heading, i)
      ensures
        var next := ReconcileTag(tag, blocks);
        if Shows(tag.digest, blocks[i]) then next == tag else Rebound(tag, next, blocks[i])
    {
      PrintShows(tag.digest, blocks[i]);
      PrintShows(PrintOf(blocks[i]), blocks[i]);
      hide PrintOf, Shows, LastHeading, LastBlock;
    }
    hide LastHeading, HasHeading, HeadingAt, Shows, Rebound, PrintOf, LastBlock;
  }

  // ----- what the edits of a tag do -----

  /** The first tag with this identity, of which there is one at most. */
  predicate TagAt(tags: seq<ChapterTag>, id: string, k: nat) {
    k < |tags| && tags[k].id == id && forall j :: 0 <= j < k ==> tags[j].id != id
  }

  ghost predicate WithTag(article: Article, next: Article, k: nat, tag: ChapterTag)
    requires k < |article.tags|
  {
    next == article.(tags := article.tags[k := tag])
  }

  /**
   Reviewing a chapter succeeds exactly if its heading is in the draft and shows the digest of
   the tag. Otherwise the tag is marked with what is wrong and the caller gets a conflict.
   */
  lemma ReviewTagEffect(article: Article, id: string, actor: string, k: nat)
    requires DistinctIds(article.draft.blocks) && TagAt(article.tags, id, k)
    ensures
      var tag, blocks := article.tags[k], article.draft.blocks;
      var (next, failure) := Apply(article, ReviewTag(id, actor));
      && (failure.None? <==> exists i: nat :: HeadingAt(blocks, tag.heading, i) && Shows(tag.digest, blocks[i]))
      && (failure.None? ==>
            WithTag(article, next, k, tag.(status := Reviewed, reviewedBy := Some(actor), reason := NoReason)))
      && (failure.Some? ==>
            && failure == Some(Conflict)
            && WithTag(article, next, k,
                       tag.(status := NeedsReview,
                            reason := if !HasBlock(blocks, tag.heading) then HeadingMissing
                                      else if !HasHeading(blocks, tag.heading) then HeadingTypeChanged
                                      else HeadingContentChanged)))
  {
    var tag, blocks := article.tags[k], article.draft.blocks;
    BlockLookup(blocks, tag.heading);
    assert TagIndex(article.tags, id) == k;
    if i: nat :| BlockAt(blocks, tag.heading, i) {
      OnlyOne(blocks, tag.heading, i);
      PrintShows(tag.digest, blocks[i]);
      assert HeadingAt(blocks, tag.heading, i) <==> blocks[i].nodeType == "heading";
      hide PrintOf, Shows, LastBlock, TagIndex, DistinctIds, BlockAt, HeadingAt;
    } else {
      assert !HasHeading(blocks, tag.heading);
      hide PrintOf, Shows, LastBlock, TagIndex, DistinctIds;
    }
  }

  lemma OnlyOne(blocks: seq<Block>, id: string, i: nat)
    requires DistinctIds(blocks) && BlockAt(blocks, id, i)
    ensures forall j: nat :: BlockAt(blocks, id, j) || HeadingAt(blocks, id, j) ==> j == i
  {
  }

  /** No tag has this identity: edits are refused and change nothing. */
  lemma UnknownTagIsRefused(article: Article, id: string, status: ChapterStatus, actor: string)
    requires forall k :: 0 <= k < |article.tags| ==> article.tags[k].id != id
    ensures Apply(article, ReviewTag(id, actor)) == (article, Some(NotFound))
    ensures Apply(article, DeleteTag(id)) == (article, Some(NotFound))
    ensures status.Unedited? || status.Unreviewed? ==> Apply(article, UpdateTag(id, status)) == (article, Some(NotFound))
  {
    assert TagIndex(article.tags, id) == |article.tags|;
    hide LastBlock, PrintOf, TagIndex;
  }

  /**
   Updating a tag sets one of the two unreviewed statuses and binds the tag to what its
   heading shows now; a review is withdrawn. Without the heading it is refused.
   */
  lemma UpdateTagEffect(article: Article, id: string, status: ChapterStatus, k: nat)
    requires DistinctIds(article.draft.blocks) && TagAt(article.tags, id, k)
    ensures
      var tag, blocks := article.tags[k], article.draft.blocks;
      var (next, failure) := Apply(article, UpdateTag(id, status));
      && (failure.None? <==> (status.Unedited? || status.Unreviewed?) && HasHeading(blocks, tag.heading))
      && (failure.Some? ==> next == article)
      && (failure.None? ==> k < |next.tags| && WithTag(article, next, k, next.tags[k]))
      && forall i: nat :: failure.None? && HeadingAt(blocks, tag.heading, i) ==>
           && Shows(next.tags[k].digest, blocks[i])
           && next.tags[k] == tag.(status := status, blockType := "heading", digest := next.tags[k].digest,
                                   reason := NoReason, reviewedBy := None)
  {
    var tag, blocks := article.tags[k], article.draft.blocks;
    BlockLookup(blocks, tag.heading);
    assert TagIndex(article.tags, id) == k;
    if i: nat :| BlockAt(blocks, tag.heading, i) {
      OnlyOne(blocks, tag.heading, i);
      PrintShows(PrintOf(blocks[i]), blocks[i]);
      assert HeadingAt(blocks, tag.heading, i) <==> blocks[i].nodeType == "heading";
      hide PrintOf, Shows, LastBlock, TagIndex, DistinctIds, BlockAt, HeadingAt;
    } else {
      assert !HasHeading(blocks, tag.heading);
      hide PrintOf, Shows, LastBlock, TagIndex, DistinctIds;
    }
  }

  /** A tag that was made for this heading. */
  ghost predicate MadeFor(tag: ChapterTag, heading: Block) {
    && tag.heading == heading.id && tag.blockType == "heading"
    && Shows(tag.digest, heading)
    && tag.reason.NoReason? && tag.reviewedBy.None?
  }

  /** A heading without text starts unedited, any other unreviewed. */
  lemma InitialStatusExactly(block: Block)
    ensures InitialStatus(block)
         == if forall i :: 0 <= i < |block.text| ==> Space(block.text[i]) then Unedited else Unreviewed
  {
  }

  lemma NewTagIsMade(id: string, block: Block, status: ChapterStatus)
    requires block.nodeType == "heading"
    ensures MadeFor(NewTag(id, block, status), block)
    ensures NewTag(id, block, status).id == id && NewTag(id, block, status).status == status
  {
    PrintShows(PrintOf(block), block);
    hide PrintOf, Shows;
  }

  /**
   Creating a tag for a heading that has one is accepted and changes nothing. Otherwise one tag
   is added, made for the heading as it was seen.
   */
  lemma CreateTagEffect(article: Article, id: string, seen: Block, chosen: Option<ChapterStatus>)
    ensures
      var (next, failure) := Apply(article, CreateTag(id, seen, chosen));
      var initial := if forall i :: 0 <= i < |seen.text| ==> Space(seen.text[i]) then Unedited else Unreviewed;
      var known := exists k :: 0 <= k < |article.tags| && article.tags[k].heading == seen.id;
      && (failure.None? <==>
            && seen.nodeType == "heading"
            && (exists i :: 0 <= i < |seen.id| && !Space(seen.id[i]))
            && (chosen.None? || chosen.value.Unedited? || chosen.value.Unreviewed?))
      && (failure.Some? || known ==> next == article)
      && (failure.None? && !known ==>
            && |next.tags| == |article.tags| + 1
            && next == article.(tags := article.tags + [next.tags[|article.tags|]])
            && next.tags[|article.tags|].id == id && MadeFor(next.tags[|article.tags|], seen)
            && next.tags[|article.tags|].status == if chosen.Some? then chosen.value else initial)
  {
    InitialStatusExactly(seen);
    assert Blank(seen.id) <==> forall i :: 0 <= i < |seen.id| ==> Space(seen.id[i]);
    if seen.nodeType == "heading" {
      NewTagIsMade(id, seen, if chosen.Some? then chosen.value else InitialStatus(seen));
    }
    hide InitialStatus, NewTag, MadeFor, Space;
  }

  lemma DeleteTagEffect(article: Article, id: string, k: nat)
    requires TagAt(article.tags, id, k)
    ensures
      var (next, failure) := Apply(article, DeleteTag(id));
      && failure.None? && next == article.(tags := next.tags)
      && |next.tags| == |article.tags| - 1
      && (forall j :: 0 <= j < k ==> next.tags[j] == article.tags[j])
      && (forall j :: k <= j < |next.tags| ==> next.tags[j] == article.tags[j + 1])
  {
    assert TagIndex(article.tags, id) == k;
    hide TagIndex;
  }

  // ----- a reviewed chapter is the one that was reviewed -----

  /** Step `i` accepted a review of this tag, whose heading then showed this digest. */
  ghost predicate ReviewedAt(steps: seq<Step>, i: nat, tag: ChapterTag)
    requires i < |steps|
  {
    && steps[i].ReviewTag? && steps[i].id == tag.id && tag.reviewedBy == Some(steps[i].actor)
    && Succeeds(steps, i)
    && exists j: nat ::
         HeadingAt(After(steps, i).draft.blocks, tag.heading, j) && Shows(tag.digest, After(steps, i).draft.blocks[j])
  }

  ghost predicate ReviewBacked(steps: seq<Step>, n: nat, tag: ChapterTag)
    requires n <= |steps|
  {
    tag.status.Reviewed? ==> exists i: nat :: i < n && ReviewedAt(steps, i, tag)
  }

  ghost predicate ReviewsBacked(steps: seq<Step>, n: nat)
    requires n <= |steps|
  {
    forall k :: 0 <= k < |After(steps, n).tags| ==> ReviewBacked(steps, n, After(steps, n).tags[k])
  }

  lemma TagBackedLater(steps: seq<Step>, n: nat, tag: ChapterTag)
    requires n < |steps| && ReviewBacked(steps, n, tag)
    ensures ReviewBacked(steps, n + 1, tag)
  {
    hide ReviewedAt;
  }

  /** A step leaves reviewed tags as they are, apart from the one that it reviews itself. */
  lemma ReviewedTagsComeFrom(article: Article, step: Step, k: nat)
    requires DistinctIds(article.draft.blocks) && TagsSound(article.tags, article.draft.blocks)
    requires k < |Apply(article, step).0.tags| && Apply(article, step).0.tags[k].status.Reviewed?
    ensures
      var tag := Apply(article, step).0.tags[k];
      || tag in article.tags
      || (step.ReviewTag? && Apply(article, step).1.None? && TagAt(article.tags, step.id, k)
          && tag == article.tags[k].(status := Reviewed, reviewedBy := Some(step.actor), reason := NoReason))
  {
    hide Apply, TagsSound, DistinctIds;
    match step
    case Persist(_, _, _) => ReviewedTagsSurvive(article, step, k);
    case ReviewTag(_, _) => ReviewMakesOne(article, step, k);
    case UpdateTag(_, _) => UpdateMakesNone(article, step, k);
    case CreateTag(_, _, _) => CreateMakesNone(article, step, k);
    case _ => OthersMakeNone(article, step, k);
  }

  lemma ReviewMakesOne(article: Article, step: Step, k: nat)
    requires step.ReviewTag? && k < |Apply(article, step).0.tags| && Apply(article, step).0.tags[k].status.Reviewed?
    ensures
      var tag := Apply(article, step).0.tags[k];
      || tag in article.tags
      || (Apply(article, step).1.None? && TagAt(article.tags, step.id, k)
          && tag == article.tags[k].(status := Reviewed, reviewedBy := Some(step.actor), reason := NoReason))
  {
    var i := TagIndex(article.tags, step.id);
    assert i < |article.tags| ==> TagAt(article.tags, step.id, i);
    hide TagIndex, PrintOf, LastBlock;
  }

  lemma UpdateMakesNone(article: Article, step: Step, k: nat)
    requires step.UpdateTag? && k < |Apply(article, step).0.tags| && Apply(article, step).0.tags[k].status.Reviewed?
    ensures Apply(article, step).0.tags[k] in article.tags
  {
    hide TagIndex, PrintOf, LastBlock;
  }

  lemma CreateMakesNone(article: Article, step: Step, k: nat)
    requires step.CreateTag? && k < |Apply(article, step).0.tags| && Apply(article, step).0.tags[k].status.Reviewed?
    ensures Apply(article, step).0.tags[k] in article.tags
  {
    hide PrintOf, HasTag, Blank;
  }

  lemma OthersMakeNone(article: Article, step: Step, k: nat)
    requires !step.Persist? && !step.ReviewTag? && !step.UpdateTag? && !step.CreateTag?
    requires k < |Apply(article, step).0.tags|
    ensures Apply(article, step).0.tags[k] in article.tags
  {
    hide Prepare, TagIndex, ReviewFailure, Toggle, IndexOf;
  }

  lemma ReviewedTagsSurvive(article: Article, step: Step, k: nat)
    requires TagsSound(article.tags, article.draft.blocks) && step.Persist?
    requires k < |Apply(article, step).0.tags| && Apply(article, step).0.tags[k].status.Reviewed?
    ensures Apply(article, step).0.tags[k] in article.tags
  {
    TagsChangeByPersist(article, step);
    var tags := article.tags;
    if Apply(article, step).0.tags != tags {
      var blocks := article.flushes[step.flush].prepared.blocks;
      assert Ok(Apply(article, step).0.tags) == ReconcileTags(tags, blocks, step.ids);
      hide Apply;
      if k < |tags| {
        assert SoundTag(tags[k], article.draft.blocks);
        ReconciledReview(tags[k], blocks);
        assert ReconcileTag(tags[k], blocks) == tags[k];
      }
    }
    hide Apply, ReconcileTag, SoundTag, Untagged;
  }

  lemma ReconciledReview(tag: ChapterTag, blocks: seq<Block>)
    ensures ReconcileTag(tag, blocks).status.Reviewed? ==> ReconcileTag(tag, blocks) == tag
  {
    hide PrintOf, LastBlock, LastHeading;
  }

  lemma {:induction false} ReviewsStayBacked(steps: seq<Step>, n: nat)
    requires n <= |steps|
    ensures ReviewsBacked(steps, n)
    decreases n
  {
    if n > 0 {
      ReviewsStayBacked(steps, n - 1);
      IdsStayDistinct(steps, n - 1);
      TagsStaySound(steps, n - 1);
      forall k | 0 <= k < |After(steps, n).tags|
        ensures ReviewBacked(steps, n, After(steps, n).tags[k])
      {
        if After(steps, n).tags[k].status.Reviewed? {
          NextBacked(steps, n - 1, k);
        }
      }
    }
  }

  lemma NextBacked(steps: seq<Step>, n: nat, k: nat)
    requires n < |steps| && ReviewsBacked(steps, n)
    requires DistinctIds(After(steps, n).draft.blocks) && TagsSound(After(steps, n).tags, After(steps, n).draft.blocks)
    requires k < |After(steps, n + 1).tags| && After(steps, n + 1).tags[k].status.Reviewed?
    ensures ReviewBacked(steps, n + 1, After(steps, n + 1).tags[k])
  {
    var article, step, tag := After(steps, n), steps[n], After(steps, n + 1).tags[k];
    ReviewedTagsComeFrom(article, step, k);
    if tag in article.tags {
      var j :| 0 <= j < |article.tags| && article.tags[j] == tag;
      assert ReviewBacked(steps, n, article.tags[j]);
      hide After, ReviewsBacked, ReviewBacked;
      TagBackedLater(steps, n, tag);
    } else {
      ReviewTagEffect(article, step.id, step.actor, k);
      assert Succeeds(steps, n);
      hide Apply, After, Shows, TagsSound, DistinctIds, TagAt, ReviewsBacked;
      assert ReviewedAt(steps, n, tag);
    }
  }

  /** Step `i` reviewed the tag, and the heading shows now, after `n` steps, what it showed then. */
  ghost predicate UnchangedSince(steps: seq<Step>, i: nat, n: nat, tag: ChapterTag)
    requires i < n <= |steps|
  {
    && steps[i].ReviewTag? && steps[i].id == tag.id && tag.reviewedBy == Some(steps[i].actor)
    && Succeeds(steps, i)
    && exists j: nat, m: nat ::
         && HeadingAt(After(steps, i).draft.blocks, tag.heading, j)
         && HeadingAt(After(steps, n).draft.blocks, tag.heading, m)
         && SameHeading(After(steps, i).draft.blocks[j], After(steps, n).draft.blocks[m])
  }

  lemma ShownTwice(digest: HeadingPrint, left: Block, right: Block)
    requires Shows(digest, left)
    ensures Shows(digest, right) <==> SameHeading(left, right)
  {
    PrintShows(digest, left);
    PrintShows(digest, right);
    SamePrintExactly(left, right);
    hide *;
  }

  /** A tag marked reviewed is bound to its present heading. */
  lemma ReviewedShowsHeading(steps: seq<Step>, n: nat, k: nat)
    requires n <= |steps| && k < |After(steps, n).tags| && After(steps, n).tags[k].status.Reviewed?
    ensures
      var tag, blocks := After(steps, n).tags[k], After(steps, n).draft.blocks;
      && tag.heading != "" && tag.blockType == "heading"
      && exists m: nat :: HeadingAt(blocks, tag.heading, m) && Shows(tag.digest, blocks[m])
  {
    var tag, blocks := After(steps, n).tags[k], After(steps, n).draft.blocks;
    TagsStaySound(steps, n);
    IdsStayDistinct(steps, n);
    assert SoundTag(tag, blocks);
    HeadingLookup(blocks, tag.heading);
    var m: nat :| HeadingAt(blocks, tag.heading, m);
    PrintShows(tag.digest, blocks[m]);
    hide After, PrintOf, Shows, LastHeading, TagsSound, DistinctIds;
  }

  /**
   In every reachable state a chapter marked reviewed was reviewed by an earlier step, by the
   actor it names, and its heading has the type, the text and the attributes that it had
   then, identity, tag and provenance aside.
   */
  lemma ReviewedChapterIsUnchanged(steps: seq<Step>, n: nat, tag: ChapterTag)
    requires n <= |steps| && tag in After(steps, n).tags && tag.status.Reviewed?
    ensures exists i: nat :: i < n && UnchangedSince(steps, i, n, tag)
  {
    ReviewsStayBacked(steps, n);
    var k :| 0 <= k < |After(steps, n).tags| && After(steps, n).tags[k] == tag;
    assert ReviewBacked(steps, n, After(steps, n).tags[k]);
    ReviewedShowsHeading(steps, n, k);
    hide After, Shows, Succeeds, SameHeading, HeadingAt, ReviewsBacked;
    var i: nat :| i < n && ReviewedAt(steps, i, tag);
    var m: nat :| HeadingAt(After(steps, n).draft.blocks, tag.heading, m) && Shows(tag.digest, After(steps, n).draft.blocks[m]);
    var j: nat :|
      HeadingAt(After(steps, i).draft.blocks, tag.heading, j) && Shows(tag.digest, After(steps, i).draft.blocks[j]);
    AtIndex(After(steps, i).draft.blocks, tag.heading, j);
    AtIndex(After(steps, n).draft.blocks, tag.heading, m);
    ShownTwice(tag.digest, After(steps, i).draft.blocks[j], After(steps, n).draft.blocks[m]);
    assert UnchangedSince(steps, i, n, tag);
  }

  lemma AtIndex(blocks: seq<Block>, id: string, i: nat)
    requires HeadingAt(blocks, id, i)
    ensures i < |blocks| && BlockAt(blocks, id, i)
  {
  }

  /** The tags after a stored flush: the earlier ones reconciled, then the new ones. */
  lemma StoredTags(steps: seq<Step>, n: nat)
    requires n < |steps| && Stores(steps, n)
    ensures
      var was, now := After(steps, n), After(steps, n + 1);
      && DistinctIds(now.draft.blocks)
      && Ok(now.tags) == ReconcileTags(was.tags, now.draft.blocks, steps[n].ids)
  {
    var article, step := After(steps, n), steps[n];
    RefusedUnlessDistinct(article, article.flushes[step.flush], step.ids);
    hide ReconcileTags, DistinctIds, Repeats;
  }

  /**
   After a stored flush a reviewed tag is still reviewed if and only if its heading is there
   with the type, the text and the remaining attributes that it had when it was reviewed.
   Otherwise a review is due, because the heading is gone or because its content changed.
   */
  lemma FlushKeepsReviewExactly(steps: seq<Step>, n: nat, k: nat, i: nat, j: nat)
    requires i < n < |steps| && Stores(steps, n)
    requires k < |After(steps, n).tags| && After(steps, n).tags[k].status.Reviewed?
    requires ReviewedAt(steps, i, After(steps, n).tags[k])
    requires HeadingAt(After(steps, i).draft.blocks, After(steps, n).tags[k].heading, j)
    ensures k < |After(steps, n + 1).tags|
    ensures
      var tag, next := After(steps, n).tags[k], After(steps, n + 1).tags[k];
      var reviewed, blocks := After(steps, i).draft.blocks[j], After(steps, n + 1).draft.blocks;
      && next.id == tag.id && next.heading == tag.heading
      && (next.status.Reviewed? <==> exists m: nat :: HeadingAt(blocks, tag.heading, m) && SameHeading(reviewed, blocks[m]))
      && (!next.status.Reviewed? ==>
            && next.status.NeedsReview? && next.reviewedBy.None?
            && next.reason == if HasHeading(blocks, tag.heading) then HeadingContentChanged else HeadingMissing)
  {
    var tag, blocks := After(steps, n).tags[k], After(steps, n + 1).draft.blocks;
    StoredTags(steps, n);
    assert After(steps, n + 1).tags[k] == ReconcileTag(tag, blocks);
    ReviewedShowsHeading(steps, n, k);
    ReconcileEffect(tag, blocks);
    IdsStayDistinct(steps, i);
    var earlier := After(steps, i).draft.blocks;
    assert Shows(tag.digest, earlier[j]) by {
      var j': nat :| HeadingAt(earlier, tag.heading, j') && Shows(tag.digest, earlier[j']);
      AtIndex(earlier, tag.heading, j');
      OnlyOne(earlier, tag.heading, j');
      hide Shows, DistinctIds, After;
    }
    hide After, Shows, SameHeading, ReconcileTag, ReconcileTags, DistinctIds;
    if m: nat :| HeadingAt(blocks, tag.heading, m) {
      AtIndex(blocks, tag.heading, m);
      OnlyOneHeading(blocks, tag.heading, m);
      ShownTwice(tag.digest, earlier[j], blocks[m]);
    }
  }

  lemma OnlyOneHeading(blocks: seq<Block>, id: string, i: nat)
    requires DistinctIds(blocks) && HeadingAt(blocks, id, i)
    ensures HasHeading(blocks, id)
    ensures forall j: nat :: HeadingAt(blocks, id, j) ==> j == i
  {
  }

  /** A stored flush adds one tag, made for the heading as it is stored, for every heading that had none. */
  lemma FlushMakesTags(steps: seq<Step>, n: nat, block: Block)
    requires n < |steps| && Stores(steps, n)
    requires block in After(steps, n + 1).draft.blocks && block.nodeType == "heading" && block.id != ""
    requires forall k :: 0 <= k < |After(steps, n).tags| ==> After(steps, n).tags[k].heading != block.id
    ensures
      var was, now := After(steps, n).tags, After(steps, n + 1).tags;
      exists k: nat :: |was| <= k < |now|
        && MadeFor(now[k], block)
        && now[k].status == if forall i :: 0 <= i < |block.text| ==> Space(block.text[i]) then Unedited else Unreviewed
  {
    var was, now, blocks := After(steps, n).tags, After(steps, n + 1).tags, After(steps, n + 1).draft.blocks;
    StoredTags(steps, n);
    var missing := Untagged(was, blocks);
    UntaggedExactly(was, blocks);
    assert block in missing;
    var m :| 0 <= m < |missing| && missing[m] == block;
    var k := |was| + m;
    assert now[k] == NewTag(steps[n].ids[m], block, InitialStatus(block));
    InitialStatusExactly(block);
    NewTagIsMade(steps[n].ids[m], block, InitialStatus(block));
    hide After, Untagged, NewTag, InitialStatus, MadeFor, ReconcileTags, ReconcileTag, DistinctIds, Space;
  }

  // ----- an edited heading -----

  /** The case in point: a heading keeps its identity and gets another text. */
  lemma EditedHeadingLosesReview(tag: ChapterTag, blocks: seq<Block>, before: Block)
    requires tag.status.Reviewed? && tag.heading == before.id != "" && tag.blockType == "heading"
    requires Shows(tag.digest, before) && DistinctIds(blocks)
    requires exists i: nat :: HeadingAt(blocks, tag.heading, i) && blocks[i].text != before.text
    ensures
      var next := ReconcileTag(tag, blocks);
      next.status.NeedsReview? && next.reason.HeadingContentChanged? && next.reviewedBy.None?
  {
    ReconcileEffect(tag, blocks);
    var i: nat :| HeadingAt(blocks, tag.heading, i) && blocks[i].text != before.text;
    assert !Shows(tag.digest, blocks[i]);
    hide ReconcileTag, DistinctIds;
  }
}
