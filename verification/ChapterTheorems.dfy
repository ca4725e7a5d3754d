/** Chapter reviews follow the heading: invariants of the chapter tags over all runs. */
module ChapterTheorems {
  import opened Common
  import opened Documents
  import opened DraftCoherence
  import opened Drafts
  import opened ReviewTheorems

  /** The heading is there, as a heading, with the content the tag was bound to. */
  predicate BoundTo(tag: ChapterTag, blocks: seq<Block>) {
    var heading := LastHeading(blocks, tag.heading);
    heading.Some? && PrintOf(heading.value) == tag.digest
  }

  predicate SoundTag(tag: ChapterTag, blocks: seq<Block>) {
    && tag.heading != "" && tag.blockType == "heading"
    && (tag.status.Reviewed? ==> BoundTo(tag, blocks))
  }

  predicate OneTagPerHeading(tags: seq<ChapterTag>) {
    forall i, j :: 0 <= i < j < |tags| ==> tags[i].heading != tags[j].heading
  }

  predicate TagsSound(tags: seq<ChapterTag>, blocks: seq<Block>) {
    OneTagPerHeading(tags) && forall i :: 0 <= i < |tags| ==> SoundTag(tags[i], blocks)
  }

  lemma {:induction false} HeadingFound(blocks: seq<Block>, id: string)
    ensures LastHeading(blocks, id).Some? ==>
      IsHeading(LastHeading(blocks, id).value) && LastHeading(blocks, id).value.id == id
  {
    if blocks != [] {
      HeadingFound(blocks[..|blocks| - 1], id);
    }
  }

  /** The last block with an identity, if a heading, is the last heading with it. */
  lemma {:induction false} LastBlockIsHeading(blocks: seq<Block>, id: string)
    requires id != "" && LastBlock(blocks, id).Some? && LastBlock(blocks, id).value.nodeType == "heading"
    ensures LastHeading(blocks, id) == LastBlock(blocks, id)
  {
    if blocks[|blocks| - 1].id != id {
      LastBlockIsHeading(blocks[..|blocks| - 1], id);
    }
  }

  // ----- reviewing a block does not touch headings -----

  lemma ToggleKeepsPrint(block: Block, editor: Editor)
    ensures PrintOf(Toggle(block, editor)) == PrintOf(block)
    ensures Toggle(block, editor).id == block.id && Toggle(block, editor).nodeType == block.nodeType
  {
    var next := Toggle(block, editor);
    ToggleStaysKnown(block, editor);
    assert Tagged(block.attrs, TagOf(next), ProvenanceOf(next)) - {"id", "tag", "provenance"}
        == block.attrs - {"id", "tag", "provenance"};
    hide Toggle, TagOf, ProvenanceOf;
  }

  lemma {:induction false} ToggleKeepsHeadings(blocks: seq<Block>, i: nat, editor: Editor, id: string)
    requires i < |blocks|
    ensures
      var was, after := LastHeading(blocks, id), LastHeading(blocks[i := Toggle(blocks[i], editor)], id);
      && (was.Some? <==> after.Some?)
      && (was.Some? ==> PrintOf(was.value) == PrintOf(after.value))
  {
    var n := |blocks| - 1;
    ToggleKeepsPrint(blocks[i], editor);
    hide Toggle, PrintOf;
    if i == n {
      assert blocks[i := Toggle(blocks[i], editor)][..n] == blocks[..n];
    } else {
      assert blocks[i := Toggle(blocks[i], editor)][..n] == blocks[..n][i := Toggle(blocks[i], editor)];
      ToggleKeepsHeadings(blocks[..n], i, editor, id);
    }
  }

  lemma ReviewKeepsTags(tags: seq<ChapterTag>, blocks: seq<Block>, i: nat, editor: Editor)
    requires TagsSound(tags, blocks) && i < |blocks|
    ensures TagsSound(tags, blocks[i := Toggle(blocks[i], editor)])
  {
    forall k | 0 <= k < |tags|
      ensures SoundTag(tags[k], blocks[i := Toggle(blocks[i], editor)])
    {
      assert SoundTag(tags[k], blocks);
      ToggleKeepsHeadings(blocks, i, editor, tags[k].heading);
      hide Toggle, PrintOf, LastHeading;
    }
    hide Toggle, SoundTag;
  }

  // ----- flushes -----

  /** A tag after a flush: bound to the present heading, or marked with its heading missing. */
  lemma ReconciledTag(tag: ChapterTag, blocks: seq<Block>)
    requires tag.heading != "" && tag.blockType == "heading"
    ensures
      var next := ReconcileTag(tag, blocks);
      && SoundTag(next, blocks) && next.heading == tag.heading && next.id == tag.id
      && (if LastHeading(blocks, tag.heading).Some? then BoundTo(next, blocks)
          else next.status.NeedsReview? && next.reason.HeadingMissing? && next.digest == tag.digest)
      && (next.status.Reviewed? <==> tag.status.Reviewed? && BoundTo(tag, blocks))
      && (!Editable(tag.status) ==> !Editable(next.status))
      && (next.reason.HeadingTypeChanged? ==> next == tag)
  {
    HeadingFound(blocks, tag.heading);
    hide PrintOf, LastBlock, Blank;
  }

  lemma {:induction false} UntaggedExactly(tags: seq<ChapterTag>, blocks: seq<Block>)
    requires DistinctIds(blocks)
    ensures forall block :: block in Untagged(tags, blocks) <==>
                              block in blocks && IsHeading(block) && !HasTag(tags, block.id)
    ensures forall i, j :: 0 <= i < j < |Untagged(tags, blocks)| ==>
                             Untagged(tags, blocks)[i].id != Untagged(tags, blocks)[j].id
  {
    if blocks != [] {
      var n := |blocks| - 1;
      UntaggedExactly(tags, blocks[..n]);
      forall i | 0 <= i < |Untagged(tags, blocks[..n])|
        ensures Untagged(tags, blocks[..n])[i].id != blocks[n].id
      {
        assert Untagged(tags, blocks[..n])[i] in blocks[..n];
      }
      assert forall block :: block in blocks <==> block in blocks[..n] || block == blocks[n];
      hide HasTag, IsHeading;
    }
  }

  lemma ReconcileKeepsSound(tags: seq<ChapterTag>, before: seq<Block>, blocks: seq<Block>, ids: seq<string>)
    requires TagsSound(tags, before) && DistinctIds(blocks) && ReconcileTags(tags, blocks, ids).Ok?
    ensures TagsSound(ReconcileTags(tags, blocks, ids).value, blocks)
  {
    var missing := Untagged(tags, blocks);
    var old', created := ReconcileEach(tags, blocks), NewTags(missing, ids);
    UntaggedExactly(tags, blocks);
    forall i | 0 <= i < |tags|
      ensures SoundTag(old'[i], blocks) && old'[i].heading == tags[i].heading
    {
      assert SoundTag(tags[i], before);
      ReconciledTag(tags[i], blocks);
      hide ReconcileTag, BoundTo;
    }
    forall j | 0 <= j < |created|
      ensures SoundTag(created[j], blocks) && !HasTag(tags, created[j].heading)
    {
      assert missing[j] in missing;
    }
    hide SoundTag, ReconcileTag, Untagged, ReconcileEach, NewTags, IsHeading, DistinctIds, InitialStatus;
  }

  lemma TagEditKeepsSound(article: Article, step: Step)
    requires TagsSound(article.tags, article.draft.blocks)
    requires step.UpdateTag? || step.ReviewTag?
    ensures TagsSound(Apply(article, step).0.tags, article.draft.blocks)
    ensures Apply(article, step).0.draft == article.draft
  {
    var tags, blocks := article.tags, article.draft.blocks;
    var i := TagIndex(tags, step.id);
    if i < |tags| {
      assert SoundTag(tags[i], blocks);
      var block := LastBlock(blocks, tags[i].heading);
      if block.Some? && block.value.nodeType == "heading" {
        LastBlockIsHeading(blocks, tags[i].heading);
      }
      assert step.ReviewTag? ==> SoundTag(ReviewedTag(tags[i], block, step.actor), blocks);
      assert step.UpdateTag? && Editable(step.status) && Updated(tags[i], block, step.status).Ok? ==>
          SoundTag(Updated(tags[i], block, step.status).value, blocks);
      hide SoundTag, LastBlock, LastHeading, PrintOf;
    }
  }

  lemma TagChangeKeepsSound(article: Article, step: Step)
    requires TagsSound(article.tags, article.draft.blocks)
    requires step.CreateTag? || step.DeleteTag?
    ensures TagsSound(Apply(article, step).0.tags, article.draft.blocks)
    ensures Apply(article, step).0.draft == article.draft
  {
    hide LastHeading, PrintOf, LastBlock;
  }

  lemma PersistKeepsSound(article: Article, step: Step)
    requires TagsSound(article.tags, article.draft.blocks) && step.Persist?
    ensures var next := Apply(article, step).0; TagsSound(next.tags, next.draft.blocks)
  {
    if step.flush < |article.flushes| {
      var flush := article.flushes[step.flush];
      if PersistDraft(article, flush, step.ids).Ok? {
        RefusedUnlessDistinct(article, flush, step.ids);
        ReconcileKeepsSound(article.tags, article.draft.blocks, flush.prepared.blocks, step.ids);
      }
    }
    hide TagsSound, ReconcileTags, Repeats;
  }

  lemma StepKeepsTagsSound(article: Article, step: Step)
    requires TagsSound(article.tags, article.draft.blocks)
    ensures var next := Apply(article, step).0; TagsSound(next.tags, next.draft.blocks)
  {
    hide Prepare, SoundTag, OneTagPerHeading;
    match step
    case UpdateTag(_, _) => TagEditKeepsSound(article, step);
    case ReviewTag(_, _) => TagEditKeepsSound(article, step);
    case CreateTag(_, _, _) => TagChangeKeepsSound(article, step);
    case DeleteTag(_) => TagChangeKeepsSound(article, step);
    case Persist(_, _, _) => PersistKeepsSound(article, step);
    case ReviewBlock(id, expected, editor) =>
      if ReviewFailure(article.draft.blocks, id, expected).None? {
        ReviewKeepsTags(article.tags, article.draft.blocks, IndexOf(article.draft.blocks, id), editor);
      }
    case _ =>
  }

  lemma {:induction false} TagsStaySound(steps: seq<Step>, n: nat)
    requires n <= |steps|
    ensures TagsSound(After(steps, n).tags, After(steps, n).draft.blocks)
    decreases n
  {
    if n > 0 {
      TagsStaySound(steps, n - 1);
      StepKeepsTagsSound(After(steps, n - 1), steps[n - 1]);
      hide TagsSound, Apply;
    }
  }

  /**
   In every reachable state a chapter tag marked reviewed has its heading in the draft, as a
   heading, with exactly the content that was reviewed; and no heading has two tags.
   */
  lemma ReviewedChapterMatchesHeading(steps: seq<Step>, n: nat, tag: ChapterTag)
    requires n <= |steps| && tag in After(steps, n).tags && tag.status.Reviewed?
    ensures
      var blocks := After(steps, n).draft.blocks;
      exists i :: 0 <= i < |blocks| && blocks[i].id == tag.heading && IsHeading(blocks[i]) && PrintOf(blocks[i]) == tag.digest
    ensures forall other :: other in After(steps, n).tags && other.heading == tag.heading ==> other == tag
  {
    var tags, blocks := After(steps, n).tags, After(steps, n).draft.blocks;
    TagsStaySound(steps, n);
    var k :| 0 <= k < |tags| && tags[k] == tag;
    assert SoundTag(tags[k], blocks);
    HeadingFound(blocks, tag.heading);
    HeadingIsListed(blocks, tag.heading);
    hide After, PrintOf, LastHeading, SoundTag;
  }

  lemma {:induction false} HeadingIsListed(blocks: seq<Block>, id: string)
    ensures LastHeading(blocks, id).Some? ==>
      exists i :: 0 <= i < |blocks| && blocks[i] == LastHeading(blocks, id).value
  {
    if blocks != [] {
      var n := |blocks| - 1;
      HeadingIsListed(blocks[..n], id);
      if LastHeading(blocks, id).Some? && !(IsHeading(blocks[n]) && blocks[n].id == id) {
        var i :| 0 <= i < n && blocks[..n][i] == LastHeading(blocks[..n], id).value;
        assert blocks[i] == LastHeading(blocks, id).value;
      }
    }
  }

  /**
   After a stored flush every heading of the draft has a tag, every tag is bound to its
   present heading or waits for review because the heading is gone, and a reviewed tag stayed
   reviewed exactly if its heading is unchanged.
   */
  lemma FlushBindsHeadings(steps: seq<Step>, n: nat)
    requires n < |steps| && steps[n].Persist? && Apply(After(steps, n), steps[n]).1.None?
    ensures
      var was, now := After(steps, n), After(steps, n + 1);
      && (forall block :: block in now.draft.blocks && IsHeading(block) ==> HasTag(now.tags, block.id))
      && |was.tags| <= |now.tags|
      && (forall i :: 0 <= i < |was.tags| ==>
            && now.tags[i].id == was.tags[i].id && now.tags[i].heading == was.tags[i].heading
            && (now.tags[i].status.Reviewed? <==> was.tags[i].status.Reviewed? && BoundTo(was.tags[i], now.draft.blocks)))
      && (forall i :: 0 <= i < |now.tags| ==>
            BoundTo(now.tags[i], now.draft.blocks)
            || (now.tags[i].status.NeedsReview? && now.tags[i].reason.HeadingMissing?))
  {
    var article, step := After(steps, n), steps[n];
    TagsStaySound(steps, n);
    var flush := article.flushes[step.flush];
    RefusedUnlessDistinct(article, flush, step.ids);
    assert After(steps, n + 1).draft.blocks == flush.prepared.blocks;
    assert Ok(After(steps, n + 1).tags) == ReconcileTags(article.tags, flush.prepared.blocks, step.ids);
    ReconcilingBinds(article.tags, article.draft.blocks, flush.prepared.blocks, step.ids);
    hide After, TagsSound, ReconcileTags, BoundTo, IsHeading, HasTag;
  }

  lemma ReconcilingBinds(tags: seq<ChapterTag>, before: seq<Block>, blocks: seq<Block>, ids: seq<string>)
    requires TagsSound(tags, before) && DistinctIds(blocks) && ReconcileTags(tags, blocks, ids).Ok?
    ensures
      var next := ReconcileTags(tags, blocks, ids).value;
      && (forall block :: block in blocks && IsHeading(block) ==> HasTag(next, block.id))
      && |tags| <= |next|
      && (forall i :: 0 <= i < |tags| ==>
            && next[i].id == tags[i].id && next[i].heading == tags[i].heading
            && (next[i].status.Reviewed? <==> tags[i].status.Reviewed? && BoundTo(tags[i], blocks))
            && (!Editable(tags[i].status) ==> !Editable(next[i].status)))
      && (forall i :: 0 <= i < |next| ==>
            BoundTo(next[i], blocks) || (next[i].status.NeedsReview? && next[i].reason.HeadingMissing?))
  {
    var missing, next := Untagged(tags, blocks), ReconcileTags(tags, blocks, ids).value;
    UntaggedExactly(tags, blocks);
    forall i | 0 <= i < |tags|
      ensures next[i] == ReconcileTag(tags[i], blocks)
      ensures tags[i].heading != "" && tags[i].blockType == "heading"
    {
      assert SoundTag(tags[i], before);
    }
    forall i | 0 <= i < |tags|
      ensures next[i].id == tags[i].id && next[i].heading == tags[i].heading
      ensures next[i].status.Reviewed? <==> tags[i].status.Reviewed? && BoundTo(tags[i], blocks)
      ensures !Editable(tags[i].status) ==> !Editable(next[i].status)
      ensures BoundTo(next[i], blocks) || (next[i].status.NeedsReview? && next[i].reason.HeadingMissing?)
    {
      ReconciledTag(tags[i], blocks);
      hide ReconcileTag, BoundTo;
    }
    forall i | |tags| <= i < |next|
      ensures BoundTo(next[i], blocks)
    {
      var block := missing[i - |tags|];
      assert block in missing;
      var k :| 0 <= k < |blocks| && blocks[k] == block;
      HeadingOfDistinct(blocks, k);
    }
    forall block | block in blocks && IsHeading(block)
      ensures HasTag(next, block.id)
    {
      if HasTag(tags, block.id) {
        var i :| 0 <= i < |tags| && tags[i].heading == block.id;
        assert next[i].heading == block.id;
      } else {
        assert block in missing;
        var j :| 0 <= j < |missing| && missing[j] == block;
        assert next[|tags| + j].heading == block.id;
      }
    }
    hide ReconcileTag, BoundTo, Untagged, SoundTag, IsHeading, HasTag, DistinctIds, ReconcileTags;
  }

  lemma {:induction false} HeadingOfDistinct(blocks: seq<Block>, k: nat)
    requires DistinctIds(blocks) && k < |blocks| && IsHeading(blocks[k])
    ensures LastHeading(blocks, blocks[k].id) == Some(blocks[k])
  {
    var n := |blocks| - 1;
    if k < n {
      assert blocks[n].id != blocks[k].id;
      HeadingOfDistinct(blocks[..n], k);
    }
  }

  /** Preparing and storing, whatever happens in between to patches. */
  predicate OnlyFlushes(steps: seq<Step>, from: nat, until: nat)
    requires from <= until <= |steps|
  {
    forall i :: from <= i < until ==>
      steps[i].PrepareFlush? || steps[i].Persist? || steps[i].ProposePatch? || steps[i].RejectPatch? || steps[i].ReviewBlock?
  }

  /** No number of flushes, restores, patches and block reviews takes a tag out of review. */
  lemma {:induction false} FlushesNeverClearReview(steps: seq<Step>, from: nat, until: nat, i: nat)
    requires from <= until <= |steps| && OnlyFlushes(steps, from, until)
    requires i < |After(steps, from).tags| && !Editable(After(steps, from).tags[i].status)
    ensures
      && i < |After(steps, until).tags|
      && After(steps, until).tags[i].id == After(steps, from).tags[i].id
      && (After(steps, until).tags[i].status.Reviewed? || After(steps, until).tags[i].status.NeedsReview?)
      && (After(steps, until).tags[i].status.Reviewed? ==> After(steps, from).tags[i].status.Reviewed?)
    decreases until
  {
    if from < until {
      FlushesNeverClearReview(steps, from, until - 1, i);
      TagsStaySound(steps, until - 1);
      var article, step := After(steps, until - 1), steps[until - 1];
      TagsChangeByPersist(article, step);
      if step.Persist? && Apply(article, step).0.tags != article.tags {
        var flush := article.flushes[step.flush];
        RefusedUnlessDistinct(article, flush, step.ids);
        ReconcilingBinds(article.tags, article.draft.blocks, flush.prepared.blocks, step.ids);
      }
      hide Apply, TagsSound, ReconcileTags, BoundTo, DistinctIds;
    }
  }

  lemma TagsChangeByPersist(article: Article, step: Step)
    requires step.PrepareFlush? || step.Persist? || step.ProposePatch? || step.RejectPatch? || step.ReviewBlock?
    ensures
      var next := Apply(article, step).0;
      || next.tags == article.tags
      || (step.Persist? && step.flush < |article.flushes|
          && var flush := article.flushes[step.flush];
          && PersistDraft(article, flush, step.ids).Ok?
          && Ok(next.tags) == ReconcileTags(article.tags, flush.prepared.blocks, step.ids))
  {
    hide Prepare, ReconcileTags, Repeats, ReviewFailure, Toggle;
  }

  /**
   When a heading becomes another kind of block, a flush reports the heading as missing: the
   reason for a changed type is never produced by reconciling the tags that exist.
   */
  lemma RetypedHeadingReportedMissing(steps: seq<Step>, n: nat, tag: ChapterTag, blocks: seq<Block>)
    requires n <= |steps| && tag in After(steps, n).tags
    requires DistinctIds(blocks)
    ensures
      var next := ReconcileTag(tag, blocks);
      && (next.reason.HeadingTypeChanged? ==> next == tag)
      && forall block :: block in blocks && block.id == tag.heading && block.nodeType != "heading" ==>
           next.status.NeedsReview? && next.reason.HeadingMissing?
  {
    TagsStaySound(steps, n);
    var tags := After(steps, n).tags;
    var k :| 0 <= k < |tags| && tags[k] == tag;
    assert SoundTag(tags[k], After(steps, n).draft.blocks);
    ReconciledTag(tag, blocks);
    HeadingFound(blocks, tag.heading);
    HeadingIsListed(blocks, tag.heading);
    hide ReconcileTag, After, SoundTag, LastHeading;
  }
}
