/** Reviews follow content: what holds in every draft that can be reached. */
module ReviewTheorems {
  import opened Common
  import opened Documents
  import opened DocumentTheorems
  import opened DraftCoherence
  import opened Drafts

  // ----- reviewed blocks -----

  /** Step `i` was a review that accepted this block with this content. */
  predicate AcceptedAt(steps: seq<Step>, i: nat, id: string, fingerprint: Fingerprint)
    requires i < |steps|
  {
    && steps[i].ReviewBlock? && steps[i].id == id && steps[i].expected == fingerprint
    && var before := After(steps, i).draft.blocks;
    && ReviewFailure(before, id, fingerprint).None?
    && before[IndexOf(before, id)].fingerprint == fingerprint
    && TagOf(before[IndexOf(before, id)]) != "reviewed"
  }

  ghost predicate Accepted(steps: seq<Step>, n: nat, id: string, fingerprint: Fingerprint)
    requires n <= |steps|
  {
    exists i: nat :: i < n && AcceptedAt(steps, i, id, fingerprint)
  }

  ghost predicate Backed(steps: seq<Step>, n: nat, block: Block)
    requires n <= |steps|
  {
    && block.fingerprint.Of?
    && (TagOf(block) == "reviewed" ==> Accepted(steps, n, block.id, block.fingerprint))
  }

  ghost predicate AllBacked(steps: seq<Step>, n: nat, blocks: seq<Block>)
    requires n <= |steps|
  {
    forall i :: 0 <= i < |blocks| ==> Backed(steps, n, blocks[i])
  }

  /** Stored blocks and blocks on their way to the store. */
  ghost predicate DecisionsBacked(steps: seq<Step>, n: nat)
    requires n <= |steps|
  {
    && AllBacked(steps, n, After(steps, n).draft.blocks)
    && forall k :: 0 <= k < |After(steps, n).flushes| ==> AllBacked(steps, n, After(steps, n).flushes[k].prepared.blocks)
  }

  lemma BackedLater(steps: seq<Step>, n: nat, blocks: seq<Block>)
    requires n < |steps| && AllBacked(steps, n, blocks)
    ensures AllBacked(steps, n + 1, blocks)
  {
    hide AcceptedAt;
    forall i | 0 <= i < |blocks|
      ensures Backed(steps, n + 1, blocks[i])
    {
      assert Backed(steps, n, blocks[i]);
    }
  }

  predicate AllRecorded(blocks: seq<Block>) {
    forall i :: 0 <= i < |blocks| ==> blocks[i].fingerprint.Of?
  }

  /** A block that was reviewed at this content. */
  predicate ReviewedBefore(previous: Draft, block: Block) {
    var prior := LastBlock(previous.blocks, block.id);
    prior.Some? && prior.value.fingerprint == block.fingerprint && TagOf(prior.value) == "reviewed"
  }

  /** Unchanged blocks keep their tag, provenance and time; the others are drafts or revisions of this author. */
  predicate Attributed(author: Author, previous: Draft, block: Block) {
    var prior := LastBlock(previous.blocks, block.id);
    if prior.Some? && prior.value.fingerprint == block.fingerprint then
      && (KnownTag(TagOf(prior.value)) ==> TagOf(block) == TagOf(prior.value))
      && ProvenanceOf(block) == ProvenanceOf(prior.value) && block.updatedAt == prior.value.updatedAt
    else
      && TagOf(block) in (if prior.Some? then {"ai_revision", "human_revision"} else {"ai_draft", "human_draft"})
      && (TagOf(block) in {"ai_draft", "ai_revision"} <==> author.actorKind == "ai")
      && ProvenanceOf(block) == author.provenance && block.updatedAt == author.now
  }

  /** Reconciling hands a review on to exactly the content that was reviewed. */
  lemma ReconcilingKeepsContent(author: Author, previous: Draft, nodes: seq<Fields>, block: Block)
    requires AllRecorded(previous.blocks)
    ensures
      var settled := ReconcileBlock(author, previous, nodes, block);
      && settled.fingerprint == block.fingerprint && settled.id == block.id
      && (TagOf(settled) == "reviewed" <==> ReviewedBefore(previous, block))
      && Attributed(author, previous, settled)
  {
    Found(previous.blocks, block.id);
  }

  /** In what a flush is about to store, a block is reviewed exactly if it was, at this content. */
  lemma FlushDecides(author: Author, previous: Draft, document: Fields, ids: seq<string>)
    requires AllRecorded(previous.blocks) && Prepare(author, previous, document, ids).Ok?
    ensures
      var blocks := Prepare(author, previous, document, ids).value.blocks;
      && AllRecorded(blocks)
      && forall i :: 0 <= i < |blocks| ==>
           && (TagOf(blocks[i]) == "reviewed" <==> ReviewedBefore(previous, blocks[i]))
           && Attributed(author, previous, blocks[i])
  {
    var items := AsList(Get(document, "content"));
    NormalizedPairs(author, items, ids, |items|);
    var done := NormalizeNodes(author, items, ids, |items|).value;
    forall i | 0 <= i < |done.blocks|
      ensures
        var settled := ReconcileBlock(author, previous, done.nodes, done.blocks[i]);
        && settled.fingerprint.Of? && (TagOf(settled) == "reviewed" <==> ReviewedBefore(previous, settled))
        && Attributed(author, previous, settled)
    {
      assert done.blocks[i] == BlockFor(author, done.nodes[i], i);
      ReconcilingKeepsContent(author, previous, done.nodes, done.blocks[i]);
      hide ReconcileBlock, NormalizeNodes, TagOf, AllRecorded, Attributed;
    }
    hide ReconcileBlock, NormalizeNodes, TagOf, ReviewedBefore, NormalizeNext, BlockFor, Attributed;
  }

  lemma PreparedBacked(steps: seq<Step>, n: nat, author: Author, document: Fields, ids: seq<string>)
    requires n <= |steps| && AllBacked(steps, n, After(steps, n).draft.blocks)
    requires Prepare(author, After(steps, n).draft, document, ids).Ok?
    ensures AllBacked(steps, n, Prepare(author, After(steps, n).draft, document, ids).value.blocks)
  {
    hide After, Accepted, Prepare, TagOf, Apply;
    var previous := After(steps, n).draft;
    assert AllRecorded(previous.blocks) by {
      forall i | 0 <= i < |previous.blocks|
        ensures previous.blocks[i].fingerprint.Of?
      {
        assert Backed(steps, n, previous.blocks[i]);
      }
    }
    FlushDecides(author, previous, document, ids);
    var blocks := Prepare(author, previous, document, ids).value.blocks;
    forall i | 0 <= i < |blocks|
      ensures Backed(steps, n, blocks[i])
    {
      Found(previous.blocks, blocks[i].id);
      if TagOf(blocks[i]) == "reviewed" {
        var j :| 0 <= j < |previous.blocks| && Some(previous.blocks[j]) == LastBlock(previous.blocks, blocks[i].id);
        assert Backed(steps, n, previous.blocks[j]);
      }
    }
  }

  lemma ReviewKeepsBacked(steps: seq<Step>, n: nat)
    requires n < |steps| && steps[n].ReviewBlock?
    requires AllBacked(steps, n, After(steps, n).draft.blocks)
    ensures AllBacked(steps, n + 1, After(steps, n + 1).draft.blocks)
  {
    var step, blocks := steps[n], After(steps, n).draft.blocks;
    BackedLater(steps, n, blocks);
    if ReviewFailure(blocks, step.id, step.expected).None? {
      var i := IndexOf(blocks, step.id);
      assert Backed(steps, n + 1, blocks[i]);
      if TagOf(blocks[i]) != "reviewed" {
        assert AcceptedAt(steps, n, step.id, blocks[i].fingerprint);
      }
      assert Backed(steps, n + 1, Toggle(blocks[i], step.editor));
    }
  }

  /** Only preparing adds to the writes under way, and only storing and reviewing change blocks. */
  lemma StepEffect(article: Article, step: Step)
    ensures
      var next := Apply(article, step).0;
      match step
      case PrepareFlush(author, document, ids, expected) =>
        && next.draft == article.draft
        && (next.flushes == article.flushes
            || (Prepare(author, article.draft, document, ids).Ok?
                && next.flushes == article.flushes + [Flush(Prepare(author, article.draft, document, ids).value, expected)]))
      case Persist(k, _, _) =>
        && next.flushes == article.flushes
        && (next.draft == article.draft
            || (k < |article.flushes| && next.draft.blocks == article.flushes[k].prepared.blocks))
      case ReviewBlock(_, _, _) => next.flushes == article.flushes
      case _ => next.draft == article.draft && next.flushes == article.flushes
  {
    hide Prepare, ReconcileTags, Repeats, ReviewFailure, Toggle, Updated, ReviewedTag, HasTag, LastBlock;
  }

  lemma {:induction false} DecisionsStayBacked(steps: seq<Step>, n: nat)
    requires n <= |steps|
    ensures DecisionsBacked(steps, n)
    decreases n
  {
    hide AllBacked, Prepare, Apply;
    if n == 0 {
      NothingToBack(steps);
    } else {
      DecisionsStayBacked(steps, n - 1);
      var before := After(steps, n - 1);
      BackedLater(steps, n - 1, before.draft.blocks);
      forall k | 0 <= k < |before.flushes|
        ensures AllBacked(steps, n, before.flushes[k].prepared.blocks)
      {
        BackedLater(steps, n - 1, before.flushes[k].prepared.blocks);
      }
      StepEffect(before, steps[n - 1]);
      match steps[n - 1]
      case PrepareFlush(author, document, ids, _) =>
        if Prepare(author, before.draft, document, ids).Ok? {
          PreparedBacked(steps, n - 1, author, document, ids);
          BackedLater(steps, n - 1, Prepare(author, before.draft, document, ids).value.blocks);
        }
      case ReviewBlock(_, _, _) =>
        ReviewKeepsBacked(steps, n - 1);
      case _ =>
    }
  }

  lemma NothingToBack(steps: seq<Step>)
    ensures AllBacked(steps, 0, [])
  {
  }

  /**
   In every reachable draft a block tagged reviewed was accepted by an earlier review with
   exactly its present content, whatever tags clients, restored commits and accepted patches
   carried, and however stale the draft was that a flush was prepared from.
   */
  lemma ReviewedWasAccepted(steps: seq<Step>, n: nat, block: Block)
    requires n <= |steps| && block in After(steps, n).draft.blocks && TagOf(block) == "reviewed"
    ensures block.fingerprint.Of?
    ensures exists i: nat :: i < n && AcceptedAt(steps, i, block.id, block.fingerprint)
  {
    DecisionsStayBacked(steps, n);
    var k :| 0 <= k < |After(steps, n).draft.blocks| && After(steps, n).draft.blocks[k] == block;
    assert Backed(steps, n, After(steps, n).draft.blocks[k]);
    hide AcceptedAt;
  }

  // ----- storing what is stored -----

  /** All writers share one rule for unsafe URLs, and generated identities are not blank. */
  ghost predicate WellSupplied(steps: seq<Step>, signed: string -> bool) {
    forall i :: 0 <= i < |steps| && steps[i].PrepareFlush? ==> SuppliedBy(steps[i].author, steps[i].ids, signed)
  }

  ghost predicate SuppliedBy(author: Author, ids: seq<string>, signed: string -> bool) {
    author.signed == signed && forall j :: 0 <= j < |ids| ==> !Blank(ids[j])
  }

  predicate CoherentParts(signed: string -> bool, nodes: seq<Fields>, blocks: seq<Block>) {
    Coherent(signed, Draft(0, nodes, blocks))
  }

  predicate FlushCoherent(signed: string -> bool, prepared: Prepared) {
    DistinctIds(prepared.blocks) ==> CoherentParts(signed, prepared.nodes, prepared.blocks)
  }

  predicate ArticleCoherent(signed: string -> bool, article: Article) {
    && CoherentParts(signed, article.draft.nodes, article.draft.blocks)
    && forall k :: 0 <= k < |article.flushes| ==> FlushCoherent(signed, article.flushes[k].prepared)
  }

  lemma ToggleStaysKnown(block: Block, editor: Editor)
    ensures
      var next := Toggle(block, editor);
      && KnownTag(TagOf(next))
      && next.attrs == Tagged(block.attrs, TagOf(next), ProvenanceOf(next))
      && next == block.(attrs := next.attrs, updatedAt := next.updatedAt)
  {
  }

  lemma ToggleProjects(signed: string -> bool, node: Fields, block: Block, ordinal: nat, editor: Editor)
    requires Projects(signed, node, block, ordinal)
    ensures Projects(signed, node, Toggle(block, editor), ordinal)
  {
    var next := Toggle(block, editor);
    ToggleStaysKnown(block, editor);
    hide Sanitize, Core, PlainText, Toggle, KnownTag;
    assert Tagged(block.attrs, TagOf(next), ProvenanceOf(next)) == Tagged(Attrs(node), TagOf(next), ProvenanceOf(next));
  }

  lemma ReviewKeepsCoherent(signed: string -> bool, draft: Draft, i: nat, editor: Editor)
    requires CoherentParts(signed, draft.nodes, draft.blocks) && i < |draft.blocks|
    ensures CoherentParts(signed, draft.nodes, draft.blocks[i := Toggle(draft.blocks[i], editor)])
  {
    assert Projects(signed, draft.nodes[i], draft.blocks[i], i);
    ToggleProjects(signed, draft.nodes[i], draft.blocks[i], i, editor);
    assert Toggle(draft.blocks[i], editor).id == draft.blocks[i].id;
    hide Projects, Toggle;
  }

  lemma RefusedUnlessDistinct(article: Article, flush: Flush, ids: seq<string>)
    requires PersistDraft(article, flush, ids).Ok?
    ensures DistinctIds(flush.prepared.blocks)
  {
    hide ReconcileTags;
  }

  lemma PersistKeepsCoherent(signed: string -> bool, article: Article, step: Step)
    requires ArticleCoherent(signed, article) && step.Persist?
    ensures ArticleCoherent(signed, Apply(article, step).0)
  {
    if step.flush < |article.flushes| && PersistDraft(article, article.flushes[step.flush], step.ids).Ok? {
      RefusedUnlessDistinct(article, article.flushes[step.flush], step.ids);
      assert FlushCoherent(signed, article.flushes[step.flush].prepared);
    }
    hide Coherent, DistinctIds, ReconcileTags, FlushCoherent;
  }

  lemma PrepareKeepsCoherent(signed: string -> bool, article: Article, step: Step)
    requires ArticleCoherent(signed, article) && step.PrepareFlush? && SuppliedBy(step.author, step.ids, signed)
    ensures ArticleCoherent(signed, Apply(article, step).0)
  {
    StepEffect(article, step);
    if Prepare(step.author, article.draft, step.document, step.ids).Ok? {
      PreparedIsCoherent(step.author, article.draft, step.document, step.ids, 0);
    }
    hide Prepare, Apply, Coherent, DistinctIds;
  }

  lemma ReviewStepKeepsCoherent(signed: string -> bool, article: Article, step: Step)
    requires ArticleCoherent(signed, article) && step.ReviewBlock?
    ensures ArticleCoherent(signed, Apply(article, step).0)
  {
    var blocks := article.draft.blocks;
    if ReviewFailure(blocks, step.id, step.expected).None? {
      ReviewKeepsCoherent(signed, article.draft, IndexOf(blocks, step.id), step.editor);
    }
    hide CoherentParts, FlushCoherent, Toggle, IndexOf;
  }

  lemma OtherStepsKeepCoherent(signed: string -> bool, article: Article, step: Step)
    requires ArticleCoherent(signed, article)
    requires !step.PrepareFlush? && !step.Persist? && !step.ReviewBlock?
    ensures ArticleCoherent(signed, Apply(article, step).0)
  {
    StepEffect(article, step);
    hide Apply, CoherentParts, FlushCoherent;
  }

  lemma {:induction false} DraftsStayCoherent(steps: seq<Step>, signed: string -> bool, n: nat)
    requires n <= |steps| && WellSupplied(steps, signed)
    ensures ArticleCoherent(signed, After(steps, n))
    decreases n
  {
    if n > 0 {
      DraftsStayCoherent(steps, signed, n - 1);
      var before, step := After(steps, n - 1), steps[n - 1];
      hide Apply, ArticleCoherent, SuppliedBy;
      if step.PrepareFlush? {
        PrepareKeepsCoherent(signed, before, step);
      } else if step.Persist? {
        PersistKeepsCoherent(signed, before, step);
      } else if step.ReviewBlock? {
        ReviewStepKeepsCoherent(signed, before, step);
      } else {
        OtherStepsKeepCoherent(signed, before, step);
      }
    }
  }

  /**
   In every reachable draft: sending the stored document back, with any review attributes
   and by any author, prepares exactly the blocks that are stored, reviews included.
   */
  lemma StoringAgainKeepsReviews(steps: seq<Step>, n: nat, author: Author, document: Fields, ids: seq<string>)
    requires n <= |steps| && WellSupplied(steps, author.signed)
    requires SameUpToTags(document, DocumentOf(After(steps, n).draft.nodes))
    ensures
      var result := Prepare(author, After(steps, n).draft, document, ids);
      result.Ok? && result.value.blocks == After(steps, n).draft.blocks
  {
    var draft := After(steps, n).draft;
    DraftsStayCoherent(steps, author.signed, n);
    assert Coherent(author.signed, draft) by {
      assert CoherentParts(author.signed, draft.nodes, draft.blocks);
      hide Projects, After;
    }
    hide *;
    ReflushChangesNothing(author, draft, document, ids);
  }

  // ----- toggling a review -----

  /**
   Toggling a review twice restores the tag of every block; the provenance comes back exactly
   when the block was unreviewed and carried no review entries of its own.
   */
  lemma ToggleTwice(block: Block, first: Editor, second: Editor)
    requires KnownTag(TagOf(block)) && TagOf(block) != "reviewed"
    ensures
      var twice := Toggle(Toggle(block, first), second);
      && TagOf(twice) == TagOf(block)
      && ProvenanceOf(twice) == ProvenanceOf(block) - REVIEW_KEYS
      && (ProvenanceOf(twice) == ProvenanceOf(block) <==> ProvenanceOf(block).Keys !! REVIEW_KEYS)
  {
    var once := Toggle(block, first);
    var before, between := ProvenanceOf(block), ProvenanceOf(once);
    assert between - REVIEW_KEYS == before - REVIEW_KEYS;
    assert AsText(Get(between, "reviewed_from_tag")) == TagOf(block);
    if before.Keys !! REVIEW_KEYS {
      assert before - REVIEW_KEYS == before;
    } else {
      var key :| key in before && key in REVIEW_KEYS;
      assert key !in before - REVIEW_KEYS;
    }
  }
}
