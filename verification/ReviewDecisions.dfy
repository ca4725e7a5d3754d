/**
 What becomes of review decisions when a flush is prepared from one draft and stored later:
 `ReviewBlock` does not advance the draft revision (backend/internal/article/postgres.go:123-203).
 */
module ReviewDecisions {
  import opened Common
  import opened Documents
  import opened DocumentTheorems
  import opened DraftCoherence
  import opened Drafts
  import opened ReviewTheorems

  predicate Succeeds(steps: seq<Step>, i: nat)
    requires i < |steps|
  {
    Apply(After(steps, i), steps[i]).1.None?
  }

  predicate Stores(steps: seq<Step>, i: nat)
    requires i < |steps|
  {
    steps[i].Persist? && Succeeds(steps, i)
  }

  predicate Toggles(steps: seq<Step>, i: nat, id: string)
    requires i < |steps|
  {
    steps[i].ReviewBlock? && steps[i].id == id && Succeeds(steps, i)
  }

  /** How many flushes are stored in the steps from `from` up to `until`. */
  function StoreCount(steps: seq<Step>, from: nat, until: nat): nat
    requires from <= until <= |steps|
    decreases until
  {
    if from == until then 0
    else StoreCount(steps, from, until - 1) + if Stores(steps, until - 1) then 1 else 0
  }

  /** How often the review of this block is toggled in these steps. */
  function ToggleCount(steps: seq<Step>, from: nat, until: nat, id: string): nat
    requires from <= until <= |steps|
    decreases until
  {
    if from == until then 0
    else ToggleCount(steps, from, until - 1, id) + if Toggles(steps, until - 1, id) then 1 else 0
  }

  predicate Reviewed(block: Block) {
    TagOf(block) == "reviewed"
  }

  // ----- what one step does to the stored draft -----

  lemma RevisionStep(article: Article, step: Step)
    ensures
      var (next, failure) := Apply(article, step);
      next.draft.revision == article.draft.revision + if step.Persist? && failure.None? then 1 else 0
  {
    hide Prepare, ReconcileTags, Repeats, ReviewFailure, Toggle, Updated, ReviewedTag, HasTag, LastBlock;
  }

  /** Every stored flush, and nothing else, advances the revision by one. */
  lemma {:induction false} RevisionCountsStores(steps: seq<Step>, from: nat, until: nat)
    requires from <= until <= |steps|
    ensures After(steps, until).draft.revision == After(steps, from).draft.revision + StoreCount(steps, from, until)
    decreases until
  {
    hide Apply;
    if from < until {
      RevisionCountsStores(steps, from, until - 1);
      RevisionStep(After(steps, until - 1), steps[until - 1]);
    }
  }

  lemma StoredIdsDistinct(article: Article, step: Step)
    requires DistinctIds(article.draft.blocks)
    ensures DistinctIds(Apply(article, step).0.draft.blocks)
  {
    StepEffect(article, step);
    if step.Persist? && step.flush < |article.flushes| && PersistDraft(article, article.flushes[step.flush], step.ids).Ok? {
      RefusedUnlessDistinct(article, article.flushes[step.flush], step.ids);
    }
    hide Prepare, ReconcileTags, Repeats, Updated, ReviewedTag, HasTag, LastBlock, TagOf, Tagged;
  }

  lemma {:induction false} IdsStayDistinct(steps: seq<Step>, n: nat)
    requires n <= |steps|
    ensures DistinctIds(After(steps, n).draft.blocks)
    decreases n
  {
    hide Apply, DistinctIds;
    if n == 0 {
      NoBlocksDistinct();
    } else {
      IdsStayDistinct(steps, n - 1);
      StoredIdsDistinct(After(steps, n - 1), steps[n - 1]);
    }
  }

  lemma NoBlocksDistinct()
    ensures DistinctIds([])
  {
  }

  lemma ToggleFlips(block: Block, editor: Editor)
    ensures
      var next := Toggle(block, editor);
      && next.id == block.id && next.fingerprint == block.fingerprint
      && (Reviewed(next) <==> !Reviewed(block))
  {
  }

  /** The same block, its review turned over if `flipped`. */
  predicate SameBlock(before: Block, after: Block, flipped: bool) {
    && after.id == before.id && after.fingerprint == before.fingerprint
    && (Reviewed(after) <==> (Reviewed(before) != flipped))
  }

  lemma BlockStep(article: Article, step: Step, i: nat)
    requires DistinctIds(article.draft.blocks) && i < |article.draft.blocks|
    requires step.Persist? ==> Apply(article, step).1.Some?
    ensures
      var (next, failure) := Apply(article, step);
      var block := article.draft.blocks[i];
      && |next.draft.blocks| == |article.draft.blocks|
      && SameBlock(block, next.draft.blocks[i], step.ReviewBlock? && step.id == block.id && failure.None?)
  {
    var blocks := article.draft.blocks;
    if step.ReviewBlock? {
      var k := IndexOf(blocks, step.id);
      if k < |blocks| {
        ToggleFlips(blocks[k], step.editor);
        assert blocks[i].id == step.id ==> i == k;
      }
    } else {
      StepEffect(article, step);
      PersistFails(article, step);
    }
    hide Prepare, ReconcileTags, Repeats, Toggle, Updated, ReviewedTag, HasTag, LastBlock, TagOf, Tagged, IndexOf;
  }

  lemma PersistFails(article: Article, step: Step)
    ensures step.Persist? && Apply(article, step).1.Some? ==> Apply(article, step).0 == article
  {
    hide ReconcileTags, Repeats;
  }

  /**
   As long as no flush is stored, the blocks keep their identity and content, and a block is
   reviewed exactly if it was and its review was toggled an even number of times, or it was not
   and the number is odd.
   */
  lemma {:induction false} TogglesDecide(steps: seq<Step>, from: nat, until: nat, i: nat)
    requires from <= until <= |steps| && StoreCount(steps, from, until) == 0
    requires i < |After(steps, from).draft.blocks|
    ensures
      var before, after := After(steps, from).draft.blocks, After(steps, until).draft.blocks;
      && |after| == |before|
      && SameBlock(before[i], after[i], ToggleCount(steps, from, until, before[i].id) % 2 == 1)
    decreases until
  {
    hide Apply, TagOf;
    if from < until {
      TogglesDecide(steps, from, until - 1, i);
      IdsStayDistinct(steps, until - 1);
      BlockStep(After(steps, until - 1), steps[until - 1], i);
    }
  }

  // ----- flushes that were prepared earlier -----

  /** Step `p` prepares a flush and step `q` stores it. */
  predicate Flushed(steps: seq<Step>, p: nat, q: nat)
    requires p < q < |steps|
  {
    && steps[p].PrepareFlush? && Succeeds(steps, p)
    && Stores(steps, q) && steps[q].flush == |After(steps, p).flushes|
  }

  lemma {:induction false} FlushKept(steps: seq<Step>, n: nat, m: nat, k: nat)
    requires n <= m <= |steps| && k < |After(steps, n).flushes|
    ensures k < |After(steps, m).flushes| && After(steps, m).flushes[k] == After(steps, n).flushes[k]
    decreases m
  {
    hide Apply, Prepare;
    if n < m {
      FlushKept(steps, n, m - 1, k);
      StepEffect(After(steps, m - 1), steps[m - 1]);
    }
  }

  lemma PrepareEffect(article: Article, step: Step)
    requires step.PrepareFlush? && Apply(article, step).1.None?
    ensures
      var result := Prepare(step.author, article.draft, step.document, step.ids);
      && result.Ok?
      && Apply(article, step).0.flushes == article.flushes + [Flush(result.value, step.expectedRevision)]
  {
    hide Prepare;
  }

  lemma StoreEffect(article: Article, step: Step)
    requires step.Persist? && Apply(article, step).1.None?
    ensures
      && step.flush < |article.flushes|
      && var flush := article.flushes[step.flush];
      && article.draft.revision == flush.expectedRevision
      && Apply(article, step).0.draft.blocks == flush.prepared.blocks
      && DistinctIds(flush.prepared.blocks)
  {
    if step.flush < |article.flushes| && PersistDraft(article, article.flushes[step.flush], step.ids).Ok? {
      RefusedUnlessDistinct(article, article.flushes[step.flush], step.ids);
    }
    hide ReconcileTags, Repeats;
  }

  /** What a stored flush stores is what was prepared, and its revision is the one it expected. */
  lemma FlushedEffect(steps: seq<Step>, p: nat, q: nat)
    requires p < q < |steps| && Flushed(steps, p, q)
    ensures
      var step := steps[p];
      var result := Prepare(step.author, After(steps, p).draft, step.document, step.ids);
      && result.Ok?
      && After(steps, q + 1).draft.blocks == result.value.blocks
      && After(steps, q).draft.revision == step.expectedRevision
  {
    hide Apply, Prepare;
    PrepareEffect(After(steps, p), steps[p]);
    FlushKept(steps, p + 1, q, |After(steps, p).flushes|);
    StoreEffect(After(steps, q), steps[q]);
  }

  lemma ReachableIsRecorded(steps: seq<Step>, n: nat)
    requires n <= |steps|
    ensures AllRecorded(After(steps, n).draft.blocks)
  {
    DecisionsStayBacked(steps, n);
    var blocks := After(steps, n).draft.blocks;
    forall i | 0 <= i < |blocks|
      ensures blocks[i].fingerprint.Of?
    {
      assert Backed(steps, n, blocks[i]);
    }
    hide After, Accepted, TagOf;
  }

  /**
   The decision that a flush stores is the one of the draft it was prepared from: a stored
   block is reviewed if and only if the block of its identity was reviewed with the same
   content when the flush was prepared, whatever happened to reviews since.
   */
  lemma FlushStoresDecisionOfPreparation(steps: seq<Step>, p: nat, q: nat, block: Block)
    requires p < q < |steps| && Flushed(steps, p, q) && block in After(steps, q + 1).draft.blocks
    ensures Reviewed(block) <==> ReviewedBefore(After(steps, p).draft, block)
  {
    hide Apply, Prepare, After, ReviewedBefore, TagOf, Attributed;
    var step := steps[p];
    FlushedEffect(steps, p, q);
    ReachableIsRecorded(steps, p);
    FlushDecides(step.author, After(steps, p).draft, step.document, step.ids);
  }

  /** The stored block with this identity and content, if the draft has one. */
  predicate Holds(blocks: seq<Block>, i: nat, block: Block) {
    i < |blocks| && blocks[i].id == block.id && blocks[i].fingerprint == block.fingerprint
  }

  lemma ReviewedBeforeAt(draft: Draft, block: Block)
    requires DistinctIds(draft.blocks)
    ensures ReviewedBefore(draft, block) <==> exists i: nat :: Holds(draft.blocks, i, block) && Reviewed(draft.blocks[i])
  {
    var blocks := draft.blocks;
    Found(blocks, block.id);
    if LastBlock(blocks, block.id).Some? {
      var k :| 0 <= k < |blocks| && blocks[k] == LastBlock(blocks, block.id).value;
      assert ReviewedBefore(draft, block) ==> Holds(blocks, k, block);
    }
    if i: nat :| Holds(blocks, i, block) && Reviewed(blocks[i]) {
      DistinctFound(blocks, i);
    }
    hide TagOf, LastBlock;
  }

  /**
   When a flush replaces the decisions that are stored. Between preparing and storing, as many
   flushes are stored as the expected revision is ahead of the draft it was prepared from; a
   client that expects a revision it has seen leaves room for none. Then a block of the new
   draft is reviewed if and only if the draft it replaces has the block with the same content
   and the stored decision agrees with an even number of toggles since the flush was prepared:
   with an odd number, withdrawn reviews come back and given reviews are dropped.
   */
  lemma StaleFlushDecision(steps: seq<Step>, p: nat, q: nat, block: Block)
    requires p < q < |steps| && Flushed(steps, p, q) && block in After(steps, q + 1).draft.blocks
    ensures steps[p].expectedRevision == After(steps, p).draft.revision + StoreCount(steps, p, q)
    ensures steps[p].expectedRevision <= After(steps, p).draft.revision ==>
      var stored := After(steps, q).draft.blocks;
      Reviewed(block)
      <==> exists i: nat ::
             Holds(stored, i, block) && (Reviewed(stored[i]) <==> ToggleCount(steps, p, q, block.id) % 2 == 0)
  {
    hide Apply, Prepare, After, TagOf, ReviewedBefore;
    FlushedEffect(steps, p, q);
    RevisionCountsStores(steps, p, q);
    if StoreCount(steps, p, q) == 0 {
      var basis, stored := After(steps, p).draft, After(steps, q).draft.blocks;
      FlushStoresDecisionOfPreparation(steps, p, q, block);
      IdsStayDistinct(steps, p);
      ReviewedBeforeAt(basis, block);
      SameLength(steps, p, q);
      forall i: nat | i < |stored|
        ensures SameBlock(basis.blocks[i], stored[i], ToggleCount(steps, p, q, basis.blocks[i].id) % 2 == 1)
      {
        TogglesDecide(steps, p, q, i);
      }
      hide Reviewed, ToggleCount, StoreCount, Flushed, DistinctIds;
      if i: nat :| Holds(basis.blocks, i, block) && Reviewed(basis.blocks[i]) {
        assert Holds(stored, i, block);
      }
      if i: nat :| Holds(stored, i, block) && (Reviewed(stored[i]) <==> ToggleCount(steps, p, q, block.id) % 2 == 0) {
        assert Holds(basis.blocks, i, block);
      }
    }
  }

  /**
   Agreement in general, also for a client that guessed a later revision: measured from any
   state since which no flush was stored, the stored decision survives exactly when the basis
   of the flush agrees with that state and the toggles since are even, or neither is so.
   */
  lemma StaleFlushAgreement(steps: seq<Step>, p: nat, m: nat, q: nat, block: Block, i: nat)
    requires p < q < |steps| && Flushed(steps, p, q) && block in After(steps, q + 1).draft.blocks
    requires m <= q && StoreCount(steps, m, q) == 0 && Holds(After(steps, q).draft.blocks, i, block)
    ensures i < |After(steps, m).draft.blocks|
    ensures
      var kept := Reviewed(block) <==> Reviewed(After(steps, q).draft.blocks[i]);
      var based := ReviewedBefore(After(steps, p).draft, block) <==> Reviewed(After(steps, m).draft.blocks[i]);
      kept <==> (based <==> ToggleCount(steps, m, q, block.id) % 2 == 0)
  {
    hide Apply, Prepare, After, TagOf, ReviewedBefore, Reviewed;
    FlushStoresDecisionOfPreparation(steps, p, q, block);
    SameLength(steps, m, q);
    TogglesDecide(steps, m, q, i);
  }

  lemma {:induction false} SameLength(steps: seq<Step>, from: nat, until: nat)
    requires from <= until <= |steps| && StoreCount(steps, from, until) == 0
    ensures |After(steps, until).draft.blocks| == |After(steps, from).draft.blocks|
    decreases until
  {
    hide Apply, Prepare;
    if from < until {
      SameLength(steps, from, until - 1);
      LengthStep(After(steps, until - 1), steps[until - 1]);
    }
  }

  lemma LengthStep(article: Article, step: Step)
    requires step.Persist? ==> Apply(article, step).1.Some?
    ensures |Apply(article, step).0.draft.blocks| == |article.draft.blocks|
  {
    StepEffect(article, step);
    PersistFails(article, step);
    hide Prepare, ReconcileTags, Repeats, Toggle;
  }

  // ----- two runs that lose a decision -----

  const PARAGRAPH: Fields := map["type" := Text("paragraph"), "attrs" := Object(map["id" := Text("b")])]
  const DOCUMENT: Fields := map["type" := Text("doc"), "content" := List([Object(PARAGRAPH)])]

  lemma NormalizedKeepsId(author: Author, node: Fields)
    requires !LacksId(node)
    ensures Get(Attrs(NormalizeNode(author, node, "")), "id") == Get(Attrs(node), "id")
  {
    SanitizeKeepsIdentity(author.signed, node);
    hide Sanitize, TagForActor, LacksId;
  }

  lemma ParagraphIsIdentified()
    ensures !LacksId(PARAGRAPH) && Get(Attrs(PARAGRAPH), "id") == Text("b") && Get(PARAGRAPH, "type") == Text("paragraph")
  {
    assert !Space("b"[0]);
  }

  lemma ParagraphNormalized(author: Author)
    ensures
      var node := NormalizeNode(author, PARAGRAPH, "");
      NormalizeDocument(author, DOCUMENT, []) == Ok(Normalized([node], [BlockFor(author, node, 0)], 0))
  {
    ParagraphIsIdentified();
    hide NormalizeNode, LacksId, BlockFor;
    var items := [Object(PARAGRAPH)];
    assert AsList(Get(DOCUMENT, "content")) == items && Get(DOCUMENT, "type") == Text("doc");
    assert NormalizeNodes(author, items, [], 0) == Ok(Normalized([], [], 0));
    assert AsText(Get(items[0].fields, "type")) == "paragraph";
    assert NormalizeNodes(author, items, [], 1) == NormalizeNext(author, items[0], [], Normalized([], [], 0));
    var node := NormalizeNode(author, PARAGRAPH, "");
    assert [] + [node] == [node] && [] + [BlockFor(author, node, 0)] == [BlockFor(author, node, 0)];
    assert NormalizeNodes(author, items, [], |items|) == Ok(Normalized([node], [BlockFor(author, node, 0)], 0));
  }

  /** Blocks that consist of the one paragraph with this content. */
  predicate OneParagraph(blocks: seq<Block>, fingerprint: Fingerprint, reviewed: bool) {
    && |blocks| == 1 && blocks[0].id == "b" && blocks[0].nodeType == "paragraph"
    && fingerprint.Of? && blocks[0].fingerprint == fingerprint
    && (Reviewed(blocks[0]) <==> reviewed)
  }

  function ParagraphPrint(author: Author): Fingerprint {
    Of(Core(NormalizeNode(author, PARAGRAPH, "")))
  }

  lemma PreparedParagraph(author: Author, previous: Draft, reviewed: bool)
    requires AllRecorded(previous.blocks)
    requires if previous.blocks == [] then !reviewed else OneParagraph(previous.blocks, ParagraphPrint(author), reviewed)
    ensures
      var result := Prepare(author, previous, DOCUMENT, []);
      result.Ok? && OneParagraph(result.value.blocks, ParagraphPrint(author), reviewed)
  {
    var node := NormalizeNode(author, PARAGRAPH, "");
    ParagraphIsIdentified();
    ParagraphNormalized(author);
    NormalizedKeepsId(author, PARAGRAPH);
    NormalizedHasIdentity(author, PARAGRAPH, "");
    var block := BlockFor(author, node, 0);
    assert block.id == "b" && block.nodeType == "paragraph" && block.fingerprint == ParagraphPrint(author);
    ReconcilingKeepsContent(author, previous, [node], block);
    ReconcilingKeepsType(author, previous, [node], block);
    hide NormalizeNode, LacksId, Core, PlainText, NormalizeDocument, NormalizeNodes, BlockFor, Reviewed, TagOf,
         ReconcileBlock, Attributed;
    assert ReconcileBlocks(author, previous, [node], [block]) == [ReconcileBlock(author, previous, [node], block)];
  }

  lemma ReconcilingKeepsType(author: Author, previous: Draft, nodes: seq<Fields>, block: Block)
    ensures ReconcileBlock(author, previous, nodes, block).nodeType == block.nodeType
  {
  }

  /** Revision, paragraph and pending writes; no chapter tags, no patches. */
  predicate Single(article: Article, revision: int, fingerprint: Fingerprint, reviewed: bool) {
    && article.draft.revision == revision && article.tags == []
    && if revision == 0 then article.draft.blocks == [] && !reviewed
       else OneParagraph(article.draft.blocks, fingerprint, reviewed)
  }

  predicate Pending(flush: Flush, expected: int, fingerprint: Fingerprint, reviewed: bool) {
    flush.expectedRevision == expected && OneParagraph(flush.prepared.blocks, fingerprint, reviewed)
  }

  lemma PreparingParagraph(article: Article, author: Author, revision: int, reviewed: bool)
    requires Single(article, revision, ParagraphPrint(author), reviewed)
    ensures
      var (next, failure) := Apply(article, PrepareFlush(author, DOCUMENT, [], revision));
      && failure.None? && next.draft == article.draft && next.tags == article.tags
      && |next.flushes| == |article.flushes| + 1
      && next.flushes[..|article.flushes|] == article.flushes
      && Pending(next.flushes[|article.flushes|], revision, ParagraphPrint(author), reviewed)
  {
    hide NormalizeNode, Core, Reviewed, Prepare;
    PreparedParagraph(author, article.draft, reviewed);
  }

  lemma StoringParagraph(article: Article, k: nat, revision: int, fingerprint: Fingerprint, reviewed: bool)
    requires article.draft.revision == revision >= 0 && article.tags == []
    requires k < |article.flushes| && Pending(article.flushes[k], revision, fingerprint, reviewed)
    ensures
      var (next, failure) := Apply(article, Persist(k, None, []));
      failure.None? && next.flushes == article.flushes && Single(next, revision + 1, fingerprint, reviewed)
  {
    var blocks := article.flushes[k].prepared.blocks;
    assert blocks[..0] == [];
    assert Untagged([], blocks) == [];
    assert ReconcileTags([], blocks, []) == Ok([]);
    hide ReconcileTags, Untagged, Reviewed;
  }

  lemma TogglingParagraph(article: Article, editor: Editor, revision: int, fingerprint: Fingerprint, reviewed: bool)
    requires revision > 0 && Single(article, revision, fingerprint, reviewed)
    ensures
      var (next, failure) := Apply(article, ReviewBlock("b", fingerprint, editor));
      failure.None? && next.flushes == article.flushes && Single(next, revision, fingerprint, !reviewed)
  {
    ToggleFlips(article.draft.blocks[0], editor);
    assert IndexOf(article.draft.blocks, "b") == 0;
    assert Toggle(article.draft.blocks[0], editor).nodeType == article.draft.blocks[0].nodeType;
    hide Toggle, Reviewed, IndexOf;
  }

  /** A flush prepared before the review of the paragraph is toggled, and stored after it. */
  function StaleRun(author: Author, editor: Editor, withdrawn: bool): seq<Step> {
    var toggle := ReviewBlock("b", ParagraphPrint(author), editor);
    [PrepareFlush(author, DOCUMENT, [], 0), Persist(0, None, [])]
    + (if withdrawn then [toggle] else [])
    + [PrepareFlush(author, DOCUMENT, [], 1), toggle, Persist(1, None, [])]
  }

  lemma StaleRunAfter(steps: seq<Step>, n: nat, article: Article, step: Step)
    requires n < |steps| && After(steps, n) == article && steps[n] == step
    ensures After(steps, n + 1) == Apply(article, step).0 && (Succeeds(steps, n) <==> Apply(article, step).1.None?)
  {
    hide Apply;
  }

  lemma StaleRunSteps(author: Author, editor: Editor, withdrawn: bool)
    ensures
      var steps := StaleRun(author, editor, withdrawn);
      var p := if withdrawn then 3 else 2;
      var toggle := ReviewBlock("b", ParagraphPrint(author), editor);
      && |steps| == p + 3
      && steps[0] == PrepareFlush(author, DOCUMENT, [], 0) && steps[1] == Persist(0, None, [])
      && (withdrawn ==> steps[2] == toggle)
      && steps[p] == PrepareFlush(author, DOCUMENT, [], 1) && steps[p + 1] == toggle && steps[p + 2] == Persist(1, None, [])
  {
  }

  lemma StaleRunFinishes(steps: seq<Step>, author: Author, editor: Editor, withdrawn: bool, p: nat)
    requires |steps| == p + 3
    requires steps[p] == PrepareFlush(author, DOCUMENT, [], 1) && steps[p + 2] == Persist(1, None, [])
    requires steps[p + 1] == ReviewBlock("b", ParagraphPrint(author), editor)
    requires Single(After(steps, p), 1, ParagraphPrint(author), withdrawn) && |After(steps, p).flushes| == 1
    ensures Flushed(steps, p, p + 2) && Toggles(steps, p + 1, "b")
    ensures Single(After(steps, p + 2), 1, ParagraphPrint(author), !withdrawn)
    ensures Single(After(steps, p + 3), 2, ParagraphPrint(author), withdrawn)
  {
    hide Apply, After, ParagraphPrint, OneParagraph;
    var a, fingerprint := After(steps, p), ParagraphPrint(author);
    PreparingParagraph(a, author, 1, withdrawn);
    StaleRunAfter(steps, p, a, steps[p]);
    var b := After(steps, p + 1);
    TogglingParagraph(b, editor, 1, fingerprint, withdrawn);
    StaleRunAfter(steps, p + 1, b, steps[p + 1]);
    var c := After(steps, p + 2);
    assert c.flushes[1] == b.flushes[1];
    StoringParagraph(c, 1, 1, fingerprint, withdrawn);
    StaleRunAfter(steps, p + 2, c, steps[p + 2]);
  }

  /** The run with the state before and after its last steps. */
  lemma StaleRunEnds(author: Author, editor: Editor, withdrawn: bool)
    ensures
      var steps := StaleRun(author, editor, withdrawn);
      var p := if withdrawn then 3 else 2;
      var fingerprint := ParagraphPrint(author);
      && |steps| == p + 3
      && Flushed(steps, p, p + 2) && Toggles(steps, p + 1, "b") && (withdrawn ==> Toggles(steps, 2, "b"))
      && Single(After(steps, p), 1, fingerprint, withdrawn)
      && Single(After(steps, p + 2), 1, fingerprint, !withdrawn)
      && Single(After(steps, p + 3), 2, fingerprint, withdrawn)
  {
    var p: nat := if withdrawn then 3 else 2;
    StaleRunSteps(author, editor, withdrawn);
    hide *;
    var steps := StaleRun(author, editor, withdrawn);
    StaleRunStarts(steps, author, editor, withdrawn, p);
    StaleRunFinishes(steps, author, editor, withdrawn, p);
  }

  lemma StaleRunStarts(steps: seq<Step>, author: Author, editor: Editor, withdrawn: bool, p: nat)
    requires p == (if withdrawn then 3 else 2) && |steps| == p + 3
    requires steps[0] == PrepareFlush(author, DOCUMENT, [], 0) && steps[1] == Persist(0, None, [])
    requires withdrawn ==> steps[2] == ReviewBlock("b", ParagraphPrint(author), editor)
    ensures Single(After(steps, p), 1, ParagraphPrint(author), withdrawn) && |After(steps, p).flushes| == 1
    ensures withdrawn ==> Toggles(steps, 2, "b")
  {
    var fingerprint := ParagraphPrint(author);
    assert After(steps, 0) == EMPTY && Single(EMPTY, 0, fingerprint, false);
    hide Apply, After, ParagraphPrint, OneParagraph;
    PreparingParagraph(EMPTY, author, 0, false);
    StaleRunAfter(steps, 0, EMPTY, steps[0]);
    var a := After(steps, 1);
    StoringParagraph(a, 0, 0, fingerprint, false);
    StaleRunAfter(steps, 1, a, steps[1]);
    if withdrawn {
      var b := After(steps, 2);
      TogglingParagraph(b, editor, 1, fingerprint, false);
      StaleRunAfter(steps, 2, b, steps[2]);
    }
  }

  /** A review withdrawn after a flush was prepared is back once the flush is stored. */
  lemma WithdrawnReviewComesBack(author: Author, editor: Editor)
    ensures
      var steps := StaleRun(author, editor, true);
      && |steps| == 6
      && Toggles(steps, 2, "b") && Flushed(steps, 3, 5) && Toggles(steps, 4, "b")
      && OneParagraph(After(steps, 5).draft.blocks, ParagraphPrint(author), false)
      && OneParagraph(After(steps, 6).draft.blocks, ParagraphPrint(author), true)
  {
    StaleRunEnds(author, editor, true);
    hide Apply, ParagraphPrint, OneParagraph, After, Flushed, Toggles, StaleRun;
  }

  /** A review given after a flush was prepared is gone once the flush is stored. */
  lemma GivenReviewIsDropped(author: Author, editor: Editor)
    ensures
      var steps := StaleRun(author, editor, false);
      && |steps| == 5
      && Flushed(steps, 2, 4) && Toggles(steps, 3, "b")
      && OneParagraph(After(steps, 4).draft.blocks, ParagraphPrint(author), true)
      && OneParagraph(After(steps, 5).draft.blocks, ParagraphPrint(author), false)
  {
    StaleRunEnds(author, editor, false);
    hide Apply, ParagraphPrint, OneParagraph, After, Flushed, Toggles, StaleRun;
  }
}
