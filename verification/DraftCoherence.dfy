/**
 Stored drafts and their documents belong together, so storing the stored document again
 changes no block.
 */
module DraftCoherence {
  import opened Common
  import opened Documents
  import opened DocumentTheorems

  /** A block is the projection of its node, up to the review attributes. */
  predicate Projects(signed: string -> bool, node: Fields, block: Block, ordinal: nat) {
    && block.id == AsText(Get(Attrs(node), "id")) && !Blank(block.id)
    && block.nodeType == AsText(Get(node, "type")) && block.nodeType != ""
    && block.ordinal == ordinal
    && block.text == PlainText(Object(node))
    && block.fingerprint == Of(Core(node))
    && Sanitize(signed, Object(Core(node))) == Object(Core(node))
    && KnownTag(TagOf(block))
    && block.attrs == Tagged(Attrs(node), TagOf(block), ProvenanceOf(block))
  }

  predicate DistinctIds(blocks: seq<Block>) {
    forall i, j :: 0 <= i < j < |blocks| ==> blocks[i].id != blocks[j].id
  }

  predicate Coherent(signed: string -> bool, draft: Draft) {
    && |draft.nodes| == |draft.blocks|
    && DistinctIds(draft.blocks)
    && forall i :: 0 <= i < |draft.nodes| ==> Projects(signed, draft.nodes[i], draft.blocks[i], i)
  }

  /** The document of a draft, as it is stored and sent back. */
  function DocumentOf(nodes: seq<Fields>): Fields {
    map["type" := Text("doc"), "content" := List(Items(nodes))]
  }

  function Items(nodes: seq<Fields>): (items: seq<Json>)
    ensures |items| == |nodes| && forall i :: 0 <= i < |nodes| ==> items[i] == Object(nodes[i])
  {
    seq(|nodes|, i requires 0 <= i < |nodes| => Object(nodes[i]))
  }

  lemma {:induction false} DistinctFound(blocks: seq<Block>, i: nat)
    requires DistinctIds(blocks) && i < |blocks|
    ensures LastBlock(blocks, blocks[i].id) == Some(blocks[i])
  {
    var n := |blocks| - 1;
    if i < n {
      assert blocks[i].id != blocks[n].id;
      DistinctFound(blocks[..n], i);
    }
  }

  lemma {:induction false} Found(blocks: seq<Block>, id: string)
    ensures LastBlock(blocks, id).Some? ==> LastBlock(blocks, id).value in blocks && LastBlock(blocks, id).value.id == id
  {
    if blocks != [] {
      Found(blocks[..|blocks| - 1], id);
    }
  }

  // ----- preparing gives coherent drafts -----

  lemma IdentifyGivesId(node: Fields, id: string)
    requires LacksId(node) ==> !Blank(id)
    ensures !LacksId(Identify(node, id))
    ensures Get(Identify(node, id), "type") == Get(node, "type")
  {
  }

  lemma SanitizeKeepsIdentity(signed: string -> bool, node: Fields)
    ensures
      var safe := Sanitize(signed, Object(node)).fields;
      Get(Attrs(safe), "id") == Get(Attrs(node), "id") && Get(safe, "type") == Get(node, "type")
  {
    var attrs, nodeType := Attrs(node), AsText(Get(node, "type"));
    var kept := SanitizeAttrs(signed, nodeType, attrs);
    assert "id" !in Unwanted(signed, nodeType, attrs);
    assert Get(kept, "id") == Get(attrs, "id");
    var head := SanitizeHead(signed, node);
    assert Get(Attrs(head), "id") == Get(attrs, "id") && Get(head, "type") == Get(node, "type");
    hide SanitizeHead, Unwanted, SanitizeAttrs;
  }

  lemma NormalizedIsClean(author: Author, node: Fields, id: string)
    ensures
      var result := NormalizeNode(author, node, id);
      Sanitize(author.signed, Object(Core(result))) == Object(Core(result))
  {
    CoreOfNormalized(author, node, id);
    SanitizeTwice(author.signed, Object(Identify(Core(node), id)));
    hide Sanitize, Identify, Core, NormalizeNode;
  }

  lemma NormalizedHasIdentity(author: Author, node: Fields, id: string)
    requires LacksId(node) ==> !Blank(id)
    ensures
      var result := NormalizeNode(author, node, id);
      !LacksId(result) && Get(result, "type") == Get(node, "type")
  {
    IdentifyGivesId(node, id);
    SanitizeKeepsIdentity(author.signed, Identify(node, id));
    hide Sanitize, Identify;
  }

  /** Everything but the attributes that reconciling is going to settle. */
  predicate AlmostProjects(signed: string -> bool, node: Fields, block: Block, ordinal: nat) {
    && block.id == AsText(Get(Attrs(node), "id")) && !Blank(block.id)
    && block.nodeType == AsText(Get(node, "type")) && block.nodeType != ""
    && block.ordinal == ordinal
    && block.text == PlainText(Object(node))
    && block.fingerprint == Of(Core(node))
    && Sanitize(signed, Object(Core(node))) == Object(Core(node))
    && block.attrs == Attrs(node)
  }

  predicate AllAlmostProject(signed: string -> bool, done: Normalized) {
    && |done.nodes| == |done.blocks|
    && forall i :: 0 <= i < |done.nodes| ==> AlmostProjects(signed, done.nodes[i], done.blocks[i], i)
  }

  lemma BlockAlmostProjects(author: Author, node: Fields, ordinal: nat)
    requires !LacksId(node) && AsText(Get(node, "type")) != ""
    requires Sanitize(author.signed, Object(Core(node))) == Object(Core(node))
    ensures AlmostProjects(author.signed, node, BlockFor(author, node, ordinal), ordinal)
  {
    hide Sanitize, Core, PlainText;
  }

  lemma NextAlmostProjects(author: Author, item: Json, ids: seq<string>, done: Normalized)
    requires forall i :: 0 <= i < |ids| ==> !Blank(ids[i])
    requires AllAlmostProject(author.signed, done) && NormalizeNext(author, item, ids, done).Ok?
    ensures
      var next := NormalizeNext(author, item, ids, done).value;
      AllAlmostProject(author.signed, next) && |next.nodes| == |done.nodes| + 1
  {
    hide NormalizeNode, LacksId, AlmostProjects, BlockFor, Sanitize, Core;
    var fields := item.fields;
    var id := if LacksId(fields) then ids[done.idsUsed] else "";
    NormalizedIsClean(author, fields, id);
    NormalizedHasIdentity(author, fields, id);
    var node := NormalizeNode(author, fields, id);
    BlockAlmostProjects(author, node, |done.blocks|);
  }

  lemma {:induction false} NormalizedAlmostProjects(author: Author, items: seq<Json>, ids: seq<string>, n: nat)
    requires n <= |items| && NormalizeNodes(author, items, ids, n).Ok?
    requires forall i :: 0 <= i < |ids| ==> !Blank(ids[i])
    ensures
      var done := NormalizeNodes(author, items, ids, n).value;
      AllAlmostProject(author.signed, done) && |done.nodes| == n
    decreases n
  {
    hide NormalizeNext, AlmostProjects, LacksId;
    if n > 0 {
      NormalizedAlmostProjects(author, items, ids, n - 1);
      NextAlmostProjects(author, items[n - 1], ids, NormalizeNodes(author, items, ids, n - 1).value);
    }
  }

  lemma SettlingProjects(author: Author, previous: Draft, nodes: seq<Fields>, node: Fields, block: Block, ordinal: nat)
    requires AlmostProjects(author.signed, node, block, ordinal)
    ensures
      var settled := ReconcileBlock(author, previous, nodes, block);
      Projects(author.signed, WithAttrs(node, settled.attrs), settled, ordinal)
  {
    var settled := ReconcileBlock(author, previous, nodes, block);
    var tag, provenance := TagOf(settled), ProvenanceOf(settled);
    assert settled.attrs == Tagged(Attrs(node), tag, provenance);
    assert KnownTag(tag);
    CoreIgnoresTags(node, tag, provenance);
    var result := WithAttrs(node, settled.attrs);
    assert Attrs(result) == settled.attrs;
    assert Tagged(settled.attrs, tag, provenance) == settled.attrs;
    TextOfCore(node);
    TextOfCore(result);
    hide ReconcileBlock, Core, PlainText, Sanitize, KnownTag;
  }

  /** Whatever was prepared is stored as a coherent draft, provided no two blocks share an identity. */
  lemma PreparedIsCoherent(author: Author, previous: Draft, document: Fields, ids: seq<string>, revision: int)
    requires Prepare(author, previous, document, ids).Ok?
    requires forall i :: 0 <= i < |ids| ==> !Blank(ids[i])
    ensures
      var prepared := Prepare(author, previous, document, ids).value;
      DistinctIds(prepared.blocks) ==> Coherent(author.signed, Draft(revision, prepared.nodes, prepared.blocks))
  {
    var items := AsList(Get(document, "content"));
    NormalizedAlmostProjects(author, items, ids, |items|);
    var done := NormalizeNodes(author, items, ids, |items|).value;
    forall i: nat | i < |done.nodes|
      ensures
        var settled := ReconcileBlock(author, previous, done.nodes, done.blocks[i]);
        Projects(author.signed, WithAttrs(done.nodes[i], settled.attrs), settled, i)
    {
      SettlingProjects(author, previous, done.nodes, done.nodes[i], done.blocks[i], i);
    }
    hide NormalizeNodes, Projects, ReconcileBlock, WithAttrs, DistinctIds, AlmostProjects;
  }

  // ----- storing the stored document again -----

  lemma NormalizingClean(author: Author, node: Fields)
    requires !LacksId(node) && Sanitize(author.signed, Object(Core(node))) == Object(Core(node))
    ensures Core(NormalizeNode(author, node, "")) == Core(node)
  {
    CoreOfNormalized(author, node, "");
    CoreOfIdentify(node, "");
    hide Sanitize, Core, NormalizeNode;
  }

  /** A stored node needs no identity and keeps its content. */
  lemma NextStored(author: Author, node: Fields, ids: seq<string>, done: Normalized)
    requires !LacksId(node) && AsText(Get(node, "type")) != ""
    requires Sanitize(author.signed, Object(Core(node))) == Object(Core(node))
    ensures
      var next := NormalizeNext(author, Object(node), ids, done);
      && next.Ok? && next.value.idsUsed == done.idsUsed
      && next.value.nodes == done.nodes + [NormalizeNode(author, node, "")]
      && |next.value.blocks| == |done.blocks| + 1
      && Core(NormalizeNode(author, node, "")) == Core(node)
  {
    NormalizingClean(author, node);
    hide NormalizeNode, Core, LacksId, BlockFor, Sanitize;
  }

  lemma {:induction false} NormalizingDraft(author: Author, draft: Draft, ids: seq<string>, n: nat)
    requires Coherent(author.signed, draft) && n <= |draft.nodes|
    ensures
      var result := NormalizeNodes(author, Items(draft.nodes), ids, n);
      && result.Ok? && |result.value.blocks| == n
      && AlikeNodes(result.value.nodes, draft.nodes[..n])
    decreases n
  {
    hide NormalizeNext, NormalizeNode, Core, Coherent, Items, Sanitize, LacksId, DistinctIds;
    if n > 0 {
      NormalizingDraft(author, draft, ids, n - 1);
      var node, done := draft.nodes[n - 1], NormalizeNodes(author, Items(draft.nodes), ids, n - 1).value;
      StoredHasIdentity(author.signed, draft, n - 1);
      NextStored(author, node, ids, done);
      AlikeGrows(done.nodes, draft.nodes[..n - 1], NormalizeNode(author, node, ""), node);
      assert draft.nodes[..n] == draft.nodes[..n - 1] + [node];
    }
  }

  lemma StoredHasIdentity(signed: string -> bool, draft: Draft, i: nat)
    requires Coherent(signed, draft) && i < |draft.nodes|
    ensures !LacksId(draft.nodes[i]) && AsText(Get(draft.nodes[i], "type")) != ""
    ensures Sanitize(signed, Object(Core(draft.nodes[i]))) == Object(Core(draft.nodes[i]))
  {
    assert Projects(signed, draft.nodes[i], draft.blocks[i], i);
    hide Sanitize, Core, PlainText;
  }

  lemma SettlingStored(author: Author, draft: Draft, nodes: seq<Fields>, i: nat)
    requires Coherent(author.signed, draft) && i < |draft.nodes|
    requires AlikeNodes(nodes, draft.nodes)
    ensures ReconcileBlock(author, draft, nodes, BlockFor(author, nodes[i], i)) == draft.blocks[i]
  {
    var stored, block := draft.blocks[i], BlockFor(author, nodes[i], i);
    assert Projects(author.signed, draft.nodes[i], stored, i);
    assert Core(nodes[i]) == Core(draft.nodes[i]);
    IdOfCore(nodes[i]);
    IdOfCore(draft.nodes[i]);
    TextOfCore(nodes[i]);
    TextOfCore(draft.nodes[i]);
    assert Get(Core(nodes[i]), "type") == Get(nodes[i], "type");
    assert Get(Core(draft.nodes[i]), "type") == Get(draft.nodes[i], "type");
    DistinctFound(draft.blocks, i);
    TaggedIgnoresTags(nodes[i], draft.nodes[i], TagOf(stored), ProvenanceOf(stored));
    hide Core, PlainText, Sanitize, LastBlock, Tagged, Coherent, AlikeNodes, DistinctIds;
  }

  /**
   Flushing the stored document again, by whomever and with whatever review attributes it
   carries, changes no block: tags, provenance and times stay, reviewed blocks stay reviewed.
   */
  lemma ReflushChangesNothing(author: Author, draft: Draft, document: Fields, ids: seq<string>)
    requires Coherent(author.signed, draft)
    requires SameUpToTags(document, DocumentOf(draft.nodes))
    ensures
      var result := Prepare(author, draft, document, ids);
      && result.Ok?
      && result.value.blocks == draft.blocks
  {
    var stored := DocumentOf(draft.nodes);
    ClientTagsAreIgnored(author, draft, document, stored, ids);
    ReflushingExactly(author, draft, ids);
  }

  lemma SettlingAllStored(author: Author, draft: Draft, nodes: seq<Fields>, blocks: seq<Block>)
    requires Coherent(author.signed, draft) && AlikeNodes(nodes, draft.nodes) && |blocks| == |nodes|
    requires forall i :: 0 <= i < |blocks| ==> blocks[i] == BlockFor(author, nodes[i], i)
    ensures ReconcileBlocks(author, draft, nodes, blocks) == draft.blocks
  {
    assert |draft.blocks| == |blocks|;
    hide *;
    forall i: nat | i < |blocks|
      ensures ReconcileBlocks(author, draft, nodes, blocks)[i] == draft.blocks[i]
    {
      SettlingStored(author, draft, nodes, i);
    }
  }

  lemma ReflushingExactly(author: Author, draft: Draft, ids: seq<string>)
    requires Coherent(author.signed, draft)
    ensures
      var result := Prepare(author, draft, DocumentOf(draft.nodes), ids);
      result.Ok? && result.value.blocks == draft.blocks
  {
    var items, n := Items(draft.nodes), |draft.nodes|;
    hide *;
    NormalizingDraft(author, draft, ids, n);
    NormalizedPairs(author, items, ids, n);
    assert draft.nodes[..n] == draft.nodes;
    var done := NormalizeNodes(author, items, ids, n).value;
    SettlingAllStored(author, draft, done.nodes, done.blocks);
    ContentOf(draft.nodes);
    PreparedFromNormalized(author, draft, DocumentOf(draft.nodes), ids);
  }

  lemma ContentOf(nodes: seq<Fields>)
    ensures Get(DocumentOf(nodes), "type") == Text("doc")
    ensures AsList(Get(DocumentOf(nodes), "content")) == Items(nodes)
  {
  }

  lemma PreparedFromNormalized(author: Author, draft: Draft, document: Fields, ids: seq<string>)
    requires Get(document, "type") == Text("doc")
    ensures
      var items := AsList(Get(document, "content"));
      var done := NormalizeNodes(author, items, ids, |items|);
      done.Ok? ==>
        && Prepare(author, draft, document, ids).Ok?
        && Prepare(author, draft, document, ids).value.blocks
           == ReconcileBlocks(author, draft, done.value.nodes, done.value.blocks)
  {
    hide NormalizeNodes, ReconcileBlocks, ShareAttrs;
  }
}
