/**
 The procedures behind drafts and chapter tags, working row by row
 (backend/internal/article/document.go:19-65, 127-174;
 backend/internal/article/postgres.go:112-258;
 backend/internal/article/chapter_tags_postgres.go:38-260).
 */
module DraftStore {
  import opened Common
  import opened Documents
  import opened Drafts

  // ----- documents -----

  method Normalize(author: Author, document: Fields, ids: seq<string>) returns (result: Result<Normalized>)
    ensures result == NormalizeDocument(author, document, ids)
  {
    hide NormalizeNode, BlockFor, LacksId;
    if Get(document, "type") != Text("doc") {
      return Err(Invalid);
    }
    var items := AsList(Get(document, "content"));
    var nodes: seq<Fields>, blocks: seq<Block>, used := [], [], 0;
    for index := 0 to |items|
      invariant NormalizeNodes(author, items, ids, index) == Ok(Normalized(nodes, blocks, used))
      invariant |blocks| == index
    {
      NormalizeStep(author, items, ids, index);
      hide NormalizeNodes;
      if !items[index].Object? {
        FailureStays(author, items, ids, index + 1, |items|);
        return Err(Invalid);
      }
      var fields := items[index].fields;
      var id := "";
      if LacksId(fields) {
        if used >= |ids| {
          FailureStays(author, items, ids, index + 1, |items|);
          return Err(GeneratorFailed);
        }
        id := ids[used];
      }
      if AsText(Get(fields, "type")) == "" {
        FailureStays(author, items, ids, index + 1, |items|);
        return Err(Invalid);
      }
      if LacksId(fields) {
        used := used + 1;
      }
      var node := NormalizeNode(author, fields, id);
      nodes := nodes + [node];
      blocks := blocks + [BlockFor(author, node, index)];
    }
    result := Ok(Normalized(nodes, blocks, used));
  }

  lemma NormalizeStep(author: Author, items: seq<Json>, ids: seq<string>, n: nat)
    requires n < |items|
    ensures NormalizeNodes(author, items, ids, n).Ok? ==>
      NormalizeNodes(author, items, ids, n + 1)
      == NormalizeNext(author, items[n], ids, NormalizeNodes(author, items, ids, n).value)
  {
    hide NormalizeNext;
  }

  lemma {:induction false} FailureStays(author: Author, items: seq<Json>, ids: seq<string>, n: nat, m: nat)
    requires n <= m <= |items| && NormalizeNodes(author, items, ids, n).Err?
    ensures NormalizeNodes(author, items, ids, m) == NormalizeNodes(author, items, ids, n)
    decreases m
  {
    hide NormalizeNext;
    if n < m {
      FailureStays(author, items, ids, n, m - 1);
    }
  }

  method BlocksById(blocks: seq<Block>) returns (byId: map<string, Block>)
    ensures IndexesBlocks(byId, blocks)
  {
    byId := map[];
    for i := 0 to |blocks|
      invariant IndexesBlocks(byId, blocks[..i])
    {
      assert blocks[..i + 1][..i] == blocks[..i];
      byId := byId[blocks[i].id := blocks[i]];
    }
    assert blocks[..|blocks|] == blocks;
  }

  method NodesById(nodes: seq<Fields>) returns (byId: map<string, Fields>)
    ensures IndexesNodes(byId, nodes)
  {
    byId := map[];
    for i := 0 to |nodes|
      invariant IndexesNodes(byId, nodes[..i])
    {
      assert nodes[..i + 1][..i] == nodes[..i];
      var id := AsText(Get(Attrs(nodes[i]), "id"));
      if id != "" {
        byId := byId[id := nodes[i]];
      }
    }
    assert nodes[..|nodes|] == nodes;
  }

  ghost predicate IndexesNodes(byId: map<string, Fields>, nodes: seq<Fields>) {
    forall id :: LastNode(nodes, id) == if id in byId then Some(byId[id]) else None
  }

  ghost predicate IndexesBlocks(byId: map<string, Block>, blocks: seq<Block>) {
    forall id :: LastBlock(blocks, id) == if id in byId then Some(byId[id]) else None
  }

  /** The body of the loop below. */
  method Settle(author: Author, ghost previous: Draft, ghost nodes: seq<Fields>, previousNodes: map<string, Fields>,
                currentNodes: map<string, Fields>, previousBlocks: map<string, Block>, block: Block)
    returns (settled: Block)
    requires IndexesNodes(previousNodes, previous.nodes) && IndexesNodes(currentNodes, nodes)
    requires IndexesBlocks(previousBlocks, previous.blocks)
    ensures settled == ReconcileBlock(author, previous, nodes, block)
  {
    var existed := block.id in previousBlocks;
    assert LastBlock(previous.blocks, block.id) == if existed then Some(previousBlocks[block.id]) else None;
    var same := false;
    if existed {
      var prior := previousBlocks[block.id];
      same := prior.fingerprint != Unrecorded && prior.fingerprint == block.fingerprint;
      if prior.fingerprint == Unrecorded {
        var before := if block.id in previousNodes then Some(previousNodes[block.id]) else None;
        var current := if block.id in currentNodes then Some(currentNodes[block.id]) else None;
        assert before == LastNode(previous.nodes, block.id) && current == LastNode(nodes, block.id);
        same := NodeHash(before) == NodeHash(current);
      }
    }
    hide LastBlock, LastNode, NodeHash, TagForActor, ActorTag, Tagged;
    if same {
      var prior := previousBlocks[block.id];
      settled := block.(
        attrs := Tagged(block.attrs, TagForActor("", map["tag" := Text(TagOf(prior))]), ProvenanceOf(prior)),
        updatedAt := prior.updatedAt);
    } else {
      settled := block.(attrs := Tagged(block.attrs, ActorTag(author.actorKind, existed), author.provenance),
                        updatedAt := author.now);
    }
  }

  /** Settles tag, provenance and time of every block, and with it the attributes of its node. */
  method ReconcileBlockTags(author: Author, previous: Draft, nodes: array<Fields>, blocks: array<Block>)
    requires nodes.Length == blocks.Length
    modifies nodes, blocks
    ensures blocks[..] == ReconcileBlocks(author, previous, old(nodes[..]), old(blocks[..]))
    ensures nodes[..] == ShareAttrs(old(nodes[..]), blocks[..])
  {
    hide ReconcileBlock, WithAttrs, LastBlock, LastNode;
    var previousNodes := NodesById(previous.nodes);
    var currentNodes := NodesById(nodes[..]);
    var previousBlocks := BlocksById(previous.blocks);
    for index := 0 to blocks.Length
      invariant forall i :: 0 <= i < index ==>
        blocks[i] == ReconcileBlock(author, previous, old(nodes[..]), old(blocks[..])[i])
      invariant forall i :: index <= i < blocks.Length ==> blocks[i] == old(blocks[..])[i]
      invariant forall i :: 0 <= i < index ==> nodes[i] == WithAttrs(old(nodes[..])[i], blocks[i].attrs)
      invariant forall i :: index <= i < nodes.Length ==> nodes[i] == old(nodes[..])[i]
    {
      var settled := Settle(author, previous, old(nodes[..]), previousNodes, currentNodes, previousBlocks, blocks[index]);
      blocks[index] := settled;
      nodes[index] := WithAttrs(nodes[index], settled.attrs);
    }
  }

  // ----- the store -----

  class Store {
    var revision: int
    var nodes: seq<Fields>
    var blocks: seq<Block>
    var tags: seq<ChapterTag>
    var proposed: set<string>

    /** The stored rows; writes under way are no part of them. */
    function Snapshot(flushes: seq<Flush>): Article
      reads this
    {
      Article(Draft(revision, nodes, blocks), tags, proposed, flushes)
    }

    constructor ()
      ensures Snapshot([]) == EMPTY
    {
      revision, nodes, blocks, tags, proposed := 0, [], [], [], {};
    }

    /** A whole flush up to the transaction: normalize, read the stored draft, reconcile. */
    method PrepareProjectDraft(author: Author, document: Fields, ids: seq<string>) returns (result: Result<Prepared>)
      ensures result == Prepare(author, Draft(revision, nodes, blocks), document, ids)
    {
      var normalized := Normalize(author, document, ids);
      if normalized.Err? {
        return Err(normalized.failure);
      }
      var items := AsList(Get(document, "content"));
      NormalizedPairs(author, items, ids, |items|);
      hide NormalizeNodes, ReconcileBlock, BlockFor, WithAttrs;
      var done := normalized.value;
      var nodeRows := new Fields[|done.nodes|](i requires 0 <= i < |done.nodes| => done.nodes[i]);
      var blockRows := new Block[|done.blocks|](i requires 0 <= i < |done.blocks| => done.blocks[i]);
      assert nodeRows[..] == done.nodes && blockRows[..] == done.blocks;
      ReconcileBlockTags(author, Draft(revision, nodes, blocks), nodeRows, blockRows);
      result := Ok(Prepared(nodeRows[..], blockRows[..]));
    }

    /** The insertion loop: stops at the first identity that is already taken. */
    method InsertBlocks(rows: seq<Block>) returns (inserted: bool)
      ensures inserted <==> !Repeats(rows)
    {
      var taken: set<string> := {};
      for i := 0 to |rows|
        invariant forall id :: id in taken <==> exists j :: 0 <= j < i && rows[j].id == id
        invariant !Repeats(rows[..i])
      {
        if rows[i].id in taken {
          return false;
        }
        taken := taken + {rows[i].id};
      }
      assert rows[..|rows|] == rows;
      inserted := true;
    }

    method PersistDraft(flush: Flush, accepting: Option<string>, ids: seq<string>, ghost flushes: seq<Flush>, ghost k: nat)
      returns (failure: Option<Failure>)
      requires k < |flushes| && flushes[k] == flush
      modifies this
      ensures (Snapshot(flushes), failure) == Apply(old(Snapshot(flushes)), Persist(k, accepting, ids))
    {
      if accepting.Some? && accepting.value !in proposed {
        return Some(Conflict);
      }
      if revision != flush.expectedRevision {
        return Some(Conflict);
      }
      var inserted := InsertBlocks(flush.prepared.blocks);
      if !inserted {
        return Some(DuplicateBlock);
      }
      var reconciled := ReconcileChapterTags(flush.prepared.blocks, ids);
      if reconciled.Err? {
        return Some(reconciled.failure);
      }
      revision, nodes, blocks := revision + 1, flush.prepared.nodes, flush.prepared.blocks;
      tags := reconciled.value;
      if accepting.Some? {
        proposed := proposed - {accepting.value};
      }
      failure := None;
    }

    /** First the tags that exist, then the headings that have none. */
    method ReconcileChapterTags(rows: seq<Block>, ids: seq<string>) returns (result: Result<seq<ChapterTag>>)
      ensures result == ReconcileTags(tags, rows, ids)
    {
      var kept: seq<ChapterTag> := [];
      for i := 0 to |tags|
        invariant |kept| == i && forall j :: 0 <= j < i ==> kept[j] == ReconcileTag(tags[j], rows)
      {
        kept := kept + [ReconcileTag(tags[i], rows)];
      }
      var missing: seq<Block> := [];
      for i := 0 to |rows|
        invariant missing == Untagged(tags, rows[..i])
      {
        assert rows[..i + 1][..i] == rows[..i];
        var known := Tagging(rows[i].id);
        if IsHeading(rows[i]) && !known {
          missing := missing + [rows[i]];
        }
      }
      assert rows[..|rows|] == rows;
      var created: seq<ChapterTag> := [];
      for i := 0 to |missing|
        invariant |created| == i <= |ids|
        invariant forall j :: 0 <= j < i ==> created[j] == NewTag(ids[j], missing[j], InitialStatus(missing[j]))
      {
        if i >= |ids| {
          return Err(GeneratorFailed);
        }
        created := created + [NewTag(ids[i], missing[i], InitialStatus(missing[i]))];
      }
      assert kept == ReconcileEach(tags, rows) && created == NewTags(missing, ids);
      result := Ok(kept + created);
    }

    method Tagging(heading: string) returns (known: bool)
      ensures known <==> HasTag(tags, heading)
    {
      for i := 0 to |tags|
        invariant forall j :: 0 <= j < i ==> tags[j].heading != heading
      {
        if tags[i].heading == heading {
          return true;
        }
      }
      known := false;
    }

    method ReviewOneBlock(id: string, expected: Fingerprint, editor: Editor, ghost flushes: seq<Flush>)
      returns (failure: Option<Failure>)
      modifies this
      ensures (Snapshot(flushes), failure) == Apply(old(Snapshot(flushes)), ReviewBlock(id, expected, editor))
    {
      var i := IndexOf(blocks, id);
      if i == |blocks| {
        return Some(NotFound);
      }
      var block := blocks[i];
      if block.fingerprint.Unrecorded? || block.fingerprint != expected {
        return Some(BlockChanged);
      }
      var provenance := ProvenanceOf(block);
      var tag: string;
      if TagOf(block) == "reviewed" {
        tag := ReviewSourceTag(AsText(Get(provenance, "reviewed_from_tag")));
        provenance := provenance - {"reviewed_by", "reviewed_at", "reviewed_from_tag"};
      } else {
        provenance := provenance["reviewed_from_tag" := Text(ReviewSourceTag(TagOf(block)))];
        tag := "reviewed";
        provenance := provenance["reviewed_by" := Text(editor.actor)];
        provenance := provenance["reviewed_at" := Text(editor.stamp)];
      }
      block := block.(attrs := block.attrs["tag" := Text(tag)]["provenance" := Object(provenance)], updatedAt := editor.now);
      assert block == Toggle(blocks[i], editor);
      blocks := blocks[i := block];
      failure := None;
    }

    method UpdateChapterTag(id: string, status: ChapterStatus, ghost flushes: seq<Flush>) returns (failure: Option<Failure>)
      modifies this
      ensures (Snapshot(flushes), failure) == Apply(old(Snapshot(flushes)), UpdateTag(id, status))
    {
      if !Editable(status) {
        return Some(Invalid);
      }
      var i := TagIndex(tags, id);
      if i == |tags| {
        return Some(NotFound);
      }
      var block := LastBlock(blocks, tags[i].heading);
      if block.None? || block.value.nodeType != "heading" {
        return Some(Conflict);
      }
      tags := tags[i := tags[i].(status := status, blockType := "heading", digest := PrintOf(block.value),
                                 reason := NoReason, reviewedBy := None)];
      failure := None;
    }

    method ReviewChapterTag(id: string, actor: string, ghost flushes: seq<Flush>) returns (failure: Option<Failure>)
      modifies this
      ensures (Snapshot(flushes), failure) == Apply(old(Snapshot(flushes)), ReviewTag(id, actor))
    {
      var i := TagIndex(tags, id);
      if i == |tags| {
        return Some(NotFound);
      }
      var block := LastBlock(blocks, tags[i].heading);
      if block.None? {
        tags := tags[i := MarkNeedsReview(tags[i], HeadingMissing)];
        return Some(Conflict);
      }
      if block.value.nodeType != "heading" {
        tags := tags[i := MarkNeedsReview(tags[i], HeadingTypeChanged)];
        return Some(Conflict);
      }
      if PrintOf(block.value) != tags[i].digest {
        tags := tags[i := MarkNeedsReview(tags[i], HeadingContentChanged)];
        return Some(Conflict);
      }
      tags := tags[i := tags[i].(status := Reviewed, reviewedBy := Some(actor), reason := NoReason)];
      failure := None;
    }

    method CreateChapterTag(id: string, seen: Block, chosen: Option<ChapterStatus>, ghost flushes: seq<Flush>)
      returns (failure: Option<Failure>)
      modifies this
      ensures (Snapshot(flushes), failure) == Apply(old(Snapshot(flushes)), CreateTag(id, seen, chosen))
    {
      if Blank(seen.id) || (chosen.Some? && !Editable(chosen.value)) {
        return Some(Invalid);
      }
      if seen.nodeType != "heading" {
        return Some(Conflict);
      }
      var known := Tagging(seen.id);
      if !known {
        tags := tags + [NewTag(id, seen, if chosen.Some? then chosen.value else InitialStatus(seen))];
      }
      failure := None;
    }

    method DeleteChapterTag(id: string, ghost flushes: seq<Flush>) returns (failure: Option<Failure>)
      modifies this
      ensures (Snapshot(flushes), failure) == Apply(old(Snapshot(flushes)), DeleteTag(id))
    {
      var i := TagIndex(tags, id);
      if i == |tags| {
        return Some(NotFound);
      }
      tags := tags[..i] + tags[i + 1..];
      failure := None;
    }
  }
}
