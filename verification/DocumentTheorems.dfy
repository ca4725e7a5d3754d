/** What normalizing and reconciling a document may depend on, and what they leave alone. */
module DocumentTheorems {
  import opened Common
  import opened Documents

  // ----- sanitizing -----

  lemma {:induction false} SanitizeTwice(signed: string -> bool, node: Json)
    requires node.Object?
    ensures Sanitize(signed, Sanitize(signed, node)) == Sanitize(signed, node)
    decreases node, 0
  {
    var once := Sanitize(signed, node);
    HeadTwice(signed, node.fields);
    if "content" in node.fields && node.fields["content"].List? {
      var items := node.fields["content"].items;
      SanitizeAllTwice(signed, items);
      var head := SanitizeHead(signed, node.fields);
      assert once.fields == head["content" := List(SanitizeAll(signed, items))];
      HeadIgnoresContent(signed, head, List(SanitizeAll(signed, items)));
      hide SanitizeHead;
    } else {
      HeadKeepsOthers(signed, node.fields);
      hide SanitizeHead;
    }
  }

  lemma HeadKeepsOthers(signed: string -> bool, node: Fields)
    ensures SanitizeHead(signed, node).Keys == node.Keys
    ensures forall key :: key in node && key != "attrs" ==> SanitizeHead(signed, node)[key] == node[key]
  {
  }

  lemma HeadTwice(signed: string -> bool, node: Fields)
    ensures SanitizeHead(signed, SanitizeHead(signed, node)) == SanitizeHead(signed, node)
  {
    if "attrs" in node {
      var attrs, nodeType := Attrs(node), AsText(Get(node, "type"));
      var kept := SanitizeAttrs(signed, nodeType, attrs);
      assert SanitizeAttrs(signed, nodeType, kept) == kept;
      assert WithAttrs(WithAttrs(node, kept), kept) == WithAttrs(node, kept);
    }
  }

  lemma HeadIgnoresContent(signed: string -> bool, node: Fields, content: Json)
    ensures SanitizeHead(signed, node["content" := content]) == SanitizeHead(signed, node)["content" := content]
  {
    assert Attrs(node["content" := content]) == Attrs(node);
  }

  lemma {:induction false} SanitizeAllTwice(signed: string -> bool, items: seq<Json>)
    ensures SanitizeAll(signed, SanitizeAll(signed, items)) == SanitizeAll(signed, items)
    decreases items, 1
  {
    if items != [] {
      if items[0].Object? {
        SanitizeTwice(signed, items[0]);
      }
      SanitizeAllTwice(signed, items[1..]);
      var clean := SanitizeAll(signed, items);
      assert clean[1..] == SanitizeAll(signed, items[1..]);
    }
  }

  /** The attribute must go: a transient address of an artifact reference, or the signed source of an image. */
  predicate MustGo(signed: string -> bool, nodeType: string, attrs: Fields, key: string) {
    || (nodeType == "artifactReference" && key in {"previewUrl", "preview_url", "expiresAt", "expires_at"})
    || (nodeType == "articleImage" && key == "src" && "src" in attrs && signed(AsText(attrs["src"])))
  }

  /** No node of the tree keeps an attribute that its type may not keep. */
  predicate Safe(signed: string -> bool, node: Json)
    requires node.Object?
    decreases node, 0
  {
    && ("attrs" in node.fields ==>
          forall key :: key in Attrs(node.fields) ==>
            !MustGo(signed, AsText(Get(node.fields, "type")), Attrs(node.fields), key))
    && ("content" in node.fields && node.fields["content"].List? ==> AllSafe(signed, node.fields["content"].items))
  }

  predicate AllSafe(signed: string -> bool, items: seq<Json>)
    decreases items, 1
  {
    items != [] ==> (items[0].Object? ==> Safe(signed, items[0])) && AllSafe(signed, items[1..])
  }

  lemma HeadIsSafe(signed: string -> bool, node: Fields)
    requires "attrs" in node
    ensures
      var head := SanitizeHead(signed, node);
      && "attrs" in head
      && forall key :: key in Attrs(head) ==> !MustGo(signed, AsText(Get(head, "type")), Attrs(head), key)
  {
  }

  /** Sanitizing leaves no transient address and no signed image source anywhere in the tree, and no text is lost. */
  lemma {:induction false} SanitizedIsSafe(signed: string -> bool, node: Json)
    requires node.Object?
    ensures Safe(signed, Sanitize(signed, node))
    ensures PlainText(Sanitize(signed, node)) == PlainText(node)
    decreases node, 0
  {
    HeadKeepsOthers(signed, node.fields);
    if "attrs" in node.fields {
      HeadIsSafe(signed, node.fields);
    }
    if "content" in node.fields && node.fields["content"].List? {
      SanitizedAreSafe(signed, node.fields["content"].items);
    }
    hide SanitizeHead, MustGo;
  }

  lemma {:induction false} SanitizedAreSafe(signed: string -> bool, items: seq<Json>)
    ensures AllSafe(signed, SanitizeAll(signed, items))
    ensures PlainTexts(SanitizeAll(signed, items)) == PlainTexts(items)
    decreases items, 1
  {
    hide SanitizeHead, MustGo;
    if items != [] {
      if items[0].Object? {
        SanitizedIsSafe(signed, items[0]);
      }
      SanitizedAreSafe(signed, items[1..]);
      assert SanitizeAll(signed, items)[1..] == SanitizeAll(signed, items[1..]);
    }
  }

  /** The same node without the attributes that must go, throughout the tree; everything else is kept. */
  ghost predicate Cleaned(signed: string -> bool, before: Json, after: Json)
    decreases before, 0
  {
    if !before.Object? then after == before
    else
      && after.Object? && after.fields.Keys == before.fields.Keys
      && (forall key :: key in before.fields && key !in {"attrs", "content"} ==> after.fields[key] == before.fields[key])
      && ("attrs" in before.fields ==>
            && after.fields["attrs"].Object?
            && forall key ::
                 (key in Attrs(after.fields) <==>
                    key in Attrs(before.fields)
                    && !MustGo(signed, AsText(Get(before.fields, "type")), Attrs(before.fields), key))
                 && (key in Attrs(after.fields) ==> Attrs(after.fields)[key] == Attrs(before.fields)[key]))
      && ("content" in before.fields ==>
            if before.fields["content"].List? then
              && after.fields["content"].List?
              && AllCleaned(signed, before.fields["content"].items, after.fields["content"].items)
            else after.fields["content"] == before.fields["content"])
  }

  ghost predicate AllCleaned(signed: string -> bool, before: seq<Json>, after: seq<Json>)
    decreases before, 1
  {
    && |after| == |before|
    && (before != [] ==> Cleaned(signed, before[0], after[0]) && AllCleaned(signed, before[1..], after[1..]))
  }

  lemma HeadRemovesExactly(signed: string -> bool, node: Fields)
    requires "attrs" in node
    ensures
      var head := SanitizeHead(signed, node);
      && "attrs" in head && head["attrs"].Object?
      && forall key ::
           (key in Attrs(head) <==>
              key in Attrs(node) && !MustGo(signed, AsText(Get(node, "type")), Attrs(node), key))
           && (key in Attrs(head) ==> Attrs(head)[key] == Attrs(node)[key])
  {
  }

  lemma SanitizeParts(signed: string -> bool, node: Fields)
    ensures
      var clean, head := Sanitize(signed, Object(node)).fields, SanitizeHead(signed, node);
      && clean.Keys == node.Keys == head.Keys
      && (forall key :: key in node && key != "content" ==> clean[key] == head[key])
      && ("content" in node ==>
            clean["content"] == if node["content"].List? then List(SanitizeAll(signed, node["content"].items))
                                else node["content"])
  {
    HeadKeepsOthers(signed, node);
    hide SanitizeHead, SanitizeAll;
  }

  /** Sanitizing removes what must go, everywhere in the tree, and nothing else. */
  lemma {:induction false} SanitizedExactly(signed: string -> bool, node: Json)
    requires node.Object?
    ensures Cleaned(signed, node, Sanitize(signed, node))
    decreases node, 0
  {
    HeadKeepsOthers(signed, node.fields);
    SanitizeParts(signed, node.fields);
    if "attrs" in node.fields {
      HeadRemovesExactly(signed, node.fields);
    }
    if "content" in node.fields && node.fields["content"].List? {
      SanitizedAllExactly(signed, node.fields["content"].items);
    }
    hide Sanitize, SanitizeAll, SanitizeHead, MustGo, AllCleaned;
  }

  lemma {:induction false} SanitizedAllExactly(signed: string -> bool, items: seq<Json>)
    ensures AllCleaned(signed, items, SanitizeAll(signed, items))
    decreases items, 1
  {
    hide SanitizeHead, MustGo;
    if items != [] {
      if items[0].Object? {
        SanitizedExactly(signed, items[0]);
      }
      SanitizedAllExactly(signed, items[1..]);
      assert SanitizeAll(signed, items)[1..] == SanitizeAll(signed, items[1..]);
    }
  }

  // ----- review attributes are no input -----

  lemma CoreOfHead(signed: string -> bool, node: Fields)
    ensures WithAttrs(SanitizeHead(signed, node), Attrs(SanitizeHead(signed, node)) - REVIEW)
         == SanitizeHead(signed, WithAttrs(node, Attrs(node) - REVIEW))
  {
    var attrs, nodeType := Attrs(node), AsText(Get(node, "type"));
    var core := WithAttrs(node, attrs - REVIEW);
    assert Attrs(core) == attrs - REVIEW && Get(core, "type") == Get(node, "type");
    assert SanitizeAttrs(signed, nodeType, attrs) - REVIEW == SanitizeAttrs(signed, nodeType, attrs - REVIEW);
    assert SanitizeHead(signed, core) == WithAttrs(node, SanitizeAttrs(signed, nodeType, attrs - REVIEW));
    if "attrs" !in node {
      assert attrs == map[];
      assert SanitizeAttrs(signed, nodeType, attrs - REVIEW) == attrs - REVIEW;
    }
  }

  lemma CoreOfSanitize(signed: string -> bool, node: Fields)
    ensures Core(Sanitize(signed, Object(node)).fields) == Sanitize(signed, Object(Core(node))).fields
  {
    CoreOfHead(signed, node);
    if "content" in node && node["content"].List? {
      var content := List(SanitizeAll(signed, node["content"].items));
      var head := SanitizeHead(signed, node);
      assert Attrs(head["content" := content]) == Attrs(head);
      assert Core(head["content" := content]) == Core(head)["content" := content];
    }
    hide SanitizeHead, SanitizeAll;
  }

  lemma CoreOfIdentify(node: Fields, id: string)
    ensures LacksId(Core(node)) == LacksId(node)
    ensures Core(Identify(node, id)) == Identify(Core(node), id)
  {
    var attrs := Attrs(node);
    assert Attrs(Core(node)) == attrs - REVIEW;
    assert attrs["id" := Text(id)] - REVIEW == (attrs - REVIEW)["id" := Text(id)];
    assert WithAttrs(WithAttrs(node, attrs - REVIEW), (attrs - REVIEW)["id" := Text(id)])
        == WithAttrs(node, (attrs - REVIEW)["id" := Text(id)]);
    assert WithAttrs(WithAttrs(node, attrs["id" := Text(id)]), (attrs - REVIEW)["id" := Text(id)])
        == WithAttrs(node, (attrs - REVIEW)["id" := Text(id)]);
  }

  lemma CoreIgnoresTags(node: Fields, tag: string, provenance: Fields)
    ensures Core(WithAttrs(node, Tagged(Attrs(node), tag, provenance))) == Core(node)
  {
    assert Tagged(Attrs(node), tag, provenance) - REVIEW == Attrs(node) - REVIEW;
  }

  /** The content of a normalized node depends on the content of the node alone. */
  lemma CoreOfNormalized(author: Author, node: Fields, id: string)
    ensures Core(NormalizeNode(author, node, id)) == Sanitize(author.signed, Object(Identify(Core(node), id))).fields
  {
    var safe := Sanitize(author.signed, Object(Identify(node, id))).fields;
    CoreOfIdentify(node, id);
    CoreOfSanitize(author.signed, Identify(node, id));
    CoreIgnoresTags(safe, TagForActor(author.actorKind, Attrs(safe)),
                    author.provenance + AsObject(Get(Attrs(safe), "provenance")));
    hide Sanitize, Identify, Core;
  }

  /** The node differs in its review attributes only. */
  predicate SameCore(left: Json, right: Json) {
    if left.Object? && right.Object? then Core(left.fields) == Core(right.fields) else left == right
  }

  predicate SameUpToTags(left: Fields, right: Fields) {
    && Get(left, "type") == Get(right, "type")
    && var items := AsList(Get(left, "content"));
    var others := AsList(Get(right, "content"));
    && |items| == |others|
    && forall i :: 0 <= i < |items| ==> SameCore(items[i], others[i])
  }

  /** Normalized alike, up to the tags that reconciling overwrites. */
  predicate AlikeNodes(left: seq<Fields>, right: seq<Fields>) {
    |left| == |right| && forall i :: 0 <= i < |left| ==> Core(left[i]) == Core(right[i])
  }

  predicate Alike(left: Result<Normalized>, right: Result<Normalized>) {
    if left.Ok? && right.Ok? then
      && AlikeNodes(left.value.nodes, right.value.nodes)
      && |left.value.blocks| == |right.value.blocks|
      && left.value.idsUsed == right.value.idsUsed
    else left == right
  }

  lemma AlikeGrows(left: seq<Fields>, right: seq<Fields>, node: Fields, node': Fields)
    requires AlikeNodes(left, right) && Core(node) == Core(node')
    ensures AlikeNodes(left + [node], right + [node'])
  {
    hide Core;
  }

  /** What decides whether a node is accepted is part of its core. */
  lemma SameAcceptance(left: Fields, right: Fields)
    requires Core(left) == Core(right)
    ensures LacksId(left) == LacksId(right) && Get(left, "type") == Get(right, "type")
  {
    CoreOfIdentify(left, "");
    CoreOfIdentify(right, "");
    assert Get(Core(left), "type") == Get(left, "type") && Get(Core(right), "type") == Get(right, "type");
  }

  lemma NormalizeNextAlike(author: Author, item: Json, other: Json, ids: seq<string>, done: Normalized, done': Normalized)
    requires SameCore(item, other) && Alike(Ok(done), Ok(done'))
    ensures Alike(NormalizeNext(author, item, ids, done), NormalizeNext(author, other, ids, done'))
  {
    if item.Object? && other.Object? {
      hide *;
      var left, right := item.fields, other.fields;
      assert Core(left) == Core(right) by {
        SameCores(left, right);
      }
      SameAcceptance(left, right);
      var id := if LacksId(left) && done.idsUsed < |ids| then ids[done.idsUsed] else "";
      CoreOfNormalized(author, left, id);
      CoreOfNormalized(author, right, id);
      AcceptedAlike(author, left, right, ids, done, done', id);
    } else {
      hide Core;
    }
  }

  lemma SameCores(left: Fields, right: Fields)
    requires SameCore(Object(left), Object(right))
    ensures Core(left) == Core(right)
  {
    hide Core;
  }

  lemma AcceptedAlike(author: Author, left: Fields, right: Fields, ids: seq<string>, done: Normalized, done': Normalized,
                      id: string)
    requires Alike(Ok(done), Ok(done'))
    requires LacksId(left) <==> LacksId(right)
    requires Get(left, "type") == Get(right, "type")
    requires id == if LacksId(left) && done.idsUsed < |ids| then ids[done.idsUsed] else ""
    requires Core(NormalizeNode(author, left, id)) == Core(NormalizeNode(author, right, id))
    ensures Alike(NormalizeNext(author, Object(left), ids, done), NormalizeNext(author, Object(right), ids, done'))
  {
    AlikeGrows(done.nodes, done'.nodes, NormalizeNode(author, left, id), NormalizeNode(author, right, id));
    hide *;
    NormalizeNextUnfolds(author, left, ids, done);
    NormalizeNextUnfolds(author, right, ids, done');
    AlikeUnfolds(done, done');
    var next, next' := NormalizeNext(author, Object(left), ids, done), NormalizeNext(author, Object(right), ids, done');
    if next.Ok? && next'.Ok? {
      AlikeUnfolds(next.value, next'.value);
    }
    AlikeFailures(next, next');
  }

  lemma AlikeUnfolds(done: Normalized, done': Normalized)
    ensures Alike(Ok(done), Ok(done')) <==>
      AlikeNodes(done.nodes, done'.nodes) && |done.blocks| == |done'.blocks| && done.idsUsed == done'.idsUsed
  {
    hide AlikeNodes;
  }

  lemma AlikeFailures(left: Result<Normalized>, right: Result<Normalized>)
    ensures left.Err? || right.Err? ==> (Alike(left, right) <==> left == right)
  {
    hide AlikeNodes;
  }

  lemma NormalizeNextUnfolds(author: Author, node: Fields, ids: seq<string>, done: Normalized)
    ensures
      var next := NormalizeNext(author, Object(node), ids, done);
      var id := if LacksId(node) && done.idsUsed < |ids| then ids[done.idsUsed] else "";
      if LacksId(node) && done.idsUsed >= |ids| then next == Err(GeneratorFailed)
      else if AsText(Get(node, "type")) == "" then next == Err(Invalid)
      else
        && next.Ok?
        && next.value.nodes == done.nodes + [NormalizeNode(author, node, id)]
        && |next.value.blocks| == |done.blocks| + 1
        && next.value.idsUsed == done.idsUsed + if LacksId(node) then 1 else 0
  {
    hide NormalizeNode, LacksId, BlockFor;
  }

  lemma {:induction false} NormalizeAlike(
    author: Author, items: seq<Json>, others: seq<Json>, ids: seq<string>, n: nat)
    requires n <= |items| == |others|
    requires forall i :: 0 <= i < |items| ==> SameCore(items[i], others[i])
    ensures Alike(NormalizeNodes(author, items, ids, n), NormalizeNodes(author, others, ids, n))
    decreases n
  {
    hide NormalizeNext, SameCore;
    if n > 0 {
      NormalizeAlike(author, items, others, ids, n - 1);
      var done, done' := NormalizeNodes(author, items, ids, n - 1), NormalizeNodes(author, others, ids, n - 1);
      if done.Ok? && done'.Ok? {
        NormalizeNextAlike(author, items[n - 1], others[n - 1], ids, done.value, done'.value);
      }
    }
  }

  lemma TextOfCore(node: Fields)
    ensures PlainText(Object(Core(node))) == PlainText(Object(node))
  {
    var core := Core(node);
    assert Get(core, "text") == Get(node, "text");
    assert ("content" in core) == ("content" in node);
    hide Core, PlainTexts;
  }

  lemma TaggedIgnoresTags(left: Fields, right: Fields, tag: string, provenance: Fields)
    requires Core(left) == Core(right)
    ensures Tagged(Attrs(left), tag, provenance) == Tagged(Attrs(right), tag, provenance)
    ensures forall attrs :: WithAttrs(left, attrs) == WithAttrs(right, attrs)
  {
    assert Attrs(Core(left)) == Attrs(left) - REVIEW && Attrs(Core(right)) == Attrs(right) - REVIEW;
    assert Tagged(Attrs(left), tag, provenance) == Tagged(Attrs(left) - REVIEW, tag, provenance);
    assert Tagged(Attrs(right), tag, provenance) == Tagged(Attrs(right) - REVIEW, tag, provenance);
    forall attrs
      ensures WithAttrs(left, attrs) == WithAttrs(right, attrs)
    {
      assert WithAttrs(left, attrs) == WithAttrs(Core(left), attrs);
      assert WithAttrs(right, attrs) == WithAttrs(Core(right), attrs);
    }
  }

  lemma {:induction false} LastNodeAlike(left: seq<Fields>, right: seq<Fields>, id: string)
    requires AlikeNodes(left, right)
    ensures NodeHash(LastNode(left, id)) == NodeHash(LastNode(right, id))
  {
    if left != [] {
      var n := |left| - 1;
      assert Core(left[n]) == Core(right[n]);
      IdOfCore(left[n]);
      IdOfCore(right[n]);
      hide Core;
      LastNodeAlike(left[..n], right[..n], id);
    }
  }

  lemma IdOfCore(node: Fields)
    ensures Get(Attrs(Core(node)), "id") == Get(Attrs(node), "id")
  {
    assert Attrs(Core(node)) == Attrs(node) - REVIEW;
  }

  lemma ReconcileAlike(author: Author, previous: Draft, left: seq<Fields>, right: seq<Fields>, i: nat)
    requires AlikeNodes(left, right) && i < |left|
    ensures
      var block := ReconcileBlock(author, previous, left, BlockFor(author, left[i], i));
      && block == ReconcileBlock(author, previous, right, BlockFor(author, right[i], i))
      && WithAttrs(left[i], block.attrs) == WithAttrs(right[i], block.attrs)
  {
    var block, block' := BlockFor(author, left[i], i), BlockFor(author, right[i], i);
    assert Core(left[i]) == Core(right[i]);
    IdOfCore(left[i]);
    IdOfCore(right[i]);
    TextOfCore(left[i]);
    TextOfCore(right[i]);
    assert Get(Core(left[i]), "type") == Get(left[i], "type");
    assert Get(Core(right[i]), "type") == Get(right[i], "type");
    LastNodeAlike(left, right, block.id);
    var prior := LastBlock(previous.blocks, block.id);
    assert SameContent(previous, left, prior, block) == SameContent(previous, right, prior, block');
    TaggedIgnoresTags(left[i], right[i], ActorTag(author.actorKind, prior.Some?), author.provenance);
    if prior.Some? {
      TaggedIgnoresTags(left[i], right[i], TagForActor("", map["tag" := Text(TagOf(prior.value))]), ProvenanceOf(prior.value));
    }
    hide Core, PlainText, Tagged, WithAttrs, TagForActor, ActorTag, LastBlock, SameContent;
  }

  /**
   Tags and provenance sent by a client have no influence whatever: two documents that
   agree up to these attributes of their top-level nodes are stored identically, or refused
   identically.
   */
  lemma ClientTagsAreIgnored(author: Author, previous: Draft, left: Fields, right: Fields, ids: seq<string>)
    requires SameUpToTags(left, right)
    ensures Prepare(author, previous, left, ids) == Prepare(author, previous, right, ids)
  {
    var items, others := AsList(Get(left, "content")), AsList(Get(right, "content"));
    NormalizeAlike(author, items, others, ids, |items|);
    var done, done' := NormalizeDocument(author, left, ids), NormalizeDocument(author, right, ids);
    if done.Ok? && done'.Ok? {
      NormalizedPairs(author, items, ids, |items|);
      NormalizedPairs(author, others, ids, |items|);
      var nodes, nodes' := done.value.nodes, done'.value.nodes;
      forall i: nat | i < |nodes|
        ensures ReconcileBlock(author, previous, nodes, done.value.blocks[i])
             == ReconcileBlock(author, previous, nodes', done'.value.blocks[i])
        ensures var attrs := ReconcileBlock(author, previous, nodes, done.value.blocks[i]).attrs;
                WithAttrs(nodes[i], attrs) == WithAttrs(nodes'[i], attrs)
      {
        ReconcileAlike(author, previous, nodes, nodes', i);
      }
      hide ReconcileBlock, BlockFor, NormalizeNodes, WithAttrs, SameCore;
      var blocks := ReconcileBlocks(author, previous, nodes, done.value.blocks);
      assert blocks == ReconcileBlocks(author, previous, nodes', done'.value.blocks);
      assert ShareAttrs(nodes, blocks) == ShareAttrs(nodes', blocks);
    }
  }
}
