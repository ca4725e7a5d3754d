/**
 Documents and block reviews on the fields of nodes and rows: what a fingerprint covers, what
 preparing makes of a document, and what reviewing and storing change
 (backend/internal/article/document.go:19-71, 127-201; backend/internal/article/postgres.go:112-213).
 */
module ReviewEffects {
  import opened Common
  import opened Documents
  import opened DocumentTheorems
  import opened DraftCoherence
  import opened Drafts
  import opened ReviewTheorems
  import opened ReviewDecisions
  import opened ChapterEffects

  // ----- what a fingerprint covers -----

  /** Same type, same content, same everything, apart from the review attributes tag and provenance. */
  ghost predicate SameNode(left: Fields, right: Fields) {
    && (forall key :: key != "attrs" ==> Agree(left, right, key))
    && forall key :: key != "tag" && key != "provenance" ==> Agree(Attrs(left), Attrs(right), key)
  }

  lemma SameFields(left: Fields, right: Fields)
    ensures left == right <==> forall key :: Agree(left, right, key)
  {
    if forall key :: Agree(left, right, key) {
      assert forall key :: key in left ==> Agree(left, right, key);
      assert forall key :: key in right ==> Agree(left, right, key);
      assert left.Keys == right.Keys;
    }
  }

  lemma StrippedAgree(left: Fields, right: Fields)
    ensures left - REVIEW == right - REVIEW <==> forall key :: key != "tag" && key != "provenance" ==> Agree(left, right, key)
  {
    var l, r := left - REVIEW, right - REVIEW;
    SameFields(l, r);
    forall key
      ensures Agree(l, r, key) <==> (key != "tag" && key != "provenance" ==> Agree(left, right, key))
    {
      assert key in l <==> key in left && key != "tag" && key != "provenance";
      assert key in r <==> key in right && key != "tag" && key != "provenance";
    }
    hide Agree;
  }

  /** Two nodes have the same fingerprint exactly if they are the same node up to review attributes. */
  lemma SameCoreExactly(left: Fields, right: Fields)
    ensures Core(left) == Core(right) <==> SameNode(left, right)
  {
    var l, r := Core(left), Core(right);
    SameFields(l, r);
    StrippedAgree(Attrs(left), Attrs(right));
    forall key
      ensures Agree(l, r, key) <==> (if key == "attrs" then Attrs(left) - REVIEW == Attrs(right) - REVIEW
                                     else Agree(left, right, key))
    {
    }
    assert Agree(l, r, "attrs") <==> Attrs(left) - REVIEW == Attrs(right) - REVIEW;
    hide Agree, Attrs, Core;
  }

  // ----- what preparing makes of a document -----

  /** The node carries no identity, or a blank one. */
  predicate NoIdentity(node: Fields) {
    var id := AsText(Get(Attrs(node), "id"));
    forall i :: 0 <= i < |id| ==> Space(id[i])
  }

  predicate Acceptable(item: Json) {
    item.Object? && AsText(Get(item.fields, "type")) != ""
  }

  /** How many of the first `n` nodes need a generated identity. */
  function Nameless(items: seq<Json>, n: nat): nat
    requires n <= |items|
  {
    if n == 0 then 0
    else Nameless(items, n - 1) + if items[n - 1].Object? && NoIdentity(items[n - 1].fields) then 1 else 0
  }

  /** The node as it was sent, with a generated identity if it had none. */
  function Identified(item: Fields, id: string): Fields {
    if NoIdentity(item) then item["attrs" := Object(Attrs(item)["id" := Text(id)])] else item
  }

  /** `node` is what was sent, cleaned of what may not be kept, with review attributes of its own. */
  ghost predicate Keeps(signed: string -> bool, sent: Fields, node: Fields) {
    exists clean: Fields :: Cleaned(signed, Object(sent), Object(clean)) && SameNode(clean, node)
  }

  lemma {:induction false} NamelessGrows(items: seq<Json>, n: nat, m: nat)
    requires n <= m <= |items|
    ensures Nameless(items, n) <= Nameless(items, m)
    decreases m
  {
    if n < m {
      NamelessGrows(items, n, m - 1);
    }
  }

  ghost predicate AllAcceptable(items: seq<Json>, n: nat)
    requires n <= |items|
  {
    forall i :: 0 <= i < n ==> Acceptable(items[i])
  }

  lemma NextNormalizes(author: Author, item: Json, ids: seq<string>, done: Normalized)
    ensures
      var next := NormalizeNext(author, item, ids, done);
      && (next.Ok? <==> Acceptable(item) && (NoIdentity(item.fields) ==> done.idsUsed < |ids|))
      && (next.Ok? ==>
            var id := if NoIdentity(item.fields) then ids[done.idsUsed] else "";
            var node := NormalizeNode(author, item.fields, id);
            && next.value.nodes == done.nodes + [node]
            && next.value.blocks == done.blocks + [BlockFor(author, node, |done.blocks|)]
            && next.value.idsUsed == done.idsUsed + if NoIdentity(item.fields) then 1 else 0)
  {
    assert item.Object? ==> (NoIdentity(item.fields) <==> LacksId(item.fields));
    hide NormalizeNode, BlockFor, LacksId, NoIdentity;
  }

  lemma {:induction false} NormalizesExactly(author: Author, items: seq<Json>, ids: seq<string>, n: nat)
    requires n <= |items|
    ensures NormalizeNodes(author, items, ids, n).Ok? <==> AllAcceptable(items, n) && Nameless(items, n) <= |ids|
    ensures NormalizeNodes(author, items, ids, n).Ok? ==>
      NormalizeNodes(author, items, ids, n).value.idsUsed == Nameless(items, n)
    decreases n
  {
    hide NormalizeNext, NoIdentity, NormalizeNode, BlockFor, AsText, Get;
    if n > 0 {
      NormalizesExactly(author, items, ids, n - 1);
      NamelessGrows(items, n - 1, n);
      var earlier := NormalizeNodes(author, items, ids, n - 1);
      if earlier.Ok? {
        NextNormalizes(author, items[n - 1], ids, earlier.value);
      }
    }
  }

  /**
   A document is prepared exactly if it is a document, all of its top-level nodes are objects
   with a type, and there are identities for those that have none.
   */
  lemma PreparesExactly(author: Author, previous: Draft, document: Fields, ids: seq<string>)
    ensures
      var items := AsList(Get(document, "content"));
      Prepare(author, previous, document, ids).Ok?
      <==> Get(document, "type") == Text("doc") && AllAcceptable(items, |items|) && Nameless(items, |items|) <= |ids|
  {
    var items := AsList(Get(document, "content"));
    NormalizesExactly(author, items, ids, |items|);
    hide NormalizeNodes, ReconcileBlocks, ShareAttrs, Nameless;
  }

  lemma NodeIsKept(author: Author, item: Fields, id: string)
    ensures Keeps(author.signed, Identified(item, id), NormalizeNode(author, item, id))
  {
    var sent := Identify(item, id);
    assert sent == Identified(item, id);
    var clean := Sanitize(author.signed, Object(sent)).fields;
    SanitizedExactly(author.signed, Object(sent));
    var attrs := Attrs(clean);
    CoreIgnoresTags(clean, TagForActor(author.actorKind, attrs),
                    author.provenance + AsObject(Get(attrs, "provenance")));
    SameCoreExactly(clean, NormalizeNode(author, item, id));
    hide Sanitize, Identify, Core, SameNode, Cleaned, TagForActor;
  }

  lemma NodeKeepsIdentity(author: Author, item: Fields, id: string)
    requires AsText(Get(item, "type")) != ""
    ensures
      var node := NormalizeNode(author, item, id);
      && AsText(Get(Attrs(node), "id")) == (if NoIdentity(item) then id else AsText(Get(Attrs(item), "id")))
      && Get(node, "type") == Get(item, "type")
      && PlainText(Object(node)) == PlainText(Object(item))
  {
    var sent := Identify(item, id);
    var clean := Sanitize(author.signed, Object(sent)).fields;
    SanitizeKeepsIdentity(author.signed, sent);
    SanitizedIsSafe(author.signed, Object(sent));
    assert Attrs(sent) == if NoIdentity(item) then Attrs(item)["id" := Text(id)] else Attrs(item);
    hide Sanitize;
    TextIgnoresAttrs(item, Attrs(sent));
    TextIgnoresAttrs(clean, Attrs(NormalizeNode(author, item, id)));
    hide PlainText, Identify, TagForActor;
  }

  lemma TextIgnoresAttrs(node: Fields, attrs: Fields)
    ensures PlainText(Object(WithAttrs(node, attrs))) == PlainText(Object(node))
  {
    assert Get(WithAttrs(node, attrs), "text") == Get(node, "text");
  }

  /** Node and block number `i` of what is prepared, against item `i` of the document. */
  ghost predicate Represents(author: Author, item: Fields, id: string, node: Fields, block: Block, i: nat) {
    && Keeps(author.signed, Identified(item, id), node)
    && block.id == (if NoIdentity(item) then id else AsText(Get(Attrs(item), "id")))
    && block.nodeType == AsText(Get(item, "type"))
    && block.text == PlainText(Object(item))
    && block.ordinal == i
    && block.fingerprint == Of(Core(node))
  }

  lemma NextRepresents(author: Author, item: Fields, id: string, i: nat)
    requires AsText(Get(item, "type")) != ""
    ensures
      var node := NormalizeNode(author, item, id);
      Represents(author, item, id, node, BlockFor(author, node, i), i)
  {
    NodeIsKept(author, item, id);
    NodeKeepsIdentity(author, item, id);
    hide NormalizeNode, Keeps, Identified, NoIdentity, PlainText, Core;
  }

  /** The identity generated for item `i`, if it needs one. */
  function IdFor(items: seq<Json>, ids: seq<string>, i: nat): string
    requires i < |items|
  {
    if Nameless(items, i) < |ids| then ids[Nameless(items, i)] else ""
  }

  lemma LastRepresents(author: Author, items: seq<Json>, ids: seq<string>, n: nat)
    requires 0 < n <= |items| && NormalizeNodes(author, items, ids, n).Ok?
    ensures
      var earlier, done := NormalizeNodes(author, items, ids, n - 1), NormalizeNodes(author, items, ids, n).value;
      && earlier.Ok? && items[n - 1].Object?
      && |done.nodes| == |done.blocks| == n
      && earlier.value.nodes == done.nodes[..n - 1] && earlier.value.blocks == done.blocks[..n - 1]
      && Represents(author, items[n - 1].fields, IdFor(items, ids, n - 1), done.nodes[n - 1], done.blocks[n - 1], n - 1)
  {
    hide NormalizeNext, Represents, NormalizeNode, BlockFor, NoIdentity, Nameless, AsText, Get;
    var earlier := NormalizeNodes(author, items, ids, n - 1);
    assert earlier.Ok?;
    NormalizedPairs(author, items, ids, n - 1);
    NormalizesExactly(author, items, ids, n - 1);
    NextNormalizes(author, items[n - 1], ids, earlier.value);
    var fields, id := items[n - 1].fields, IdFor(items, ids, n - 1);
    NextRepresents(author, fields, id, n - 1);
    if !NoIdentity(fields) {
      IdIgnored(author, fields, id, "");
    }
  }

  lemma {:induction false} NormalizedRepresents(author: Author, items: seq<Json>, ids: seq<string>, n: nat, i: nat)
    requires i < n <= |items| && NormalizeNodes(author, items, ids, n).Ok?
    ensures
      var done := NormalizeNodes(author, items, ids, n).value;
      && |done.nodes| == |done.blocks| == n && items[i].Object?
      && Represents(author, items[i].fields, IdFor(items, ids, i), done.nodes[i], done.blocks[i], i)
    decreases n
  {
    hide NormalizeNodes, Represents, IdFor;
    LastRepresents(author, items, ids, n);
    if i < n - 1 {
      NormalizedRepresents(author, items, ids, n - 1, i);
    }
  }

  lemma IdIgnored(author: Author, item: Fields, id: string, other: string)
    requires !NoIdentity(item)
    ensures NormalizeNode(author, item, id) == NormalizeNode(author, item, other)
  {
    assert Identify(item, id) == item == Identify(item, other);
    hide Sanitize;
  }

  lemma SettlingRepresents(author: Author, previous: Draft, nodes: seq<Fields>, item: Fields, id: string,
                           node: Fields, block: Block, i: nat)
    requires Represents(author, item, id, node, block, i) && block.attrs == Attrs(node)
    ensures
      var settled := ReconcileBlock(author, previous, nodes, block);
      Represents(author, item, id, WithAttrs(node, settled.attrs), settled, i)
  {
    var settled := ReconcileBlock(author, previous, nodes, block);
    var tag, provenance := TagOf(settled), ProvenanceOf(settled);
    SettlingTags(author, previous, nodes, block);
    hide ReconcileBlock, Core, SameNode, Cleaned, PlainText, Identified, NoIdentity, Tagged, TagOf, ProvenanceOf, Get, AsText;
    CoreIgnoresTags(node, tag, provenance);
    SameCoreExactly(node, WithAttrs(node, settled.attrs));
    var clean: Fields :| Cleaned(author.signed, Object(Identified(item, id)), Object(clean)) && SameNode(clean, node);
    SameCoreExactly(clean, node);
    SameCoreExactly(clean, WithAttrs(node, settled.attrs));
  }

  /** Reconciling settles tag, provenance and time, and nothing else. */
  lemma SettlingTags(author: Author, previous: Draft, nodes: seq<Fields>, block: Block)
    ensures
      var settled := ReconcileBlock(author, previous, nodes, block);
      && settled == block.(attrs := settled.attrs, updatedAt := settled.updatedAt)
      && settled.attrs == Tagged(block.attrs, TagOf(settled), ProvenanceOf(settled))
  {
    hide SameContent, LastBlock, TagForActor, ActorTag;
  }

  /**
   Node and block `i` of a prepared write are item `i` of the document: the same content,
   cleaned of what may not be kept, under its own identity or the next generated one, with its
   type, its text and its place, and known by the fingerprint of exactly that content.
   */
  lemma PreparedRepresents(author: Author, previous: Draft, document: Fields, ids: seq<string>, i: nat)
    requires Prepare(author, previous, document, ids).Ok? && i < |AsList(Get(document, "content"))|
    ensures
      var items, prepared := AsList(Get(document, "content")), Prepare(author, previous, document, ids).value;
      && |prepared.nodes| == |prepared.blocks| == |items| && items[i].Object?
      && Represents(author, items[i].fields, IdFor(items, ids, i), prepared.nodes[i], prepared.blocks[i], i)
  {
    var items := AsList(Get(document, "content"));
    NormalizedPairs(author, items, ids, |items|);
    NormalizedRepresents(author, items, ids, |items|, i);
    var done := NormalizeNodes(author, items, ids, |items|).value;
    assert done.blocks[i].attrs == Attrs(done.nodes[i]);
    SettlingRepresents(author, previous, done.nodes, items[i].fields, IdFor(items, ids, i), done.nodes[i], done.blocks[i], i);
    hide NormalizeNodes, Represents, ReconcileBlock, WithAttrs, IdFor, BlockFor, Nameless;
  }

  /** A text node reads as its text, any other node as its content, and a list as its nodes. */
  lemma TextIsRead(node: Fields)
    ensures Get(node, "text").Text? ==> PlainText(Object(node)) == Get(node, "text").text
    ensures !Get(node, "text").Text? && "content" in node && node["content"].List? ==>
      PlainText(Object(node)) == PlainTexts(node["content"].items)
    ensures !Get(node, "text").Text? && !("content" in node && node["content"].List?) ==> PlainText(Object(node)) == ""
    ensures PlainTexts([Object(node)]) == PlainText(Object(node))
  {
    assert [Object(node)][1..] == [];
  }

  /** The text of a node is that of its parts, in order. */
  lemma {:induction false} TextsJoin(left: seq<Json>, right: seq<Json>)
    ensures PlainTexts(left + right) == PlainTexts(left) + PlainTexts(right)
    decreases |left|
  {
    hide PlainText;
    if left == [] {
      assert left + right == right;
    } else {
      var first := if left[0].Object? then PlainText(left[0]) else "";
      assert (left + right)[0] == left[0] && (left + right)[1..] == left[1..] + right;
      TextsJoin(left[1..], right);
      hide PlainTexts;
      assert first + (PlainTexts(left[1..]) + PlainTexts(right)) == first + PlainTexts(left[1..]) + PlainTexts(right);
    }
  }
}
