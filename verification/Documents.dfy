/**
 Article documents (backend/internal/article/document.go:19-65, 127-243, 669-681, 918-960):
 top-level blocks with stable identities, content fingerprints and review tags.

 A fingerprint stands for a SHA-256 digest and is taken to be injective: it is the
 digested content itself.
 */
module Documents {
  import opened Common

  datatype Json =
    | Null
    | Bool(flag: bool)
    | Number(literal: string)
    | Text(text: string)
    | List(items: seq<Json>)
    | Object(fields: Fields)

  type Fields = map<string, Json>

  function Get(fields: Fields, key: string): Json {
    if key in fields then fields[key] else Null
  }

  function AsText(value: Json): string {
    if value.Text? then value.text else ""
  }

  function AsObject(value: Json): Fields {
    if value.Object? then value.fields else map[]
  }

  function AsList(value: Json): seq<Json> {
    if value.List? then value.items else []
  }

  function Attrs(node: Fields): Fields {
    AsObject(Get(node, "attrs"))
  }

  function WithAttrs(node: Fields, attrs: Fields): Fields {
    node["attrs" := Object(attrs)]
  }

  /** White space as `strings.TrimSpace` sees it. */
  predicate Space(c: char) {
    var code := c as int;
    || 0x09 <= code <= 0x0D || code == 0x20 || code == 0x85 || code == 0xA0 || code == 0x1680
    || 0x2000 <= code <= 0x200A || code == 0x2028 || code == 0x2029 || code == 0x202F || code == 0x205F
    || code == 0x3000
  }

  predicate Blank(s: string) {
    forall i :: 0 <= i < |s| ==> Space(s[i])
  }

  // ----- sanitizing -----

  const TRANSIENT := {"previewUrl", "preview_url", "expiresAt", "expires_at"}

  /** Attributes that a node of this type may not keep; `signed` recognises a URL with signing parameters. */
  function Unwanted(signed: string -> bool, nodeType: string, attrs: Fields): set<string> {
    (if nodeType == "artifactReference" then TRANSIENT else {})
    + (if nodeType == "articleImage" && signed(AsText(Get(attrs, "src"))) then {"src"} else {})
  }

  function SanitizeAttrs(signed: string -> bool, nodeType: string, attrs: Fields): Fields {
    attrs - Unwanted(signed, nodeType, attrs)
  }

  function SanitizeHead(signed: string -> bool, node: Fields): Fields {
    if "attrs" in node then WithAttrs(node, SanitizeAttrs(signed, AsText(Get(node, "type")), Attrs(node))) else node
  }

  /** `sanitizeDocumentNode`, on a node that is an object. */
  function Sanitize(signed: string -> bool, node: Json): (clean: Json)
    requires node.Object?
    ensures clean.Object?
    decreases node, 0
  {
    var head := SanitizeHead(signed, node.fields);
    if "content" in node.fields && node.fields["content"].List? then
      Object(head["content" := List(SanitizeAll(signed, node.fields["content"].items))])
    else Object(head)
  }

  function SanitizeAll(signed: string -> bool, items: seq<Json>): (clean: seq<Json>)
    ensures |clean| == |items|
    decreases items, 1
  {
    if items == [] then []
    else
      [if items[0].Object? then Sanitize(signed, items[0]) else items[0]] + SanitizeAll(signed, items[1..])
  }

  function PlainText(node: Json): string
    requires node.Object?
    decreases node, 0
  {
    if Get(node.fields, "text").Text? then Get(node.fields, "text").text
    else if "content" in node.fields && node.fields["content"].List? then PlainTexts(node.fields["content"].items)
    else ""
  }

  function PlainTexts(items: seq<Json>): string
    decreases items, 1
  {
    if items == [] then ""
    else (if items[0].Object? then PlainText(items[0]) else "") + PlainTexts(items[1..])
  }

  // ----- fingerprints and tags -----

  const REVIEW := {"tag", "provenance"}

  /** What is digested: the node without its review attributes. */
  function Core(node: Fields): Fields {
    WithAttrs(node, Attrs(node) - REVIEW)
  }

  datatype Fingerprint = Unrecorded | Of(core: Fields)

  predicate KnownTag(tag: string) {
    tag in {"ai_draft", "human_draft", "ai_revision", "human_revision", "reviewed"}
  }

  function TagForActor(actorKind: string, attrs: Fields): string {
    var existing := AsText(Get(attrs, "tag"));
    if KnownTag(existing) then existing
    else if actorKind == "ai" then "ai_draft"
    else "human_draft"
  }

  function ActorTag(actorKind: string, revision: bool): string {
    if actorKind == "ai" then (if revision then "ai_revision" else "ai_draft")
    else if revision then "human_revision"
    else "human_draft"
  }

  datatype Block = Block(
    id: string,
    nodeType: string,
    ordinal: nat,
    attrs: Fields,
    text: string,
    fingerprint: Fingerprint,
    updatedAt: int)

  function TagOf(block: Block): string {
    AsText(Get(block.attrs, "tag"))
  }

  function ProvenanceOf(block: Block): Fields {
    AsObject(Get(block.attrs, "provenance"))
  }

  function Tagged(attrs: Fields, tag: string, provenance: Fields): Fields {
    attrs["tag" := Text(tag)]["provenance" := Object(provenance)]
  }

  // ----- normalizing -----

  datatype Failure = Invalid | GeneratorFailed | Conflict | NotFound | BlockChanged | DuplicateBlock

  datatype Result<+T> = Ok(value: T) | Err(failure: Failure)

  /** Who writes, with what provenance, when; and which attributes are unsafe to keep. */
  datatype Author = Author(actorKind: string, provenance: Fields, now: int, signed: string -> bool)

  predicate LacksId(node: Fields) {
    Blank(AsText(Get(Attrs(node), "id")))
  }

  function Identify(node: Fields, id: string): Fields {
    if LacksId(node) then WithAttrs(node, Attrs(node)["id" := Text(id)]) else node
  }

  /** One pass of the loop in `NormalizeDocument`. */
  function NormalizeNode(author: Author, node: Fields, id: string): Fields {
    var safe := Sanitize(author.signed, Object(Identify(node, id))).fields;
    var attrs := Attrs(safe);
    WithAttrs(safe, Tagged(attrs, TagForActor(author.actorKind, attrs),
                           author.provenance + AsObject(Get(attrs, "provenance"))))
  }

  function BlockFor(author: Author, node: Fields, ordinal: nat): Block {
    Block(AsText(Get(Attrs(node), "id")), AsText(Get(node, "type")), ordinal, Attrs(node),
          PlainText(Object(node)), Of(Core(node)), author.now)
  }

  datatype Normalized = Normalized(nodes: seq<Fields>, blocks: seq<Block>, idsUsed: nat)

  /** The first `n` nodes; generated identities are taken from `ids` in turn. */
  function NormalizeNodes(author: Author, items: seq<Json>, ids: seq<string>, n: nat): Result<Normalized>
    requires n <= |items|
  {
    if n == 0 then Ok(Normalized([], [], 0))
    else
      match NormalizeNodes(author, items, ids, n - 1)
      case Err(failure) => Err(failure)
      case Ok(done) => NormalizeNext(author, items[n - 1], ids, done)
  }

  function NormalizeNext(author: Author, item: Json, ids: seq<string>, done: Normalized): Result<Normalized> {
    if !item.Object? then Err(Invalid)
    else if LacksId(item.fields) && done.idsUsed >= |ids| then Err(GeneratorFailed)
    else if AsText(Get(item.fields, "type")) == "" then Err(Invalid)
    else
      var id := if LacksId(item.fields) then ids[done.idsUsed] else "";
      var node := NormalizeNode(author, item.fields, id);
      Ok(Normalized(done.nodes + [node], done.blocks + [BlockFor(author, node, |done.blocks|)],
                    done.idsUsed + if LacksId(item.fields) then 1 else 0))
  }

  function NormalizeDocument(author: Author, document: Fields, ids: seq<string>): Result<Normalized> {
    if Get(document, "type") != Text("doc") then Err(Invalid)
    else
      var items := AsList(Get(document, "content"));
      NormalizeNodes(author, items, ids, |items|)
  }

  // ----- reconciling with the stored draft -----

  datatype Draft = Draft(revision: int, nodes: seq<Fields>, blocks: seq<Block>)

  /** A map filled in order keeps the last entry of each key. */
  function LastBlock(blocks: seq<Block>, id: string): Option<Block> {
    if blocks == [] then None
    else if blocks[|blocks| - 1].id == id then Some(blocks[|blocks| - 1])
    else LastBlock(blocks[..|blocks| - 1], id)
  }

  function LastNode(nodes: seq<Fields>, id: string): Option<Fields> {
    if nodes == [] then None
    else
      var last := nodes[|nodes| - 1];
      if id != "" && AsText(Get(Attrs(last), "id")) == id then Some(last) else LastNode(nodes[..|nodes| - 1], id)
  }

  /** A missing node hashes to a value that no node has. */
  function NodeHash(node: Option<Fields>): Option<Fields> {
    if node.Some? then Some(Core(node.value)) else None
  }

  /** Rows written before fingerprints existed are compared by their nodes. */
  predicate SameContent(previous: Draft, nodes: seq<Fields>, prior: Option<Block>, block: Block) {
    && prior.Some?
    && if prior.value.fingerprint.Unrecorded? then
         NodeHash(LastNode(previous.nodes, block.id)) == NodeHash(LastNode(nodes, block.id))
       else prior.value.fingerprint == block.fingerprint
  }

  function ReconcileBlock(author: Author, previous: Draft, nodes: seq<Fields>, block: Block): Block {
    var prior := LastBlock(previous.blocks, block.id);
    if SameContent(previous, nodes, prior, block) then
      block.(attrs := Tagged(block.attrs, TagForActor("", map["tag" := Text(TagOf(prior.value))]), ProvenanceOf(prior.value)),
             updatedAt := prior.value.updatedAt)
    else
      block.(attrs := Tagged(block.attrs, ActorTag(author.actorKind, prior.Some?), author.provenance),
             updatedAt := author.now)
  }

  function ReconcileBlocks(author: Author, previous: Draft, nodes: seq<Fields>, blocks: seq<Block>): (result: seq<Block>)
    ensures |result| == |blocks|
    ensures forall i :: 0 <= i < |blocks| ==> result[i] == ReconcileBlock(author, previous, nodes, blocks[i])
  {
    seq(|blocks|, i requires 0 <= i < |blocks| => ReconcileBlock(author, previous, nodes, blocks[i]))
  }

  /** A node and its block share one attribute object. */
  function ShareAttrs(nodes: seq<Fields>, blocks: seq<Block>): (result: seq<Fields>)
    requires |nodes| == |blocks|
    ensures |result| == |nodes|
    ensures forall i :: 0 <= i < |nodes| ==> result[i] == WithAttrs(nodes[i], blocks[i].attrs)
  {
    seq(|nodes|, i requires 0 <= i < |nodes| => WithAttrs(nodes[i], blocks[i].attrs))
  }

  datatype Prepared = Prepared(nodes: seq<Fields>, blocks: seq<Block>)

  lemma {:induction false} NormalizedPairs(author: Author, items: seq<Json>, ids: seq<string>, n: nat)
    requires n <= |items| && NormalizeNodes(author, items, ids, n).Ok?
    ensures
      var done := NormalizeNodes(author, items, ids, n).value;
      && |done.nodes| == |done.blocks| == n
      && forall i :: 0 <= i < n ==> done.blocks[i] == BlockFor(author, done.nodes[i], i)
    decreases n
  {
    hide NormalizeNode, BlockFor;
    if n > 0 {
      NormalizedPairs(author, items, ids, n - 1);
    }
  }

  /** `prepareProjectDraft`: what a flush, a restore or an accepted patch will store. */
  function Prepare(author: Author, previous: Draft, document: Fields, ids: seq<string>): Result<Prepared> {
    match NormalizeDocument(author, document, ids)
    case Err(failure) => Err(failure)
    case Ok(done) =>
      NormalizedPairs(author, AsList(Get(document, "content")), ids, |AsList(Get(document, "content"))|);
      var blocks := ReconcileBlocks(author, previous, done.nodes, done.blocks);
      Ok(Prepared(ShareAttrs(done.nodes, blocks), blocks))
  }
}
