/**
 * Adding derived edges to a map of edges: of the edges that qualify, the first few in key order
 * each contribute one edge, and nothing stored is overwritten.
 */
module Linking {
  import opened Basics
  import opened ByteOrder
  import opened GraphTypes

  type Edges = map<string, Edge>

  /** Which edges contribute, and the key and the edge they contribute. */
  datatype Linker = Linker(qualifies: Edge -> bool, key: Edge -> string, make: Edge -> Edge)

  function AddLink(l: Linker, edges: Edges, e: Edge): Edges {
    if l.key(e) in edges then edges else edges[l.key(e) := l.make(e)]
  }

  ghost predicate Lists(keys: seq<string>, edges: Edges) {
    forall i :: 0 <= i < |keys| ==> keys[i] in edges
  }

  ghost function AddLinks(l: Linker, edges: Edges, keys: seq<string>): Edges
    requires Lists(keys, edges)
    decreases |keys|
  {
    if keys == [] then edges else AddLink(l, AddLinks(l, edges, keys[..|keys| - 1]), edges[keys[|keys| - 1]])
  }

  ghost function Qualified(l: Linker, edges: Edges): set<string> {
    set k | k in edges && l.qualifies(edges[k])
  }

  lemma SortedLists(keys: set<string>, edges: Edges)
    requires keys <= edges.Keys
    ensures Lists(Sorted(keys), edges)
  {
    var r := Sorted(keys);
    forall i | 0 <= i < |r| ensures r[i] in edges { assert r[i] in Elements(r); }
  }

  /** The edges to link, in key order. */
  ghost function Qualifying(l: Linker, edges: Edges): (r: seq<string>)
    ensures Lists(r, edges)
  {
    SortedLists(Qualified(l, edges), edges);
    Sorted(Qualified(l, edges))
  }

  ghost function FirstOf(keys: seq<string>, n: nat): (r: seq<string>)
    ensures r <= keys && |r| <= n && (|keys| <= n ==> r == keys)
  {
    if |keys| <= n then keys else keys[..n]
  }

  ghost function Linked(l: Linker, edges: Edges, limit: nat): Edges {
    AddLinks(l, edges, FirstOf(Qualifying(l, edges), limit))
  }

  // What linking does.

  ghost predicate EdgesGrow(a: Edges, b: Edges) {
    forall k :: k in a ==> k in b && b[k] == a[k]
  }

  lemma {:induction false} AddLinksGrows(l: Linker, edges: Edges, keys: seq<string>)
    requires Lists(keys, edges)
    ensures EdgesGrow(edges, AddLinks(l, edges, keys))
    ensures |AddLinks(l, edges, keys)| <= |edges| + |keys|
    decreases |keys|
  {
    if keys != [] {
      AddLinksGrows(l, edges, keys[..|keys| - 1]);
      var before, e := AddLinks(l, edges, keys[..|keys| - 1]), edges[keys[|keys| - 1]];
      if l.key(e) !in before {
        assert AddLinks(l, edges, keys).Keys == before.Keys + {l.key(e)};
      }
    }
  }

  lemma {:induction false} AddLinksHas(l: Linker, edges: Edges, keys: seq<string>, i: nat)
    requires Lists(keys, edges) && i < |keys|
    ensures l.key(edges[keys[i]]) in AddLinks(l, edges, keys)
    decreases |keys|
  {
    if i < |keys| - 1 { AddLinksHas(l, edges, keys[..|keys| - 1], i); }
  }

  /** Every new edge is contributed by one of the listed edges. */
  lemma {:induction false} AddLinksOrigin(l: Linker, edges: Edges, keys: seq<string>, k: string) returns (i: nat)
    requires Lists(keys, edges) && k in AddLinks(l, edges, keys) && k !in edges
    ensures i < |keys| && k == l.key(edges[keys[i]]) && AddLinks(l, edges, keys)[k] == l.make(edges[keys[i]])
    decreases |keys|
  {
    if k in AddLinks(l, edges, keys[..|keys| - 1]) {
      i := AddLinksOrigin(l, edges, keys[..|keys| - 1], k);
    } else {
      i := |keys| - 1;
    }
  }

  lemma {:induction false} AddLinksAgain(l: Linker, edges: Edges, keys: seq<string>)
    requires Lists(keys, edges)
    requires forall i :: 0 <= i < |keys| ==> l.key(edges[keys[i]]) in edges
    ensures AddLinks(l, edges, keys) == edges
    decreases |keys|
  {
    if keys != [] { AddLinksAgain(l, edges, keys[..|keys| - 1]); }
  }

  lemma LinkedGrows(l: Linker, edges: Edges, limit: nat)
    ensures EdgesGrow(edges, Linked(l, edges, limit)) && |Linked(l, edges, limit)| <= |edges| + limit
  {
    AddLinksGrows(l, edges, FirstOf(Qualifying(l, edges), limit));
  }

  lemma LinkedOrigin(l: Linker, edges: Edges, limit: nat, k: string) returns (c: string)
    requires k in Linked(l, edges, limit) && k !in edges
    ensures c in Qualified(l, edges) && k == l.key(edges[c]) && Linked(l, edges, limit)[k] == l.make(edges[c])
  {
    var keys := FirstOf(Qualifying(l, edges), limit);
    var i := AddLinksOrigin(l, edges, keys, k);
    c := keys[i];
    assert c in Elements(Sorted(Qualified(l, edges)));
  }

  /** With at most `limit` edges that qualify, each of them has its link. */
  lemma LinkedIsComplete(l: Linker, edges: Edges, limit: nat, c: string)
    requires c in Qualified(l, edges) && |Qualified(l, edges)| <= limit
    ensures l.key(edges[c]) in Linked(l, edges, limit)
  {
    var keys := Qualifying(l, edges);
    assert c in Elements(keys);
    var i :| 0 <= i < |keys| && keys[i] == c;
    AddLinksHas(l, edges, keys, i);
  }

  ghost predicate NeverQualifies(l: Linker, edges: Edges) {
    forall k :: k in Qualified(l, edges) ==> !l.qualifies(l.make(edges[k]))
  }

  /** Links never qualify themselves, so linking again changes nothing. */
  lemma LinkingTwice(l: Linker, edges: Edges, limit: nat)
    requires NeverQualifies(l, edges)
    ensures Linked(l, Linked(l, edges, limit), limit) == Linked(l, edges, limit)
  {
    var keys := FirstOf(Qualifying(l, edges), limit);
    var once := Linked(l, edges, limit);
    AddLinksGrows(l, edges, keys);
    forall k | k in once && k !in edges ensures !l.qualifies(once[k]) {
      var c := LinkedOrigin(l, edges, limit, k);
    }
    assert Qualified(l, once) == Qualified(l, edges);
    forall i | 0 <= i < |keys| ensures l.key(once[keys[i]]) in once {
      AddLinksHas(l, edges, keys, i);
    }
    AddLinksAgain(l, once, keys);
  }

  // The loop.

  /** The listed keys that qualify, in the same order. */
  ghost function Pick(l: Linker, edges: Edges, keys: seq<string>): (r: seq<string>)
    requires Lists(keys, edges)
    ensures Lists(r, edges)
    decreases |keys|
  {
    if keys == [] then []
    else
      var before, last := Pick(l, edges, keys[..|keys| - 1]), keys[|keys| - 1];
      if l.qualifies(edges[last]) then before + [last] else before
  }

  lemma {:induction false} PickIs(l: Linker, edges: Edges, keys: seq<string>)
    requires Lists(keys, edges) && Ascending(keys)
    ensures Ascending(Pick(l, edges, keys))
    ensures forall k :: k in Elements(Pick(l, edges, keys)) <==> k in Elements(keys) && k in Qualified(l, edges)
    decreases |keys|
  {
    if keys != [] {
      var init, last := keys[..|keys| - 1], keys[|keys| - 1];
      PickIs(l, edges, init);
      assert keys == init + [last];
      forall k | k in Pick(l, edges, init) ensures Less(k, last) {
        assert k in Elements(Pick(l, edges, init));
        assert k in init;
      }
      AscendingAppend(Pick(l, edges, init), last);
    }
  }

  lemma PickAll(l: Linker, edges: Edges, keys: seq<string>)
    requires Lists(keys, edges) && Ascending(keys) && Elements(keys) == edges.Keys
    ensures Pick(l, edges, keys) == Qualifying(l, edges)
  {
    PickIs(l, edges, keys);
    assert Elements(Pick(l, edges, keys)) == Qualified(l, edges);
    AscendingIsUnique(Pick(l, edges, keys), Qualifying(l, edges));
  }

  lemma PickNext(l: Linker, edges: Edges, keys: seq<string>, i: nat)
    requires Lists(keys, edges) && i < |keys|
    ensures Pick(l, edges, keys[..i + 1]) ==
            Pick(l, edges, keys[..i]) + if l.qualifies(edges[keys[i]]) then [keys[i]] else []
  {
    assert keys[..i + 1][..i] == keys[..i];
  }

  lemma {:induction false} PickPrefix(l: Linker, edges: Edges, keys: seq<string>, i: nat)
    requires Lists(keys, edges) && i <= |keys|
    ensures Pick(l, edges, keys[..i]) <= Pick(l, edges, keys)
    decreases |keys| - i
  {
    if i == |keys| {
      assert keys[..i] == keys;
    } else {
      PickNext(l, edges, keys, i);
      PickPrefix(l, edges, keys, i + 1);
    }
  }

  lemma AddLinksNext(l: Linker, edges: Edges, keys: seq<string>, k: string)
    requires Lists(keys, edges) && k in edges
    ensures AddLinks(l, edges, keys + [k]) == AddLink(l, AddLinks(l, edges, keys), edges[k])
  {
    assert (keys + [k])[..|keys|] == keys;
  }

  lemma PickedEnough(l: Linker, edges: Edges, keys: seq<string>, i: nat, limit: nat)
    requires Lists(keys, edges) && Ascending(keys) && Elements(keys) == edges.Keys && i <= |keys|
    requires |Pick(l, edges, keys[..i])| <= limit && (i == |keys| || |Pick(l, edges, keys[..i])| == limit)
    ensures Pick(l, edges, keys[..i]) == FirstOf(Qualifying(l, edges), limit)
  {
    PickAll(l, edges, keys);
    PickPrefix(l, edges, keys, i);
    if i == |keys| { assert keys[..i] == keys; }
  }

  /** The links of the qualifying keys among the first `i` are in. */
  ghost predicate LinkedUpTo(l: Linker, edges: Edges, keys: seq<string>, i: nat, picked: seq<string>, r: Edges)
    requires Lists(keys, edges) && i <= |keys|
  {
    picked == Pick(l, edges, keys[..i]) && r == AddLinks(l, edges, picked)
  }

  lemma LinkedUpToNext(l: Linker, edges: Edges, keys: seq<string>, i: nat, picked: seq<string>, r: Edges)
    requires Lists(keys, edges) && i < |keys| && LinkedUpTo(l, edges, keys, i, picked, r)
    ensures l.qualifies(edges[keys[i]]) ==> LinkedUpTo(l, edges, keys, i + 1, picked + [keys[i]],
                                                       AddLink(l, r, edges[keys[i]]))
    ensures !l.qualifies(edges[keys[i]]) ==> LinkedUpTo(l, edges, keys, i + 1, picked, r)
  {
    PickNext(l, edges, keys, i);
    AddLinksNext(l, edges, picked, keys[i]);
  }

  lemma LinkedEnough(l: Linker, edges: Edges, keys: seq<string>, i: nat, picked: seq<string>, r: Edges, limit: nat)
    requires Lists(keys, edges) && Ascending(keys) && Elements(keys) == edges.Keys && i <= |keys|
    requires LinkedUpTo(l, edges, keys, i, picked, r)
    requires |picked| <= limit && (i == |keys| || |picked| == limit)
    ensures r == Linked(l, edges, limit)
  {
    PickedEnough(l, edges, keys, i, limit);
  }

  /** Consider the edges in key order and stop once enough links were emitted. */
  method LinkAll(l: Linker, edges: Edges, limit: nat) returns (r: Edges)
    ensures r == Linked(l, edges, limit)
  {
    var keys := Sorted(edges.Keys);
    SortedLists(edges.Keys, edges);
    ghost var picked: seq<string> := [];
    r := edges;
    var emitted, i := 0, 0;
    while i < |keys| && emitted < limit
      invariant 0 <= i <= |keys| && emitted == |picked| <= limit
      invariant LinkedUpTo(l, edges, keys, i, picked, r)
    {
      LinkedUpToNext(l, edges, keys, i, picked, r);
      if l.qualifies(edges[keys[i]]) {
        picked := picked + [keys[i]];
        r := AddLink(l, r, edges[keys[i]]);
        emitted := emitted + 1;
      }
      i := i + 1;
    }
    LinkedEnough(l, edges, keys, i, picked, r, limit);
  }
}

/**
 * Anchors and ANCHOR_LINK edges.  Each vertex with a telling name gets an anchor; each eligible
 * edge between two differently named anchors gets a parallel ANCHOR_LINK edge, up to a limit.
 */
module Anchors {
  import opened Basics
  import opened ByteOrder
  import T = Text
  import opened GraphTypes
  import opened GraphModel
  import opened Accumulator
  import opened Linking

  const LINKER := "anchor-linker"
  const MAX_LINKS := 10_000

  // Property readers.

  function TextProp(bag: Properties, name: string): Option<string> {
    match Property(bag, name)
    case Text(s) => if T.IsBlank(s) then None else Some(s)
    case _ => None
  }

  function IntProp(bag: Properties, name: string): Option<int> {
    match Property(bag, name)
    case Int(n) => Some(n)
    case _ => None
  }

  function DoubleProp(bag: Properties, name: string): Option<real> {
    match Property(bag, name)
    case Dbl(Finite(r)) => Some(r)
    case Int(n) => Some(n as real)
    case _ => None
  }

  function OrElse<X>(a: Option<X>, b: Option<X>): Option<X> {
    if a.Some? then a else b
  }

  function DefaultTier(confidence: real): string {
    if confidence >= 0.8 then EXTRACTED else INFERRED
  }

  // Anchors of vertices.

  function AnchorKind(kind: string): Option<string> {
    match kind
    case "file" => Some("file")
    case "function" => Some("symbol")
    case "method" => Some("symbol")
    case "class" => Some("symbol")
    case "symbol" => Some("symbol")
    case _ => None
  }

  function AnchorName(v: Vertex): string {
    UnwrapOr(OrElse(TextProp(v.properties, "label"), OrElse(TextProp(v.properties, "key"), TextProp(v.properties, "path"))), "")
  }

  predicate LowSignal(normalized: string) {
    normalized in ["print", "println", "len", "format", "string", "logger", "log", "error"]
  }

  /** The normalized name under which a vertex is anchored, if it is anchored at all. */
  function PrimaryKey(v: Vertex): Option<string> {
    var name := AnchorName(v);
    var normalized := NormalizeToken(name);
    if AnchorKind(v.kind).None? || name == "" || normalized == "" || LowSignal(normalized) then None
    else Some(normalized)
  }

  function AnchorOf(v: Vertex): Anchor
    requires PrimaryKey(v).Some?
  {
    var source := UnwrapOr(TextProp(v.properties, "source"), "graph-builder");
    var confidence := UnwrapOr(DoubleProp(v.properties, "confidence"),
                               if "scip" <= source then SCIP_CONFIDENCE else 0.6);
    Anchor(AnchorKind(v.kind).value, "PROVIDES", AnchorName(v), PrimaryKey(v).value, v.vid,
           OrElse(TextProp(v.properties, "evidenceFilePath"), TextProp(v.properties, "path")),
           IntProp(v.properties, "startLine"), IntProp(v.properties, "endLine"),
           confidence, UnwrapOr(TextProp(v.properties, "confidenceTier"), DefaultTier(confidence)), source)
  }

  function AnchorKey(a: Anchor): string {
    a.kind + "|" + a.direction + "|" + a.normalizedKey + "|" + a.nodeVid
  }

  function AddAnchor(anchors: map<string, Anchor>, a: Anchor): map<string, Anchor> {
    if AnchorKey(a) in anchors then anchors else anchors[AnchorKey(a) := a]
  }

  function AddAnchors(anchors: map<string, Anchor>, vs: seq<Vertex>): map<string, Anchor> {
    if vs == [] then anchors
    else
      var before := AddAnchors(anchors, vs[..|vs| - 1]);
      if PrimaryKey(vs[|vs| - 1]).None? then before else AddAnchor(before, AnchorOf(vs[|vs| - 1]))
  }

  /** The first anchored vertex of a vid names it. */
  function Primary(vs: seq<Vertex>): map<string, string> {
    if vs == [] then map[]
    else
      var before, v := Primary(vs[..|vs| - 1]), vs[|vs| - 1];
      if PrimaryKey(v).None? || v.vid in before then before else before[v.vid := PrimaryKey(v).value]
  }

  function Values(vertices: map<string, Vertex>, keys: seq<string>): seq<Vertex>
    requires forall k :: k in keys ==> k in vertices
  {
    seq(|keys|, i requires 0 <= i < |keys| => vertices[keys[i]])
  }

  lemma SortedListsKeys<V>(m: map<string, V>)
    ensures forall k :: k in Sorted(m.Keys) <==> k in m
  {
    assert forall k :: k in Sorted(m.Keys) <==> k in Elements(Sorted(m.Keys));
  }

  /** The vertices in the order of their keys. */
  function VertexList(vertices: map<string, Vertex>): seq<Vertex> {
    SortedListsKeys(vertices);
    Values(vertices, Sorted(vertices.Keys))
  }

  // Links.

  predicate Eligible(kind: string) {
    kind in ["CALLS", "REFERENCES", "IMPORTS", "IMPORTS_FROM", "EXTENDS", "IMPLEMENTS", "TYPE_DEFINES", "HANDLES", "EMITS", "PROVIDES", "CONSUMES"]
  }

  /** An eligible edge between two vertices anchored under different names. */
  predicate Linkable(primary: map<string, string>, e: Edge) {
    Eligible(e.kind) && e.fromVid in primary && e.toVid in primary && primary[e.fromVid] != primary[e.toVid]
  }

  function Min(a: real, b: real): real {
    if a <= b then a else b
  }

  function ScopeFromEdge(e: Edge): CodeGraphScope {
    var p := e.properties;
    CodeGraphScope(
      UnwrapOr(IntProp(p, "orgId"), 0), UnwrapOr(IntProp(p, "repoId"), 0),
      UnwrapOr(TextProp(p, "revision"), ""), UnwrapOr(TextProp(p, "commitHash"), ""), UnwrapOr(TextProp(p, "workspaceId"), ""),
      IntProp(p, "schemaVersion"), TextProp(p, "builderVersion"))
  }

  function NameOf(primary: map<string, string>, vid: string): string {
    if vid in primary then primary[vid] else ""
  }

  function LinkOptions(primary: map<string, string>, e: Edge): EdgeOptions {
    var confidence := Min(UnwrapOr(DoubleProp(e.properties, "confidence"), 0.75), 0.9);
    EdgeOptions(
      Some(confidence), Some(UnwrapOr(TextProp(e.properties, "confidenceTier"), DefaultTier(confidence))),
      TextProp(e.properties, "evidenceFilePath"), IntProp(e.properties, "startLine"), IntProp(e.properties, "endLine"),
      Some(LINKER), TextProp(e.properties, "context"),
      Some(NameOf(primary, e.fromVid) + "->" + NameOf(primary, e.toVid) + ":" + LowerAll(e.kind)))
  }

  function LinkKey(h: Hashes, e: Edge): string {
    KeyFor(h, e.fromVid, e.toVid, ANCHOR_LINK, LINKER)
  }

  function LinkEdge(h: Hashes, primary: map<string, string>, e: Edge): Edge {
    NewEdge(h, ScopeFromEdge(e), e.fromVid, e.toVid, ANCHOR_LINK, LINKER, LinkOptions(primary, e))
  }

  function LinkerOf(h: Hashes, primary: map<string, string>): Linker {
    Linker(e => Linkable(primary, e), e => LinkKey(h, e), e => LinkEdge(h, primary, e))
  }

  ghost function Materialized(h: Hashes, g: Graph): Graph {
    Graph(g.vertices,
          Linked(LinkerOf(h, Primary(VertexList(g.vertices))), g.edges, MAX_LINKS),
          AddAnchors(g.anchors, VertexList(g.vertices)))
  }

  // What adding anchors does.

  lemma {:induction false} AddAnchorsHas(anchors: map<string, Anchor>, vs: seq<Vertex>, i: nat)
    requires i < |vs| && PrimaryKey(vs[i]).Some?
    ensures AnchorKey(AnchorOf(vs[i])) in AddAnchors(anchors, vs)
  {
    if i < |vs| - 1 { AddAnchorsHas(anchors, vs[..|vs| - 1], i); }
  }

  lemma {:induction false} AddAnchorsAgain(anchors: map<string, Anchor>, vs: seq<Vertex>)
    requires forall i :: 0 <= i < |vs| && PrimaryKey(vs[i]).Some? ==> AnchorKey(AnchorOf(vs[i])) in anchors
    ensures AddAnchors(anchors, vs) == anchors
  {
    if vs != [] {
      var init := vs[..|vs| - 1];
      assert forall i :: 0 <= i < |init| ==> init[i] == vs[i];
      AddAnchorsAgain(anchors, init);
    }
  }

  /** Anchors already stored stay; every other one is the anchor of a listed vertex. */
  lemma {:induction false} AddAnchorsOrigin(anchors: map<string, Anchor>, vs: seq<Vertex>, k: string)
    requires k in AddAnchors(anchors, vs)
    ensures (k in anchors && AddAnchors(anchors, vs)[k] == anchors[k])
            || exists v :: v in vs && PrimaryKey(v).Some? && AddAnchors(anchors, vs)[k] == AnchorOf(v) && k == AnchorKey(AnchorOf(v))
  {
    if vs != [] {
      var init, last := vs[..|vs| - 1], vs[|vs| - 1];
      if k in AddAnchors(anchors, init) {
        AddAnchorsOrigin(anchors, init, k);
      } else {
        assert last in vs && k == AnchorKey(AnchorOf(last));
      }
    }
  }

  // Primary keys of a map whose keys are the vids.

  ghost predicate Names(p: map<string, string>, vertices: map<string, Vertex>, keys: seq<string>, vid: string)
    requires forall k :: k in keys ==> k in vertices
  {
    && (vid in p <==> vid in keys && PrimaryKey(vertices[vid]).Some?)
    && (vid in p ==> p[vid] == PrimaryKey(vertices[vid]).value)
  }

  lemma PrimaryAppend(vs: seq<Vertex>, v: Vertex)
    ensures Primary(vs + [v]) ==
            if PrimaryKey(v).None? || v.vid in Primary(vs) then Primary(vs) else Primary(vs)[v.vid := PrimaryKey(v).value]
  {
    assert (vs + [v])[..|vs|] == vs;
  }

  lemma {:induction false} PrimaryOf(vertices: map<string, Vertex>, keys: seq<string>, vid: string)
    requires Ascending(keys) && (forall k :: k in keys ==> k in vertices && vertices[k].vid == k)
    ensures Names(Primary(Values(vertices, keys)), vertices, keys, vid)
  {
    if keys != [] {
      var init, last := keys[..|keys| - 1], keys[|keys| - 1];
      PrimaryOf(vertices, init, vid);
      assert Values(vertices, keys) == Values(vertices, init) + [vertices[last]];
      PrimaryAppend(Values(vertices, init), vertices[last]);
      assert last !in init by { LessIsStrict(last); }
    }
  }

  /** With vertices stored under their vids, a vid is named by its own vertex. */
  lemma PrimaryIsOwnName(vertices: map<string, Vertex>, vid: string)
    requires forall k :: k in vertices ==> vertices[k].vid == k
    ensures var p := Primary(VertexList(vertices));
            && (vid in p <==> vid in vertices && PrimaryKey(vertices[vid]).Some?)
            && (vid in p ==> p[vid] == PrimaryKey(vertices[vid]).value)
  {
    SortedListsKeys(vertices);
    PrimaryOf(vertices, Sorted(vertices.Keys), vid);
  }

  // The scope of a link.

  lemma {:induction false} TrimEndKeepsFirst(s: string)
    requires s != "" && !T.IsWhitespace(s[0])
    ensures T.TrimEnd(s) != ""
  {
    if |s| > 1 { TrimEndKeepsFirst(s[..|s| - 1]); }
  }

  lemma BlankFirst(s: string)
    requires s != "" && !T.IsWhitespace(s[0])
    ensures !T.IsBlank(s)
  {
    TrimEndKeepsFirst(s);
  }

  lemma ShaIsNotBlank(s: string)
    requires IsSha(s)
    ensures !T.IsBlank(s)
  {
    assert IsHexDigit(s[0]);
    BlankFirst(s);
  }

  ghost predicate Stamp(bag: Properties, name: string, value: Primitive) {
    name in bag && bag[name] == value
  }

  lemma StampsAre(bag: Properties, s: CodeGraphScope)
    requires Stamped(bag, s)
    ensures Stamp(bag, "orgId", Int(s.orgId)) && Stamp(bag, "workspaceId", Text(s.workspaceId))
    ensures Stamp(bag, "repoId", Int(s.repoId))
    ensures Stamp(bag, "revision", Text(s.revision)) && Stamp(bag, "commitHash", Text(s.commitHash))
    ensures Stamp(bag, "schemaVersion", Int(SchemaVersionOf(s)))
    ensures Stamp(bag, "builderVersion", Text(BuilderVersionOf(s)))
  {
    var m := Stamps(s);
    assert "orgId" in m && "workspaceId" in m && "repoId" in m && "revision" in m && "commitHash" in m
        && "schemaVersion" in m && "builderVersion" in m;
    assert "orgId"[0] == 'o' && "workspaceId"[0] == 'w' && "repoId"[2] == 'p' && "revision"[2] == 'v'
        && "commitHash"[0] == 'c' && "schemaVersion"[0] == 's' && "builderVersion"[0] == 'b';
  }

  /** An edge stamped with a valid scope gives that scope back, its defaulted versions made explicit. */
  lemma ScopeFromStamped(e: Edge, s: CodeGraphScope)
    requires ValidScope(s) && Stamped(e.properties, s)
    ensures ScopeFromEdge(e) == s.(schemaVersion := Some(SchemaVersionOf(s)),
                                   builderVersion := Some(BuilderVersionOf(s)))
  {
    StampsAre(e.properties, s);
    ShaIsNotBlank(s.commitHash);
    BlankFirst(BUILDER_VERSION);
  }
}
