/** What holds of every graph that is accumulated, reconciled and linked. */
module GraphSnapshot {
  import opened Basics
  import opened GraphTypes
  import opened GraphModel
  import opened Accumulator
  import opened AccumulatorLaws
  import O = AccumulatorOrigins
  import opened Anchors
  import opened Linking
  import Tr = Triples
  import R = Reconcile
  import B = GraphBuilder

  // Materializing anchors.

  ghost predicate IsNewLink(h: Hashes, g: Graph, k: string) {
    k in Materialized(h, g).edges && k !in g.edges
  }

  /** What the link's columns read: the edge's evidence, a capped confidence, the linker, and the two names. */
  ghost predicate LinkSays(primary: map<string, string>, link: Edge, e: Edge)
    requires Linkable(primary, e)
  {
    var p, own := e.properties, UnwrapOr(DoubleProp(e.properties, "confidence"), 0.75);
    var confidence := if own > 0.9 then 0.9 else own;
    && O.ReadSays(link.properties) == O.Says(
         Real(confidence), Text(UnwrapOr(TextProp(p, "confidenceTier"), DefaultTier(confidence))),
         TextOrNull(TextProp(p, "evidenceFilePath")), IntOrNull(IntProp(p, "startLine")), IntOrNull(IntProp(p, "endLine")), Text(LINKER), Text(LINKER))
    && Property(link.properties, "context") == TextOrNull(if TextProp(p, "context").Some? then TextProp(p, "context") else DefaultContext(ANCHOR_LINK))
    && Property(link.properties, "normalizedKey") == Text(primary[e.fromVid] + "->" + primary[e.toVid] + ":" + LowerAll(e.kind))
  }

  lemma LinkEdgeSays(h: Hashes, primary: map<string, string>, e: Edge)
    requires Linkable(primary, e)
    ensures LinkSays(primary, LinkEdge(h, primary, e), e)
  {
    var s, o := ScopeFromEdge(e), LinkOptions(primary, e);
    O.NewEdgeSays(h, s, e.fromVid, e.toVid, ANCHOR_LINK, LINKER, o);
    NormalizedKeyIsNoStamp(s);
    O.ColumnReads(EdgeColumns(ANCHOR_LINK, LINKER, o), Stamps(s), "normalizedKey");
  }

  lemma NormalizedKeyIsNoStamp(s: CodeGraphScope)
    ensures "normalizedKey" !in Stamps(s)
  {
    assert "normalizedKey"[0] == 'n' && "orgId"[0] == 'o' && "workspaceId"[0] == 'w' && "repoId"[0] == 'r' && "revision"[0] == 'r' && "commitHash"[0] == 'c'
        && "schemaVersion"[0] == 's' && "builderVersion"[0] == 'b';
  }

  /** What a link has in common with the edge it runs beside. */
  ghost predicate Parallels(h: Hashes, primary: map<string, string>, link: Edge, e: Edge) {
    && link.kind == ANCHOR_LINK && link.fromVid == e.fromVid && link.toVid == e.toVid
    && link.rank == RankOf(h, e.fromVid, e.toVid, ANCHOR_LINK, LINKER)
    && Stamped(link.properties, ScopeFromEdge(e))
    && Linkable(primary, e) && LinkSays(primary, link, e)
  }

  lemma LinkEdgeParallels(h: Hashes, primary: map<string, string>, e: Edge)
    requires Linkable(primary, e)
    ensures Parallels(h, primary, LinkEdge(h, primary, e), e)
  {
    EdgeBagStamped(ScopeFromEdge(e), ANCHOR_LINK, LINKER, LinkOptions(primary, e));
    LinkEdgeSays(h, primary, e);
  }

  /** Vertices and existing edges are unchanged, and at most 10,000 edges are added. */
  lemma MaterializedKeeps(h: Hashes, g: Graph)
    ensures Materialized(h, g).vertices == g.vertices
    ensures EdgesGrow(g.edges, Materialized(h, g).edges)
    ensures |Materialized(h, g).edges| <= |g.edges| + 10_000
  {
    LinkedGrows(LinkerOf(h, Primary(VertexList(g.vertices))), g.edges, MAX_LINKS);
  }

  /**
   * Every added edge is an ANCHOR_LINK parallel to an eligible edge between differently named
   * anchors, with that edge's scope.
   */
  lemma NewLinkParallels(h: Hashes, g: Graph, k: string) returns (c: string)
    requires IsNewLink(h, g, k)
    ensures c in g.edges && Parallels(h, Primary(VertexList(g.vertices)), Materialized(h, g).edges[k], g.edges[c])
    ensures k == LinkKey(h, g.edges[c])
  {
    var primary := Primary(VertexList(g.vertices));
    c := LinkedOrigin(LinkerOf(h, primary), g.edges, MAX_LINKS, k);
    LinkEdgeParallels(h, primary, g.edges[c]);
  }

  /** At most one link joins two vertices. */
  lemma OneNewLinkPerPair(h: Hashes, g: Graph, j: string, k: string)
    requires IsNewLink(h, g, j) && IsNewLink(h, g, k)
    requires Materialized(h, g).edges[j].fromVid == Materialized(h, g).edges[k].fromVid
    requires Materialized(h, g).edges[j].toVid == Materialized(h, g).edges[k].toVid
    ensures j == k
  {
    var c := NewLinkParallels(h, g, j);
    var d := NewLinkParallels(h, g, k);
  }

  ghost function LinkKeys(g: Graph): set<string> {
    set k | k in g.edges && g.edges[k].kind == ANCHOR_LINK
  }

  lemma LinkKeysAreNew(h: Hashes, g: Graph, k: string)
    requires NoLinks(g)
    ensures k in LinkKeys(Materialized(h, g)) <==> IsNewLink(h, g, k)
  {
    MaterializedKeeps(h, g);
    if IsNewLink(h, g, k) { var c := NewLinkParallels(h, g, k); }
  }

  lemma CountNew(before: Edges, after: Edges, links: set<string>, n: nat)
    requires EdgesGrow(before, after) && |after| <= |before| + n
    requires forall k :: k in links <==> k in after && k !in before
    ensures |links| <= n
  {
    assert after.Keys == before.Keys + links;
    assert |after.Keys| == |before.Keys| + |links|;
  }

  /** From a graph without links: at most 10,000 links. */
  lemma LinksAreBounded(h: Hashes, g: Graph)
    requires NoLinks(g)
    ensures |LinkKeys(Materialized(h, g))| <= 10_000
  {
    var after, links := Materialized(h, g).edges, LinkKeys(Materialized(h, g));
    forall k ensures k in links <==> k in after && k !in g.edges {
      LinkKeysAreNew(h, g, k);
    }
    MaterializedKeeps(h, g);
    CountNew(g.edges, after, links, 10_000);
  }

  /** With at most 10,000 linkable edges, every one of them has its link stored. */
  lemma EveryLinkableEdgeIsLinked(h: Hashes, g: Graph, c: string)
    requires var l := LinkerOf(h, Primary(VertexList(g.vertices))); c in Qualified(l, g.edges) && |Qualified(l, g.edges)| <= MAX_LINKS
    ensures LinkKey(h, g.edges[c]) in Materialized(h, g).edges
  {
    LinkedIsComplete(LinkerOf(h, Primary(VertexList(g.vertices))), g.edges, MAX_LINKS, c);
  }

  lemma LinksAreNotEligible()
    ensures !Eligible(ANCHOR_LINK)
  {
    assert ANCHOR_LINK[0] == 'A';
  }

  /** Materializing twice is materializing once, whatever the graph. */
  lemma MaterializedIsIdempotent(h: Hashes, g: Graph)
    ensures Materialized(h, Materialized(h, g)) == Materialized(h, g)
  {
    LinksAreNotEligible();
    LinkingTwice(LinkerOf(h, Primary(VertexList(g.vertices))), g.edges, MAX_LINKS);
    var vs := VertexList(g.vertices);
    forall i | 0 <= i < |vs| && PrimaryKey(vs[i]).Some?
      ensures AnchorKey(AnchorOf(vs[i])) in AddAnchors(g.anchors, vs)
    {
      AddAnchorsHas(g.anchors, vs, i);
    }
    AddAnchorsAgain(AddAnchors(g.anchors, vs), vs);
  }

  // The whole build.

  ghost function Accumulated(h: Hashes, s: CodeGraphScope, repoVid: string, bs: seq<Batch>): Graph {
    AddBatches(h, EMPTY, s, repoVid, bs)
  }

  ghost function Built(h: Hashes, s: CodeGraphScope, repoVid: string, bs: seq<Batch>): Graph {
    var g := Accumulated(h, s, repoVid, bs);
    Materialized(h, g.(edges := R.Reconciled(g.edges)))
  }

  lemma ReconciledIsGood(h: Hashes, g: Graph, s: CodeGraphScope, repoVid: string)
    requires Good(h, g, s, repoVid)
    ensures Good(h, g.(edges := R.Reconciled(g.edges)), s, repoVid)
  {
    var g' := g.(edges := R.Reconciled(g.edges));
    forall k | k in g'.edges ensures EdgeOk(g', s, repoVid, k) {
      assert EdgeOk(g, s, repoVid, k);
    }
    forall vid | vid in g'.vertices ensures VertexOk(g', s, vid) {
      assert VertexOk(g, s, vid);
    }
  }

  lemma SameStamps(bag: Properties, e: Edge, s: CodeGraphScope)
    requires ValidScope(s) && Stamped(e.properties, s) && Stamped(bag, ScopeFromEdge(e))
    ensures Stamped(bag, s)
  {
    ScopeFromStamped(e, s);
    assert Stamps(ScopeFromEdge(e)) == Stamps(s);
  }

  /** A link beside a well-formed edge is well formed, with the same stamps. */
  lemma LinkIsOk(h: Hashes, g: Graph, s: CodeGraphScope, repoVid: string, k: string)
    requires ValidScope(s) && Good(h, g, s, repoVid) && IsNewLink(h, g, k)
    ensures EdgeOk(Materialized(h, g), s, repoVid, k)
  {
    var c := NewLinkParallels(h, g, k);
    assert EdgeOk(g, s, repoVid, c);
    SameStamps(Materialized(h, g).edges[k].properties, g.edges[c], s);
  }

  lemma MaterializedIsOk(h: Hashes, g: Graph, s: CodeGraphScope, repoVid: string)
    requires ValidScope(s) && Good(h, g, s, repoVid)
    ensures GraphOk(Materialized(h, g), s, repoVid)
  {
    var g' := Materialized(h, g);
    MaterializedKeeps(h, g);
    forall k | k in g'.edges ensures EdgeOk(g', s, repoVid, k) {
      if k in g.edges {
        assert EdgeOk(g, s, repoVid, k);
      } else {
        LinkIsOk(h, g, s, repoVid, k);
      }
    }
    forall vid | vid in g'.vertices ensures VertexOk(g', s, vid) {
      assert VertexOk(g, s, vid);
    }
  }

  lemma MaterializedIsOnePerTriple(h: Hashes, g: Graph)
    requires NoLinks(g) && Tr.OnePerTriple(g.edges)
    ensures Tr.OnePerTriple(Materialized(h, g).edges)
  {
    var g' := Materialized(h, g);
    MaterializedKeeps(h, g);
    forall j, k | j in g'.edges && k in g'.edges && Tr.TripleOf(g'.edges[j]) == Tr.TripleOf(g'.edges[k])
      ensures j == k
    {
      if j !in g.edges || k !in g.edges {
        LinkKeysAreNew(h, g, j);
        LinkKeysAreNew(h, g, k);
        OneNewLinkPerPair(h, g, j, k);
      }
    }
  }

  /**
   * For every sequence of batches under one valid scope: every edge ends at a stored vertex and
   * starts at one or at the repository, every row carries the scope's stamps, and no
   * (from, to, kind) triple occurs twice.
   */
  lemma BuiltIsSound(h: Hashes, s: CodeGraphScope, repoVid: string, bs: seq<Batch>)
    requires ValidScope(s)
    ensures GraphOk(Built(h, s, repoVid, bs), s, repoVid)
    ensures Tr.OnePerTriple(Built(h, s, repoVid, bs).edges)
  {
    AddBatchesKeeps(h, EMPTY, s, repoVid, bs);
    var g := Accumulated(h, s, repoVid, bs);
    var reconciled := g.(edges := R.Reconciled(g.edges));
    ReconciledIsGood(h, g, s, repoVid);
    R.ReconciledTriples(g.edges);
    MaterializedIsOk(h, reconciled, s, repoVid);
    MaterializedIsOnePerTriple(h, reconciled);
  }

  /** The triples of a built graph are those of the accumulated one and its links. */
  lemma BuiltTriples(h: Hashes, s: CodeGraphScope, repoVid: string, bs: seq<Batch>, t: Tr.Triple)
    requires ValidScope(s)
    ensures t.kind != ANCHOR_LINK ==>
              (t in Tr.TriplesOf(Built(h, s, repoVid, bs).edges) <==> t in Tr.TriplesOf(Accumulated(h, s, repoVid, bs).edges))
  {
    AddBatchesKeeps(h, EMPTY, s, repoVid, bs);
    var g := Accumulated(h, s, repoVid, bs);
    var reconciled := g.(edges := R.Reconciled(g.edges));
    R.ReconciledTriples(g.edges);
    MaterializedKeeps(h, reconciled);
    if t in Tr.TriplesOf(Built(h, s, repoVid, bs).edges) && t.kind != ANCHOR_LINK {
      var k :| k in Built(h, s, repoVid, bs).edges && Tr.TripleOf(Built(h, s, repoVid, bs).edges[k]) == t;
      if k !in reconciled.edges { var c := NewLinkParallels(h, reconciled, k); }
      assert t in Tr.TriplesOf(reconciled.edges);
    }
    if t in Tr.TriplesOf(reconciled.edges) {
      var k :| k in reconciled.edges && Tr.TripleOf(reconciled.edges[k]) == t;
      assert k in Built(h, s, repoVid, bs).edges;
    }
  }

  /** The accumulator's methods in the order the indexer calls them. */
  method BuildBranchGraph(h: Hashes, s: CodeGraphScope, repoVid: string, bs: seq<Batch>)
    returns (r: Result<Graph, ScopeError>)
    ensures ValidScope(s) ==> r == Ok(Built(h, s, repoVid, bs))
    ensures r.Err? ==> !ValidScope(s) && r.error == ScopeViolation(s).value
  {
    var acc := new B.GraphAccumulator();
    for i := 0 to |bs|
      invariant fresh(acc)
      invariant ValidScope(s) ==> acc.Value() == AddBatches(h, EMPTY, s, repoVid, bs[..i])
    {
      assert bs[..i + 1][..i] == bs[..i];
      var added;
      match bs[i] {
        case AstBatch(language, facts) => added := acc.AddSyntacticLanguageAstFacts(h, s, repoVid, language, facts);
        case ScipBatch(language, rows) => added := acc.AddScipSemanticFacts(h, s, repoVid, language, rows);
      }
      if added.Err? {
        return Err(added.error);
      }
    }
    assert bs[..|bs|] == bs;
    acc.ReconcileEdgeProvenance();
    acc.MaterializeGraphAnchors(h);
    r := Ok(Graph(acc.vertices, acc.edges, acc.anchors));
  }
}
