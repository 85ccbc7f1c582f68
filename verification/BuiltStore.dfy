/** From the built graph to the store: when executing its statements stores every vertex and every edge of it. */
module BuiltStore {
  import opened Basics
  import opened ByteOrder
  import opened GraphTypes
  import M = GraphModel
  import Acc = Accumulator
  import AL = AccumulatorLaws
  import An = Anchors
  import O = AccumulatorOrigins
  import BT = BatchTriples
  import Tr = Triples
  import Rec = Reconcile
  import S = GraphSnapshot
  import N = Ngql
  import R = NgqlReader
  import opened GraphStore

  /** The values in the order of their keys, as a BTreeMap yields them. */
  function ValuesOf<V>(m: map<string, V>): (vs: seq<V>)
    ensures |vs| == |Sorted(m.Keys)|
    ensures forall i :: 0 <= i < |vs| ==> Sorted(m.Keys)[i] in m && vs[i] == m[Sorted(m.Keys)[i]]
  {
    An.SortedListsKeys(m);
    var keys := Sorted(m.Keys);
    seq(|keys|, i requires 0 <= i < |keys| => m[keys[i]])
  }

  /** `accumulator_to_snapshot`. */
  function SnapshotOf(g: Acc.Graph): Snapshot {
    Snapshot(ValuesOf(g.vertices), ValuesOf(g.edges))
  }

  /** No two edges with the same ends have the same rank: the store's edge key has no kind. */
  ghost predicate RanksApart(edges: map<string, Edge>) {
    forall j, k :: j in edges && k in edges && SameKey(edges[j], edges[k]) ==> j == k
  }

  predicate SameKey(a: Edge, b: Edge) {
    a.fromVid == b.fromVid && a.toVid == b.toVid && a.rank == b.rank
  }

  ghost predicate DistinctVids(vs: seq<Vertex>) {
    forall i, j :: 0 <= i < j < |vs| ==> vs[i].vid != vs[j].vid
  }

  ghost predicate DistinctEnds(es: seq<Edge>) {
    forall i, j :: 0 <= i < j < |es| ==> !SameKey(es[i], es[j])
  }

  lemma RowsAreDistinct(l: N.Layout, fmt: N.NumberFormat, snapshot: Snapshot)
    ensures DistinctKeys(SnapshotRows(l, fmt, snapshot))
            <==> DistinctVids(snapshot.vertices) && DistinctEnds(snapshot.edges)
  {
    var rows, n := SnapshotRows(l, fmt, snapshot), |snapshot.vertices|;
    forall i | 0 <= i < |rows|
      ensures rows[i] ==
              if i < n then R.VertexRowOf(l, fmt, snapshot.vertices[i]) else R.EdgeRowOf(l, fmt, snapshot.edges[i - n])
    {
    }
    if DistinctKeys(rows) {
      forall i, j | 0 <= i < j < n ensures snapshot.vertices[i].vid != snapshot.vertices[j].vid {
        assert KeyOf(rows[i]) != KeyOf(rows[j]);
      }
      forall i, j | 0 <= i < j < |snapshot.edges| ensures !SameKey(snapshot.edges[i], snapshot.edges[j]) {
        assert KeyOf(rows[n + i]) != KeyOf(rows[n + j]);
      }
    }
  }

  lemma VerticesAreDistinct(g: Acc.Graph, s: M.CodeGraphScope, repoVid: string)
    requires Acc.GraphOk(g, s, repoVid)
    ensures DistinctVids(ValuesOf(g.vertices))
  {
    var keys := Sorted(g.vertices.Keys);
    AscendingIsDistinct(keys);
    forall i, j | 0 <= i < j < |keys| ensures ValuesOf(g.vertices)[i].vid != ValuesOf(g.vertices)[j].vid {
      assert Acc.VertexOk(g, s, keys[i]) && Acc.VertexOk(g, s, keys[j]);
    }
  }

  ghost predicate Lists(keys: seq<string>, es: seq<Edge>, edges: map<string, Edge>) {
    && |keys| == |es| && (forall k :: k in keys <==> k in edges)
    && forall i :: 0 <= i < |keys| ==> keys[i] in edges && es[i] == edges[keys[i]]
  }

  lemma ApartWhenDistinct(keys: seq<string>, es: seq<Edge>, edges: map<string, Edge>)
    requires Lists(keys, es, edges) && DistinctEnds(es)
    ensures RanksApart(edges)
  {
    forall j, k | j in edges && k in edges && SameKey(edges[j], edges[k]) ensures j == k {
      var x :| 0 <= x < |keys| && keys[x] == j;
      var y :| 0 <= y < |keys| && keys[y] == k;
      assert SameKey(es[x], es[y]) && SameKey(es[y], es[x]);
    }
  }

  lemma DistinctWhenApart(keys: seq<string>, es: seq<Edge>, edges: map<string, Edge>)
    requires Lists(keys, es, edges) && Distinct(keys) && RanksApart(edges)
    ensures DistinctEnds(es)
  {
  }

  lemma EdgesAreDistinct(edges: map<string, Edge>)
    ensures DistinctEnds(ValuesOf(edges)) <==> RanksApart(edges)
  {
    var keys, es := Sorted(edges.Keys), ValuesOf(edges);
    AscendingIsDistinct(keys);
    An.SortedListsKeys(edges);
    if DistinctEnds(es) { ApartWhenDistinct(keys, es, edges); }
    if RanksApart(edges) { DistinctWhenApart(keys, es, edges); }
  }

  lemma GraphKeysAreDistinct(l: N.Layout, fmt: N.NumberFormat, g: Acc.Graph, s: M.CodeGraphScope, repoVid: string)
    requires Acc.GraphOk(g, s, repoVid)
    ensures DistinctKeys(SnapshotRows(l, fmt, SnapshotOf(g))) <==> RanksApart(g.edges)
  {
    VerticesAreDistinct(g, s, repoVid);
    EdgesAreDistinct(g.edges);
    RowsAreDistinct(l, fmt, SnapshotOf(g));
  }

  /**
   * The rows of a built graph have distinct keys exactly when no two of its edges with the same
   * ends share a rank.  Reconciling leaves one edge per (from, to, kind), but the store keys edges
   * by ends and rank alone.
   */
  lemma BuiltKeysAreDistinct(l: N.Layout, fmt: N.NumberFormat, h: Acc.Hashes, s: M.CodeGraphScope, repoVid: string,
                             bs: seq<AL.Batch>)
    requires M.ValidScope(s)
    ensures var g := S.Built(h, s, repoVid, bs);
            DistinctKeys(SnapshotRows(l, fmt, SnapshotOf(g))) <==> RanksApart(g.edges)
  {
    S.BuiltIsSound(h, s, repoVid, bs);
    GraphKeysAreDistinct(l, fmt, S.Built(h, s, repoVid, bs), s, repoVid);
  }

  /** From the batches to the store: delivering a built graph stores exactly it when its ranks are apart. */
  lemma BuiltIsStoredExactly(l: N.Layout, fmt: N.NumberFormat, h: Acc.Hashes, s: M.CodeGraphScope, repoVid: string,
                             bs: seq<AL.Batch>,
                             texts: seq<string>, attempts: seq<nat>)
    requires M.ValidScope(s) && R.FormatsNumbers(fmt) && l.nodeProps != [] && l.edgeProps != []
    requires texts == N.SnapshotStatements(l, fmt, SnapshotOf(S.Built(h, s, repoVid, bs))) && Prefixes(attempts, texts)
    requires RanksApart(S.Built(h, s, repoVid, bs).edges)
    ensures Holds(ExecuteAll(ReaderOf(l), Replay(ReaderOf(l), map[], texts, attempts), texts),
                  SnapshotRows(l, fmt, SnapshotOf(S.Built(h, s, repoVid, bs))))
  {
    BuiltKeysAreDistinct(l, fmt, h, s, repoVid, bs);
    DeliveredSnapshotIsExact(l, fmt, SnapshotOf(S.Built(h, s, repoVid, bs)), texts, attempts);
  }

  lemma StoredApart(l: N.Layout, fmt: N.NumberFormat, g: Acc.Graph, s: M.CodeGraphScope, repoVid: string,
                    rows: seq<R.Row>, store: Store)
    requires Acc.GraphOk(g, s, repoVid) && rows == SnapshotRows(l, fmt, SnapshotOf(g))
    requires store == UpsertAll(map[], rows)
    ensures |store| == |rows| <==> RanksApart(g.edges)
  {
    GraphKeysAreDistinct(l, fmt, g, s, repoVid);
    StoredCount(rows);
  }

  /**
   * Otherwise something is lost: after executing the delivered statements, however often they were
   * cut short before, the store has a row for every vertex and edge exactly when the ranks are apart.
   */
  lemma BuiltIsStoredWhole(l: N.Layout, fmt: N.NumberFormat, h: Acc.Hashes, s: M.CodeGraphScope, repoVid: string,
                           bs: seq<AL.Batch>,
                           g: Acc.Graph, texts: seq<string>, attempts: seq<nat>)
    returns (store: Store, rows: seq<R.Row>)
    requires M.ValidScope(s) && R.FormatsNumbers(fmt) && l.nodeProps != [] && l.edgeProps != []
    requires g == S.Built(h, s, repoVid, bs) && texts == N.SnapshotStatements(l, fmt, SnapshotOf(g))
    requires Prefixes(attempts, texts)
    ensures store == ExecuteAll(ReaderOf(l), Replay(ReaderOf(l), map[], texts, attempts), texts)
    ensures rows == SnapshotRows(l, fmt, SnapshotOf(g)) && (|store| == |rows| <==> RanksApart(g.edges))
  {
    S.BuiltIsSound(h, s, repoVid, bs);
    store, rows := DeliveredRows(l, fmt, SnapshotOf(g), texts, attempts);
    StoredApart(l, fmt, g, s, repoVid, rows, store);
  }

  // An input on which an edge is lost.

  /** Every edge a flag adds has the rank of its own kind. */
  lemma {:induction false} FlagEdgesRanked(h: Acc.Hashes, g: Acc.Graph, s: M.CodeGraphScope, flags: seq<Acc.Flag>,
                                           fromVid: string, toVid: string, source: string, o: Acc.EdgeOptions, k: string)
    requires k in Acc.AddFlagEdges(h, g, s, flags, fromVid, toVid, source, o).edges && k !in g.edges
    ensures var e := Acc.AddFlagEdges(h, g, s, flags, fromVid, toVid, source, o).edges[k];
            e.fromVid == fromVid && e.toVid == toVid && e.rank == Acc.RankOf(h, fromVid, toVid, e.kind, source)
    decreases |flags|
  {
    var init := flags[..|flags| - 1];
    if k in Acc.AddFlagEdges(h, g, s, init, fromVid, toVid, source, o).edges {
      FlagEdgesRanked(h, g, s, init, fromVid, toVid, source, o, k);
    }
  }

  /** The accumulator after one relationship without a symbol table. */
  function OneRelationship(language: string, rel: Acc.Relationship): seq<AL.Batch> {
    [AL.ScipBatch(language, Acc.ScipRows([], [rel]))]
  }

  lemma OneRelationshipAdds(h: Acc.Hashes, s: M.CodeGraphScope, repoVid: string, language: string,
                            rel: Acc.Relationship)
    ensures S.Accumulated(h, s, repoVid, OneRelationship(language, rel)) ==
            Acc.AddRelationship(h, Acc.EMPTY, s, language, map[], rel)
  {
    var rows, bs := Acc.ScipRows([], [rel]), OneRelationship(language, rel);
    assert bs[..0] == [] && AL.AddBatches(h, Acc.EMPTY, s, repoVid, []) == Acc.EMPTY;
    assert Acc.SymbolIndex([]) == map[] && Acc.AddScipFiles(h, Acc.EMPTY, s, repoVid, []) == Acc.EMPTY;
    assert Acc.AddScipSymbols(h, Acc.EMPTY, s, language, []) == Acc.EMPTY;
    assert [rel][..0] == [] && Acc.AddRelationships(h, Acc.EMPTY, s, language, map[], []) == Acc.EMPTY;
  }

  lemma RelationshipRanked(h: Acc.Hashes, s: M.CodeGraphScope, language: string, rel: Acc.Relationship, k: string)
    requires k in Acc.AddRelationship(h, Acc.EMPTY, s, language, map[], rel).edges
    ensures var e := Acc.AddRelationship(h, Acc.EMPTY, s, language, map[], rel).edges[k];
            e.rank == Acc.RankOf(h, e.fromVid, e.toVid, e.kind, Acc.ScipSource(language))
  {
    var g1 := Acc.EnsureSymbol(h, Acc.EMPTY, s, language, map[], rel.sourceSymbol);
    var g2 := Acc.EnsureSymbol(h, g1, s, language, map[], rel.targetSymbol);
    assert g2.edges == map[];
    FlagEdgesRanked(h, g2, s, Acc.EdgesToEmit(rel), Acc.RelatedVid(h, s, map[], rel.sourceSymbol),
                    Acc.RelatedVid(h, s, map[], rel.targetSymbol),
                    Acc.ScipSource(language), Acc.ScipOptions(Acc.EvidenceOf(map[], rel.sourceSymbol)), k);
  }

  /** Some edge of each kind survives reconciling and linking, with the rank it was given. */
  lemma SurvivingEdge(h: Acc.Hashes, s: M.CodeGraphScope, repoVid: string, language: string, rel: Acc.Relationship,
                      kind: string, g: Acc.Graph)
    returns (k: string)
    requires M.ValidScope(s) && AL.Sealed(h, repoVid) && O.FlagSet(rel, kind)
    requires g == S.Built(h, s, repoVid, OneRelationship(language, rel))
    ensures k in g.edges && g.edges[k].kind == kind
    ensures g.edges[k].fromVid == Acc.RelatedVid(h, s, map[], rel.sourceSymbol)
    ensures g.edges[k].toVid == Acc.RelatedVid(h, s, map[], rel.targetSymbol)
    ensures g.edges[k].rank == Acc.RankOf(h, g.edges[k].fromVid, g.edges[k].toVid, kind, Acc.ScipSource(language))
  {
    var bs := OneRelationship(language, rel);
    var acc := S.Accumulated(h, s, repoVid, bs);
    var t := Tr.Triple(Acc.RelatedVid(h, s, map[], rel.sourceSymbol), Acc.RelatedVid(h, s, map[], rel.targetSymbol),
                       kind);
    assert bs[0] == AL.ScipBatch(language, Acc.ScipRows([], [rel])) && [rel][0] == rel;
    assert BT.RelationshipAsks(h, s, Acc.SymbolIndex([]), [rel][0], t);
    BT.AskedIsAccumulated(h, s, repoVid, bs, 0, t);
    k := SurvivorOf(h, acc, t);
    OneRelationshipAdds(h, s, repoVid, language, rel);
    RelationshipRanked(h, s, language, rel, k);
  }

  lemma SurvivorOf(h: Acc.Hashes, acc: Acc.Graph, t: Tr.Triple) returns (k: string)
    requires t in Tr.TriplesOf(acc.edges)
    ensures var built := An.Materialized(h, acc.(edges := Rec.Reconciled(acc.edges)));
            k in acc.edges && Tr.TripleOf(acc.edges[k]) == t && k in built.edges && built.edges[k] == acc.edges[k]
  {
    var reconciled := acc.(edges := Rec.Reconciled(acc.edges));
    Rec.ReconciledTriples(acc.edges);
    k :| k in reconciled.edges && Tr.TripleOf(reconciled.edges[k]) == t;
    S.MaterializedKeeps(h, reconciled);
  }

  /**
   * The input on which an edge is lost: one relationship that is both an implementation and a
   * reference, whose two edges are given the same rank.  The built graph has both, between the same
   * symbols, and the store has room for one.
   */
  lemma CollidingRanksLoseAnEdge(h: Acc.Hashes, s: M.CodeGraphScope, repoVid: string, language: string,
                                 rel: Acc.Relationship, g: Acc.Graph)
    requires M.ValidScope(s) && AL.Sealed(h, repoVid) && rel.isImplementation && rel.isReference
    requires var src, dst := Acc.RelatedVid(h, s, map[], rel.sourceSymbol), Acc.RelatedVid(h, s, map[], rel.targetSymbol);
             Acc.RankOf(h, src, dst, "IMPLEMENTS", Acc.ScipSource(language)) == Acc.RankOf(h, src, dst, "REFERENCES", Acc.ScipSource(language))
    requires g == S.Built(h, s, repoVid, OneRelationship(language, rel))
    ensures !RanksApart(g.edges)
  {
    var i := SurvivingEdge(h, s, repoVid, language, rel, "IMPLEMENTS", g);
    var j := SurvivingEdge(h, s, repoVid, language, rel, "REFERENCES", g);
    assert SameKey(g.edges[i], g.edges[j]) && i != j by { assert "IMPLEMENTS"[0] != "REFERENCES"[0]; }
  }
}
