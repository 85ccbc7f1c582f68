/**
 * From the batches to the built graph: exactly the (from, to, kind) triples the facts and rows ask
 * for, and the links.
 */
module BatchTriples {
  import opened Basics
  import opened GraphTypes
  import opened GraphModel
  import opened Accumulator
  import opened AccumulatorLaws
  import O = AccumulatorOrigins
  import S = GraphSnapshot
  import opened Tr = Triples
  import F = Facts

  // What a batch asks for.

  ghost predicate FactAsks(h: Hashes, s: CodeGraphScope, repoVid: string, fact: F.Fact, t: Triple) {
    || t == Triple(SourceVid(h, s, fact), TargetVid(h, s, fact), EdgeKindOf(fact.kind))
    || t == Triple(repoVid, FileVid(h, s, fact.filePath), "CONTAINS")
  }

  ghost predicate SymbolAsks(h: Hashes, s: CodeGraphScope, repoVid: string, sym: ScipSymbol, t: Triple) {
    sym.filePath.Some? &&
    (|| t == Triple(repoVid, FileVid(h, s, sym.filePath.value), "CONTAINS")
     || t == Triple(FileVid(h, s, sym.filePath.value), SymbolVid(h, s, sym), "CONTAINS"))
  }

  ghost predicate RelationshipAsks(h: Hashes, s: CodeGraphScope, index: map<string, ScipSymbol>, rel: Relationship,
                                   t: Triple) {
    && O.FlagSet(rel, t.kind)
    && t.fromVid == RelatedVid(h, s, index, rel.sourceSymbol) && t.toVid == RelatedVid(h, s, index, rel.targetSymbol)
  }

  ghost predicate BatchAsks(h: Hashes, s: CodeGraphScope, repoVid: string, b: Batch, t: Triple) {
    match b
    case AstBatch(_, facts) => exists i :: 0 <= i < |facts| && FactAsks(h, s, repoVid, facts[i], t)
    case ScipBatch(_, rows) =>
      || (exists i :: 0 <= i < |rows.symbols| && SymbolAsks(h, s, repoVid, rows.symbols[i], t))
      || (exists i :: 0 <= i < |rows.relationships| && RelationshipAsks(h, s, SymbolIndex(rows.symbols), rows.relationships[i], t))
  }

  // Nothing else is added.

  lemma ScipBatchAsks(h: Hashes, g: Graph, s: CodeGraphScope, repoVid: string, language: string, rows: ScipRows,
                      k: string)
    requires k in AddScipRows(h, g, s, repoVid, language, rows).edges && k !in g.edges
    ensures BatchAsks(h, s, repoVid, ScipBatch(language, rows),
                      TripleOf(AddScipRows(h, g, s, repoVid, language, rows).edges[k]))
  {
    O.AddScipRowsOrigin(h, g, s, repoVid, language, rows, k);
    FromScipAsks(h, s, repoVid, language, rows, AddScipRows(h, g, s, repoVid, language, rows).edges[k]);
  }

  lemma HeldFileAsks(h: Hashes, s: CodeGraphScope, repoVid: string, e: Edge, sym: ScipSymbol)
    requires sym.filePath.Some? && O.HoldsFile(h, s, repoVid, e, sym.filePath.value)
    ensures SymbolAsks(h, s, repoVid, sym, TripleOf(e))
  {
  }

  lemma HeldSymbolAsks(h: Hashes, s: CodeGraphScope, repoVid: string, language: string, e: Edge, sym: ScipSymbol)
    requires O.HoldsSymbol(h, s, language, e, sym)
    ensures SymbolAsks(h, s, repoVid, sym, TripleOf(e))
  {
  }

  lemma ToldRelationshipAsks(h: Hashes, s: CodeGraphScope, language: string, index: map<string, ScipSymbol>, e: Edge,
                             rel: Relationship)
    requires O.TellsRelationship(h, s, language, index, e, rel)
    ensures RelationshipAsks(h, s, index, rel, TripleOf(e))
  {
  }

  lemma FromScipAsks(h: Hashes, s: CodeGraphScope, repoVid: string, language: string, rows: ScipRows, e: Edge)
    requires O.FromScip(h, s, repoVid, language, rows, e)
    ensures BatchAsks(h, s, repoVid, ScipBatch(language, rows), TripleOf(e))
  {
    if i :| 0 <= i < |rows.symbols| && rows.symbols[i].filePath.Some? && O.HoldsFile(h, s, repoVid, e, rows.symbols[i].filePath.value) {
      HeldFileAsks(h, s, repoVid, e, rows.symbols[i]);
    } else if i :| 0 <= i < |rows.symbols| && O.HoldsSymbol(h, s, language, e, rows.symbols[i]) {
      HeldSymbolAsks(h, s, repoVid, language, e, rows.symbols[i]);
    } else {
      var i :| 0 <= i < |rows.relationships| && O.TellsRelationship(h, s, language, SymbolIndex(rows.symbols), e, rows.relationships[i]);
      ToldRelationshipAsks(h, s, language, SymbolIndex(rows.symbols), e, rows.relationships[i]);
    }
  }

  lemma BatchStep(h: Hashes, g: Graph, s: CodeGraphScope, repoVid: string, b: Batch, k: string) returns (next: Graph)
    ensures next == AddBatch(h, g, s, repoVid, b)
    ensures k in next.edges && k !in g.edges ==> BatchAsks(h, s, repoVid, b, TripleOf(next.edges[k]))
  {
    next := AddBatch(h, g, s, repoVid, b);
    if k in next.edges && k !in g.edges {
      match b
      case AstBatch(language, facts) =>
        var i := O.AddAstFactsOrigin(h, g, s, repoVid, language, TierOf(facts), facts, k);
        assert FactAsks(h, s, repoVid, facts[i], TripleOf(next.edges[k]));
      case ScipBatch(language, rows) => ScipBatchAsks(h, g, s, repoVid, language, rows, k);
    }
  }

  /** Every accumulated edge is asked for by one of the batches. */
  lemma {:induction false} AccumulatedIsAsked(h: Hashes, s: CodeGraphScope, repoVid: string, bs: seq<Batch>, k: string)
    returns (i: nat)
    requires ValidScope(s) && k in AddBatches(h, EMPTY, s, repoVid, bs).edges
    ensures i < |bs| && BatchAsks(h, s, repoVid, bs[i], TripleOf(AddBatches(h, EMPTY, s, repoVid, bs).edges[k]))
    decreases |bs|
  {
    var init, last := bs[..|bs| - 1], bs[|bs| - 1];
    var g := AddBatches(h, EMPTY, s, repoVid, init);
    var next := BatchStep(h, g, s, repoVid, last, k);
    if k in g.edges {
      AddBatchesKeeps(h, EMPTY, s, repoVid, init);
      BatchGrows(h, g, s, repoVid, last);
      i := AccumulatedIsAsked(h, s, repoVid, init, k);
    } else {
      i := |bs| - 1;
    }
  }

  lemma BatchGrows(h: Hashes, g: Graph, s: CodeGraphScope, repoVid: string, b: Batch)
    requires ValidScope(s) && Good(h, g, s, repoVid)
    ensures Good(h, AddBatch(h, g, s, repoVid, b), s, repoVid) && Grows(g, AddBatch(h, g, s, repoVid, b))
  {
    match b
    case AstBatch(language, facts) => AddAstFactsKeeps(h, g, s, repoVid, language, TierOf(facts), facts);
    case ScipBatch(language, rows) => AddScipRowsKeeps(h, g, s, repoVid, language, rows);
  }

  // Everything asked for is there.

  lemma {:induction false} FilesRecorded(h: Hashes, g: Graph, s: CodeGraphScope, repoVid: string,
                                         symbols: seq<ScipSymbol>, i: nat)
    requires ValidScope(s) && Sealed(h, repoVid) && Good(h, g, s, repoVid) && i < |symbols| && symbols[i].filePath.Some?
    ensures Records(h, AddScipFiles(h, g, s, repoVid, symbols), repoVid, FileVid(h, s, symbols[i].filePath.value),
                    "CONTAINS", SCIP)
    decreases |symbols|
  {
    var init, last := symbols[..|symbols| - 1], symbols[|symbols| - 1];
    var g1 := AddScipFiles(h, g, s, repoVid, init);
    AddScipFilesKeeps(h, g, s, repoVid, init);
    if i == |symbols| - 1 {
      AddFileVertexRecords(h, g1, s, repoVid, last.filePath.value);
    } else {
      FilesRecorded(h, g, s, repoVid, init, i);
      AddScipFileKeeps(h, g1, s, repoVid, init, last);
      RecordsStay(h, g1, AddScipFile(h, g1, s, repoVid, last), repoVid, FileVid(h, s, symbols[i].filePath.value),
                  "CONTAINS", SCIP);
    }
  }

  lemma SymbolRecorded(h: Hashes, g: Graph, s: CodeGraphScope, repoVid: string, language: string, sym: ScipSymbol)
    requires ValidScope(s) && Sealed(h, repoVid) && Good(h, g, s, repoVid)
    requires sym.filePath.Some? && FileVid(h, s, sym.filePath.value) in g.vertices
    ensures Records(h, AddScipSymbol(h, g, s, language, sym), FileVid(h, s, sym.filePath.value), SymbolVid(h, s, sym),
                    "CONTAINS", ScipSource(language))
  {
    var g1 := AddVertex(h, g, s, ScipKind(sym.kind), "scip:" + sym.symbol, SymbolProperties(language, sym));
    SymbolPropertyNames(language, sym);
    ScipKindIsBarFree(sym.kind);
    AddVertexKeeps(h, g, s, repoVid, ScipKind(sym.kind), "scip:" + sym.symbol, SymbolProperties(language, sym));
    PlainKinds();
    AddEdgeRecords(h, g1, s, repoVid, FileVid(h, s, sym.filePath.value), SymbolVid(h, s, sym), "CONTAINS",
                   ScipSource(language), ScipOptions(sym.filePath));
  }

  lemma {:induction false} SymbolsRecorded(h: Hashes, g: Graph, s: CodeGraphScope, repoVid: string, language: string,
                                           symbols: seq<ScipSymbol>, i: nat)
    requires ValidScope(s) && Sealed(h, repoVid) && Good(h, g, s, repoVid) && HasFiles(h, g, s, symbols)
    requires i < |symbols| && symbols[i].filePath.Some?
    ensures Records(h, AddScipSymbols(h, g, s, language, symbols), FileVid(h, s, symbols[i].filePath.value),
                    SymbolVid(h, s, symbols[i]),
                    "CONTAINS", ScipSource(language))
    decreases |symbols|
  {
    var init, last := symbols[..|symbols| - 1], symbols[|symbols| - 1];
    var g1 := AddScipSymbols(h, g, s, language, init);
    AddScipSymbolsKeeps(h, g, s, repoVid, language, init);
    if i == |symbols| - 1 {
      SymbolRecorded(h, g1, s, repoVid, language, last);
    } else {
      SymbolsRecorded(h, g, s, repoVid, language, init, i);
      AddScipSymbolKeeps(h, g1, s, repoVid, language, last);
      RecordsStay(h, g1, AddScipSymbol(h, g1, s, language, last), FileVid(h, s, symbols[i].filePath.value),
                  SymbolVid(h, s, symbols[i]),
                  "CONTAINS", ScipSource(language));
    }
  }

  ghost predicate Has(g: Graph, t: Triple) {
    t in TriplesOf(g.edges)
  }

  lemma RecordedIsThere(h: Hashes, g: Graph, fromVid: string, toVid: string, kind: string, source: string)
    requires Records(h, g, fromVid, toVid, kind, source)
    ensures Has(g, Triple(fromVid, toVid, kind))
  {
    assert TripleOf(g.edges[KeyFor(h, fromVid, toVid, kind, source)]) == Triple(fromVid, toVid, kind);
  }

  lemma GrowingHas(a: Graph, b: Graph, t: Triple)
    requires Grows(a, b) && Has(a, t)
    ensures Has(b, t)
  {
    var k :| k in a.edges && TripleOf(a.edges[k]) == t;
    assert k in b.edges;
  }

  lemma FactIsThere(h: Hashes, g: Graph, s: CodeGraphScope, repoVid: string, language: string, facts: seq<F.Fact>,
                    i: nat, t: Triple)
    requires ValidScope(s) && Sealed(h, repoVid) && Good(h, g, s, repoVid) && i < |facts|
    requires FactAsks(h, s, repoVid, facts[i], t)
    ensures Has(AddAstFacts(h, g, s, repoVid, language, TierOf(facts), facts), t)
  {
    var g' := AddAstFacts(h, g, s, repoVid, language, TierOf(facts), facts);
    AddAstFactsRecords(h, g, s, repoVid, language, TierOf(facts), facts, i);
    RecordedIsThere(h, g', SourceVid(h, s, facts[i]), TargetVid(h, s, facts[i]), EdgeKindOf(facts[i].kind),
                    AstSource(language));
    RecordedIsThere(h, g', repoVid, FileVid(h, s, facts[i].filePath), "CONTAINS", SCIP);
  }

  lemma SymbolIsThere(h: Hashes, g: Graph, s: CodeGraphScope, repoVid: string, language: string, rows: ScipRows, i: nat,
                      t: Triple)
    requires ValidScope(s) && Sealed(h, repoVid) && Good(h, g, s, repoVid) && i < |rows.symbols|
    requires SymbolAsks(h, s, repoVid, rows.symbols[i], t)
    ensures Has(AddScipRows(h, g, s, repoVid, language, rows), t)
  {
    var sym := rows.symbols[i];
    var g1 := AddScipFiles(h, g, s, repoVid, rows.symbols);
    var g2 := AddScipSymbols(h, g1, s, language, rows.symbols);
    AddScipFilesKeeps(h, g, s, repoVid, rows.symbols);
    AddScipSymbolsKeeps(h, g1, s, repoVid, language, rows.symbols);
    AddRelationshipsKeeps(h, g2, s, repoVid, language, SymbolIndex(rows.symbols), rows.relationships);
    FilesRecorded(h, g, s, repoVid, rows.symbols, i);
    RecordedIsThere(h, g1, repoVid, FileVid(h, s, sym.filePath.value), "CONTAINS", SCIP);
    SymbolsRecorded(h, g1, s, repoVid, language, rows.symbols, i);
    RecordedIsThere(h, g2, FileVid(h, s, sym.filePath.value), SymbolVid(h, s, sym), "CONTAINS", ScipSource(language));
    if t.fromVid == repoVid && Has(g1, t) { GrowingHas(g1, g2, t); }
    GrowingHas(g2, AddScipRows(h, g, s, repoVid, language, rows), t);
  }

  lemma RelationshipIsThere(h: Hashes, g: Graph, s: CodeGraphScope, repoVid: string, language: string, rows: ScipRows,
                            i: nat, t: Triple)
    requires ValidScope(s) && Sealed(h, repoVid) && Good(h, g, s, repoVid) && i < |rows.relationships|
    requires RelationshipAsks(h, s, SymbolIndex(rows.symbols), rows.relationships[i], t)
    ensures Has(AddScipRows(h, g, s, repoVid, language, rows), t)
  {
    AddScipRowsRecords(h, g, s, repoVid, language, rows, i);
    RecordedIsThere(h, AddScipRows(h, g, s, repoVid, language, rows), t.fromVid, t.toVid, t.kind, ScipSource(language));
  }

  lemma AskedIsThere(h: Hashes, g: Graph, s: CodeGraphScope, repoVid: string, b: Batch, t: Triple)
    requires ValidScope(s) && Sealed(h, repoVid) && Good(h, g, s, repoVid) && BatchAsks(h, s, repoVid, b, t)
    ensures Has(AddBatch(h, g, s, repoVid, b), t)
  {
    match b
    case AstBatch(language, facts) =>
      var i :| 0 <= i < |facts| && FactAsks(h, s, repoVid, facts[i], t);
      FactIsThere(h, g, s, repoVid, language, facts, i, t);
    case ScipBatch(language, rows) =>
      if i :| 0 <= i < |rows.symbols| && SymbolAsks(h, s, repoVid, rows.symbols[i], t) {
        SymbolIsThere(h, g, s, repoVid, language, rows, i, t);
      } else {
        var i :| 0 <= i < |rows.relationships| && RelationshipAsks(h, s, SymbolIndex(rows.symbols),
                                                                   rows.relationships[i], t);
        RelationshipIsThere(h, g, s, repoVid, language, rows, i, t);
      }
  }

  lemma {:induction false} AskedIsAccumulated(h: Hashes, s: CodeGraphScope, repoVid: string, bs: seq<Batch>, i: nat,
                                              t: Triple)
    requires ValidScope(s) && Sealed(h, repoVid) && i < |bs| && BatchAsks(h, s, repoVid, bs[i], t)
    ensures Has(AddBatches(h, EMPTY, s, repoVid, bs), t)
    decreases |bs|
  {
    var init, last := bs[..|bs| - 1], bs[|bs| - 1];
    var g := AddBatches(h, EMPTY, s, repoVid, init);
    AddBatchesKeeps(h, EMPTY, s, repoVid, init);
    if i == |bs| - 1 {
      AskedIsThere(h, g, s, repoVid, last, t);
    } else {
      AskedIsAccumulated(h, s, repoVid, init, i, t);
      BatchGrows(h, g, s, repoVid, last);
      GrowingHas(g, AddBatch(h, g, s, repoVid, last), t);
    }
  }

  /**
   * End to end: after any sequence of batches, reconciling and linking, the built graph has exactly
   * the triples its facts, symbols and set relationship flags ask for, besides anchor links.
   */
  lemma BuiltIsWhatWasAsked(h: Hashes, s: CodeGraphScope, repoVid: string, bs: seq<Batch>, t: Triple)
    requires ValidScope(s) && Sealed(h, repoVid) && t.kind != ANCHOR_LINK
    ensures Has(S.Built(h, s, repoVid, bs), t) <==> exists i :: 0 <= i < |bs| && BatchAsks(h, s, repoVid, bs[i], t)
  {
    var g := S.Accumulated(h, s, repoVid, bs);
    S.BuiltTriples(h, s, repoVid, bs, t);
    if Has(g, t) {
      var k :| k in g.edges && TripleOf(g.edges[k]) == t;
      var i := AccumulatedIsAsked(h, s, repoVid, bs, k);
    }
    if i :| 0 <= i < |bs| && BatchAsks(h, s, repoVid, bs[i], t) {
      AskedIsAccumulated(h, s, repoVid, bs, i, t);
    }
  }
}
