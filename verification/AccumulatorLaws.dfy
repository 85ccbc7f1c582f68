/** What AST and SCIP batches keep true of the accumulator. */
module AccumulatorLaws {
  import opened Basics
  import opened GraphTypes
  import opened GraphModel
  import opened Accumulator
  import F = Facts

  /** No vid and no kind contains the separator of edge keys. */
  ghost predicate BarFree(g: Graph) {
    && (forall vid :: vid in g.vertices ==> '|' !in vid)
    && (forall k :: k in g.edges ==> '|' !in g.edges[k].kind)
  }

  /** Digests and the repository's vid are free of the separator, as hexadecimal digests are. */
  ghost predicate Sealed(h: Hashes, repoVid: string) {
    '|' !in repoVid && forall x :: '|' !in h.sha(x)
  }

  ghost predicate Good(h: Hashes, g: Graph, s: CodeGraphScope, repoVid: string) {
    GraphOk(g, s, repoVid) && NoLinks(g) && (Sealed(h, repoVid) ==> BarFree(g))
  }

  lemma CallerNamesAreNoStamps(s: CodeGraphScope)
    ensures CALLER_NAMES !! Stamps(s).Keys
  {
    assert |"orgId"| == 5 && |"workspaceId"| == 11 && |"repoId"| == 6 && |"revision"| == 8 && |"commitHash"| == 10
        && |"schemaVersion"| == 13 && |"builderVersion"| == 14;
    assert "label"[0] == 'l' && "language"[0] == 'l' && "source"[0] == 's';
    assert "confidence"[2] == 'n' && "commitHash"[2] == 'm' && "provenance"[0] == 'p' && "confidenceTier"[0] == 'c';
    assert "orgId"[0] == 'o' && "repoId"[0] == 'r' && "revision"[0] == 'r' && "builderVersion"[0] == 'b'
        && "commitHash"[0] == 'c';
  }

  lemma VertexBagStamped(s: CodeGraphScope, kind: string, properties: Properties)
    requires properties.Keys <= CALLER_NAMES
    ensures Stamped(VertexBag(s, kind, properties), s)
  {
    CallerNamesAreNoStamps(s);
    StampsSurvive(map["kind" := Text(kind), "provenance" := Text(HEURISTIC)], Stamps(s), properties);
  }

  lemma StampsSurvive(base: Properties, stamps: Properties, later: Properties)
    requires later.Keys !! stamps.Keys
    ensures forall name :: name in stamps ==>
              name in base + stamps + later && (base + stamps + later)[name] == stamps[name]
  {
  }

  lemma EdgeBagStamped(s: CodeGraphScope, kind: string, source: string, o: EdgeOptions)
    ensures Stamped(EdgeBag(s, kind, source, o), s)
  {
    StampsSurvive(EdgeColumns(kind, source, o), Stamps(s), map[]);
    assert EdgeColumns(kind, source, o) + Stamps(s) + map[] == EdgeBag(s, kind, source, o);
  }

  lemma InsertVertexKeeps(h: Hashes, g: Graph, s: CodeGraphScope, repoVid: string, v: Vertex)
    requires Good(h, g, s, repoVid) && v.vid !in g.vertices && Stamped(v.properties, s)
    requires (Sealed(h, repoVid) ==> '|' !in v.vid)
    ensures var g' := g.(vertices := g.vertices[v.vid := v]);
            Good(h, g', s, repoVid) && Grows(g, g') && v.vid in g'.vertices
  {
    var g' := g.(vertices := g.vertices[v.vid := v]);
    forall k | k in g'.edges ensures EdgeOk(g', s, repoVid, k) {
      assert EdgeOk(g, s, repoVid, k);
    }
    forall vid | vid in g'.vertices ensures VertexOk(g', s, vid) {
      if vid != v.vid { assert VertexOk(g, s, vid); }
    }
  }

  lemma AddVertexKeeps(h: Hashes, g: Graph, s: CodeGraphScope, repoVid: string, kind: string, key: string,
                       properties: Properties)
    requires ValidScope(s) && Good(h, g, s, repoVid) && properties.Keys <= CALLER_NAMES && '|' !in kind
    ensures var g' := AddVertex(h, g, s, kind, key, properties);
            Good(h, g', s, repoVid) && Grows(g, g') && VidOf(h, s, kind, key) in g'.vertices
  {
    var vid := VidOf(h, s, kind, key);
    if vid !in g.vertices {
      VertexBagStamped(s, kind, properties);
      if Sealed(h, repoVid) { VidHasNoBar(h.sha, Identity(s, kind, key)); }
      InsertVertexKeeps(h, g, s, repoVid, Vertex(vid, kind, VertexBag(s, kind, properties)));
    }
  }

  lemma InsertEdgeKeeps(h: Hashes, g: Graph, s: CodeGraphScope, repoVid: string, key: string, e: Edge)
    requires Good(h, g, s, repoVid) && key !in g.edges && e.kind != ANCHOR_LINK && '|' !in e.kind
    requires key == EdgeKey(e.fromVid, e.toVid, e.kind, e.rank) && Stamped(e.properties, s) && Anchored(g, repoVid, e)
    ensures var g' := g.(edges := g.edges[key := e]);
            Good(h, g', s, repoVid) && Grows(g, g')
  {
    var g' := g.(edges := g.edges[key := e]);
    forall vid | vid in g'.vertices ensures VertexOk(g', s, vid) {
      assert VertexOk(g, s, vid);
    }
    forall k | k in g'.edges ensures EdgeOk(g', s, repoVid, k) {
      if k != key { assert EdgeOk(g, s, repoVid, k); }
    }
  }

  lemma AddEdgeKeeps(h: Hashes, g: Graph, s: CodeGraphScope, repoVid: string, fromVid: string, toVid: string,
                     kind: string, source: string, o: EdgeOptions)
    requires Good(h, g, s, repoVid) && kind != ANCHOR_LINK && '|' !in kind
    requires toVid in g.vertices && (fromVid in g.vertices || fromVid == repoVid)
    ensures var g' := AddEdge(h, g, s, fromVid, toVid, kind, source, o);
            Good(h, g', s, repoVid) && Grows(g, g')
  {
    var key := KeyFor(h, fromVid, toVid, kind, source);
    if key !in g.edges {
      EdgeBagStamped(s, kind, source, o);
      InsertEdgeKeeps(h, g, s, repoVid, key, NewEdge(h, s, fromVid, toVid, kind, source, o));
    }
  }

  lemma GrowsTransitive(a: Graph, b: Graph, c: Graph)
    requires Grows(a, b) && Grows(b, c)
    ensures Grows(a, c)
  {
  }

  ghost predicate PlainKind(kind: string) {
    kind != ANCHOR_LINK && '|' !in kind
  }

  lemma PlainKinds()
    ensures PlainKind("CONTAINS") && PlainKind("IMPLEMENTS") && PlainKind("TYPE_DEFINES") && PlainKind("REFERENCES")
    ensures PlainKind("DEFINES")
    ensures forall k :: PlainKind(EdgeKindOf(k))
  {
    assert ANCHOR_LINK[0] == 'A';
    assert "CONTAINS"[0] == 'C' && "IMPLEMENTS"[0] == 'I' && "TYPE_DEFINES"[0] == 'T' && "REFERENCES"[0] == 'R'
        && "DEFINES"[0] == 'D';
    forall k ensures PlainKind(EdgeKindOf(k)) {
      assert EdgeKindOf(k)[0] != 'A';
    }
  }

  lemma VertexKindsAreBarFree(fact: F.Fact)
    ensures '|' !in SourceVertexKind(fact.sourceKind) && '|' !in TargetVertexKind(fact.targetKind)
  {
  }

  lemma ScipKindIsBarFree(kind: Option<string>)
    ensures '|' !in ScipKind(kind)
  {
    assert '|' !in "class" && '|' !in "method" && '|' !in "function" && '|' !in "file" && '|' !in "symbol";
  }

  lemma AddFileVertexKeeps(h: Hashes, g: Graph, s: CodeGraphScope, repoVid: string, path: string)
    requires ValidScope(s) && Good(h, g, s, repoVid)
    ensures var g' := AddFileVertex(h, g, s, repoVid, path);
            Good(h, g', s, repoVid) && Grows(g, g') && FileVid(h, s, path) in g'.vertices
  {
    PlainKinds();
    var g1 := AddVertex(h, g, s, "file", "file:" + path, FileProperties(path));
    AddVertexKeeps(h, g, s, repoVid, "file", "file:" + path, FileProperties(path));
    AddEdgeKeeps(h, g1, s, repoVid, repoVid, FileVid(h, s, path), "CONTAINS", SCIP, NO_OPTIONS);
    GrowsTransitive(g, g1, AddFileVertex(h, g, s, repoVid, path));
  }

  lemma AddAstFactKeeps(h: Hashes, g: Graph, s: CodeGraphScope, repoVid: string, language: string, tier: string,
                        fact: F.Fact)
    requires ValidScope(s) && Good(h, g, s, repoVid)
    ensures var g' := AddAstFact(h, g, s, repoVid, language, tier, fact);
            Good(h, g', s, repoVid) && Grows(g, g')
  {
    PlainKinds();
    var g1 := AddFileVertex(h, g, s, repoVid, fact.filePath);
    AddFileVertexKeeps(h, g, s, repoVid, fact.filePath);
    var g2 := AddSource(h, g1, s, language, tier, fact);
    AddSourceKeeps(h, g1, s, repoVid, language, tier, fact);
    var g3 := AddTarget(h, g2, s, language, tier, fact);
    AddTargetKeeps(h, g2, s, repoVid, language, tier, fact);
    GrowsTransitive(g, g1, g2);
    GrowsTransitive(g, g2, g3);
    AddEdgeKeeps(h, g3, s, repoVid, SourceVid(h, s, fact), TargetVid(h, s, fact), EdgeKindOf(fact.kind),
                 AstSource(language), FactOptions(tier, fact));
    GrowsTransitive(g, g3, AddAstFact(h, g, s, repoVid, language, tier, fact));
  }

  lemma FactPropertyNames(key: string, shown: string, language: string, tier: string, fact: F.Fact)
    ensures CommonProperties(key, shown, language, tier, fact).Keys <= CALLER_NAMES
    ensures WithPath(CommonProperties(key, shown, language, tier, fact), fact.filePath).Keys <= CALLER_NAMES
  {
  }

  lemma AddTargetKeeps(h: Hashes, g: Graph, s: CodeGraphScope, repoVid: string, language: string, tier: string,
                       fact: F.Fact)
    requires ValidScope(s) && Good(h, g, s, repoVid)
    ensures var g' := AddTarget(h, g, s, language, tier, fact);
            Good(h, g', s, repoVid) && Grows(g, g') && TargetVid(h, s, fact) in g'.vertices
  {
    FactPropertyNames(fact.targetSymbol, fact.targetDisplay, language, tier, fact);
    VertexKindsAreBarFree(fact);
    AddVertexKeeps(h, g, s, repoVid, TargetVertexKind(fact.targetKind), "ast:" + fact.targetSymbol,
                   TargetProperties(language, tier, fact));
  }

  lemma AddSourceKeeps(h: Hashes, g: Graph, s: CodeGraphScope, repoVid: string, language: string, tier: string,
                       fact: F.Fact)
    requires ValidScope(s) && Good(h, g, s, repoVid) && FileVid(h, s, fact.filePath) in g.vertices
    ensures var g' := AddSource(h, g, s, language, tier, fact);
            Good(h, g', s, repoVid) && Grows(g, g') && SourceVid(h, s, fact) in g'.vertices
  {
    if fact.sourceKind != F.Module {
      FactPropertyNames(fact.sourceSymbol, fact.sourceDisplay, language, tier, fact);
      VertexKindsAreBarFree(fact);
      AddVertexKeeps(h, g, s, repoVid, SourceVertexKind(fact.sourceKind), "ast:" + fact.sourceSymbol,
                     WithPath(CommonProperties(fact.sourceSymbol, fact.sourceDisplay, language, tier, fact),
                              fact.filePath));
    }
  }

  lemma {:induction false} AddAstFactsKeeps(h: Hashes, g: Graph, s: CodeGraphScope, repoVid: string, language: string,
                                            tier: string, facts: seq<F.Fact>)
    requires ValidScope(s) && Good(h, g, s, repoVid)
    ensures var g' := AddAstFacts(h, g, s, repoVid, language, tier, facts);
            Good(h, g', s, repoVid) && Grows(g, g')
  {
    if facts != [] {
      var init, last := facts[..|facts| - 1], facts[|facts| - 1];
      var g1 := AddAstFacts(h, g, s, repoVid, language, tier, init);
      AddAstFactsKeeps(h, g, s, repoVid, language, tier, init);
      AddAstFactKeeps(h, g1, s, repoVid, language, tier, last);
      GrowsTransitive(g, g1, AddAstFact(h, g1, s, repoVid, language, tier, last));
    }
  }

  ghost predicate HasFiles(h: Hashes, g: Graph, s: CodeGraphScope, symbols: seq<ScipSymbol>) {
    forall i :: 0 <= i < |symbols| && symbols[i].filePath.Some? ==> FileVid(h, s, symbols[i].filePath.value) in g.vertices
  }

  lemma HasFilesNext(h: Hashes, a: Graph, b: Graph, s: CodeGraphScope, init: seq<ScipSymbol>, last: ScipSymbol)
    requires HasFiles(h, a, s, init) && Grows(a, b)
    requires last.filePath.Some? ==> FileVid(h, s, last.filePath.value) in b.vertices
    ensures HasFiles(h, b, s, init + [last])
  {
  }

  lemma AddScipFileKeeps(h: Hashes, g: Graph, s: CodeGraphScope, repoVid: string, init: seq<ScipSymbol>,
                         sym: ScipSymbol)
    requires ValidScope(s) && Good(h, g, s, repoVid) && HasFiles(h, g, s, init)
    ensures var g' := AddScipFile(h, g, s, repoVid, sym);
            Good(h, g', s, repoVid) && Grows(g, g') && HasFiles(h, g', s, init + [sym])
  {
    if sym.filePath.Some? {
      AddFileVertexKeeps(h, g, s, repoVid, sym.filePath.value);
    }
    HasFilesNext(h, g, AddScipFile(h, g, s, repoVid, sym), s, init, sym);
  }

  lemma {:induction false} AddScipFilesKeeps(h: Hashes, g: Graph, s: CodeGraphScope, repoVid: string,
                                             symbols: seq<ScipSymbol>)
    requires ValidScope(s) && Good(h, g, s, repoVid)
    ensures var g' := AddScipFiles(h, g, s, repoVid, symbols);
            Good(h, g', s, repoVid) && Grows(g, g') && HasFiles(h, g', s, symbols)
  {
    if symbols != [] {
      var init, last := symbols[..|symbols| - 1], symbols[|symbols| - 1];
      var g1 := AddScipFiles(h, g, s, repoVid, init);
      AddScipFilesKeeps(h, g, s, repoVid, init);
      AddScipFileKeeps(h, g1, s, repoVid, init, last);
      GrowsTransitive(g, g1, AddScipFile(h, g1, s, repoVid, last));
      assert symbols == init + [last];
    }
  }

  lemma SymbolPropertyNames(language: string, sym: ScipSymbol)
    ensures SymbolProperties(language, sym).Keys <= CALLER_NAMES
  {
    assert ScipCommon(sym.symbol, sym.displayName, UnwrapOr(sym.language, language), ScipSource(language)).Keys <= CALLER_NAMES;
    assert Opt("path", MapText(sym.filePath)).Keys <= CALLER_NAMES;
    assert Opt("evidenceFilePath", MapText(sym.filePath)).Keys <= CALLER_NAMES;
    assert Opt("startLine", MapInt(sym.startLine)).Keys <= CALLER_NAMES;
    assert Opt("endLine", MapInt(sym.endLine)).Keys <= CALLER_NAMES;
  }

  lemma AddScipSymbolKeeps(h: Hashes, g: Graph, s: CodeGraphScope, repoVid: string, language: string, sym: ScipSymbol)
    requires ValidScope(s) && Good(h, g, s, repoVid)
    requires (sym.filePath.Some? ==> FileVid(h, s, sym.filePath.value) in g.vertices)
    ensures var g' := AddScipSymbol(h, g, s, language, sym);
            Good(h, g', s, repoVid) && Grows(g, g') && SymbolVid(h, s, sym) in g'.vertices
  {
    PlainKinds();
    var g1 := AddVertex(h, g, s, ScipKind(sym.kind), "scip:" + sym.symbol, SymbolProperties(language, sym));
    SymbolPropertyNames(language, sym);
    ScipKindIsBarFree(sym.kind);
    AddVertexKeeps(h, g, s, repoVid, ScipKind(sym.kind), "scip:" + sym.symbol, SymbolProperties(language, sym));
    if sym.filePath.Some? {
      AddEdgeKeeps(h, g1, s, repoVid, FileVid(h, s, sym.filePath.value), SymbolVid(h, s, sym), "CONTAINS",
                   ScipSource(language), ScipOptions(sym.filePath));
      GrowsTransitive(g, g1, AddScipSymbol(h, g, s, language, sym));
    }
  }

  ghost predicate HasSymbols(h: Hashes, g: Graph, s: CodeGraphScope, index: map<string, ScipSymbol>) {
    forall sym :: sym in index ==> SymbolVid(h, s, index[sym]) in g.vertices
  }

  lemma HasSymbolsNext(h: Hashes, a: Graph, b: Graph, s: CodeGraphScope, index: map<string, ScipSymbol>,
                       sym: ScipSymbol)
    requires HasSymbols(h, a, s, index) && Grows(a, b) && SymbolVid(h, s, sym) in b.vertices
    ensures HasSymbols(h, b, s, index[sym.symbol := sym])
  {
  }

  lemma {:induction false} AddScipSymbolsKeeps(h: Hashes, g: Graph, s: CodeGraphScope, repoVid: string,
                                               language: string, symbols: seq<ScipSymbol>)
    requires ValidScope(s) && Good(h, g, s, repoVid) && HasFiles(h, g, s, symbols)
    ensures var g' := AddScipSymbols(h, g, s, language, symbols);
            Good(h, g', s, repoVid) && Grows(g, g') && HasSymbols(h, g', s, SymbolIndex(symbols))
  {
    if symbols != [] {
      var init, last := symbols[..|symbols| - 1], symbols[|symbols| - 1];
      var g1 := AddScipSymbols(h, g, s, language, init);
      AddScipSymbolsKeeps(h, g, s, repoVid, language, init);
      AddScipSymbolKeeps(h, g1, s, repoVid, language, last);
      GrowsTransitive(g, g1, AddScipSymbol(h, g1, s, language, last));
      HasSymbolsNext(h, g1, AddScipSymbol(h, g1, s, language, last), s, SymbolIndex(init), last);
    }
  }

  lemma EnsureSymbolKeeps(h: Hashes, g: Graph, s: CodeGraphScope, repoVid: string, language: string,
                          index: map<string, ScipSymbol>, symbol: string)
    requires ValidScope(s) && Good(h, g, s, repoVid) && HasSymbols(h, g, s, index)
    ensures var g' := EnsureSymbol(h, g, s, language, index, symbol);
            Good(h, g', s, repoVid) && Grows(g, g') && HasSymbols(h, g', s, index) && RelatedVid(h, s, index, symbol) in g'.vertices
  {
    if symbol !in index {
      AddVertexKeeps(h, g, s, repoVid, "symbol", "scip:" + symbol,
                     ScipCommon(symbol, symbol, language, ScipSource(language)));
    }
  }

  lemma EdgeIfKeeps(h: Hashes, g: Graph, s: CodeGraphScope, repoVid: string, enabled: bool, fromVid: string,
                    toVid: string, kind: string,
                    source: string, o: EdgeOptions)
    requires Good(h, g, s, repoVid) && kind != ANCHOR_LINK && '|' !in kind && fromVid in g.vertices
    requires toVid in g.vertices
    ensures var g' := EdgeIf(h, g, s, enabled, fromVid, toVid, kind, source, o);
            Good(h, g', s, repoVid) && Grows(g, g')
  {
    if enabled { AddEdgeKeeps(h, g, s, repoVid, fromVid, toVid, kind, source, o); }
  }

  ghost predicate PlainFlags(flags: seq<Flag>) {
    forall i :: 0 <= i < |flags| ==> PlainKind(flags[i].kind)
  }

  lemma FlagsArePlain(rel: Relationship)
    ensures PlainFlags(EdgesToEmit(rel))
  {
    PlainKinds();
  }

  lemma {:induction false} AddFlagEdgesKeeps(h: Hashes, g: Graph, s: CodeGraphScope, repoVid: string, flags: seq<Flag>,
                                             fromVid: string,
                                             toVid: string, source: string, o: EdgeOptions)
    requires Good(h, g, s, repoVid) && fromVid in g.vertices && toVid in g.vertices && PlainFlags(flags)
    ensures var g' := AddFlagEdges(h, g, s, flags, fromVid, toVid, source, o);
            Good(h, g', s, repoVid) && Grows(g, g')
    decreases |flags|
  {
    if flags != [] {
      var init, last := flags[..|flags| - 1], flags[|flags| - 1];
      var g1 := AddFlagEdges(h, g, s, init, fromVid, toVid, source, o);
      AddFlagEdgesKeeps(h, g, s, repoVid, init, fromVid, toVid, source, o);
      EdgeIfKeeps(h, g1, s, repoVid, last.enabled, fromVid, toVid, last.kind, source, o);
      GrowsTransitive(g, g1, EdgeIf(h, g1, s, last.enabled, fromVid, toVid, last.kind, source, o));
    }
  }

  lemma AddRelationshipKeeps(h: Hashes, g: Graph, s: CodeGraphScope, repoVid: string, language: string,
                             index: map<string, ScipSymbol>, rel: Relationship)
    requires ValidScope(s) && Good(h, g, s, repoVid) && HasSymbols(h, g, s, index)
    ensures var g' := AddRelationship(h, g, s, language, index, rel);
            Good(h, g', s, repoVid) && Grows(g, g') && HasSymbols(h, g', s, index)
  {
    var g1 := EnsureSymbol(h, g, s, language, index, rel.sourceSymbol);
    EnsureSymbolKeeps(h, g, s, repoVid, language, index, rel.sourceSymbol);
    var g2 := EnsureSymbol(h, g1, s, language, index, rel.targetSymbol);
    EnsureSymbolKeeps(h, g1, s, repoVid, language, index, rel.targetSymbol);
    FlagsArePlain(rel);
    AddFlagEdgesKeeps(h, g2, s, repoVid, EdgesToEmit(rel), RelatedVid(h, s, index, rel.sourceSymbol),
                      RelatedVid(h, s, index, rel.targetSymbol),
                      ScipSource(language), ScipOptions(EvidenceOf(index, rel.sourceSymbol)));
    GrowsTransitive(g, g1, g2);
    GrowsTransitive(g, g2, AddRelationship(h, g, s, language, index, rel));
  }

  lemma {:induction false} AddRelationshipsKeeps(h: Hashes, g: Graph, s: CodeGraphScope, repoVid: string,
                                                 language: string,
                                                 index: map<string, ScipSymbol>, rels: seq<Relationship>)
    requires ValidScope(s) && Good(h, g, s, repoVid) && HasSymbols(h, g, s, index)
    ensures var g' := AddRelationships(h, g, s, language, index, rels);
            Good(h, g', s, repoVid) && Grows(g, g') && HasSymbols(h, g', s, index)
  {
    if rels != [] {
      var init, last := rels[..|rels| - 1], rels[|rels| - 1];
      var g1 := AddRelationships(h, g, s, language, index, init);
      AddRelationshipsKeeps(h, g, s, repoVid, language, index, init);
      AddRelationshipKeeps(h, g1, s, repoVid, language, index, last);
      GrowsTransitive(g, g1, AddRelationship(h, g1, s, language, index, last));
    }
  }

  lemma AddScipRowsKeeps(h: Hashes, g: Graph, s: CodeGraphScope, repoVid: string, language: string, rows: ScipRows)
    requires ValidScope(s) && Good(h, g, s, repoVid)
    ensures var g' := AddScipRows(h, g, s, repoVid, language, rows);
            Good(h, g', s, repoVid) && Grows(g, g')
  {
    var g1 := AddScipFiles(h, g, s, repoVid, rows.symbols);
    AddScipFilesKeeps(h, g, s, repoVid, rows.symbols);
    var g2 := AddScipSymbols(h, g1, s, language, rows.symbols);
    AddScipSymbolsKeeps(h, g1, s, repoVid, language, rows.symbols);
    AddRelationshipsKeeps(h, g2, s, repoVid, language, SymbolIndex(rows.symbols), rows.relationships);
    GrowsTransitive(g, g1, g2);
    GrowsTransitive(g, g2, AddScipRows(h, g, s, repoVid, language, rows));
  }

  // Batches one fact, symbol or relationship at a time.

  lemma AstPrefix(h: Hashes, g: Graph, s: CodeGraphScope, repoVid: string, language: string, tier: string,
                  facts: seq<F.Fact>, i: nat)
    requires i < |facts|
    ensures AddAstFacts(h, g, s, repoVid, language, tier, facts[..i + 1])
         == AddAstFact(h, AddAstFacts(h, g, s, repoVid, language, tier, facts[..i]), s, repoVid, language, tier,
                       facts[i])
  {
    assert facts[..i + 1][..i] == facts[..i];
  }

  lemma FilesPrefix(h: Hashes, g: Graph, s: CodeGraphScope, repoVid: string, symbols: seq<ScipSymbol>, i: nat)
    requires i < |symbols|
    ensures AddScipFiles(h, g, s, repoVid, symbols[..i + 1]) ==
            var before := AddScipFiles(h, g, s, repoVid, symbols[..i]);
            if symbols[i].filePath.None? then before
            else AddFileVertex(h, before, s, repoVid, symbols[i].filePath.value)
  {
    assert symbols[..i + 1][..i] == symbols[..i];
  }

  lemma SymbolsPrefix(h: Hashes, g: Graph, s: CodeGraphScope, language: string, symbols: seq<ScipSymbol>, i: nat)
    requires i < |symbols|
    ensures AddScipSymbols(h, g, s, language, symbols[..i + 1]) ==
            AddScipSymbol(h, AddScipSymbols(h, g, s, language, symbols[..i]), s, language, symbols[i])
    ensures SymbolIndex(symbols[..i + 1]) == SymbolIndex(symbols[..i])[symbols[i].symbol := symbols[i]]
  {
    assert symbols[..i + 1][..i] == symbols[..i];
  }

  lemma RelationshipsPrefix(h: Hashes, g: Graph, s: CodeGraphScope, language: string, index: map<string, ScipSymbol>,
                            rels: seq<Relationship>, i: nat)
    requires i < |rels|
    ensures AddRelationships(h, g, s, language, index, rels[..i + 1]) ==
            AddRelationship(h, AddRelationships(h, g, s, language, index, rels[..i]), s, language, index, rels[i])
  {
    assert rels[..i + 1][..i] == rels[..i];
  }

  // What a batch records.

  /** The edge is stored under its key, with these ends and this kind. */
  ghost predicate Records(h: Hashes, g: Graph, fromVid: string, toVid: string, kind: string, source: string) {
    var key := KeyFor(h, fromVid, toVid, kind, source);
    key in g.edges && g.edges[key].fromVid == fromVid && g.edges[key].toVid == toVid && g.edges[key].kind == kind
  }

  /** An edge is dropped only when an edge with the same ends, kind and rank is stored already. */
  lemma AddEdgeRecords(h: Hashes, g: Graph, s: CodeGraphScope, repoVid: string, fromVid: string, toVid: string,
                       kind: string, source: string, o: EdgeOptions)
    requires Sealed(h, repoVid) && Good(h, g, s, repoVid) && '|' !in kind
    requires toVid in g.vertices && (fromVid in g.vertices || fromVid == repoVid)
    ensures Records(h, AddEdge(h, g, s, fromVid, toVid, kind, source, o), fromVid, toVid, kind, source)
  {
    var key := KeyFor(h, fromVid, toVid, kind, source);
    if key in g.edges {
      var e := g.edges[key];
      assert EdgeOk(g, s, repoVid, key);
      EdgeKeyIdentifies(fromVid, toVid, kind, RankOf(h, fromVid, toVid, kind, source), e.fromVid, e.toVid, e.kind,
                        e.rank);
    }
  }

  lemma RecordsStay(h: Hashes, a: Graph, b: Graph, fromVid: string, toVid: string, kind: string, source: string)
    requires Grows(a, b) && Records(h, a, fromVid, toVid, kind, source)
    ensures Records(h, b, fromVid, toVid, kind, source)
  {
  }

  /** A fact's edge runs from its source vertex to its target vertex, and the repository contains its file. */
  ghost predicate FactRecorded(h: Hashes, g: Graph, s: CodeGraphScope, repoVid: string, language: string,
                               fact: F.Fact) {
    && Records(h, g, SourceVid(h, s, fact), TargetVid(h, s, fact), EdgeKindOf(fact.kind), AstSource(language))
    && Records(h, g, repoVid, FileVid(h, s, fact.filePath), "CONTAINS", SCIP)
  }

  lemma AddFileVertexRecords(h: Hashes, g: Graph, s: CodeGraphScope, repoVid: string, path: string)
    requires ValidScope(s) && Sealed(h, repoVid) && Good(h, g, s, repoVid)
    ensures Records(h, AddFileVertex(h, g, s, repoVid, path), repoVid, FileVid(h, s, path), "CONTAINS", SCIP)
  {
    PlainKinds();
    AddVertexKeeps(h, g, s, repoVid, "file", "file:" + path, FileProperties(path));
    AddEdgeRecords(h, AddVertex(h, g, s, "file", "file:" + path, FileProperties(path)), s, repoVid, repoVid,
                   FileVid(h, s, path), "CONTAINS", SCIP, NO_OPTIONS);
  }

  lemma AddAstFactRecords(h: Hashes, g: Graph, s: CodeGraphScope, repoVid: string, language: string, tier: string,
                          fact: F.Fact)
    requires ValidScope(s) && Sealed(h, repoVid) && Good(h, g, s, repoVid)
    ensures FactRecorded(h, AddAstFact(h, g, s, repoVid, language, tier, fact), s, repoVid, language, fact)
  {
    PlainKinds();
    var g1 := AddFileVertex(h, g, s, repoVid, fact.filePath);
    AddFileVertexKeeps(h, g, s, repoVid, fact.filePath);
    AddFileVertexRecords(h, g, s, repoVid, fact.filePath);
    var g2 := AddSource(h, g1, s, language, tier, fact);
    AddSourceKeeps(h, g1, s, repoVid, language, tier, fact);
    var g3 := AddTarget(h, g2, s, language, tier, fact);
    AddTargetKeeps(h, g2, s, repoVid, language, tier, fact);
    AddEdgeRecords(h, g3, s, repoVid, SourceVid(h, s, fact), TargetVid(h, s, fact), EdgeKindOf(fact.kind),
                   AstSource(language), FactOptions(tier, fact));
    AddEdgeKeeps(h, g3, s, repoVid, SourceVid(h, s, fact), TargetVid(h, s, fact), EdgeKindOf(fact.kind),
                 AstSource(language), FactOptions(tier, fact));
    GrowsTransitive(g1, g2, g3);
    GrowsTransitive(g1, g3, AddAstFact(h, g, s, repoVid, language, tier, fact));
    RecordsStay(h, g1, AddAstFact(h, g, s, repoVid, language, tier, fact), repoVid, FileVid(h, s, fact.filePath),
                "CONTAINS", SCIP);
  }

  /** Every fact of a batch is recorded. */
  lemma {:induction false} AddAstFactsRecords(h: Hashes, g: Graph, s: CodeGraphScope, repoVid: string, language: string,
                                              tier: string,
                                              facts: seq<F.Fact>, i: nat)
    requires ValidScope(s) && Sealed(h, repoVid) && Good(h, g, s, repoVid) && i < |facts|
    ensures FactRecorded(h, AddAstFacts(h, g, s, repoVid, language, tier, facts), s, repoVid, language, facts[i])
  {
    var init, last := facts[..|facts| - 1], facts[|facts| - 1];
    var g1 := AddAstFacts(h, g, s, repoVid, language, tier, init);
    AddAstFactsKeeps(h, g, s, repoVid, language, tier, init);
    if i == |facts| - 1 {
      AddAstFactRecords(h, g1, s, repoVid, language, tier, last);
    } else {
      AddAstFactsRecords(h, g, s, repoVid, language, tier, init, i);
      AddAstFactKeeps(h, g1, s, repoVid, language, tier, last);
      RecordsStay(h, g1, AddAstFact(h, g1, s, repoVid, language, tier, last),
                  SourceVid(h, s, facts[i]), TargetVid(h, s, facts[i]), EdgeKindOf(facts[i].kind), AstSource(language));
      RecordsStay(h, g1, AddAstFact(h, g1, s, repoVid, language, tier, last), repoVid, FileVid(h, s, facts[i].filePath),
                  "CONTAINS", SCIP);
    }
  }

  /** Each set flag of a relationship has its edge from the source symbol to the target symbol. */
  ghost predicate RelationshipRecorded(h: Hashes, g: Graph, s: CodeGraphScope, language: string,
                                       index: map<string, ScipSymbol>, rel: Relationship) {
    var src, dst, tag := RelatedVid(h, s, index, rel.sourceSymbol), RelatedVid(h, s, index, rel.targetSymbol), ScipSource(language);
    && (rel.isImplementation ==> Records(h, g, src, dst, "IMPLEMENTS", tag))
    && (rel.isTypeDefinition ==> Records(h, g, src, dst, "TYPE_DEFINES", tag))
    && (rel.isReference ==> Records(h, g, src, dst, "REFERENCES", tag))
    && (rel.isDefinition ==> Records(h, g, src, dst, "DEFINES", tag))
  }

  lemma EdgeIfRecords(h: Hashes, g: Graph, s: CodeGraphScope, repoVid: string, enabled: bool, fromVid: string,
                      toVid: string, kind: string,
                      source: string, o: EdgeOptions)
    requires Sealed(h, repoVid) && Good(h, g, s, repoVid) && PlainKind(kind) && fromVid in g.vertices
    requires toVid in g.vertices
    ensures var g' := EdgeIf(h, g, s, enabled, fromVid, toVid, kind, source, o);
            Good(h, g', s, repoVid) && Grows(g, g') && (enabled ==> Records(h, g', fromVid, toVid, kind, source))
  {
    EdgeIfKeeps(h, g, s, repoVid, enabled, fromVid, toVid, kind, source, o);
    if enabled { AddEdgeRecords(h, g, s, repoVid, fromVid, toVid, kind, source, o); }
  }

  lemma {:induction false} AddFlagEdgesRecords(h: Hashes, g: Graph, s: CodeGraphScope, repoVid: string,
                                               flags: seq<Flag>, fromVid: string,
                                               toVid: string, source: string, o: EdgeOptions, i: nat)
    requires Sealed(h, repoVid) && Good(h, g, s, repoVid) && fromVid in g.vertices && toVid in g.vertices
    requires PlainFlags(flags)
    requires i < |flags| && flags[i].enabled
    ensures Records(h, AddFlagEdges(h, g, s, flags, fromVid, toVid, source, o), fromVid, toVid, flags[i].kind, source)
    decreases |flags|
  {
    var init, last := flags[..|flags| - 1], flags[|flags| - 1];
    var g1 := AddFlagEdges(h, g, s, init, fromVid, toVid, source, o);
    AddFlagEdgesKeeps(h, g, s, repoVid, init, fromVid, toVid, source, o);
    EdgeIfRecords(h, g1, s, repoVid, last.enabled, fromVid, toVid, last.kind, source, o);
    if i < |flags| - 1 {
      AddFlagEdgesRecords(h, g, s, repoVid, init, fromVid, toVid, source, o, i);
      RecordsStay(h, g1, AddFlagEdges(h, g, s, flags, fromVid, toVid, source, o), fromVid, toVid, flags[i].kind,
                  source);
    }
  }

  lemma AddRelationshipRecords(h: Hashes, g: Graph, s: CodeGraphScope, repoVid: string, language: string,
                               index: map<string, ScipSymbol>, rel: Relationship)
    requires ValidScope(s) && Sealed(h, repoVid) && Good(h, g, s, repoVid) && HasSymbols(h, g, s, index)
    ensures RelationshipRecorded(h, AddRelationship(h, g, s, language, index, rel), s, language, index, rel)
  {
    var src, dst, tag := RelatedVid(h, s, index, rel.sourceSymbol), RelatedVid(h, s, index, rel.targetSymbol), ScipSource(language);
    var o := ScipOptions(EvidenceOf(index, rel.sourceSymbol));
    var g1 := EnsureSymbol(h, g, s, language, index, rel.sourceSymbol);
    EnsureSymbolKeeps(h, g, s, repoVid, language, index, rel.sourceSymbol);
    var g2 := EnsureSymbol(h, g1, s, language, index, rel.targetSymbol);
    EnsureSymbolKeeps(h, g1, s, repoVid, language, index, rel.targetSymbol);
    AllFlagsRecorded(h, g2, s, repoVid, rel, src, dst, tag, o);
  }

  lemma AllFlagsRecorded(h: Hashes, g: Graph, s: CodeGraphScope, repoVid: string, rel: Relationship, src: string,
                         dst: string, tag: string, o: EdgeOptions)
    requires Sealed(h, repoVid) && Good(h, g, s, repoVid) && src in g.vertices && dst in g.vertices
    ensures var g' := AddFlagEdges(h, g, s, EdgesToEmit(rel), src, dst, tag, o);
            && (rel.isImplementation ==> Records(h, g', src, dst, "IMPLEMENTS", tag))
            && (rel.isTypeDefinition ==> Records(h, g', src, dst, "TYPE_DEFINES", tag))
            && (rel.isReference ==> Records(h, g', src, dst, "REFERENCES", tag))
            && (rel.isDefinition ==> Records(h, g', src, dst, "DEFINES", tag))
  {
    FlagsArePlain(rel);
    var flags := EdgesToEmit(rel);
    if rel.isImplementation { AddFlagEdgesRecords(h, g, s, repoVid, flags, src, dst, tag, o, 0); }
    if rel.isTypeDefinition { AddFlagEdgesRecords(h, g, s, repoVid, flags, src, dst, tag, o, 1); }
    if rel.isReference { AddFlagEdgesRecords(h, g, s, repoVid, flags, src, dst, tag, o, 2); }
    if rel.isDefinition { AddFlagEdgesRecords(h, g, s, repoVid, flags, src, dst, tag, o, 3); }
  }

  lemma RelationshipStays(h: Hashes, a: Graph, b: Graph, s: CodeGraphScope, language: string,
                          index: map<string, ScipSymbol>, rel: Relationship)
    requires Grows(a, b) && RelationshipRecorded(h, a, s, language, index, rel)
    ensures RelationshipRecorded(h, b, s, language, index, rel)
  {
  }

  lemma {:induction false} AddRelationshipsRecords(h: Hashes, g: Graph, s: CodeGraphScope, repoVid: string,
                                                   language: string,
                                                   index: map<string, ScipSymbol>, rels: seq<Relationship>, i: nat)
    requires ValidScope(s) && Sealed(h, repoVid) && Good(h, g, s, repoVid) && HasSymbols(h, g, s, index) && i < |rels|
    ensures RelationshipRecorded(h, AddRelationships(h, g, s, language, index, rels), s, language, index, rels[i])
  {
    var init, last := rels[..|rels| - 1], rels[|rels| - 1];
    var g1 := AddRelationships(h, g, s, language, index, init);
    AddRelationshipsKeeps(h, g, s, repoVid, language, index, init);
    if i == |rels| - 1 {
      AddRelationshipRecords(h, g1, s, repoVid, language, index, last);
    } else {
      AddRelationshipsRecords(h, g, s, repoVid, language, index, init, i);
      AddRelationshipKeeps(h, g1, s, repoVid, language, index, last);
      RelationshipStays(h, g1, AddRelationship(h, g1, s, language, index, last), s, language, index, rels[i]);
    }
  }

  /** Every relationship of a SCIP batch is recorded. */
  lemma AddScipRowsRecords(h: Hashes, g: Graph, s: CodeGraphScope, repoVid: string, language: string, rows: ScipRows,
                           i: nat)
    requires ValidScope(s) && Sealed(h, repoVid) && Good(h, g, s, repoVid) && i < |rows.relationships|
    ensures RelationshipRecorded(h, AddScipRows(h, g, s, repoVid, language, rows), s, language,
                                 SymbolIndex(rows.symbols), rows.relationships[i])
  {
    AddScipFilesKeeps(h, g, s, repoVid, rows.symbols);
    AddScipSymbolsKeeps(h, AddScipFiles(h, g, s, repoVid, rows.symbols), s, repoVid, language, rows.symbols);
    AddRelationshipsRecords(h,
                            AddScipSymbols(h, AddScipFiles(h, g, s, repoVid, rows.symbols), s, language, rows.symbols), s, repoVid, language,
                            SymbolIndex(rows.symbols), rows.relationships, i);
  }

  // Sequences of batches.

  datatype Batch = AstBatch(language: string, facts: seq<F.Fact>) | ScipBatch(language: string, rows: ScipRows)

  function AddBatch(h: Hashes, g: Graph, s: CodeGraphScope, repoVid: string, b: Batch): Graph {
    match b
    case AstBatch(language, facts) => AddAstFacts(h, g, s, repoVid, language, TierOf(facts), facts)
    case ScipBatch(language, rows) => AddScipRows(h, g, s, repoVid, language, rows)
  }

  function AddBatches(h: Hashes, g: Graph, s: CodeGraphScope, repoVid: string, bs: seq<Batch>): Graph {
    if bs == [] then g else AddBatch(h, AddBatches(h, g, s, repoVid, bs[..|bs| - 1]), s, repoVid, bs[|bs| - 1])
  }

  /** Every sequence of batches keeps the accumulator well formed and never changes what is stored. */
  lemma {:induction false} AddBatchesKeeps(h: Hashes, g: Graph, s: CodeGraphScope, repoVid: string, bs: seq<Batch>)
    requires ValidScope(s) && Good(h, g, s, repoVid)
    ensures Good(h, AddBatches(h, g, s, repoVid, bs), s, repoVid) && Grows(g, AddBatches(h, g, s, repoVid, bs))
  {
    if bs != [] {
      var init, last := bs[..|bs| - 1], bs[|bs| - 1];
      var g1 := AddBatches(h, g, s, repoVid, init);
      AddBatchesKeeps(h, g, s, repoVid, init);
      match last {
        case AstBatch(language, facts) => AddAstFactsKeeps(h, g1, s, repoVid, language, TierOf(facts), facts);
        case ScipBatch(language, rows) => AddScipRowsKeeps(h, g1, s, repoVid, language, rows);
      }
      GrowsTransitive(g, g1, AddBatch(h, g1, s, repoVid, last));
    }
  }
}
