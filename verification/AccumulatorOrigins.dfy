/**
 * Where everything a batch adds comes from: no edge or vertex is invented, and each edge says what
 * its fact or row says.
 */
module AccumulatorOrigins {
  import opened Basics
  import opened GraphTypes
  import opened GraphModel
  import opened Accumulator
  import opened AccumulatorLaws
  import F = Facts

  /** What an edge's columns read, besides its ends, its kind and the scope. */
  datatype Says = Says(
    confidence: Primitive, tier: Primitive, evidence: Primitive,
    startLine: Primitive, endLine: Primitive, source: Primitive, provenance: Primitive)

  function ReadSays(p: Properties): Says {
    Says(Property(p, "confidence"), Property(p, "confidenceTier"), Property(p, "evidenceFilePath"),
         Property(p, "startLine"), Property(p, "endLine"),
         Property(p, "source"), Property(p, "provenance"))
  }

  function SaysOf(source: string, o: EdgeOptions): Says {
    Says(Real(UnwrapOr(o.confidence, 1.0)), Text(UnwrapOr(o.confidenceTier, EXTRACTED)), TextOrNull(o.evidenceFilePath),
         IntOrNull(o.startLine), IntOrNull(o.endLine),
         Text(source), Text(UnwrapOr(o.provenance, HEURISTIC)))
  }

  lemma ColumnReads(columns: Properties, stamps: Properties, name: string)
    requires name in columns && name !in stamps
    ensures Property(columns + stamps, name) == columns[name]
  {
  }

  lemma CallerColumnReads(s: CodeGraphScope, kind: string, source: string, o: EdgeOptions, name: string)
    requires name in CALLER_NAMES && name in EdgeColumns(kind, source, o)
    ensures Property(EdgeBag(s, kind, source, o), name) == EdgeColumns(kind, source, o)[name]
  {
    CallerNamesAreNoStamps(s);
    ColumnReads(EdgeColumns(kind, source, o), Stamps(s), name);
  }

  lemma ColumnsSay(kind: string, source: string, o: EdgeOptions)
    ensures var c := EdgeColumns(kind, source, o);
            && ReadSays(c) == SaysOf(source, o)
            && {"confidence", "confidenceTier", "evidenceFilePath", "startLine", "endLine", "source", "provenance"} <= c.Keys
  {
    NormalizedKeyIsNew();
  }

  lemma NormalizedKeyIsNew()
    ensures "normalizedKey" !in CALLER_NAMES
  {
    assert "normalizedKey"[0] == 'n';
    assert forall name :: name in CALLER_NAMES ==> name[0] != 'n';
  }

  /** The context a caller gives, and otherwise the one that goes with the kind. */
  function ContextOf(kind: string, o: EdgeOptions): Primitive {
    TextOrNull(if o.context.Some? then o.context else DefaultContext(kind))
  }

  lemma ContextReads(s: CodeGraphScope, kind: string, source: string, o: EdgeOptions)
    ensures Property(EdgeBag(s, kind, source, o), "context") == ContextOf(kind, o)
  {
    assert "normalizedKey"[0] == 'n' && "context"[0] == 'c';
    assert |"context"| == 7 && |"orgId"| == 5 && |"workspaceId"| == 11 && |"repoId"| == 6 && |"revision"| == 8 && |"commitHash"| == 10
        && |"schemaVersion"| == 13 && |"builderVersion"| == 14;
    ColumnReads(EdgeColumns(kind, source, o), Stamps(s), "context");
  }

  /** Every column of a new edge besides its scope stamps reads what its options and kind say. */
  lemma NewEdgeSays(h: Hashes, s: CodeGraphScope, fromVid: string, toVid: string, kind: string, source: string,
                    o: EdgeOptions)
    ensures ReadSays(NewEdge(h, s, fromVid, toVid, kind, source, o).properties) == SaysOf(source, o)
    ensures Property(NewEdge(h, s, fromVid, toVid, kind, source, o).properties, "context") == ContextOf(kind, o)
  {
    ContextReads(s, kind, source, o);
    ColumnsSay(kind, source, o);
    CallerColumnReads(s, kind, source, o, "confidence");
    CallerColumnReads(s, kind, source, o, "confidenceTier");
    CallerColumnReads(s, kind, source, o, "evidenceFilePath");
    CallerColumnReads(s, kind, source, o, "startLine");
    CallerColumnReads(s, kind, source, o, "endLine");
    CallerColumnReads(s, kind, source, o, "source");
    CallerColumnReads(s, kind, source, o, "provenance");
  }

  ghost predicate Joins(e: Edge, fromVid: string, toVid: string, kind: string, w: Says) {
    && e.fromVid == fromVid && e.toVid == toVid && e.kind == kind
    && ReadSays(e.properties) == w && Property(e.properties, "context") == TextOrNull(DefaultContext(kind))
  }

  lemma AddEdgeOrigin(h: Hashes, g: Graph, s: CodeGraphScope, fromVid: string, toVid: string, kind: string,
                      source: string, o: EdgeOptions, k: string)
    requires k in AddEdge(h, g, s, fromVid, toVid, kind, source, o).edges && o.context == None
    ensures if k in g.edges then AddEdge(h, g, s, fromVid, toVid, kind, source, o).edges[k] == g.edges[k]
            else Joins(AddEdge(h, g, s, fromVid, toVid, kind, source, o).edges[k], fromVid, toVid, kind,
                       SaysOf(source, o))
  {
    NewEdgeSays(h, s, fromVid, toVid, kind, source, o);
  }

  /** What is stored under these keys stays. */
  ghost predicate Stays(a: Graph, b: Graph, vid: string, k: string) {
    && (vid in a.vertices ==> vid in b.vertices && b.vertices[vid] == a.vertices[vid])
    && (k in a.edges ==> k in b.edges && b.edges[k] == a.edges[k])
  }

  lemma AddVertexStays(h: Hashes, g: Graph, s: CodeGraphScope, kind: string, key: string, properties: Properties,
                       vid: string, k: string)
    ensures Stays(g, AddVertex(h, g, s, kind, key, properties), vid, k)
  {
  }

  lemma AddEdgeStays(h: Hashes, g: Graph, s: CodeGraphScope, fromVid: string, toVid: string, kind: string,
                     source: string, o: EdgeOptions,
                     vid: string, k: string)
    ensures Stays(g, AddEdge(h, g, s, fromVid, toVid, kind, source, o), vid, k)
  {
  }

  lemma AddFileVertexStays(h: Hashes, g: Graph, s: CodeGraphScope, repoVid: string, path: string, vid: string,
                           k: string)
    ensures Stays(g, AddFileVertex(h, g, s, repoVid, path), vid, k)
  {
    AddVertexStays(h, g, s, "file", "file:" + path, FileProperties(path), vid, k);
    AddEdgeStays(h, AddVertex(h, g, s, "file", "file:" + path, FileProperties(path)), s, repoVid, FileVid(h, s, path),
                 "CONTAINS", SCIP, NO_OPTIONS, vid, k);
  }

  lemma AddEndsStay(h: Hashes, g: Graph, s: CodeGraphScope, language: string, tier: string, fact: F.Fact, vid: string,
                    k: string)
    ensures Stays(g, AddSource(h, g, s, language, tier, fact), vid, k)
    ensures Stays(g, AddTarget(h, g, s, language, tier, fact), vid, k)
  {
    AddVertexStays(h, g, s, SourceVertexKind(fact.sourceKind), "ast:" + fact.sourceSymbol,
                   WithPath(CommonProperties(fact.sourceSymbol, fact.sourceDisplay, language, tier, fact), fact.filePath), vid, k);
    AddVertexStays(h, g, s, TargetVertexKind(fact.targetKind), "ast:" + fact.targetSymbol,
                   TargetProperties(language, tier, fact), vid, k);
  }

  lemma AddAstFactStays(h: Hashes, g: Graph, s: CodeGraphScope, repoVid: string, language: string, tier: string,
                        fact: F.Fact, vid: string, k: string)
    ensures Stays(g, AddAstFact(h, g, s, repoVid, language, tier, fact), vid, k)
  {
    var g1 := AddFileVertex(h, g, s, repoVid, fact.filePath);
    AddFileVertexStays(h, g, s, repoVid, fact.filePath, vid, k);
    var g2 := AddSource(h, g1, s, language, tier, fact);
    AddEndsStay(h, g1, s, language, tier, fact, vid, k);
    var g3 := AddTarget(h, g2, s, language, tier, fact);
    AddEndsStay(h, g2, s, language, tier, fact, vid, k);
    AddEdgeStays(h, g3, s, SourceVid(h, s, fact), TargetVid(h, s, fact), EdgeKindOf(fact.kind), AstSource(language),
                 FactOptions(tier, fact), vid, k);
  }

  // AST batches.

  /** The edge that contains a file in the repository. */
  ghost predicate HoldsFile(h: Hashes, s: CodeGraphScope, repoVid: string, e: Edge, path: string) {
    Joins(e, repoVid, FileVid(h, s, path), "CONTAINS",
          Says(Real(1.0), Text(EXTRACTED), Null, Null, Null, Text(SCIP), Text(HEURISTIC)))
  }

  /** An edge is of the fact's kind, in upper case. */
  ghost predicate Spelled(fact: F.FactKind, kind: string) {
    match fact
    case Defines => kind == "DEFINES"
    case Calls => kind == "CALLS"
    case ImportsFrom => kind == "IMPORTS_FROM"
    case Extends => kind == "EXTENDS"
    case Implements => kind == "IMPLEMENTS"
  }

  /** The fact's own edge, with its confidence, file and lines. */
  ghost predicate TellsFact(h: Hashes, s: CodeGraphScope, language: string, tier: string, e: Edge, fact: F.Fact) {
    Spelled(fact.kind, e.kind) &&
    Joins(e, SourceVid(h, s, fact), TargetVid(h, s, fact), EdgeKindOf(fact.kind),
          Says(Real(fact.confidence), Text(tier), Text(fact.filePath), Int(fact.startLine), Int(fact.endLine),
               Text(AstSource(language)), Text(HEURISTIC)))
  }

  lemma AddFileVertexOrigin(h: Hashes, g: Graph, s: CodeGraphScope, repoVid: string, path: string, k: string)
    requires k in AddFileVertex(h, g, s, repoVid, path).edges
    ensures if k in g.edges then AddFileVertex(h, g, s, repoVid, path).edges[k] == g.edges[k]
            else HoldsFile(h, s, repoVid, AddFileVertex(h, g, s, repoVid, path).edges[k], path)
  {
    AddEdgeOrigin(h, AddVertex(h, g, s, "file", "file:" + path, FileProperties(path)), s, repoVid, FileVid(h, s, path),
                  "CONTAINS", SCIP, NO_OPTIONS, k);
  }

  lemma EndsKeepEdges(h: Hashes, g: Graph, s: CodeGraphScope, language: string, tier: string, fact: F.Fact)
    ensures AddTarget(h, AddSource(h, g, s, language, tier, fact), s, language, tier, fact).edges == g.edges
  {
  }

  lemma AddFactEdgeOrigin(h: Hashes, g: Graph, s: CodeGraphScope, language: string, tier: string, fact: F.Fact,
                          k: string)
    requires k in AddEdge(h, g, s, SourceVid(h, s, fact), TargetVid(h, s, fact), EdgeKindOf(fact.kind), AstSource(language), FactOptions(tier, fact)).edges
    ensures var e := AddEdge(h, g, s, SourceVid(h, s, fact), TargetVid(h, s, fact), EdgeKindOf(fact.kind),
                             AstSource(language), FactOptions(tier, fact)).edges[k];
            if k in g.edges then e == g.edges[k] else TellsFact(h, s, language, tier, e, fact)
  {
    AddEdgeOrigin(h, g, s, SourceVid(h, s, fact), TargetVid(h, s, fact), EdgeKindOf(fact.kind), AstSource(language),
                  FactOptions(tier, fact), k);
  }

  /** The edge was there before, or contains the fact's file, or tells the fact. */
  ghost predicate KeptOrFact(h: Hashes, s: CodeGraphScope, repoVid: string, language: string, tier: string,
                             fact: F.Fact,
                             before: map<string, Edge>, after: map<string, Edge>, k: string)
    requires k in after
  {
    if k in before then after[k] == before[k]
    else HoldsFile(h, s, repoVid, after[k], fact.filePath) || TellsFact(h, s, language, tier, after[k], fact)
  }

  lemma AddAstFactOrigin(h: Hashes, g: Graph, s: CodeGraphScope, repoVid: string, language: string, tier: string,
                         fact: F.Fact, k: string)
    requires k in AddAstFact(h, g, s, repoVid, language, tier, fact).edges
    ensures KeptOrFact(h, s, repoVid, language, tier, fact, g.edges,
                       AddAstFact(h, g, s, repoVid, language, tier, fact).edges, k)
  {
    var g1 := AddFileVertex(h, g, s, repoVid, fact.filePath);
    var g3 := AddTarget(h, AddSource(h, g1, s, language, tier, fact), s, language, tier, fact);
    EndsKeepEdges(h, g1, s, language, tier, fact);
    AddFactEdgeOrigin(h, g3, s, language, tier, fact, k);
    if k in g1.edges { AddFileVertexOrigin(h, g, s, repoVid, fact.filePath, k); }
  }

  /** The edge tells the fact, or contains its file. */
  ghost predicate OfFact(h: Hashes, s: CodeGraphScope, repoVid: string, language: string, tier: string, e: Edge,
                         fact: F.Fact) {
    HoldsFile(h, s, repoVid, e, fact.filePath) || TellsFact(h, s, language, tier, e, fact)
  }

  lemma AstEdgeStep(h: Hashes, g: Graph, s: CodeGraphScope, repoVid: string, language: string, tier: string,
                    fact: F.Fact, k: string)
    returns (next: Graph)
    ensures next == AddAstFact(h, g, s, repoVid, language, tier, fact) && Stays(g, next, "", k)
    ensures k in next.edges && k !in g.edges ==> OfFact(h, s, repoVid, language, tier, next.edges[k], fact)
  {
    next := AddAstFact(h, g, s, repoVid, language, tier, fact);
    AddAstFactStays(h, g, s, repoVid, language, tier, fact, "", k);
    if k in next.edges { AddAstFactOrigin(h, g, s, repoVid, language, tier, fact, k); }
  }

  /** Every edge an AST batch adds tells one of its facts, or contains that fact's file. */
  lemma AddAstFactsOrigin(h: Hashes, g: Graph, s: CodeGraphScope, repoVid: string, language: string, tier: string,
                          facts: seq<F.Fact>,
                          k: string) returns (i: nat)
    ensures var g' := AddAstFacts(h, g, s, repoVid, language, tier, facts);
            k in g'.edges && k !in g.edges ==> i < |facts| && OfFact(h, s, repoVid, language, tier, g'.edges[k], facts[i])
  {
    var cur := g;
    i := 0;
    for n := 0 to |facts|
      invariant cur == AddAstFacts(h, g, s, repoVid, language, tier, facts[..n])
      invariant k in cur.edges && k !in g.edges ==>
                  i < n && OfFact(h, s, repoVid, language, tier, cur.edges[k], facts[i])
    {
      AstPrefix(h, g, s, repoVid, language, tier, facts, n);
      var next := AstEdgeStep(h, cur, s, repoVid, language, tier, facts[n], k);
      i := if k in cur.edges then i else n;
      cur := next;
    }
    assert facts[..|facts|] == facts;
  }

  /** The tier of a whole batch goes by its first fact. */
  ghost predicate FirstFactTier(facts: seq<F.Fact>, tier: string) {
    facts != [] && tier == if facts[0].confidence >= 0.8 then "EXTRACTED" else "INFERRED"
  }

  /** An edge of an AST batch contains a file, or carries the tier that the batch's first fact decides. */
  lemma AstBatchTier(h: Hashes, g: Graph, s: CodeGraphScope, repoVid: string, language: string, facts: seq<F.Fact>,
                     k: string, after: Graph) returns (tier: string)
    requires after == AddBatch(h, g, s, repoVid, AstBatch(language, facts)) && k in after.edges && k !in g.edges
    ensures FirstFactTier(facts, tier)
    ensures after.edges[k].kind == "CONTAINS" || Property(after.edges[k].properties, "confidenceTier") == Text(tier)
  {
    tier := TierOf(facts);
    var i := AddAstFactsOrigin(h, g, s, repoVid, language, tier, facts, k);
  }

  // SCIP batches.

  /** The columns of an edge that a SCIP row gives. */
  function ScipSays(language: string, evidence: Option<string>): Says {
    Says(Real(SCIP_CONFIDENCE), Text(EXTRACTED), TextOrNull(evidence), Null, Null, Text(ScipSource(language)),
         Text(SCIP))
  }

  /** The edge that contains a symbol in its file. */
  ghost predicate HoldsSymbol(h: Hashes, s: CodeGraphScope, language: string, e: Edge, sym: ScipSymbol) {
    sym.filePath.Some? && Joins(e, FileVid(h, s, sym.filePath.value), SymbolVid(h, s, sym), "CONTAINS",
                                ScipSays(language, sym.filePath))
  }

  ghost predicate FlagSet(rel: Relationship, kind: string) {
    || (rel.isImplementation && kind == "IMPLEMENTS") || (rel.isTypeDefinition && kind == "TYPE_DEFINES")
    || (rel.isReference && kind == "REFERENCES") || (rel.isDefinition && kind == "DEFINES")
  }

  /** An edge for a set flag of the relationship, from its source symbol to its target symbol. */
  ghost predicate TellsRelationship(h: Hashes, s: CodeGraphScope, language: string, index: map<string, ScipSymbol>,
                                    e: Edge, rel: Relationship) {
    && FlagSet(rel, e.kind)
    && Joins(e, RelatedVid(h, s, index, rel.sourceSymbol), RelatedVid(h, s, index, rel.targetSymbol), e.kind,
             ScipSays(language, EvidenceOf(index, rel.sourceSymbol)))
  }

  lemma {:induction false} AddScipFilesOrigin(h: Hashes, g: Graph, s: CodeGraphScope, repoVid: string,
                                              symbols: seq<ScipSymbol>, k: string)
    returns (i: nat)
    requires k in AddScipFiles(h, g, s, repoVid, symbols).edges && k !in g.edges
    ensures i < |symbols| && symbols[i].filePath.Some?
    ensures HoldsFile(h, s, repoVid, AddScipFiles(h, g, s, repoVid, symbols).edges[k], symbols[i].filePath.value)
    decreases |symbols|
  {
    var init, last := symbols[..|symbols| - 1], symbols[|symbols| - 1];
    var g1 := AddScipFiles(h, g, s, repoVid, init);
    if last.filePath.Some? { AddFileVertexOrigin(h, g1, s, repoVid, last.filePath.value, k); }
    if k in g1.edges {
      i := AddScipFilesOrigin(h, g, s, repoVid, init, k);
    } else {
      i := |symbols| - 1;
    }
  }

  lemma AddScipSymbolOrigin(h: Hashes, g: Graph, s: CodeGraphScope, language: string, sym: ScipSymbol, k: string)
    requires k in AddScipSymbol(h, g, s, language, sym).edges
    ensures if k in g.edges then AddScipSymbol(h, g, s, language, sym).edges[k] == g.edges[k]
            else HoldsSymbol(h, s, language, AddScipSymbol(h, g, s, language, sym).edges[k], sym)
  {
    if sym.filePath.Some? {
      var g1 := AddVertex(h, g, s, ScipKind(sym.kind), "scip:" + sym.symbol, SymbolProperties(language, sym));
      AddEdgeOrigin(h, g1, s, FileVid(h, s, sym.filePath.value), SymbolVid(h, s, sym), "CONTAINS",
                    ScipSource(language), ScipOptions(Some(sym.filePath.value)), k);
    }
  }

  lemma AddScipSymbolStays(h: Hashes, g: Graph, s: CodeGraphScope, language: string, sym: ScipSymbol, k: string)
    ensures Stays(g, AddScipSymbol(h, g, s, language, sym), "", k)
  {
    var g1 := AddVertex(h, g, s, ScipKind(sym.kind), "scip:" + sym.symbol, SymbolProperties(language, sym));
    AddVertexStays(h, g, s, ScipKind(sym.kind), "scip:" + sym.symbol, SymbolProperties(language, sym), "", k);
    if sym.filePath.Some? {
      AddEdgeStays(h, g1, s, FileVid(h, s, sym.filePath.value), SymbolVid(h, s, sym), "CONTAINS", ScipSource(language),
                   ScipOptions(sym.filePath), "", k);
    }
  }

  lemma AddScipSymbolsOrigin(h: Hashes, g: Graph, s: CodeGraphScope, language: string, symbols: seq<ScipSymbol>,
                             k: string)
    returns (i: nat)
    ensures var g' := AddScipSymbols(h, g, s, language, symbols);
            k in g'.edges && k !in g.edges ==> i < |symbols| && HoldsSymbol(h, s, language, g'.edges[k], symbols[i])
  {
    var cur := g;
    i := 0;
    for n := 0 to |symbols|
      invariant cur == AddScipSymbols(h, g, s, language, symbols[..n])
      invariant k in cur.edges && k !in g.edges ==> i < n && HoldsSymbol(h, s, language, cur.edges[k], symbols[i])
    {
      SymbolsPrefix(h, g, s, language, symbols, n);
      var next := SymbolStep(h, cur, s, language, symbols[n], k);
      i := if k in cur.edges then i else n;
      cur := next;
    }
    assert symbols[..|symbols|] == symbols;
  }

  lemma SymbolStep(h: Hashes, g: Graph, s: CodeGraphScope, language: string, sym: ScipSymbol, k: string)
    returns (next: Graph)
    ensures next == AddScipSymbol(h, g, s, language, sym) && Stays(g, next, "", k)
    ensures k in next.edges && k !in g.edges ==> HoldsSymbol(h, s, language, next.edges[k], sym)
  {
    next := AddScipSymbol(h, g, s, language, sym);
    AddScipSymbolStays(h, g, s, language, sym, k);
    if k in next.edges { AddScipSymbolOrigin(h, g, s, language, sym, k); }
  }

  lemma FlagsPrefix(h: Hashes, g: Graph, s: CodeGraphScope, flags: seq<Flag>, fromVid: string, toVid: string,
                    source: string, o: EdgeOptions, n: nat)
    requires n < |flags|
    ensures AddFlagEdges(h, g, s, flags[..n + 1], fromVid, toVid, source, o) ==
            EdgeIf(h, AddFlagEdges(h, g, s, flags[..n], fromVid, toVid, source, o), s, flags[n].enabled, fromVid, toVid,
                   flags[n].kind, source, o)
  {
    assert flags[..n + 1][..n] == flags[..n];
  }

  lemma FlagStep(h: Hashes, g: Graph, s: CodeGraphScope, flag: Flag, fromVid: string, toVid: string, source: string,
                 o: EdgeOptions, k: string)
    returns (next: Graph)
    requires o.context == None
    ensures next == EdgeIf(h, g, s, flag.enabled, fromVid, toVid, flag.kind, source, o) && Stays(g, next, "", k)
    ensures k in next.edges && k !in g.edges ==>
              flag.enabled && Joins(next.edges[k], fromVid, toVid, flag.kind, SaysOf(source, o))
  {
    next := EdgeIf(h, g, s, flag.enabled, fromVid, toVid, flag.kind, source, o);
    if flag.enabled {
      AddEdgeStays(h, g, s, fromVid, toVid, flag.kind, source, o, "", k);
      if k in next.edges { AddEdgeOrigin(h, g, s, fromVid, toVid, flag.kind, source, o, k); }
    }
  }

  lemma AddFlagEdgesOrigin(h: Hashes, g: Graph, s: CodeGraphScope, flags: seq<Flag>, fromVid: string, toVid: string,
                           source: string, o: EdgeOptions,
                           k: string) returns (i: nat)
    requires o.context == None
    ensures var g' := AddFlagEdges(h, g, s, flags, fromVid, toVid, source, o);
            && Stays(g, g', "", k)
            && (k in g'.edges && k !in g.edges ==>
                  i < |flags| && flags[i].enabled && Joins(g'.edges[k], fromVid, toVid, flags[i].kind,
                                                           SaysOf(source, o)))
  {
    var cur := g;
    i := 0;
    for n := 0 to |flags|
      invariant cur == AddFlagEdges(h, g, s, flags[..n], fromVid, toVid, source, o) && Stays(g, cur, "", k)
      invariant k in cur.edges && k !in g.edges ==>
                  i < n && flags[i].enabled && Joins(cur.edges[k], fromVid, toVid, flags[i].kind, SaysOf(source, o))
    {
      FlagsPrefix(h, g, s, flags, fromVid, toVid, source, o, n);
      var next := FlagStep(h, cur, s, flags[n], fromVid, toVid, source, o, k);
      i := if k in cur.edges then i else n;
      cur := next;
    }
    assert flags[..|flags|] == flags;
  }

  lemma EmittedFlagIsSet(rel: Relationship, i: nat)
    requires i < |EdgesToEmit(rel)| && EdgesToEmit(rel)[i].enabled
    ensures FlagSet(rel, EdgesToEmit(rel)[i].kind)
  {
  }

  lemma EnsureKeepsEdges(h: Hashes, g: Graph, s: CodeGraphScope, language: string, index: map<string, ScipSymbol>,
                         symbol: string)
    ensures EnsureSymbol(h, g, s, language, index, symbol).edges == g.edges
  {
  }

  lemma AddRelationshipOrigin(h: Hashes, g: Graph, s: CodeGraphScope, language: string, index: map<string, ScipSymbol>,
                              rel: Relationship, k: string)
    requires k in AddRelationship(h, g, s, language, index, rel).edges && k !in g.edges
    ensures TellsRelationship(h, s, language, index, AddRelationship(h, g, s, language, index, rel).edges[k], rel)
  {
    var g1 := EnsureSymbol(h, g, s, language, index, rel.sourceSymbol);
    EnsureKeepsEdges(h, g, s, language, index, rel.sourceSymbol);
    var g2 := EnsureSymbol(h, g1, s, language, index, rel.targetSymbol);
    EnsureKeepsEdges(h, g1, s, language, index, rel.targetSymbol);
    var i := AddFlagEdgesOrigin(h, g2, s, EdgesToEmit(rel), RelatedVid(h, s, index, rel.sourceSymbol),
                                RelatedVid(h, s, index, rel.targetSymbol),
                                ScipSource(language), ScipOptions(EvidenceOf(index, rel.sourceSymbol)), k);
    EmittedFlagIsSet(rel, i);
  }

  lemma EnsureStays(h: Hashes, g: Graph, s: CodeGraphScope, language: string, index: map<string, ScipSymbol>,
                    symbol: string, k: string)
    ensures Stays(g, EnsureSymbol(h, g, s, language, index, symbol), "", k)
  {
  }

  lemma AddRelationshipStays(h: Hashes, g: Graph, s: CodeGraphScope, language: string, index: map<string, ScipSymbol>,
                             rel: Relationship, k: string)
    ensures Stays(g, AddRelationship(h, g, s, language, index, rel), "", k)
  {
    var g1 := EnsureSymbol(h, g, s, language, index, rel.sourceSymbol);
    EnsureStays(h, g, s, language, index, rel.sourceSymbol, k);
    var g2 := EnsureSymbol(h, g1, s, language, index, rel.targetSymbol);
    EnsureStays(h, g1, s, language, index, rel.targetSymbol, k);
    var i := AddFlagEdgesOrigin(h, g2, s, EdgesToEmit(rel), RelatedVid(h, s, index, rel.sourceSymbol),
                                RelatedVid(h, s, index, rel.targetSymbol),
                                ScipSource(language), ScipOptions(EvidenceOf(index, rel.sourceSymbol)), k);
  }

  lemma RelationshipStep(h: Hashes, g: Graph, s: CodeGraphScope, language: string, index: map<string, ScipSymbol>,
                         rel: Relationship, k: string)
    returns (next: Graph)
    ensures next == AddRelationship(h, g, s, language, index, rel) && Stays(g, next, "", k)
    ensures k in next.edges && k !in g.edges ==> TellsRelationship(h, s, language, index, next.edges[k], rel)
  {
    next := AddRelationship(h, g, s, language, index, rel);
    AddRelationshipStays(h, g, s, language, index, rel, k);
    if k in next.edges && k !in g.edges { AddRelationshipOrigin(h, g, s, language, index, rel, k); }
  }

  /** Every edge the relationships add is that of a set flag of one of them. */
  lemma AddRelationshipsOrigin(h: Hashes, g: Graph, s: CodeGraphScope, language: string, index: map<string, ScipSymbol>,
                               rels: seq<Relationship>, k: string) returns (i: nat)
    ensures var g' := AddRelationships(h, g, s, language, index, rels);
            k in g'.edges && k !in g.edges ==> i < |rels| && TellsRelationship(h, s, language, index, g'.edges[k], rels[i])
  {
    var cur := g;
    i := 0;
    for n := 0 to |rels|
      invariant cur == AddRelationships(h, g, s, language, index, rels[..n])
      invariant k in cur.edges && k !in g.edges ==>
                  i < n && TellsRelationship(h, s, language, index, cur.edges[k], rels[i])
    {
      RelationshipsPrefix(h, g, s, language, index, rels, n);
      var next := RelationshipStep(h, cur, s, language, index, rels[n], k);
      i := if k in cur.edges then i else n;
      cur := next;
    }
    assert rels[..|rels|] == rels;
  }

  /** An edge of a SCIP batch: a file of a symbol, a symbol in its file, or a set flag of a relationship. */
  ghost predicate FromScip(h: Hashes, s: CodeGraphScope, repoVid: string, language: string, rows: ScipRows, e: Edge) {
    || (exists i :: 0 <= i < |rows.symbols| && rows.symbols[i].filePath.Some? && HoldsFile(h, s, repoVid, e, rows.symbols[i].filePath.value))
    || (exists i :: 0 <= i < |rows.symbols| && HoldsSymbol(h, s, language, e, rows.symbols[i]))
    || (exists i :: 0 <= i < |rows.relationships| && TellsRelationship(h, s, language, SymbolIndex(rows.symbols), e, rows.relationships[i]))
  }

  /** Every edge a SCIP batch adds comes from one of its rows. */
  lemma AddScipRowsOrigin(h: Hashes, g: Graph, s: CodeGraphScope, repoVid: string, language: string, rows: ScipRows,
                          k: string)
    requires k in AddScipRows(h, g, s, repoVid, language, rows).edges && k !in g.edges
    ensures FromScip(h, s, repoVid, language, rows, AddScipRows(h, g, s, repoVid, language, rows).edges[k])
  {
    var g1 := AddScipFiles(h, g, s, repoVid, rows.symbols);
    var g2 := AddScipSymbols(h, g1, s, language, rows.symbols);
    var index := SymbolIndex(rows.symbols);
    ScipRowsStay(h, g, s, repoVid, language, rows, k);
    if k in g1.edges {
      var i := AddScipFilesOrigin(h, g, s, repoVid, rows.symbols, k);
    } else if k in g2.edges {
      var i := AddScipSymbolsOrigin(h, g1, s, language, rows.symbols, k);
    } else {
      var i := AddRelationshipsOrigin(h, g2, s, language, index, rows.relationships, k);
    }
  }

  /** What the files and symbols of a batch add, the rest of it keeps. */
  lemma ScipRowsStay(h: Hashes, g: Graph, s: CodeGraphScope, repoVid: string, language: string, rows: ScipRows,
                     k: string)
    ensures var g1 := AddScipFiles(h, g, s, repoVid, rows.symbols);
            var g2 := AddScipSymbols(h, g1, s, language, rows.symbols);
            Stays(g1, g2, "", k) && Stays(g2, AddScipRows(h, g, s, repoVid, language, rows), "", k)
  {
    var g1 := AddScipFiles(h, g, s, repoVid, rows.symbols);
    SymbolsStay(h, g1, s, language, rows.symbols, k);
    RelationshipsStay(h, AddScipSymbols(h, g1, s, language, rows.symbols), s, language, SymbolIndex(rows.symbols),
                      rows.relationships, k);
  }

  lemma {:induction false} SymbolsStay(h: Hashes, g: Graph, s: CodeGraphScope, language: string,
                                       symbols: seq<ScipSymbol>, k: string)
    ensures Stays(g, AddScipSymbols(h, g, s, language, symbols), "", k)
    decreases |symbols|
  {
    if symbols != [] {
      var init := symbols[..|symbols| - 1];
      SymbolsStay(h, g, s, language, init, k);
      var next := SymbolStep(h, AddScipSymbols(h, g, s, language, init), s, language, symbols[|symbols| - 1], k);
    }
  }

  lemma {:induction false} RelationshipsStay(h: Hashes, g: Graph, s: CodeGraphScope, language: string,
                                             index: map<string, ScipSymbol>,
                                             rels: seq<Relationship>, k: string)
    ensures Stays(g, AddRelationships(h, g, s, language, index, rels), "", k)
    decreases |rels|
  {
    if rels != [] {
      var init := rels[..|rels| - 1];
      RelationshipsStay(h, g, s, language, index, init, k);
      var next := RelationshipStep(h, AddRelationships(h, g, s, language, index, init), s, language, index,
                                   rels[|rels| - 1], k);
    }
  }
}
