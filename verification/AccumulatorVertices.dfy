/** What the vertices a batch adds say, and that each says what its own fact or row says. */
module AccumulatorVertices {
  import opened Basics
  import opened GraphTypes
  import opened GraphModel
  import opened Accumulator
  import opened AccumulatorLaws
  import opened AccumulatorOrigins
  import opened VertexIdentity
  import F = Facts

  /** What a vertex's columns read, besides its kind and the scope. */
  datatype Shown = Shown(
    key: Primitive, name: Primitive, path: Primitive, language: Primitive, source: Primitive,
    confidence: Primitive, tier: Primitive, evidence: Primitive,
    startLine: Primitive, endLine: Primitive, provenance: Primitive)

  function ReadShown(p: Properties): Shown {
    Shown(Property(p, "key"), Property(p, "label"), Property(p, "path"), Property(p, "language"), Property(p, "source"),
          Property(p, "confidence"), Property(p, "confidenceTier"), Property(p, "evidenceFilePath"),
          Property(p, "startLine"), Property(p, "endLine"), Property(p, "provenance"))
  }

  lemma KindIsNoCallerName()
    ensures "kind" !in CALLER_NAMES
  {
    assert |"kind"| == 4 && "kind"[0] == 'k' && "path"[0] == 'p';
    assert forall name :: name in CALLER_NAMES && |name| == 4 ==> name[0] == 'p';
  }

  lemma CallerPropertyReads(s: CodeGraphScope, kind: string, properties: Properties, name: string)
    requires name in CALLER_NAMES
    ensures Property(VertexBag(s, kind, properties), name) ==
            if name in properties then properties[name] else if name == "provenance" then Text(HEURISTIC) else Null
  {
    CallerNamesAreNoStamps(s);
    KindIsNoCallerName();
  }

  lemma BagShows(s: CodeGraphScope, kind: string, p: Properties)
    ensures ReadShown(VertexBag(s, kind, p)) ==
            ReadShown(p).(provenance := if "provenance" in p then p["provenance"] else Text(HEURISTIC))
  {
    CallerPropertyReads(s, kind, p, "key");
    CallerPropertyReads(s, kind, p, "label");
    CallerPropertyReads(s, kind, p, "path");
    CallerPropertyReads(s, kind, p, "language");
    CallerPropertyReads(s, kind, p, "source");
    CallerPropertyReads(s, kind, p, "confidence");
    CallerPropertyReads(s, kind, p, "confidenceTier");
    CallerPropertyReads(s, kind, p, "evidenceFilePath");
    CallerPropertyReads(s, kind, p, "startLine");
    CallerPropertyReads(s, kind, p, "endLine");
    CallerPropertyReads(s, kind, p, "provenance");
  }

  // What each producer's columns say.

  function FileShown(path: string): Shown {
    Shown(Text(path), Text(path), Text(path), Null, Text(SCIP), Null, Null, Null, Null, Null, Text(HEURISTIC))
  }

  function AstShown(symbol: string, display: string, path: Primitive, language: string, tier: string,
                    fact: F.Fact): Shown {
    Shown(Text(symbol), Text(display), path, Text(language), Text("ast-" + language), Real(fact.confidence), Text(tier),
          Text(fact.filePath), Null, Null, Text(HEURISTIC))
  }

  function ScipShown(symbol: string, display: string, language: string, batch: string, path: Option<string>,
                     startLine: Option<int>, endLine: Option<int>): Shown {
    Shown(Text(symbol), Text(display), TextOrNull(path), Text(language), Text("scip-" + batch), Real(SCIP_CONFIDENCE),
          Text(EXTRACTED), TextOrNull(path), IntOrNull(startLine), IntOrNull(endLine), Text(SCIP))
  }

  lemma FileBagShows(s: CodeGraphScope, path: string)
    ensures ReadShown(VertexBag(s, "file", FileProperties(path))) == FileShown(path)
  {
    BagShows(s, "file", FileProperties(path));
  }

  lemma PathOptShows(p: Properties, o: Option<Primitive>)
    ensures ReadShown(p + Opt("path", o)) == if o.Some? then ReadShown(p).(path := o.value) else ReadShown(p)
  {
    if o.None? { assert p + Opt("path", o) == p; }
  }

  lemma EvidenceOptShows(p: Properties, o: Option<Primitive>)
    ensures ReadShown(p + Opt("evidenceFilePath", o)) == if o.Some? then ReadShown(p).(evidence := o.value) else ReadShown(p)
  {
    if o.None? { assert p + Opt("evidenceFilePath", o) == p; }
  }

  lemma StartOptShows(p: Properties, o: Option<Primitive>)
    ensures ReadShown(p + Opt("startLine", o)) == if o.Some? then ReadShown(p).(startLine := o.value) else ReadShown(p)
  {
    if o.None? { assert p + Opt("startLine", o) == p; }
  }

  lemma EndOptShows(p: Properties, o: Option<Primitive>)
    ensures ReadShown(p + Opt("endLine", o)) == if o.Some? then ReadShown(p).(endLine := o.value) else ReadShown(p)
  {
    if o.None? { assert p + Opt("endLine", o) == p; }
  }

  lemma CommonPropertiesShow(symbol: string, display: string, language: string, tier: string, fact: F.Fact)
    ensures ReadShown(CommonProperties(symbol, display, language, tier, fact)) ==
            AstShown(symbol, display, Null, language, tier, fact).(provenance := Null)
    ensures "provenance" !in CommonProperties(symbol, display, language, tier, fact)
  {
  }

  lemma WithPathShows(p: Properties, path: string)
    ensures ReadShown(WithPath(p, path)) == ReadShown(p).(path := Text(path))
    ensures "provenance" in WithPath(p, path) <==> "provenance" in p
  {
    PathOptShows(p, Some(Text(path)));
    assert |"path"| == 4 && |"provenance"| == 10;
  }

  lemma CommonBagShows(s: CodeGraphScope, kind: string, symbol: string, display: string, language: string, tier: string,
                       fact: F.Fact)
    ensures var p := CommonProperties(symbol, display, language, tier, fact);
            ReadShown(VertexBag(s, kind, p)) == AstShown(symbol, display, Null, language, tier, fact)
  {
    BagShows(s, kind, CommonProperties(symbol, display, language, tier, fact));
    CommonPropertiesShow(symbol, display, language, tier, fact);
  }

  lemma PathBagShows(s: CodeGraphScope, kind: string, symbol: string, display: string, language: string, tier: string,
                     fact: F.Fact)
    ensures var p := WithPath(CommonProperties(symbol, display, language, tier, fact), fact.filePath);
            ReadShown(VertexBag(s, kind, p)) == AstShown(symbol, display, Text(fact.filePath), language, tier, fact)
  {
    var p := CommonProperties(symbol, display, language, tier, fact);
    BagShows(s, kind, WithPath(p, fact.filePath));
    WithPathShows(p, fact.filePath);
    CommonPropertiesShow(symbol, display, language, tier, fact);
  }

  lemma ScipCommonShows(symbol: string, display: string, language: string, batch: string)
    ensures ReadShown(ScipCommon(symbol, display, language, ScipSource(batch))) ==
            ScipShown(symbol, display, language, batch, None, None, None)
    ensures "provenance" in ScipCommon(symbol, display, language, ScipSource(batch))
  {
  }

  lemma SymbolPropertiesShow(language: string, sym: ScipSymbol)
    ensures ReadShown(SymbolProperties(language, sym)) ==
            ScipShown(sym.symbol, sym.displayName, UnwrapOr(sym.language, language), language, sym.filePath, sym.startLine,
                      sym.endLine)
    ensures "provenance" in SymbolProperties(language, sym)
  {
    var p0 := ScipCommon(sym.symbol, sym.displayName, UnwrapOr(sym.language, language), ScipSource(language));
    ScipCommonShows(sym.symbol, sym.displayName, UnwrapOr(sym.language, language), language);
    var p1 := p0 + Opt("path", MapText(sym.filePath));
    PathOptShows(p0, MapText(sym.filePath));
    var p2 := p1 + Opt("evidenceFilePath", MapText(sym.filePath));
    EvidenceOptShows(p1, MapText(sym.filePath));
    var p3 := p2 + Opt("startLine", MapInt(sym.startLine));
    StartOptShows(p2, MapInt(sym.startLine));
    EndOptShows(p3, MapInt(sym.endLine));
  }

  lemma SymbolBagShows(s: CodeGraphScope, kind: string, language: string, sym: ScipSymbol)
    ensures ReadShown(VertexBag(s, kind, SymbolProperties(language, sym))) ==
            ScipShown(sym.symbol, sym.displayName, UnwrapOr(sym.language, language), language, sym.filePath, sym.startLine,
                      sym.endLine)
  {
    BagShows(s, kind, SymbolProperties(language, sym));
    SymbolPropertiesShow(language, sym);
  }

  lemma BareBagShows(s: CodeGraphScope, symbol: string, language: string)
    ensures ReadShown(VertexBag(s, "symbol", ScipCommon(symbol, symbol, language, ScipSource(language)))) ==
            ScipShown(symbol, symbol, language, language, None, None, None)
  {
    BagShows(s, "symbol", ScipCommon(symbol, symbol, language, ScipSource(language)));
    ScipCommonShows(symbol, symbol, language, language);
  }

  // AST batches.

  /** A vertex of this kind that shows this. */
  ghost predicate Is(v: Vertex, kind: string, w: Shown) {
    v.kind == kind && ReadShown(v.properties) == w
  }

  /** The vertex of the fact's file, of its source or of its target, with that end's own columns. */
  ghost predicate IsOfFact(h: Hashes, s: CodeGraphScope, language: string, tier: string, vid: string, v: Vertex,
                           fact: F.Fact) {
    || (vid == FileVid(h, s, fact.filePath) && Is(v, "file", FileShown(fact.filePath)))
    || (fact.sourceKind != F.Module && vid == SourceVid(h, s, fact)
        && Is(v, SourceVertexKind(fact.sourceKind),
              AstShown(fact.sourceSymbol, fact.sourceDisplay, Text(fact.filePath), language, tier, fact)))
    || (vid == TargetVid(h, s, fact)
        && Is(v, TargetVertexKind(fact.targetKind),
              AstShown(fact.targetSymbol, fact.targetDisplay,
                       if fact.targetKind == F.External then Null else Text(fact.filePath), language, tier, fact)))
  }

  /** Adding a vertex leaves the others, and the one it adds is this one. */
  lemma VertexAdded(h: Hashes, g: Graph, s: CodeGraphScope, kind: string, key: string, properties: Properties,
                    vid: string)
    ensures Stays(g, AddVertex(h, g, s, kind, key, properties), vid, "")
    ensures VidOf(h, s, kind, key) in AddVertex(h, g, s, kind, key, properties).vertices
    ensures vid in AddVertex(h, g, s, kind, key, properties).vertices && vid !in g.vertices ==>
              && vid == VidOf(h, s, kind, key)
              && AddVertex(h, g, s, kind, key, properties).vertices[vid] == Vertex(vid, kind, VertexBag(s, kind, properties))
  {
  }

  lemma FileVertexAdded(h: Hashes, g: Graph, s: CodeGraphScope, repoVid: string, path: string, vid: string)
    ensures Stays(g, AddFileVertex(h, g, s, repoVid, path), vid, "")
    ensures FileVid(h, s, path) in AddFileVertex(h, g, s, repoVid, path).vertices
    ensures vid in AddFileVertex(h, g, s, repoVid, path).vertices && vid !in g.vertices ==>
              vid == FileVid(h, s, path) && Is(AddFileVertex(h, g, s, repoVid, path).vertices[vid], "file", FileShown(path))
  {
    AddFileVertexStays(h, g, s, repoVid, path, vid, "");
    VertexAdded(h, g, s, "file", "file:" + path, FileProperties(path), vid);
    FileBagShows(s, path);
  }

  lemma SourceAdded(h: Hashes, g: Graph, s: CodeGraphScope, language: string, tier: string, fact: F.Fact, vid: string)
    returns (next: Graph)
    ensures next == AddSource(h, g, s, language, tier, fact) && Stays(g, next, vid, "")
    ensures FileVid(h, s, fact.filePath) in g.vertices ==> SourceVid(h, s, fact) in next.vertices
    ensures vid in next.vertices && vid !in g.vertices ==> IsOfFact(h, s, language, tier, vid, next.vertices[vid], fact)
  {
    next := AddSource(h, g, s, language, tier, fact);
    if fact.sourceKind != F.Module {
      var kind := SourceVertexKind(fact.sourceKind);
      VertexAdded(h, g, s, kind, "ast:" + fact.sourceSymbol,
                  WithPath(CommonProperties(fact.sourceSymbol, fact.sourceDisplay, language, tier, fact), fact.filePath), vid);
      PathBagShows(s, kind, fact.sourceSymbol, fact.sourceDisplay, language, tier, fact);
    }
  }

  lemma TargetAdded(h: Hashes, g: Graph, s: CodeGraphScope, language: string, tier: string, fact: F.Fact, vid: string)
    returns (next: Graph)
    ensures next == AddTarget(h, g, s, language, tier, fact) && Stays(g, next, vid, "")
    ensures TargetVid(h, s, fact) in next.vertices
    ensures vid in next.vertices && vid !in g.vertices ==> IsOfFact(h, s, language, tier, vid, next.vertices[vid], fact)
  {
    next := AddTarget(h, g, s, language, tier, fact);
    var kind := TargetVertexKind(fact.targetKind);
    VertexAdded(h, g, s, kind, "ast:" + fact.targetSymbol, TargetProperties(language, tier, fact), vid);
    PathBagShows(s, kind, fact.targetSymbol, fact.targetDisplay, language, tier, fact);
    CommonBagShows(s, kind, fact.targetSymbol, fact.targetDisplay, language, tier, fact);
  }

  lemma FactAdded(h: Hashes, g: Graph, s: CodeGraphScope, repoVid: string, language: string, tier: string,
                  fact: F.Fact, vid: string)
    returns (next: Graph)
    ensures next == AddAstFact(h, g, s, repoVid, language, tier, fact) && Stays(g, next, vid, "")
    ensures vid in next.vertices && vid !in g.vertices ==> IsOfFact(h, s, language, tier, vid, next.vertices[vid], fact)
  {
    var g1 := AddFileVertex(h, g, s, repoVid, fact.filePath);
    FileVertexAdded(h, g, s, repoVid, fact.filePath, vid);
    var g2 := SourceAdded(h, g1, s, language, tier, fact, vid);
    var g3 := TargetAdded(h, g2, s, language, tier, fact, vid);
    AddEdgeStays(h, g3, s, SourceVid(h, s, fact), TargetVid(h, s, fact), EdgeKindOf(fact.kind), AstSource(language),
                 FactOptions(tier, fact), vid, "");
    next := AddEdge(h, g3, s, SourceVid(h, s, fact), TargetVid(h, s, fact), EdgeKindOf(fact.kind), AstSource(language),
                    FactOptions(tier, fact));
  }

  /** Every vertex an AST batch adds is that of a fact's file, source or target, and shows that end's own columns. */
  lemma AddAstFactsVertex(h: Hashes, g: Graph, s: CodeGraphScope, repoVid: string, language: string, tier: string,
                          facts: seq<F.Fact>, vid: string) returns (i: nat)
    ensures var g' := AddAstFacts(h, g, s, repoVid, language, tier, facts);
            vid in g'.vertices && vid !in g.vertices ==>
              i < |facts| && IsOfFact(h, s, language, tier, vid, g'.vertices[vid], facts[i])
  {
    var cur := g;
    i := 0;
    for n := 0 to |facts|
      invariant cur == AddAstFacts(h, g, s, repoVid, language, tier, facts[..n])
      invariant vid in cur.vertices && vid !in g.vertices ==>
                  i < n && IsOfFact(h, s, language, tier, vid, cur.vertices[vid], facts[i])
    {
      AstPrefix(h, g, s, repoVid, language, tier, facts, n);
      var next := FactAdded(h, cur, s, repoVid, language, tier, facts[n], vid);
      i := if vid in cur.vertices then i else n;
      cur := next;
    }
    assert facts[..|facts|] == facts;
  }

  lemma EndsStored(h: Hashes, g: Graph, s: CodeGraphScope, repoVid: string, language: string, tier: string,
                   fact: F.Fact)
    returns (next: Graph)
    ensures next == AddAstFact(h, g, s, repoVid, language, tier, fact)
    ensures SourceVid(h, s, fact) in next.vertices && TargetVid(h, s, fact) in next.vertices
  {
    var src, dst := SourceVid(h, s, fact), TargetVid(h, s, fact);
    var g1 := AddFileVertex(h, g, s, repoVid, fact.filePath);
    FileVertexAdded(h, g, s, repoVid, fact.filePath, src);
    var g2 := SourceAdded(h, g1, s, language, tier, fact, src);
    var g3 := TargetAdded(h, g2, s, language, tier, fact, src);
    var kind, source, o := EdgeKindOf(fact.kind), AstSource(language), FactOptions(tier, fact);
    AddEdgeStays(h, g3, s, src, dst, kind, source, o, src, "");
    AddEdgeStays(h, g3, s, src, dst, kind, source, o, dst, "");
    next := AddEdge(h, g3, s, src, dst, kind, source, o);
  }

  ghost predicate IsEnd(h: Hashes, s: CodeGraphScope, fact: F.Fact, vid: string) {
    vid == SourceVid(h, s, fact) || vid == TargetVid(h, s, fact)
  }

  ghost predicate Has(g: Graph, vid: string) {
    vid in g.vertices
  }

  lemma EndStep(h: Hashes, g: Graph, s: CodeGraphScope, repoVid: string, language: string, tier: string, fact: F.Fact,
                vid: string, isEnd: bool)
    returns (next: Graph)
    requires isEnd ==> IsEnd(h, s, fact, vid)
    ensures next == AddAstFact(h, g, s, repoVid, language, tier, fact)
    ensures Has(g, vid) || isEnd ==> Has(next, vid)
  {
    next := EndsStored(h, g, s, repoVid, language, tier, fact);
    AddAstFactStays(h, g, s, repoVid, language, tier, fact, vid, "");
  }

  /** Both ends of every fact of a batch are stored. */
  lemma AddAstFactsStoresEnds(h: Hashes, g: Graph, s: CodeGraphScope, repoVid: string, language: string, tier: string,
                              facts: seq<F.Fact>, i: nat, vid: string)
    requires i < |facts| && IsEnd(h, s, facts[i], vid)
    ensures Has(AddAstFacts(h, g, s, repoVid, language, tier, facts), vid)
  {
    var cur := g;
    for n := 0 to |facts|
      invariant cur == AddAstFacts(h, g, s, repoVid, language, tier, facts[..n])
      invariant i < n ==> Has(cur, vid)
    {
      AstPrefix(h, g, s, repoVid, language, tier, facts, n);
      var next := EndStep(h, cur, s, repoVid, language, tier, facts[n], vid, n == i);
      cur := next;
    }
    assert facts[..|facts|] == facts;
  }

  /** The name is not mistaken for any name the facts give. */
  ghost predicate ApartFromAll(h: Hashes, s: CodeGraphScope, name: (string, string), facts: seq<F.Fact>) {
    forall j :: 0 <= j < |facts| ==>
      && NamesApart(h, s, name, ("file", "file:" + facts[j].filePath))
      && NamesApart(h, s, name, SourceName(facts[j])) && NamesApart(h, s, name, TargetName(facts[j]))
  }

  /** A vertex of a fact shows the symbol its id was made from. */
  lemma OwnSymbol(h: Hashes, s: CodeGraphScope, language: string, tier: string, kind: string, symbol: string, v: Vertex,
                  fact: F.Fact)
    requires IsOfFact(h, s, language, tier, VidOf(h, s, kind, "ast:" + symbol), v, fact)
    requires ApartFromAll(h, s, (kind, "ast:" + symbol), [fact])
    ensures v.kind == kind && Property(v.properties, "key") == Text(symbol)
  {
    assert [fact][0] == fact;
    var file, source, target := ("file", "file:" + fact.filePath), SourceName(fact), TargetName(fact);
    VidOfIdentifies(h, s, kind, "ast:" + symbol, file.0, file.1);
    VidOfIdentifies(h, s, kind, "ast:" + symbol, source.0, source.1);
    VidOfIdentifies(h, s, kind, "ast:" + symbol, target.0, target.1);
    KeysSplit(fact.filePath, symbol);
    KeysSplit(symbol, fact.sourceSymbol);
    KeysSplit(symbol, fact.targetSymbol);
  }

  /** The vertex of this kind and symbol, if the batch added it. */
  ghost predicate ShowsSymbol(before: map<string, Vertex>, after: map<string, Vertex>, vid: string, kind: string,
                              symbol: string) {
    && vid in after
    && (vid !in before ==> after[vid].kind == kind && Property(after[vid].properties, "key") == Text(symbol))
  }

  lemma NameShowsSymbol(h: Hashes, g: Graph, s: CodeGraphScope, repoVid: string, language: string, tier: string,
                        facts: seq<F.Fact>, kind: string, symbol: string, vid: string, after: Graph)
    requires after == AddAstFacts(h, g, s, repoVid, language, tier, facts) && Has(after, vid)
    requires vid == VidOf(h, s, kind, "ast:" + symbol) && ApartFromAll(h, s, (kind, "ast:" + symbol), facts)
    ensures ShowsSymbol(g.vertices, after.vertices, vid, kind, symbol)
  {
    if vid !in g.vertices {
      var j := AddAstFactsVertex(h, g, s, repoVid, language, tier, facts, vid);
      OwnSymbolOf(h, s, language, tier, kind, symbol, vid, after.vertices[vid], facts, j);
    }
  }

  lemma OwnSymbolOf(h: Hashes, s: CodeGraphScope, language: string, tier: string, kind: string, symbol: string,
                    vid: string, v: Vertex, facts: seq<F.Fact>, j: nat)
    requires vid == VidOf(h, s, kind, "ast:" + symbol) && ApartFromAll(h, s, (kind, "ast:" + symbol), facts)
    requires j < |facts| && IsOfFact(h, s, language, tier, vid, v, facts[j])
    ensures v.kind == kind && Property(v.properties, "key") == Text(symbol)
  {
    OwnSymbol(h, s, language, tier, kind, symbol, v, facts[j]);
  }

  /**
   * Whichever fact of the batch wrote it first, the vertex a fact ends at has that fact's target
   * symbol as its key, and the one it starts at its source symbol, unless it was there before.
   */
  lemma EndsShowTheirSymbols(h: Hashes, g: Graph, s: CodeGraphScope, repoVid: string, language: string, tier: string,
                             facts: seq<F.Fact>, i: nat, after: Graph)
    requires after == AddAstFacts(h, g, s, repoVid, language, tier, facts)
    requires i < |facts| && ApartFromAll(h, s, SourceName(facts[i]), facts) && ApartFromAll(h, s, TargetName(facts[i]), facts)
    ensures ShowsSymbol(g.vertices, after.vertices, TargetVid(h, s, facts[i]), TargetVertexKind(facts[i].targetKind),
                        facts[i].targetSymbol)
    ensures facts[i].sourceKind != F.Module ==>
              ShowsSymbol(g.vertices, after.vertices, SourceVid(h, s, facts[i]), SourceVertexKind(facts[i].sourceKind),
                          facts[i].sourceSymbol)
  {
    var fact := facts[i];
    AddAstFactsStoresEnds(h, g, s, repoVid, language, tier, facts, i, TargetVid(h, s, fact));
    AddAstFactsStoresEnds(h, g, s, repoVid, language, tier, facts, i, SourceVid(h, s, fact));
    NameShowsSymbol(h, g, s, repoVid, language, tier, facts, TargetVertexKind(fact.targetKind), fact.targetSymbol,
                    TargetVid(h, s, fact), after);
    if fact.sourceKind != F.Module {
      NameShowsSymbol(h, g, s, repoVid, language, tier, facts, SourceVertexKind(fact.sourceKind), fact.sourceSymbol,
                      SourceVid(h, s, fact), after);
    }
  }

  // SCIP batches.

  /** The vertex of the symbol, with its own columns. */
  ghost predicate IsSymbol(h: Hashes, s: CodeGraphScope, language: string, vid: string, v: Vertex, sym: ScipSymbol) {
    vid == SymbolVid(h, s, sym)
    && Is(v, ScipKind(sym.kind),
          ScipShown(sym.symbol, sym.displayName, UnwrapOr(sym.language, language), language, sym.filePath, sym.startLine,
                    sym.endLine))
  }

  ghost predicate IsFileOf(h: Hashes, s: CodeGraphScope, vid: string, v: Vertex, sym: ScipSymbol) {
    sym.filePath.Some? && vid == FileVid(h, s, sym.filePath.value) && Is(v, "file", FileShown(sym.filePath.value))
  }

  /** The bare vertex of an end of a relationship that no row describes. */
  ghost predicate IsBare(h: Hashes, s: CodeGraphScope, language: string, index: map<string, ScipSymbol>, vid: string,
                         v: Vertex, symbol: string) {
    symbol !in index && vid == RelatedVid(h, s, index, symbol)
    && Is(v, "symbol", ScipShown(symbol, symbol, language, language, None, None, None))
  }

  ghost predicate IsBareEnd(h: Hashes, s: CodeGraphScope, language: string, index: map<string, ScipSymbol>, vid: string,
                            v: Vertex, rel: Relationship) {
    || IsBare(h, s, language, index, vid, v, rel.sourceSymbol)
    || IsBare(h, s, language, index, vid, v, rel.targetSymbol)
  }

  lemma {:induction false} ScipFilesVertex(h: Hashes, g: Graph, s: CodeGraphScope, repoVid: string,
                                           symbols: seq<ScipSymbol>, vid: string) returns (i: nat)
    ensures var g' := AddScipFiles(h, g, s, repoVid, symbols);
            && Stays(g, g', vid, "")
            && (vid in g'.vertices && vid !in g.vertices ==>
                  i < |symbols| && IsFileOf(h, s, vid, g'.vertices[vid], symbols[i]))
    decreases |symbols|
  {
    i := 0;
    if symbols != [] {
      var n := |symbols| - 1;
      var g1 := AddScipFiles(h, g, s, repoVid, symbols[..n]);
      i := ScipFilesVertex(h, g, s, repoVid, symbols[..n], vid);
      if symbols[n].filePath.Some? { FileVertexAdded(h, g1, s, repoVid, symbols[n].filePath.value, vid); }
      i := if vid in g1.vertices then i else n;
    }
  }

  lemma SymbolVertices(h: Hashes, g: Graph, s: CodeGraphScope, language: string, sym: ScipSymbol, kind: string,
                       properties: Properties)
    requires kind == ScipKind(sym.kind) && properties == SymbolProperties(language, sym)
    ensures AddScipSymbol(h, g, s, language, sym).vertices ==
            AddVertex(h, g, s, kind, "scip:" + sym.symbol, properties).vertices
  {
  }

  lemma SymbolAdded(h: Hashes, g: Graph, s: CodeGraphScope, language: string, sym: ScipSymbol, vid: string)
    returns (next: Graph)
    ensures next == AddScipSymbol(h, g, s, language, sym) && Stays(g, next, vid, "")
    ensures vid in next.vertices && vid !in g.vertices ==> IsSymbol(h, s, language, vid, next.vertices[vid], sym)
  {
    next := AddScipSymbol(h, g, s, language, sym);
    AddScipSymbolStays(h, g, s, language, sym, "");
    SymbolVertices(h, g, s, language, sym, ScipKind(sym.kind), SymbolProperties(language, sym));
    VertexAdded(h, g, s, ScipKind(sym.kind), "scip:" + sym.symbol, SymbolProperties(language, sym), vid);
    SymbolBagShows(s, ScipKind(sym.kind), language, sym);
  }

  lemma ScipSymbolsVertex(h: Hashes, g: Graph, s: CodeGraphScope, language: string, symbols: seq<ScipSymbol>,
                          vid: string) returns (i: nat)
    ensures var g' := AddScipSymbols(h, g, s, language, symbols);
            vid in g'.vertices && vid !in g.vertices ==>
              i < |symbols| && IsSymbol(h, s, language, vid, g'.vertices[vid], symbols[i])
  {
    var cur := g;
    i := 0;
    for n := 0 to |symbols|
      invariant cur == AddScipSymbols(h, g, s, language, symbols[..n])
      invariant vid in cur.vertices && vid !in g.vertices ==>
                  i < n && IsSymbol(h, s, language, vid, cur.vertices[vid], symbols[i])
    {
      SymbolsPrefix(h, g, s, language, symbols, n);
      var next := SymbolAdded(h, cur, s, language, symbols[n], vid);
      i := if vid in cur.vertices then i else n;
      cur := next;
    }
    assert symbols[..|symbols|] == symbols;
  }

  lemma EnsureAdded(h: Hashes, g: Graph, s: CodeGraphScope, language: string, index: map<string, ScipSymbol>,
                    symbol: string, vid: string)
    returns (next: Graph)
    ensures next == EnsureSymbol(h, g, s, language, index, symbol) && Stays(g, next, vid, "")
    ensures vid in next.vertices && vid !in g.vertices ==> IsBare(h, s, language, index, vid, next.vertices[vid], symbol)
  {
    next := EnsureSymbol(h, g, s, language, index, symbol);
    if symbol !in index {
      VertexAdded(h, g, s, "symbol", "scip:" + symbol, ScipCommon(symbol, symbol, language, ScipSource(language)), vid);
      BareBagShows(s, symbol, language);
    }
  }

  lemma {:induction false} FlagsKeepVertices(h: Hashes, g: Graph, s: CodeGraphScope, flags: seq<Flag>, fromVid: string,
                                             toVid: string, source: string, o: EdgeOptions)
    ensures AddFlagEdges(h, g, s, flags, fromVid, toVid, source, o).vertices == g.vertices
    decreases |flags|
  {
    if flags != [] { FlagsKeepVertices(h, g, s, flags[..|flags| - 1], fromVid, toVid, source, o); }
  }

  lemma RelationshipAdded(h: Hashes, g: Graph, s: CodeGraphScope, language: string, index: map<string, ScipSymbol>,
                          rel: Relationship, vid: string)
    returns (next: Graph)
    ensures next == AddRelationship(h, g, s, language, index, rel) && Stays(g, next, vid, "")
    ensures vid in next.vertices && vid !in g.vertices ==>
              IsBareEnd(h, s, language, index, vid, next.vertices[vid], rel)
  {
    var g1 := EnsureAdded(h, g, s, language, index, rel.sourceSymbol, vid);
    var g2 := EnsureAdded(h, g1, s, language, index, rel.targetSymbol, vid);
    next := AddRelationship(h, g, s, language, index, rel);
    AddRelationshipStays(h, g, s, language, index, rel, "");
    FlagsKeepVertices(h, g2, s, EdgesToEmit(rel), RelatedVid(h, s, index, rel.sourceSymbol),
                      RelatedVid(h, s, index, rel.targetSymbol),
                      ScipSource(language), ScipOptions(EvidenceOf(index, rel.sourceSymbol)));
  }

  lemma RelationshipsVertex(h: Hashes, g: Graph, s: CodeGraphScope, language: string, index: map<string, ScipSymbol>,
                            rels: seq<Relationship>, vid: string) returns (i: nat)
    ensures var g' := AddRelationships(h, g, s, language, index, rels);
            vid in g'.vertices && vid !in g.vertices ==>
              i < |rels| && IsBareEnd(h, s, language, index, vid, g'.vertices[vid], rels[i])
  {
    var cur := g;
    i := 0;
    for n := 0 to |rels|
      invariant cur == AddRelationships(h, g, s, language, index, rels[..n])
      invariant vid in cur.vertices && vid !in g.vertices ==>
                  i < n && IsBareEnd(h, s, language, index, vid, cur.vertices[vid], rels[i])
    {
      RelationshipsPrefix(h, g, s, language, index, rels, n);
      var next := RelationshipAdded(h, cur, s, language, index, rels[n], vid);
      i := if vid in cur.vertices then i else n;
      cur := next;
    }
    assert rels[..|rels|] == rels;
  }

  /** Where a vertex of a SCIP batch comes from, and what it then shows. */
  ghost predicate IsOfScip(h: Hashes, s: CodeGraphScope, language: string, rows: ScipRows, vid: string, v: Vertex) {
    || (exists i :: 0 <= i < |rows.symbols| && IsFileOf(h, s, vid, v, rows.symbols[i]))
    || (exists i :: 0 <= i < |rows.symbols| && IsSymbol(h, s, language, vid, v, rows.symbols[i]))
    || (exists i :: 0 <= i < |rows.relationships| && IsBareEnd(h, s, language, SymbolIndex(rows.symbols), vid, v, rows.relationships[i]))
  }

  /**
   * Every vertex a SCIP batch adds is the file of a symbol, a symbol with its own name, display
   * name, file and lines, or the bare vertex of an end of a relationship that no row describes.
   */
  lemma AddScipRowsVertex(h: Hashes, g: Graph, s: CodeGraphScope, repoVid: string, language: string, rows: ScipRows,
                          vid: string, after: Graph)
    requires after == AddScipRows(h, g, s, repoVid, language, rows) && vid in after.vertices && vid !in g.vertices
    ensures IsOfScip(h, s, language, rows, vid, after.vertices[vid])
  {
    var g1 := AddScipFiles(h, g, s, repoVid, rows.symbols);
    var g2 := AddScipSymbols(h, g1, s, language, rows.symbols);
    var index := SymbolIndex(rows.symbols);
    var i := ScipFilesVertex(h, g, s, repoVid, rows.symbols, vid);
    var j := ScipSymbolsVertex(h, g1, s, language, rows.symbols, vid);
    var k := RelationshipsVertex(h, g2, s, language, index, rows.relationships, vid);
    SymbolsKeep(h, g1, s, language, rows.symbols, vid);
    RelationshipsKeep(h, g2, s, language, index, rows.relationships, vid);
  }

  lemma {:induction false} SymbolsKeep(h: Hashes, g: Graph, s: CodeGraphScope, language: string,
                                       symbols: seq<ScipSymbol>, vid: string)
    ensures Stays(g, AddScipSymbols(h, g, s, language, symbols), vid, "")
    decreases |symbols|
  {
    if symbols != [] {
      var init := symbols[..|symbols| - 1];
      SymbolsKeep(h, g, s, language, init, vid);
      var next := SymbolAdded(h, AddScipSymbols(h, g, s, language, init), s, language, symbols[|symbols| - 1], vid);
    }
  }

  lemma {:induction false} RelationshipsKeep(h: Hashes, g: Graph, s: CodeGraphScope, language: string,
                                             index: map<string, ScipSymbol>,
                                             rels: seq<Relationship>, vid: string)
    ensures Stays(g, AddRelationships(h, g, s, language, index, rels), vid, "")
    decreases |rels|
  {
    if rels != [] {
      var init := rels[..|rels| - 1];
      RelationshipsKeep(h, g, s, language, index, init, vid);
      var next := RelationshipAdded(h, AddRelationships(h, g, s, language, index, init), s, language, index,
                                    rels[|rels| - 1], vid);
    }
  }

  // Kinds of SCIP symbols.

  lemma LowerTwice(s: string)
    ensures LowerAll(LowerAll(s)) == LowerAll(s)
  {
  }

  /** A SCIP kind counts in any case; kinds named as a vertex kind are that kind, and the rest is one of five. */
  lemma ScipKindIsNamed(k: string)
    ensures ScipKind(Some(k)) == ScipKind(Some(LowerAll(k)))
    ensures LowerAll(k) in {"class", "method", "function"} ==> ScipKind(Some(k)) == LowerAll(k)
    ensures LowerAll(k) in {"interface", "struct", "enum", "type"} ==> ScipKind(Some(k)) == "class"
    ensures LowerAll(k) in {"module", "namespace", "package"} ==> ScipKind(Some(k)) == "file"
    ensures ScipKind(Some(k)) in {"class", "method", "function", "file", "symbol"} && ScipKind(None) == "symbol"
  {
    LowerTwice(k);
  }
}
