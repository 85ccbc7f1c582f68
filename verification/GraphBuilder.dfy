/** The mutable accumulator: each method does to the maps what its value-level function says. */
module GraphBuilder {
  import opened Basics
  import opened ByteOrder
  import opened GraphTypes
  import opened GraphModel
  import opened Accumulator
  import L = AccumulatorLaws
  import opened Anchors
  import opened Linking
  import R = Reconcile
  import F = Facts

  datatype Done = Done

  // Caches: a file or symbol already added is not added again.

  ghost predicate FileKnown(h: Hashes, g: Graph, s: CodeGraphScope, repoVid: string, path: string) {
    FileVid(h, s, path) in g.vertices && KeyFor(h, repoVid, FileVid(h, s, path), "CONTAINS", SCIP) in g.edges
  }

  /** Nothing is removed. */
  ghost predicate KeysGrow(a: Graph, b: Graph) {
    a.vertices.Keys <= b.vertices.Keys && a.edges.Keys <= b.edges.Keys
  }

  ghost predicate FilesCached(h: Hashes, g: Graph, s: CodeGraphScope, repoVid: string, cache: map<string, string>) {
    forall path :: path in cache ==> cache[path] == FileVid(h, s, path) && FileKnown(h, g, s, repoVid, path)
  }

  lemma FilesStayCached(h: Hashes, a: Graph, b: Graph, s: CodeGraphScope, repoVid: string, cache: map<string, string>)
    requires FilesCached(h, a, s, repoVid, cache) && KeysGrow(a, b)
    ensures FilesCached(h, b, s, repoVid, cache)
  {
  }

  lemma FilesCachedNext(h: Hashes, a: Graph, b: Graph, s: CodeGraphScope, repoVid: string, cache: map<string, string>,
                        path: string)
    requires FilesCached(h, a, s, repoVid, cache) && KeysGrow(a, b) && FileKnown(h, b, s, repoVid, path)
    ensures FilesCached(h, b, s, repoVid, cache[path := FileVid(h, s, path)])
  {
  }

  lemma KnownFileIsKept(h: Hashes, g: Graph, s: CodeGraphScope, repoVid: string, path: string)
    requires FileKnown(h, g, s, repoVid, path)
    ensures AddFileVertex(h, g, s, repoVid, path) == g
  {
  }

  lemma AddFileVertexKnows(h: Hashes, g: Graph, s: CodeGraphScope, repoVid: string, path: string)
    ensures FileKnown(h, AddFileVertex(h, g, s, repoVid, path), s, repoVid, path)
  {
  }

  /** The symbol cache: every symbol of the table, and any other symbol already given a bare vertex. */
  ghost predicate SymbolsCached(h: Hashes, g: Graph, s: CodeGraphScope, index: map<string, ScipSymbol>,
                                cache: map<string, string>) {
    && index.Keys <= cache.Keys
    && (forall symbol :: symbol in cache ==>
          cache[symbol] == RelatedVid(h, s, index, symbol) && (symbol in index || cache[symbol] in g.vertices))
  }

  ghost predicate TableCached(h: Hashes, s: CodeGraphScope, index: map<string, ScipSymbol>,
                              cache: map<string, string>) {
    cache.Keys == index.Keys && forall symbol :: symbol in index ==> cache[symbol] == SymbolVid(h, s, index[symbol])
  }

  lemma TableCachedNext(h: Hashes, s: CodeGraphScope, index: map<string, ScipSymbol>, cache: map<string, string>,
                        sym: ScipSymbol)
    requires TableCached(h, s, index, cache)
    ensures TableCached(h, s, index[sym.symbol := sym], cache[sym.symbol := SymbolVid(h, s, sym)])
  {
  }

  lemma TableIsCached(h: Hashes, g: Graph, s: CodeGraphScope, index: map<string, ScipSymbol>,
                      cache: map<string, string>)
    requires TableCached(h, s, index, cache)
    ensures SymbolsCached(h, g, s, index, cache)
  {
  }

  ghost predicate PathsCached(symbols: seq<ScipSymbol>, cache: map<string, string>) {
    forall i :: 0 <= i < |symbols| && symbols[i].filePath.Some? ==> symbols[i].filePath.value in cache
  }

  lemma PathsCachedNext(symbols: seq<ScipSymbol>, i: nat, cache: map<string, string>, cache': map<string, string>)
    requires i < |symbols| && PathsCached(symbols[..i], cache) && cache.Keys <= cache'.Keys
    requires symbols[i].filePath.Some? ==> symbols[i].filePath.value in cache'
    ensures PathsCached(symbols[..i + 1], cache')
  {
    assert symbols[..i + 1] == symbols[..i] + [symbols[i]];
  }

  lemma SymbolsStayCached(h: Hashes, a: Graph, b: Graph, s: CodeGraphScope, index: map<string, ScipSymbol>,
                          cache: map<string, string>)
    requires SymbolsCached(h, a, s, index, cache) && KeysGrow(a, b)
    ensures SymbolsCached(h, b, s, index, cache)
  {
  }

  // The first loop of anchor materialization.

  lemma VertexPrefix(vertices: map<string, Vertex>, anchors: map<string, Anchor>, vs: seq<Vertex>, i: nat)
    requires i < |vs|
    ensures AddAnchors(anchors, vs[..i + 1]) ==
            if PrimaryKey(vs[i]).None? then AddAnchors(anchors, vs[..i])
            else AddAnchor(AddAnchors(anchors, vs[..i]), AnchorOf(vs[i]))
    ensures Primary(vs[..i + 1]) ==
            if PrimaryKey(vs[i]).None? || vs[i].vid in Primary(vs[..i]) then Primary(vs[..i])
            else Primary(vs[..i])[vs[i].vid := PrimaryKey(vs[i]).value]
  {
    assert vs[..i + 1][..i] == vs[..i];
  }

  class GraphAccumulator {
    var vertices: map<string, Vertex>
    var edges: map<string, Edge>
    var anchors: map<string, Anchor>

    ghost function Value(): Graph
      reads this
    {
      Graph(vertices, edges, anchors)
    }

    constructor ()
      ensures Value() == EMPTY
    {
      vertices, edges, anchors := map[], map[], map[];
    }

    method AddVertex(h: Hashes, s: CodeGraphScope, kind: string, key: string, properties: Properties)
      returns (r: Result<string, ScopeError>)
      modifies this
      ensures r == BuildVertexId(h.sha, Identity(s, kind, key))
      ensures r.Err? ==> Value() == old(Value())
      ensures r.Ok? ==>
                Value() == Accumulator.AddVertex(h, old(Value()), s, kind, key, properties) && r.value in vertices
      ensures KeysGrow(old(Value()), Value())
    {
      r := BuildVertexId(h.sha, Identity(s, kind, key));
      if r.Err? || r.value in vertices {
        return;
      }
      vertices := vertices[r.value := Vertex(r.value, kind, VertexBag(s, kind, properties))];
    }

    method AddEdge(h: Hashes, s: CodeGraphScope, fromVid: string, toVid: string, kind: string, source: string,
                   o: EdgeOptions)
      modifies this`edges
      ensures Value() == Accumulator.AddEdge(h, old(Value()), s, fromVid, toVid, kind, source, o)
      ensures KeysGrow(old(Value()), Value())
    {
      var key := KeyFor(h, fromVid, toVid, kind, source);
      if key in edges {
        return;
      }
      edges := edges[key := NewEdge(h, s, fromVid, toVid, kind, source, o)];
    }

    method AddFileVertex(h: Hashes, s: CodeGraphScope, repoVid: string, path: string)
      returns (r: Result<string, ScopeError>)
      modifies this
      ensures r == if ValidScope(s) then Ok(FileVid(h, s, path)) else Err(ScopeViolation(s).value)
      ensures !ValidScope(s) ==> Value() == old(Value())
      ensures ValidScope(s) ==> Value() == Accumulator.AddFileVertex(h, old(Value()), s, repoVid, path)
      ensures KeysGrow(old(Value()), Value())
    {
      r := AddVertex(h, s, "file", "file:" + path, FileProperties(path));
      if r.Err? {
        return;
      }
      AddEdge(h, s, repoVid, r.value, "CONTAINS", SCIP, NO_OPTIONS);
    }

    /** Through the cache, a file vertex is added once and the effect is as if it were added every time. */
    method EnsureFile(h: Hashes, s: CodeGraphScope, repoVid: string, path: string, cache: map<string, string>)
      returns (r: Result<string, ScopeError>, cache': map<string, string>)
      requires FilesCached(h, Value(), s, repoVid, cache) && (ValidScope(s) || cache == map[])
      modifies this
      ensures r == if ValidScope(s) then Ok(FileVid(h, s, path)) else Err(ScopeViolation(s).value)
      ensures !ValidScope(s) ==> Value() == old(Value()) && cache' == cache
      ensures ValidScope(s) ==>
                Value() == Accumulator.AddFileVertex(h, old(Value()), s, repoVid, path) && cache'.Keys == cache.Keys + {path}
      ensures KeysGrow(old(Value()), Value()) && FilesCached(h, Value(), s, repoVid, cache')
    {
      if path in cache {
        KnownFileIsKept(h, Value(), s, repoVid, path);
        return Ok(cache[path]), cache;
      }
      ghost var before := Value();
      r := AddFileVertex(h, s, repoVid, path);
      if r.Err? {
        return r, cache;
      }
      AddFileVertexKnows(h, before, s, repoVid, path);
      FilesCachedNext(h, before, Value(), s, repoVid, cache, path);
      cache' := cache[path := r.value];
    }

    method AddSourceVertex(h: Hashes, s: CodeGraphScope, language: string, tier: string, fact: F.Fact, fileVid: string)
      returns (r: Result<string, ScopeError>)
      requires ValidScope(s) && fileVid == FileVid(h, s, fact.filePath)
      modifies this
      ensures r == Ok(SourceVid(h, s, fact)) && Value() == AddSource(h, old(Value()), s, language, tier, fact)
      ensures KeysGrow(old(Value()), Value())
    {
      if fact.sourceKind == F.Module {
        return Ok(fileVid);
      }
      r := AddVertex(h, s, SourceVertexKind(fact.sourceKind), "ast:" + fact.sourceSymbol,
                     WithPath(CommonProperties(fact.sourceSymbol, fact.sourceDisplay, language, tier, fact),
                              fact.filePath));
    }

    method AddSyntacticLanguageAstFacts(h: Hashes, s: CodeGraphScope, repoVid: string, language: string,
                                        facts: seq<F.Fact>)
      returns (r: Result<Done, ScopeError>)
      modifies this
      ensures ValidScope(s) ==>
                r == Ok(Done) && Value() == AddAstFacts(h, old(Value()), s, repoVid, language, TierOf(facts), facts)
      ensures !ValidScope(s) ==>
                r == (if facts == [] then Ok(Done) else Err(ScopeViolation(s).value)) && Value() == old(Value())
    {
      var tier := TierOf(facts);
      var fileVids: map<string, string> := map[];
      for i := 0 to |facts|
        invariant i == 0 || ValidScope(s)
        invariant Value() == AddAstFacts(h, old(Value()), s, repoVid, language, tier, facts[..i])
        invariant FilesCached(h, Value(), s, repoVid, fileVids) && (ValidScope(s) || fileVids == map[])
      {
        L.AstPrefix(h, old(Value()), s, repoVid, language, tier, facts, i);
        var fact := facts[i];
        var file, cache := EnsureFile(h, s, repoVid, fact.filePath, fileVids);
        fileVids := cache;
        if file.Err? {
          return Err(file.error);
        }
        label Filed:
        var source := AddSourceVertex(h, s, language, tier, fact, file.value);
        var target := AddVertex(h, s, TargetVertexKind(fact.targetKind), "ast:" + fact.targetSymbol,
                                TargetProperties(language, tier, fact));
        AddEdge(h, s, source.value, target.value, EdgeKindOf(fact.kind), AstSource(language), FactOptions(tier, fact));
        FilesStayCached(h, old@Filed(Value()), Value(), s, repoVid, fileVids);
      }
      assert facts[..|facts|] == facts;
      r := Ok(Done);
    }

    method AddFilesOfSymbols(h: Hashes, s: CodeGraphScope, repoVid: string, symbols: seq<ScipSymbol>)
      returns (r: Result<map<string, string>, ScopeError>)
      modifies this
      ensures ValidScope(s) ==>
                && r.Ok? && FilesCached(h, Value(), s, repoVid, r.value)
                && Value() == AddScipFiles(h, old(Value()), s, repoVid, symbols)
                && PathsCached(symbols, r.value)
      ensures !ValidScope(s) ==>
                Value() == old(Value()) && (r.Ok? || (symbols != [] && r.error == ScopeViolation(s).value))
    {
      var fileVids: map<string, string> := map[];
      for i := 0 to |symbols|
        invariant ValidScope(s) ==> Value() == AddScipFiles(h, old(Value()), s, repoVid, symbols[..i])
        invariant !ValidScope(s) ==> Value() == old(Value()) && fileVids == map[]
        invariant FilesCached(h, Value(), s, repoVid, fileVids)
        invariant ValidScope(s) ==> PathsCached(symbols[..i], fileVids)
      {
        L.FilesPrefix(h, old(Value()), s, repoVid, symbols, i);
        ghost var before := fileVids;
        if symbols[i].filePath.Some? {
          var file, cache := EnsureFile(h, s, repoVid, symbols[i].filePath.value, fileVids);
          fileVids := cache;
          if file.Err? {
            return Err(file.error);
          }
        }
        if ValidScope(s) { PathsCachedNext(symbols, i, before, fileVids); }
      }
      assert symbols[..|symbols|] == symbols;
      r := Ok(fileVids);
    }

    method AddSymbolVertex(h: Hashes, s: CodeGraphScope, language: string, sym: ScipSymbol,
                           fileVids: map<string, string>) returns (r: Result<string, ScopeError>)
      requires ValidScope(s) && sym.filePath.Some? ==>
                 sym.filePath.value in fileVids && fileVids[sym.filePath.value] == FileVid(h, s, sym.filePath.value)
      modifies this
      ensures ValidScope(s) ==>
                r == Ok(SymbolVid(h, s, sym)) && Value() == AddScipSymbol(h, old(Value()), s, language, sym)
      ensures !ValidScope(s) ==> r == Err(ScopeViolation(s).value) && Value() == old(Value())
    {
      r := AddVertex(h, s, ScipKind(sym.kind), "scip:" + sym.symbol, SymbolProperties(language, sym));
      if r.Ok? && sym.filePath.Some? && sym.filePath.value in fileVids {
        AddEdge(h, s, fileVids[sym.filePath.value], r.value, "CONTAINS", ScipSource(language),
                ScipOptions(Some(sym.filePath.value)));
      }
    }

    method AddVerticesOfSymbols(h: Hashes, s: CodeGraphScope, repoVid: string, language: string,
                                symbols: seq<ScipSymbol>, fileVids: map<string, string>)
      returns (r: Result<map<string, string>, ScopeError>)
      requires ValidScope(s) ==> PathsCached(symbols, fileVids) && FilesCached(h, Value(), s, repoVid, fileVids)
      modifies this
      ensures ValidScope(s) ==>
                && r.Ok? && SymbolsCached(h, Value(), s, SymbolIndex(symbols), r.value)
                && Value() == AddScipSymbols(h, old(Value()), s, language, symbols)
      ensures !ValidScope(s) ==>
                Value() == old(Value()) && r == if symbols == [] then Ok(map[]) else Err(ScopeViolation(s).value)
    {
      var symbolVids: map<string, string> := map[];
      for i := 0 to |symbols|
        invariant i == 0 || ValidScope(s)
        invariant Value() == AddScipSymbols(h, old(Value()), s, language, symbols[..i])
        invariant TableCached(h, s, SymbolIndex(symbols[..i]), symbolVids)
      {
        L.SymbolsPrefix(h, old(Value()), s, language, symbols, i);
        var sym := symbols[i];
        var vid := AddSymbolVertex(h, s, language, sym, fileVids);
        if vid.Err? {
          return Err(vid.error);
        }
        TableCachedNext(h, s, SymbolIndex(symbols[..i]), symbolVids, sym);
        symbolVids := symbolVids[sym.symbol := vid.value];
      }
      assert symbols[..|symbols|] == symbols;
      TableIsCached(h, Value(), s, SymbolIndex(symbols), symbolVids);
      r := Ok(symbolVids);
    }

    method EnsureScipSymbolVid(h: Hashes, s: CodeGraphScope, language: string, index: map<string, ScipSymbol>,
                               symbol: string, cache: map<string, string>)
      returns (r: Result<string, ScopeError>, cache': map<string, string>)
      requires ValidScope(s) ==> SymbolsCached(h, Value(), s, index, cache)
      requires !ValidScope(s) ==> cache == map[]
      modifies this
      ensures ValidScope(s) ==>
                && r == Ok(RelatedVid(h, s, index, symbol))
                && Value() == EnsureSymbol(h, old(Value()), s, language, index, symbol)
                && SymbolsCached(h, Value(), s, index, cache')
      ensures !ValidScope(s) ==> r == Err(ScopeViolation(s).value) && Value() == old(Value())
    {
      if symbol in cache {
        return Ok(cache[symbol]), cache;
      }
      var kind := if symbol in index then ScipKind(index[symbol].kind) else "symbol";
      r := AddVertex(h, s, kind, "scip:" + symbol, ScipCommon(symbol, symbol, language, ScipSource(language)));
      cache' := if r.Ok? then cache[symbol := r.value] else cache;
    }

    method AddFlaggedEdges(h: Hashes, s: CodeGraphScope, flags: seq<Flag>, fromVid: string, toVid: string,
                           source: string, o: EdgeOptions)
      modifies this`edges
      ensures Value() == AddFlagEdges(h, old(Value()), s, flags, fromVid, toVid, source, o)
      ensures KeysGrow(old(Value()), Value())
    {
      for i := 0 to |flags|
        invariant Value() == AddFlagEdges(h, old(Value()), s, flags[..i], fromVid, toVid, source, o)
        invariant KeysGrow(old(Value()), Value())
      {
        assert flags[..i + 1][..i] == flags[..i];
        if flags[i].enabled {
          AddEdge(h, s, fromVid, toVid, flags[i].kind, source, o);
        }
      }
      assert flags[..|flags|] == flags;
    }

    method AddEdgesOfRelationships(h: Hashes, s: CodeGraphScope, language: string, index: map<string, ScipSymbol>,
                                   rels: seq<Relationship>,
                                   cache: map<string, string>)
      returns (r: Result<Done, ScopeError>)
      requires ValidScope(s) ==> SymbolsCached(h, Value(), s, index, cache)
      requires !ValidScope(s) ==> cache == map[]
      modifies this
      ensures ValidScope(s) ==> r == Ok(Done) && Value() == AddRelationships(h, old(Value()), s, language, index, rels)
      ensures !ValidScope(s) ==>
                Value() == old(Value()) && r == if rels == [] then Ok(Done) else Err(ScopeViolation(s).value)
    {
      var symbolVids := cache;
      for i := 0 to |rels|
        invariant i == 0 || ValidScope(s)
        invariant Value() == AddRelationships(h, old(Value()), s, language, index, rels[..i])
        invariant ValidScope(s) ==> SymbolsCached(h, Value(), s, index, symbolVids)
        invariant !ValidScope(s) ==> symbolVids == map[]
      {
        L.RelationshipsPrefix(h, old(Value()), s, language, index, rels, i);
        var rel := rels[i];
        var source, cache1 := EnsureScipSymbolVid(h, s, language, index, rel.sourceSymbol, symbolVids);
        if source.Err? {
          return Err(source.error);
        }
        var target, cache2 := EnsureScipSymbolVid(h, s, language, index, rel.targetSymbol, cache1);
        symbolVids := cache2;
        label Ends:
        AddFlaggedEdges(h, s, EdgesToEmit(rel), source.value, target.value, ScipSource(language),
                        ScipOptions(EvidenceOf(index, rel.sourceSymbol)));
        SymbolsStayCached(h, old@Ends(Value()), Value(), s, index, symbolVids);
      }
      assert rels[..|rels|] == rels;
      r := Ok(Done);
    }

    method AddScipSemanticFacts(h: Hashes, s: CodeGraphScope, repoVid: string, language: string, rows: ScipRows)
      returns (r: Result<Done, ScopeError>)
      modifies this
      ensures ValidScope(s) ==> r == Ok(Done) && Value() == AddScipRows(h, old(Value()), s, repoVid, language, rows)
      ensures !ValidScope(s) ==>
                && Value() == old(Value())
                && r == if rows.symbols == [] && rows.relationships == [] then Ok(Done) else Err(ScopeViolation(s).value)
    {
      var files := AddFilesOfSymbols(h, s, repoVid, rows.symbols);
      if files.Err? {
        return Err(files.error);
      }
      var symbolVids := AddVerticesOfSymbols(h, s, repoVid, language, rows.symbols, files.value);
      if symbolVids.Err? {
        return Err(symbolVids.error);
      }
      r := AddEdgesOfRelationships(h, s, language, SymbolIndex(rows.symbols), rows.relationships, symbolVids.value);
    }

    method ReconcileEdgeProvenance()
      modifies this
      ensures Value() == old(Value()).(edges := R.Reconciled(old(edges)))
    {
      edges := R.ReconcileEdges(edges);
    }

    method CollectAnchors() returns (primary: map<string, string>)
      modifies this`anchors
      ensures anchors == AddAnchors(old(anchors), VertexList(vertices))
      ensures primary == Primary(VertexList(vertices))
    {
      var list := VertexList(vertices);
      primary := map[];
      for i := 0 to |list|
        invariant anchors == AddAnchors(old(anchors), list[..i])
        invariant primary == Primary(list[..i])
      {
        VertexPrefix(vertices, old(anchors), list, i);
        var key := PrimaryKey(list[i]);
        if key.Some? {
          var a := AnchorOf(list[i]);
          if AnchorKey(a) !in anchors {
            anchors := anchors[AnchorKey(a) := a];
          }
          if list[i].vid !in primary {
            primary := primary[list[i].vid := key.value];
          }
        }
      }
      assert list[..|list|] == list;
    }

    method MaterializeGraphAnchors(h: Hashes)
      modifies this
      ensures Value() == Materialized(h, old(Value()))
    {
      var primary := CollectAnchors();
      edges := LinkAll(LinkerOf(h, primary), edges, MAX_LINKS);
    }
  }
}
