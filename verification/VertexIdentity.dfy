/** Which facts and rows share a vertex. */
module VertexIdentity {
  import opened Basics
  import opened GraphModel
  import opened Accumulator
  import T = Text
  import F = Facts

  /** The text a vertex id is the digest of. */
  ghost function Digested(s: CodeGraphScope, kind: string, key: string): string {
    T.Join(IdentityParts(Identity(s, kind, key)), "\0")
  }

  ghost predicate NulFree(s: CodeGraphScope) {
    '\0' !in s.workspaceId && '\0' !in s.commitHash && '\0' !in BuilderVersionOf(s)
  }

  lemma IdentityPartsFree(s: CodeGraphScope, kind: string, key: string)
    requires NulFree(s) && '\0' !in kind && '\0' !in key
    ensures Free(IdentityParts(Identity(s, kind, key)), '\0')
  {
    T.DecimalChars(s.orgId);
    T.DecimalChars(s.repoId);
    T.DecimalChars(SchemaVersionOf(s));
  }

  /** Neither text has a NUL that could be taken for a separator, and their digests do not collide. */
  ghost predicate Apart(h: Hashes, s: CodeGraphScope, kind: string, key: string, kind': string, key': string) {
    && '\0' !in kind && '\0' !in key && '\0' !in kind' && '\0' !in key'
    && NoCollision(h.sha, Digested(s, kind, key), Digested(s, kind', key'))
  }

  lemma VidOfIdentifies(h: Hashes, s: CodeGraphScope, kind: string, key: string, kind': string, key': string)
    requires NulFree(s) && Apart(h, s, kind, key, kind', key')
    ensures VidOf(h, s, kind, key) == VidOf(h, s, kind', key') <==> kind == kind' && key == key'
  {
    IdentityPartsFree(s, kind, key);
    IdentityPartsFree(s, kind', key');
    VidIdentifies(h.sha, Identity(s, kind, key), Identity(s, kind', key'));
  }

  /** A key is its prefix and its name; no two of the three prefixes begin alike. */
  lemma KeysSplit(a: string, b: string)
    ensures "ast:" + a == "ast:" + b <==> a == b
    ensures "scip:" + a == "scip:" + b <==> a == b
    ensures "file:" + a == "file:" + b <==> a == b
    ensures "file:" + a != "ast:" + b && "file:" + a != "scip:" + b && "ast:" + a != "scip:" + b
  {
    assert ("ast:" + a)[4..] == a && ("ast:" + b)[4..] == b;
    assert ("scip:" + a)[5..] == a && ("scip:" + b)[5..] == b;
    assert ("file:" + a)[5..] == a && ("file:" + b)[5..] == b;
    assert ("file:" + a)[0] == 'f' && ("ast:" + b)[0] == 'a' && ("ast:" + a)[0] == 'a' && ("scip:" + b)[0] == 's';
  }

  /** File vertices are told apart by path. */
  lemma FileVidIdentifies(h: Hashes, s: CodeGraphScope, p: string, q: string)
    requires NulFree(s) && Apart(h, s, "file", "file:" + p, "file", "file:" + q)
    ensures FileVid(h, s, p) == FileVid(h, s, q) <==> p == q
  {
    VidOfIdentifies(h, s, "file", "file:" + p, "file", "file:" + q);
    KeysSplit(p, q);
  }

  // The ends of a fact.

  /** The kind and key of a fact's source: a module is its file, anything else its symbol. */
  ghost function SourceName(fact: F.Fact): (string, string) {
    if fact.sourceKind == F.Module then ("file", "file:" + fact.filePath)
    else (SourceVertexKind(fact.sourceKind), "ast:" + fact.sourceSymbol)
  }

  ghost function TargetName(fact: F.Fact): (string, string) {
    (TargetVertexKind(fact.targetKind), "ast:" + fact.targetSymbol)
  }

  ghost predicate NamesApart(h: Hashes, s: CodeGraphScope, a: (string, string), b: (string, string)) {
    NulFree(s) && Apart(h, s, a.0, a.1, b.0, b.1)
  }

  ghost predicate SameSource(f: F.Fact, g: F.Fact) {
    if f.sourceKind == F.Module || g.sourceKind == F.Module
    then f.sourceKind == F.Module && g.sourceKind == F.Module && f.filePath == g.filePath
    else SourceVertexKind(f.sourceKind) == SourceVertexKind(g.sourceKind) && f.sourceSymbol == g.sourceSymbol
  }

  /** Two facts start at the same vertex exactly when they have the same file as module, or the same symbol and kind. */
  lemma SourceVidIdentifies(h: Hashes, s: CodeGraphScope, f: F.Fact, g: F.Fact)
    requires NamesApart(h, s, SourceName(f), SourceName(g))
    ensures SourceVid(h, s, f) == SourceVid(h, s, g) <==> SameSource(f, g)
  {
    var a, b := SourceName(f), SourceName(g);
    VidOfIdentifies(h, s, a.0, a.1, b.0, b.1);
    KeysSplit(f.filePath, g.filePath);
    KeysSplit(f.sourceSymbol, g.sourceSymbol);
    KeysSplit(f.filePath, g.sourceSymbol);
    KeysSplit(g.filePath, f.sourceSymbol);
  }

  lemma TargetVidIdentifies(h: Hashes, s: CodeGraphScope, f: F.Fact, g: F.Fact)
    requires NamesApart(h, s, TargetName(f), TargetName(g))
    ensures TargetVid(h, s, f) == TargetVid(h, s, g) <==>
            TargetVertexKind(f.targetKind) == TargetVertexKind(g.targetKind) && f.targetSymbol == g.targetSymbol
  {
    var a, b := TargetName(f), TargetName(g);
    VidOfIdentifies(h, s, a.0, a.1, b.0, b.1);
    KeysSplit(f.targetSymbol, g.targetSymbol);
  }

  /** The kinds under which a symbol is one vertex as a source and as a target. */
  predicate Meet(source: F.SymbolKind, target: F.SymbolKind) {
    match source
    case Module => false
    case Class => target == F.Class || target == F.Interface
    case Method => target == F.Method
    case _ => target == F.Function
  }

  lemma KindsMeet(source: F.SymbolKind, target: F.SymbolKind)
    requires source != F.Module
    ensures SourceVertexKind(source) == TargetVertexKind(target) <==> Meet(source, target)
    ensures TargetVertexKind(target) == "class" <==> target == F.Class || target == F.Interface
    ensures TargetVertexKind(target) == "method" <==> target == F.Method
    ensures TargetVertexKind(target) == "function" <==> target == F.Function
    ensures TargetVertexKind(target) == "package" <==> target == F.External
    ensures TargetVertexKind(target) == "file" <==> target == F.Module
  {
    assert "class"[0] == 'c' && "method"[0] == 'm' && "function"[0] == 'f' && "file"[0] == 'f' && |"file"| == 4
        && |"function"| == 8 && "package"[0] == 'p' && "symbol"[0] == 's';
  }

  /**
   * A fact starts where another one ends exactly when they agree on the symbol and their kinds
   * meet.  So what a class, method or function contains hangs from the vertex that its definition
   * made, but what an interface, a type alias or a nested module contains does not.
   */
  lemma SourceMeetsTarget(h: Hashes, s: CodeGraphScope, f: F.Fact, g: F.Fact)
    requires NamesApart(h, s, SourceName(f), TargetName(g))
    ensures SourceVid(h, s, f) == TargetVid(h, s, g) <==>
            f.sourceSymbol == g.targetSymbol && Meet(f.sourceKind, g.targetKind)
  {
    var a, b := SourceName(f), TargetName(g);
    VidOfIdentifies(h, s, a.0, a.1, b.0, b.1);
    KeysSplit(f.filePath, g.targetSymbol);
    KeysSplit(f.sourceSymbol, g.targetSymbol);
    if f.sourceKind != F.Module { KindsMeet(f.sourceKind, g.targetKind); }
  }

  /** No fact ends at the vertex of a file, not even one that imports a module. */
  lemma FileIsNoTarget(h: Hashes, s: CodeGraphScope, path: string, f: F.Fact)
    requires NamesApart(h, s, ("file", "file:" + path), TargetName(f))
    ensures FileVid(h, s, path) != TargetVid(h, s, f)
  {
    VidOfIdentifies(h, s, "file", "file:" + path, TargetName(f).0, TargetName(f).1);
    KeysSplit(path, f.targetSymbol);
  }

  // SCIP symbols.

  ghost predicate IndexOk(index: map<string, ScipSymbol>) {
    forall k :: k in index ==> index[k].symbol == k
  }

  /** What the table holds under a name is the last row of that name. */
  lemma {:induction false} SymbolIndexHolds(symbols: seq<ScipSymbol>, k: string) returns (i: nat)
    requires k in SymbolIndex(symbols)
    ensures i < |symbols| && symbols[i].symbol == k && SymbolIndex(symbols)[k] == symbols[i]
    ensures forall j :: i < j < |symbols| ==> symbols[j].symbol != k
  {
    i := |symbols| - 1;
    if symbols[i].symbol != k {
      i := SymbolIndexHolds(symbols[..i], k);
    }
  }

  lemma {:induction false} SymbolIndexLists(symbols: seq<ScipSymbol>, i: nat)
    requires i < |symbols|
    ensures symbols[i].symbol in SymbolIndex(symbols)
  {
    if i < |symbols| - 1 { SymbolIndexLists(symbols[..|symbols| - 1], i); }
  }

  lemma SymbolIndexOk(symbols: seq<ScipSymbol>)
    ensures IndexOk(SymbolIndex(symbols))
  {
    forall k | k in SymbolIndex(symbols) ensures SymbolIndex(symbols)[k].symbol == k {
      var i := SymbolIndexHolds(symbols, k);
    }
  }

  /** A symbol the table does not know is a plain symbol. */
  ghost function RelatedName(index: map<string, ScipSymbol>, symbol: string): (string, string) {
    (if symbol in index then ScipKind(index[symbol].kind) else "symbol", "scip:" + symbol)
  }

  /** Two ends of relationships, of one batch or of two, are one vertex exactly for one symbol of one kind. */
  lemma RelatedVidIdentifies(h: Hashes, s: CodeGraphScope, i: map<string, ScipSymbol>, a: string,
                             j: map<string, ScipSymbol>, b: string)
    requires IndexOk(i) && IndexOk(j) && NamesApart(h, s, RelatedName(i, a), RelatedName(j, b))
    ensures RelatedVid(h, s, i, a) == RelatedVid(h, s, j, b) <==>
            a == b && RelatedName(i, a).0 == RelatedName(j, b).0
  {
    var x, y := RelatedName(i, a), RelatedName(j, b);
    VidOfIdentifies(h, s, x.0, x.1, y.0, y.1);
    KeysSplit(a, b);
  }

  /** A SCIP symbol and the end of a syntactic fact are never one vertex. */
  lemma ScipIsNoFact(h: Hashes, s: CodeGraphScope, index: map<string, ScipSymbol>, symbol: string, f: F.Fact)
    requires IndexOk(index) && NamesApart(h, s, RelatedName(index, symbol), TargetName(f))
    requires NamesApart(h, s, RelatedName(index, symbol), SourceName(f))
    ensures RelatedVid(h, s, index, symbol) != TargetVid(h, s, f)
    ensures RelatedVid(h, s, index, symbol) != SourceVid(h, s, f)
  {
    var x, y, z := RelatedName(index, symbol), TargetName(f), SourceName(f);
    VidOfIdentifies(h, s, x.0, x.1, y.0, y.1);
    VidOfIdentifies(h, s, x.0, x.1, z.0, z.1);
    KeysSplit(f.targetSymbol, symbol);
    KeysSplit(f.sourceSymbol, symbol);
    KeysSplit(f.filePath, symbol);
  }
}

/** The vertices of the declarations the visitor finds. */
module ScopeVertices {
  import opened Basics
  import opened GraphModel
  import opened Accumulator
  import opened VertexIdentity
  import opened VisitorFacts
  import S = Syntax
  import F = Facts

  /**
   * What a declaration contains is told from the vertex its definition made exactly when it is a
   * class, a method or a function; an interface, a type alias or a nested module has two.
   */
  lemma ScopeIsItsDefinition(h: Hashes, s: CodeGraphScope, scope: S.Scope, inside: F.Fact, definition: F.Fact)
    requires From(inside, scope) && Into(definition, scope.symbol, scope.display, scope.kind)
    requires NamesApart(h, s, SourceName(inside), TargetName(definition))
    ensures SourceVid(h, s, inside) == TargetVid(h, s, definition) <==> scope.kind in {F.Class, F.Method, F.Function}
  {
    SourceMeetsTarget(h, s, inside, definition);
  }
}
