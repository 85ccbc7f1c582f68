/** What the facts of a file say, field by field: from which declaration, about what, and on which line. */
module VisitorFacts {
  import opened Basics
  import T = Text
  import F = Facts
  import opened Syntax
  import opened VisitorSpec

  // What a node declares, imports and calls, by its kind.

  predicate IsMember(n: Node) {
    n.kind in {MethodDefinition, MethodSignature, AbstractMethodSignature} || IsField(n)
  }

  /** Pairs and fields are members only when their value is a function. */
  predicate IsField(n: Node) {
    n.kind in {Pair, PublicFieldDefinition, PropertyDefinition, FieldDefinition}
  }

  predicate IsFunction(n: Node) {
    n.kind in {FunctionDeclaration, GeneratorFunctionDeclaration}
  }

  predicate IsClass(n: Node) {
    n.kind in {ClassDeclaration, AbstractClassDeclaration}
  }

  /** The name a node declares. */
  function NameOf(n: Node): Option<string> {
    if IsClass(n) || IsFunction(n) then n.nameOrDefault
    else if n.kind in {InterfaceDeclaration, TypeAliasDeclaration, EnumDeclaration, InternalModule} then n.name
    else if n.kind == VariableDeclarator then n.name
    else if IsMember(n) && (IsField(n) ==> n.functionValue) then n.memberName
    else None
  }

  /** A plain variable is declared, but is no scope. */
  predicate Opens(n: Node) {
    NameOf(n).Some? && (n.kind == VariableDeclarator ==> n.functionValue)
  }

  function KindOf(n: Node): F.SymbolKind {
    if IsClass(n) || n.kind == EnumDeclaration then F.Class
    else if n.kind == InterfaceDeclaration then F.Interface
    else if n.kind == InternalModule then F.Module
    else if IsMember(n) then F.Method
    else if IsFunction(n) || (n.kind == VariableDeclarator && n.functionValue) then F.Function
    else F.Symbol
  }

  function PrefixOf(k: F.SymbolKind): string {
    match k
    case Class => "class"
    case Interface => "interface"
    case Module => "module"
    case Symbol => "symbol"
    case _ => "function"
  }

  /** A member of a class is named after the class, everything else after the file. */
  function SymbolOf(u: Unit, n: Node, parent: Scope, name: string): string {
    if IsMember(n) && parent.kind == F.Class then parent.symbol + "#" + name
    else PrefixOf(KindOf(n)) + ":" + u.file + ":" + name
  }

  predicate IsImporter(callee: string) {
    callee == "require" || callee == "import"
  }

  function Imported(n: Node): Option<string> {
    if n.kind == ImportStatement then n.literal
    else if n.kind == ExportStatement then n.moduleSource
    else if n.kind == CallExpression && n.callee.Some? && IsImporter(n.callee.value) then n.literal
    else None
  }

  /** A keyword is no callee, but a member of `this` or `super` is one. */
  predicate Callable(u: Unit, callee: string) {
    var first := T.Trim(FirstSegment(callee));
    u.keyword(first) ==> (first == "this" || first == "super") && '.' in callee
  }

  function Called(u: Unit, n: Node): Option<string> {
    if n.kind in {CallExpression, NewExpression} && n.callee.Some? then
      if (n.kind == CallExpression && IsImporter(n.callee.value)) || !Callable(u, n.callee.value) then None
      else n.callee
    else if n.kind in {JsxOpeningElement, JsxSelfClosingElement} && n.name.Some? then
      if n.name.value != "" && u.uppercase(n.name.value[0]) then n.name else None
    else None
  }

  // What a fact says.

  predicate From(f: F.Fact, scope: Scope) {
    f.sourceSymbol == scope.symbol && f.sourceDisplay == scope.display && f.sourceKind == scope.kind
  }

  predicate Into(f: F.Fact, symbol: string, display: string, kind: F.SymbolKind) {
    f.targetSymbol == symbol && f.targetDisplay == display && f.targetKind == kind
  }

  predicate IsClassOrInterface(n: Node) {
    IsClass(n) || n.kind == InterfaceDeclaration
  }

  /** The fact is what node `n`, lying in scope `parent`, says. */
  ghost predicate Tells(u: Unit, n: Node, parent: Scope, f: F.Fact) {
    && f.language == u.language && f.filePath == u.file && f.startLine == n.line && f.endLine == n.line
    && f.confidence == F.CONFIDENCE_PARSED
    && match f.kind
       case ImportsFrom => From(f, ModuleScope(u)) && TellsImport(n, f)
       case Calls => From(f, parent) && TellsCall(u, n, f)
       case Defines => From(f, parent) && TellsDefinition(u, n, parent, f)
       case Extends => TellsHeritage(u, n, f) && TellsBase(n, f)
       case Implements => TellsHeritage(u, n, f) && TellsInterface(n, f)
  }

  ghost predicate TellsImport(n: Node, f: F.Fact) {
    Imported(n) == Some(f.targetDisplay)
    && Into(f, "module:" + f.targetDisplay, f.targetDisplay, if "." <= f.targetDisplay then F.Module else F.External)
  }

  ghost predicate TellsCall(u: Unit, n: Node, f: F.Fact) {
    Called(u, n) == Some(f.targetDisplay) && Into(f, "function:?:" + f.targetDisplay, f.targetDisplay, F.Function)
  }

  ghost predicate TellsDefinition(u: Unit, n: Node, parent: Scope, f: F.Fact) {
    NameOf(n) == Some(f.targetDisplay)
    && Into(f, SymbolOf(u, n, parent, f.targetDisplay), f.targetDisplay, KindOf(n))
  }

  /** From the declared class or interface itself. */
  ghost predicate TellsHeritage(u: Unit, n: Node, f: F.Fact) {
    && IsClassOrInterface(n) && NameOf(n) == Some(f.sourceDisplay)
    && From(f, Scope(PrefixOf(KindOf(n)) + ":" + u.file + ":" + f.sourceDisplay, f.sourceDisplay, KindOf(n)))
  }

  /** A class extends classes, an interface extends interfaces. */
  ghost predicate TellsBase(n: Node, f: F.Fact) {
    && f.targetDisplay in n.superTypes
    && Into(f, PrefixOf(KindOf(n)) + ":?:" + f.targetDisplay, f.targetDisplay, KindOf(n))
  }

  ghost predicate TellsInterface(n: Node, f: F.Fact) {
    n.kind != InterfaceDeclaration && f.targetDisplay in n.interfaces
    && Into(f, "interface:?:" + f.targetDisplay, f.targetDisplay, F.Interface)
  }

  // Each node says exactly that.

  lemma DeclaredIs(u: Unit, n: Node, parent: Scope)
    ensures Declared(u, n, parent) ==
            if Opens(n) then Some(Scope(SymbolOf(u, n, parent, NameOf(n).value), NameOf(n).value, KindOf(n))) else None
  {
    assert "function" + ":" == "function:";
  }

  lemma ImportsTell(u: Unit, n: Node, parent: Scope, target: Option<string>, f: F.Fact)
    requires Imported(n) == target
    ensures f in Imports(u, target, n.line) <==> f.kind == F.ImportsFrom && Tells(u, n, parent, f)
  {
    if target.Some? && f.kind == F.ImportsFrom && Tells(u, n, parent, f) {
      assert f == ImportFact(u, target.value, n.line);
    }
  }

  lemma DefinesTells(u: Unit, n: Node, parent: Scope, f: F.Fact)
    ensures f.kind == F.Defines && Tells(u, n, parent, f) <==>
            NameOf(n).Some?
            && f == DefinesFact(u, parent, SymbolOf(u, n, parent, NameOf(n).value), NameOf(n).value, KindOf(n), n.line)
  {
  }

  lemma CallTells(u: Unit, n: Node, parent: Scope, f: F.Fact)
    ensures f.kind == F.Calls && Tells(u, n, parent, f) <==>
            Called(u, n).Some? && f == CallFact(u, parent, Called(u, n).value, n.line)
  {
  }

  lemma ExtendsTells(u: Unit, n: Node, parent: Scope, scope: Scope, f: F.Fact)
    requires Opens(n) && IsClassOrInterface(n)
    requires scope == Scope(SymbolOf(u, n, parent, NameOf(n).value), NameOf(n).value, KindOf(n))
    ensures f.kind == F.Extends && Tells(u, n, parent, f) <==>
            f.targetDisplay in n.superTypes
            && f == (if n.kind == InterfaceDeclaration then InterfaceFact(u, F.Extends, scope, f.targetDisplay, n.line)
                     else ExtendsFact(u, scope, f.targetDisplay, n.line))
  {
    assert "class" + ":?:" == "class:?:" && "interface" + ":?:" == "interface:?:";
  }

  lemma ImplementsTells(u: Unit, n: Node, parent: Scope, scope: Scope, f: F.Fact)
    requires Opens(n) && IsClassOrInterface(n)
    requires scope == Scope(SymbolOf(u, n, parent, NameOf(n).value), NameOf(n).value, KindOf(n))
    ensures f.kind == F.Implements && Tells(u, n, parent, f) <==>
            n.kind != InterfaceDeclaration && f.targetDisplay in n.interfaces
            && f == InterfaceFact(u, F.Implements, scope, f.targetDisplay, n.line)
  {
  }

  lemma HeritageTells(u: Unit, n: Node, parent: Scope, scope: Scope, f: F.Fact)
    requires Opens(n) && IsClassOrInterface(n)
    requires scope == Scope(SymbolOf(u, n, parent, NameOf(n).value), NameOf(n).value, KindOf(n))
    ensures f in Heritage(u, n, scope) <==> (f.kind == F.Extends || f.kind == F.Implements) && Tells(u, n, parent, f)
  {
    ExtendsTells(u, n, parent, scope, f);
    ImplementsTells(u, n, parent, scope, f);
    HeritageIs(u, n, scope, f);
  }

  /** One fact for each listed base and, for a class, each listed interface. */
  lemma HeritageIs(u: Unit, n: Node, scope: Scope, f: F.Fact)
    requires IsClassOrInterface(n)
    ensures f in Heritage(u, n, scope) <==>
            || (f.targetDisplay in n.superTypes
                && f == (if n.kind == InterfaceDeclaration then InterfaceFact(u, F.Extends, scope, f.targetDisplay, n.line)
                         else ExtendsFact(u, scope, f.targetDisplay, n.line)))
            || (n.kind != InterfaceDeclaration && f.targetDisplay in n.interfaces
                && f == InterfaceFact(u, F.Implements, scope, f.targetDisplay, n.line))
  {
    var facts := Heritage(u, n, scope);
    if f.targetDisplay in n.superTypes {
      var i :| 0 <= i < |n.superTypes| && n.superTypes[i] == f.targetDisplay;
      assert facts[i].kind == F.Extends;
    }
    if n.kind != InterfaceDeclaration && f.targetDisplay in n.interfaces {
      var i :| 0 <= i < |n.interfaces| && n.interfaces[i] == f.targetDisplay;
      assert facts[|n.superTypes| + i] == InterfaceFact(u, F.Implements, scope, f.targetDisplay, n.line);
    }
  }

  lemma OpeningNodeTells(u: Unit, n: Node, parent: Scope, f: F.Fact)
    requires Opens(n)
    ensures f in OwnFacts(u, n, parent) <==> Tells(u, n, parent, f)
  {
    var scope := Scope(SymbolOf(u, n, parent, NameOf(n).value), NameOf(n).value, KindOf(n));
    DeclaredIs(u, n, parent);
    DefinesTells(u, n, parent, f);
    CallTells(u, n, parent, f);
    if IsClassOrInterface(n) { HeritageTells(u, n, parent, scope, f); }
  }

  lemma PlainVariableTells(u: Unit, n: Node, parent: Scope, f: F.Fact)
    requires !Opens(n) && n.kind == VariableDeclarator
    ensures f in OwnFacts(u, n, parent) <==> Tells(u, n, parent, f)
  {
    DeclaredIs(u, n, parent);
    DefinesTells(u, n, parent, f);
    assert "symbol" + ":" == "symbol:";
  }

  lemma UseTells(u: Unit, n: Node, parent: Scope, f: F.Fact)
    requires !Opens(n) && n.kind in {CallExpression, NewExpression, JsxOpeningElement, JsxSelfClosingElement}
    ensures f in OwnFacts(u, n, parent) <==> Tells(u, n, parent, f)
  {
    DeclaredIs(u, n, parent);
    CallTells(u, n, parent, f);
    ImportsTell(u, n, parent, Imported(n), f);
  }

  lemma OtherNodeTells(u: Unit, n: Node, parent: Scope, f: F.Fact)
    requires !Opens(n)
    ensures f in OwnFacts(u, n, parent) <==> Tells(u, n, parent, f)
  {
    if n.kind == VariableDeclarator {
      PlainVariableTells(u, n, parent, f);
    } else if n.kind in {CallExpression, NewExpression, JsxOpeningElement, JsxSelfClosingElement} {
      UseTells(u, n, parent, f);
    } else {
      DeclaredIs(u, n, parent);
      ImportsTell(u, n, parent, Imported(n), f);
    }
  }

  /** A node says exactly the facts that fit it, in every field. */
  lemma NodeTells(u: Unit, n: Node, parent: Scope, f: F.Fact)
    ensures f in OwnFacts(u, n, parent) <==> Tells(u, n, parent, f)
  {
    if Opens(n) { OpeningNodeTells(u, n, parent, f); } else { OtherNodeTells(u, n, parent, f); }
  }

  /** A node defines its name once, and a class or interface says one fact for each base and interface listed. */
  lemma NodeTellsOnce(u: Unit, n: Node, parent: Scope)
    ensures |OwnFacts(u, n, parent)| ==
            if Opens(n) then 1 + (if IsClassOrInterface(n) then |n.superTypes| else 0)
                               + (if IsClass(n) then |n.interfaces| else 0)
            else if Imported(n).Some? || Called(u, n).Some? || NameOf(n).Some? then 1 else 0
  {
    DeclaredIs(u, n, parent);
  }

  // The declaration around a node.

  /** The node at the first `k` steps of the path is the innermost one above its end that opens a scope. */
  ghost predicate Nearest(root: Node, p: Path, k: nat) {
    && k < |p| && At(root, p[..k]).Some? && Opens(At(root, p[..k]).value)
    && forall j :: k < j < |p| ==> At(root, p[..j]).Some? && !Opens(At(root, p[..j]).value)
  }

  ghost predicate NoneOpens(root: Node, p: Path) {
    forall j :: 0 <= j < |p| ==> At(root, p[..j]).Some? && !Opens(At(root, p[..j]).value)
  }

  lemma NearestLonger(root: Node, p: Path, k: nat)
    requires p != [] && Nearest(root, p[..|p| - 1], k)
    requires At(root, p[..|p| - 1]).Some? && !Opens(At(root, p[..|p| - 1]).value)
    ensures Nearest(root, p, k)
  {
    var q := p[..|p| - 1];
    assert q[..k] == p[..k];
    forall j | k < j < |p| ensures At(root, p[..j]).Some? && !Opens(At(root, p[..j]).value) {
      if j < |q| { assert q[..j] == p[..j]; }
    }
  }

  lemma NoneOpensLonger(root: Node, p: Path)
    requires p != [] && NoneOpens(root, p[..|p| - 1])
    requires At(root, p[..|p| - 1]).Some? && !Opens(At(root, p[..|p| - 1]).value)
    ensures NoneOpens(root, p)
  {
    var q := p[..|p| - 1];
    forall j | 0 <= j < |p| ensures At(root, p[..j]).Some? && !Opens(At(root, p[..j]).value) {
      if j < |q| { assert q[..j] == p[..j]; }
    }
  }

  /** The scope of a node is that of the nearest declaration above it, or the module if there is none. */
  ghost predicate IsScope(u: Unit, root: Node, p: Path, k: nat, outer: Scope, scope: Scope) {
    if NoneOpens(root, p) then scope == ModuleScope(u)
    else
      && Nearest(root, p, k)
      && var n := At(root, p[..k]).value;
         scope == Scope(SymbolOf(u, n, outer, NameOf(n).value), NameOf(n).value, KindOf(n))
  }

  lemma {:induction false} ScopeIsNearestDeclaration(u: Unit, root: Node, p: Path) returns (k: nat)
    requires At(root, p).Some?
    ensures k <= |p| && At(root, p[..k]).Some?
    ensures IsScope(u, root, p, k, ScopeAt(RulesOf(u), root, ModuleScope(u), p[..k]),
                    ScopeAt(RulesOf(u), root, ModuleScope(u), p))
    decreases |p|
  {
    k := |p|;
    assert p[..|p|] == p;
    if p != [] {
      var q := p[..|p| - 1];
      var n := At(root, q).value;
      DeclaredIs(u, n, ScopeAt(RulesOf(u), root, ModuleScope(u), q));
      if Opens(n) {
        k := |p| - 1;
        assert Nearest(root, p, k);
      } else {
        var i := ScopeIsNearestDeclaration(u, root, q);
        assert q[..i] == p[..i];
        if NoneOpens(root, q) { NoneOpensLonger(root, p); } else { NearestLonger(root, p, i); k := i; }
      }
    }
  }

  // Every fact of a file.

  ghost predicate ToldAt(u: Unit, root: Node, p: Path, f: F.Fact) {
    At(root, p).Some? && Tells(u, At(root, p).value, ScopeAt(RulesOf(u), root, ModuleScope(u), p), f)
  }

  lemma FactsAtTell(u: Unit, root: Node, p: Path, f: F.Fact)
    ensures f in FactsAt(RulesOf(u), root, ModuleScope(u), p) <==> ToldAt(u, root, p, f)
  {
    if At(root, p).Some? {
      NodeTells(u, At(root, p).value, ScopeAt(RulesOf(u), root, ModuleScope(u), p), f);
    }
  }

  lemma {:induction false} FactsAlongFrom(r: Rules, root: Node, top: Scope, paths: seq<Path>, f: F.Fact)
    ensures f in FactsAlong(r, root, top, paths) <==> exists p :: p in paths && f in FactsAt(r, root, top, p)
    decreases |paths|
  {
    if paths != [] {
      var init, last := paths[..|paths| - 1], paths[|paths| - 1];
      FactsAlongFrom(r, root, top, init, f);
      assert paths == init + [last];
    }
  }

  /**
   * The facts of a file are exactly what its nodes outside import statements say, each from the
   * declaration around it.
   */
  lemma EmittedTell(u: Unit, root: Node, f: F.Fact)
    ensures f in Emitted(RulesOf(u), root, ModuleScope(u)) <==> exists p :: Outside(root, p) && ToldAt(u, root, p, f)
  {
    var r, top, paths := RulesOf(u), ModuleScope(u), Preorder(root, []);
    EmittedByNode(r, root, top);
    FactsAlongFrom(r, root, top, paths, f);
    VisitsEachNodeOnce(root);
    forall p ensures f in FactsAt(r, root, top, p) <==> ToldAt(u, root, p, f) { FactsAtTell(u, root, p, f); }
  }

  // Symbols.

  lemma SamePrefix(a: string, x: string, y: string)
    requires a + x == a + y
    ensures x == y
  {
    assert x == (a + x)[|a|..] && y == (a + y)[|a|..];
  }

  lemma SameEnding(x: string, y: string, a: string)
    requires x + a == y + a
    ensures x == y
  {
    assert |x| == |y| && x == (x + a)[..|x|] && y == (y + a)[..|y|];
  }

  lemma ClassScopeSymbol(u: Unit, n: Node, outer: Scope, scope: Scope)
    requires Opens(n) && scope == Scope(SymbolOf(u, n, outer, NameOf(n).value), NameOf(n).value, KindOf(n))
    requires scope.kind == F.Class
    ensures scope.symbol == "class:" + u.file + ":" + scope.display
  {
    assert "class" + ":" == "class:";
  }

  /** Every scope that is a class is named after the file and its own name. */
  lemma ClassSymbol(u: Unit, root: Node, p: Path, scope: Scope)
    requires At(root, p).Some? && scope == ScopeAt(RulesOf(u), root, ModuleScope(u), p) && scope.kind == F.Class
    ensures scope.symbol == "class:" + u.file + ":" + scope.display
  {
    var k := ScopeIsNearestDeclaration(u, root, p);
    if !NoneOpens(root, p) {
      ClassScopeSymbol(u, At(root, p[..k]).value, ScopeAt(RulesOf(u), root, ModuleScope(u), p[..k]), scope);
    }
  }

  /** Two members of the same name in classes have the same symbol exactly when the classes have the same name. */
  lemma MembersOfClassesApart(u: Unit, root: Node, p: Path, q: Path, name: string)
    requires At(root, p).Some? && At(root, q).Some? && IsMember(At(root, p).value) && IsMember(At(root, q).value)
    requires ScopeAt(RulesOf(u), root, ModuleScope(u), p).kind == F.Class
    requires ScopeAt(RulesOf(u), root, ModuleScope(u), q).kind == F.Class
    ensures var a, b := ScopeAt(RulesOf(u), root, ModuleScope(u), p), ScopeAt(RulesOf(u), root, ModuleScope(u), q);
            SymbolOf(u, At(root, p).value, a, name) == SymbolOf(u, At(root, q).value, b, name) <==> a.display == b.display
  {
    var a, b := ScopeAt(RulesOf(u), root, ModuleScope(u), p), ScopeAt(RulesOf(u), root, ModuleScope(u), q);
    ClassSymbol(u, root, p, a);
    ClassSymbol(u, root, q, b);
    if SymbolOf(u, At(root, p).value, a, name) == SymbolOf(u, At(root, q).value, b, name) {
      MemberSymbolsSplit(a.symbol, b.symbol, name);
      SamePrefix("class:" + u.file + ":", a.display, b.display);
    }
  }

  lemma MemberSymbolsSplit(a: string, b: string, name: string)
    requires a + "#" + name == b + "#" + name
    ensures a == b
  {
    SameEnding(a + "#", b + "#", name);
    SameEnding(a, b, "#");
  }

  /** The part of a callee before its first dot or colon. */
  lemma {:induction false} FirstSegmentEndsAtDot(callee: string)
    ensures FirstSegment(callee) <= callee && '.' !in FirstSegment(callee) && ':' !in FirstSegment(callee)
    ensures var n := |FirstSegment(callee)|; n == |callee| || callee[n] == '.' || callee[n] == ':'
  {
    if callee != "" && callee[0] != '.' && callee[0] != ':' {
      FirstSegmentEndsAtDot(callee[1..]);
      assert callee == [callee[0]] + callee[1..];
    }
  }
}

/** The extractor: parse, then visit the root with an empty stack. */
module Extraction {
  import opened Basics
  import F = Facts
  import opened Syntax
  import opened VisitorSpec
  import opened VisitorFacts
  import Visitor

  /** `extract_tree_sitter_facts_result`, given what the parser answers. */
  method ExtractTreeSitterFacts(u: Unit, parsed: Result<Node, string>) returns (r: Result<seq<F.Fact>, string>)
    ensures parsed.Err? ==> r == Err(parsed.error)
    ensures parsed.Ok? ==> r == Ok(Emitted(RulesOf(u), parsed.value, ModuleScope(u)))
    ensures parsed.Ok? ==>
              forall f :: f in r.value <==> exists p :: Outside(parsed.value, p) && ToldAt(u, parsed.value, p, f)
  {
    if parsed.Err? {
      return Err(parsed.error);
    }
    var visitor := new Visitor.TsVisitor(u);
    visitor.VisitTsNode(parsed.value, []);
    forall f { EmittedTell(u, parsed.value, f); }
    assert visitor.facts == Emitted(RulesOf(u), parsed.value, ModuleScope(u));
    return Ok(visitor.facts);
  }
}
