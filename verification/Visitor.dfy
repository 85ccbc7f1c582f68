/**
 * The TypeScript and JavaScript visitor.  A node carries what the parser would answer about it;
 * its children are its named children.
 */
module Syntax {
  import opened Basics
  import F = Facts

  /** The node kinds the visitor tells apart. */
  datatype Kind =
    | ImportStatement | ExportStatement
    | ClassDeclaration | AbstractClassDeclaration | InterfaceDeclaration
    | TypeAliasDeclaration | EnumDeclaration | InternalModule
    | FunctionDeclaration | GeneratorFunctionDeclaration
    | MethodDefinition | MethodSignature | AbstractMethodSignature | Pair
    | PublicFieldDefinition | PropertyDefinition | FieldDefinition
    | VariableDeclarator | CallExpression | NewExpression
    | JsxOpeningElement | JsxSelfClosingElement
    | OtherKind

  datatype Node = Node(
    kind: Kind,
    line: nat,
    name: Option<string>,
    nameOrDefault: Option<string>,
    memberName: Option<string>,
    literal: Option<string>,
    moduleSource: Option<string>,
    superTypes: seq<string>,
    interfaces: seq<string>,
    functionValue: bool,
    callee: Option<string>,
    children: seq<Node>)

  /** A source file, and the two character-level tests that depend on the language or on Unicode. */
  datatype Unit = Unit(language: string, file: string, keyword: string -> bool, uppercase: char -> bool)

  datatype Scope = Scope(symbol: string, display: string, kind: F.SymbolKind)

  // Facts.

  function ImportFact(u: Unit, target: string, line: nat): F.Fact {
    F.Fact(F.ImportsFrom, u.language, "module:" + u.file, u.file, F.Module, "module:" + target, target,
           if "." <= target then F.Module else F.External, u.file, line, line, F.CONFIDENCE_PARSED)
  }

  function DefinesFact(u: Unit, from: Scope, symbol: string, display: string, kind: F.SymbolKind, line: nat): F.Fact {
    F.Fact(F.Defines, u.language, from.symbol, from.display, from.kind, symbol, display, kind, u.file, line, line,
           F.CONFIDENCE_PARSED)
  }

  function ExtendsFact(u: Unit, source: Scope, parent: string, line: nat): F.Fact {
    F.Fact(F.Extends, u.language, source.symbol, source.display, F.Class, "class:?:" + parent, parent, F.Class, u.file,
           line, line, F.CONFIDENCE_PARSED)
  }

  function InterfaceFact(u: Unit, kind: F.FactKind, source: Scope, target: string, line: nat): F.Fact {
    F.Fact(kind, u.language, source.symbol, source.display, source.kind, "interface:?:" + target, target, F.Interface,
           u.file, line, line, F.CONFIDENCE_PARSED)
  }

  function CallFact(u: Unit, from: Scope, callee: string, line: nat): F.Fact {
    F.Fact(F.Calls, u.language, from.symbol, from.display, from.kind, "function:?:" + callee, callee, F.Function,
           u.file, line, line, F.CONFIDENCE_PARSED)
  }

  function ModuleScope(u: Unit): Scope {
    Scope("module:" + u.file, u.file, F.Module)
  }

  function Named(u: Unit, prefix: string, name: string, kind: F.SymbolKind): Scope {
    Scope(prefix + ":" + u.file + ":" + name, name, kind)
  }

  function MethodScope(u: Unit, parent: Scope, name: string): Scope {
    if parent.kind == F.Class then Scope(parent.symbol + "#" + name, name, F.Method)
    else Scope("function:" + u.file + ":" + name, name, F.Method)
  }

  // Calls.

  function FirstSegment(callee: string): string {
    if callee == "" || callee[0] == '.' || callee[0] == ':' then "" else [callee[0]] + FirstSegment(callee[1..])
  }
}

/** The reference: a recursion that hands the enclosing scope down. */
module VisitorSpec {
  import opened Basics
  import T = Text
  import F = Facts
  import opened Syntax

  /** The scope a node opens, if it is a declaration with a name. */
  function Declared(u: Unit, n: Node, parent: Scope): Option<Scope> {
    match n.kind
    case ClassDeclaration => Opened(u, "class", n.nameOrDefault, F.Class)
    case AbstractClassDeclaration => Opened(u, "class", n.nameOrDefault, F.Class)
    case InterfaceDeclaration => Opened(u, "interface", n.name, F.Interface)
    case TypeAliasDeclaration => Opened(u, "symbol", n.name, F.Symbol)
    case EnumDeclaration => Opened(u, "class", n.name, F.Class)
    case InternalModule => Opened(u, "module", n.name, F.Module)
    case FunctionDeclaration => Opened(u, "function", n.nameOrDefault, F.Function)
    case GeneratorFunctionDeclaration => Opened(u, "function", n.nameOrDefault, F.Function)
    case MethodDefinition => OpenedMethod(u, n, parent)
    case MethodSignature => OpenedMethod(u, n, parent)
    case AbstractMethodSignature => OpenedMethod(u, n, parent)
    case Pair => if n.functionValue then OpenedMethod(u, n, parent) else None
    case PublicFieldDefinition => if n.functionValue then OpenedMethod(u, n, parent) else None
    case PropertyDefinition => if n.functionValue then OpenedMethod(u, n, parent) else None
    case FieldDefinition => if n.functionValue then OpenedMethod(u, n, parent) else None
    case VariableDeclarator => if n.functionValue then Opened(u, "function", n.name, F.Function) else None
    case _ => None
  }

  function Opened(u: Unit, prefix: string, name: Option<string>, kind: F.SymbolKind): Option<Scope> {
    match name case None => None case Some(s) => Some(Named(u, prefix, s, kind))
  }

  function OpenedMethod(u: Unit, n: Node, parent: Scope): Option<Scope> {
    match n.memberName case None => None case Some(s) => Some(MethodScope(u, parent, s))
  }

  function Heritage(u: Unit, n: Node, scope: Scope): seq<F.Fact> {
    match n.kind
    case ClassDeclaration => ClassHeritage(u, n, scope)
    case AbstractClassDeclaration => ClassHeritage(u, n, scope)
    case InterfaceDeclaration => seq(|n.superTypes|,
                                     i requires 0 <= i < |n.superTypes| => InterfaceFact(u, F.Extends, scope, n.superTypes[i], n.line))
    case _ => []
  }

  function ClassHeritage(u: Unit, n: Node, scope: Scope): seq<F.Fact> {
    seq(|n.superTypes|, i requires 0 <= i < |n.superTypes| => ExtendsFact(u, scope, n.superTypes[i], n.line))
    + seq(|n.interfaces|,
          i requires 0 <= i < |n.interfaces| => InterfaceFact(u, F.Implements, scope, n.interfaces[i], n.line))
  }

  predicate IsCall(u: Unit, callee: string) {
    var first := T.Trim(FirstSegment(callee));
    !u.keyword(first) || ((first == "this" || first == "super") && '.' in callee)
  }

  function Imports(u: Unit, target: Option<string>, line: nat): seq<F.Fact> {
    match target case None => [] case Some(s) => [ImportFact(u, s, line)]
  }

  /** What a node says itself, not counting its children. */
  function OwnFacts(u: Unit, n: Node, parent: Scope): seq<F.Fact> {
    match Declared(u, n, parent)
    case Some(scope) => [DefinesFact(u, parent, scope.symbol, scope.display, scope.kind, n.line)] + Heritage(u, n, scope)
    case None =>
      match n.kind
      case ImportStatement => Imports(u, n.literal, n.line)
      case ExportStatement => Imports(u, n.moduleSource, n.line)
      case VariableDeclarator =>
        if n.functionValue || n.name.None? then []
        else [DefinesFact(u, parent, "symbol:" + u.file + ":" + n.name.value, n.name.value, F.Symbol, n.line)]
      case CallExpression =>
        if n.callee.None? then []
        else if n.callee.value == "require" || n.callee.value == "import" then Imports(u, n.literal, n.line)
        else if IsCall(u, n.callee.value) then [CallFact(u, parent, n.callee.value, n.line)] else []
      case NewExpression =>
        if n.callee.Some? && IsCall(u, n.callee.value) then [CallFact(u, parent, n.callee.value, n.line)] else []
      case JsxOpeningElement => Element(u, n, parent)
      case JsxSelfClosingElement => Element(u, n, parent)
      case _ => []
  }

  function Element(u: Unit, n: Node, parent: Scope): seq<F.Fact> {
    if n.name.Some? && n.name.value != "" && u.uppercase(n.name.value[0]) then [CallFact(u, parent, n.name.value, n.line)]
    else []
  }

  function InnerScope(u: Unit, n: Node, parent: Scope): Scope {
    UnwrapOr(Declared(u, n, parent), parent)
  }

  /** What a node says, and the scope its children are in. */
  datatype Rules = Rules(own: (Node, Scope) -> seq<F.Fact>, inner: (Node, Scope) -> Scope)

  function RulesOf(u: Unit): Rules {
    Rules((n, parent) => OwnFacts(u, n, parent), (n, parent) => InnerScope(u, n, parent))
  }

  function Emitted(r: Rules, n: Node, parent: Scope): seq<F.Fact> {
    r.own(n, parent) + if n.kind == ImportStatement then [] else EmittedAll(r, n.children, r.inner(n, parent))
  }

  function EmittedAll(r: Rules, ns: seq<Node>, parent: Scope): seq<F.Fact> {
    if ns == [] then [] else EmittedAll(r, ns[..|ns| - 1], parent) + Emitted(r, ns[|ns| - 1], parent)
  }

  // Which nodes are visited, as paths of child positions.

  type Path = seq<nat>

  function Preorder(n: Node, path: Path): seq<Path> {
    [path] + if n.kind == ImportStatement then [] else PreorderAll(n.children, path)
  }

  function PreorderAll(ns: seq<Node>, path: Path): seq<Path> {
    if ns == [] then [] else PreorderAll(ns[..|ns| - 1], path) + Preorder(ns[|ns| - 1], path + [|ns| - 1])
  }

  function At(root: Node, p: Path): Option<Node>
    decreases |p|
  {
    if p == [] then Some(root)
    else match At(root, p[..|p| - 1])
      case None => None
      case Some(n) => if p[|p| - 1] < |n.children| then Some(n.children[p[|p| - 1]]) else None
  }

  /** A node of the tree that is not strictly inside an import statement. */
  ghost predicate Outside(root: Node, p: Path) {
    At(root, p).Some? && forall k :: 0 <= k < |p| ==> At(root, p[..k]).Some? && At(root, p[..k]).value.kind != ImportStatement
  }

  /** The innermost declaration around a node. */
  function ScopeAt(r: Rules, root: Node, top: Scope, p: Path): Scope
    requires At(root, p).Some?
    decreases |p|
  {
    if p == [] then top
    else r.inner(At(root, p[..|p| - 1]).value, ScopeAt(r, root, top, p[..|p| - 1]))
  }

  // Every node outside import statements, exactly once.

  lemma {:induction false} PreorderBelow(n: Node, path: Path, p: Path)
    requires p in Preorder(n, path)
    ensures path <= p && (p == path || |p| > |path|)
    decreases n, 1
  {
    if p != path { PreorderAllBelow(n.children, path, p); }
  }

  lemma {:induction false} PreorderAllBelow(ns: seq<Node>, path: Path, p: Path)
    requires p in PreorderAll(ns, path)
    ensures path <= p && |p| > |path| && p[|path|] < |ns|
    decreases ns, 0
  {
    var i := |ns| - 1;
    if p in PreorderAll(ns[..i], path) {
      PreorderAllBelow(ns[..i], path, p);
    } else {
      PreorderBelow(ns[i], path + [i], p);
      assert (path + [i])[|path|] == i;
      assert path == (path + [i])[..|path|];
    }
  }

  lemma {:induction false} PreorderIsDistinct(n: Node, path: Path)
    ensures Distinct(Preorder(n, path))
    decreases n, 1
  {
    PreorderAllIsDistinct(n.children, path);
    if n.kind != ImportStatement {
      forall p | p in PreorderAll(n.children, path) ensures p != path { PreorderAllBelow(n.children, path, p); }
      DistinctConcat([path], PreorderAll(n.children, path));
    }
  }

  lemma {:induction false} PreorderAllIsDistinct(ns: seq<Node>, path: Path)
    ensures Distinct(PreorderAll(ns, path))
    decreases ns, 0
  {
    if ns != [] {
      var i := |ns| - 1;
      PreorderAllIsDistinct(ns[..i], path);
      PreorderIsDistinct(ns[i], path + [i]);
      forall p | p in PreorderAll(ns[..i], path) ensures p !in Preorder(ns[i], path + [i]) {
        PreorderAllBelow(ns[..i], path, p);
        assert (path + [i])[|path|] == i;
        if p in Preorder(ns[i], path + [i]) {
          PreorderBelow(ns[i], path + [i], p);
        }
      }
      DistinctConcat(PreorderAll(ns[..i], path), Preorder(ns[i], path + [i]));
    }
  }

  /** The node is where its path says, and nothing on the way is an import statement. */
  ghost predicate Reached(root: Node, n: Node, path: Path) {
    At(root, path) == Some(n) && Outside(root, path)
  }

  lemma ChildReached(root: Node, n: Node, path: Path, i: nat)
    requires Reached(root, n, path) && n.kind != ImportStatement && i < |n.children|
    ensures Reached(root, n.children[i], path + [i])
  {
    var q := path + [i];
    assert q[..|q| - 1] == path;
    forall k | 0 <= k < |q| ensures At(root, q[..k]).Some? && At(root, q[..k]).value.kind != ImportStatement {
      if k < |path| { assert q[..k] == path[..k]; }
    }
  }

  lemma {:induction false} VisitedIsOutside(root: Node, n: Node, path: Path, p: Path)
    requires Reached(root, n, path) && p in Preorder(n, path)
    ensures Outside(root, p)
    decreases n, |n.children| + 1
  {
    if p != path {
      assert n.children[..|n.children|] == n.children;
      VisitedBelowIsOutside(root, n, path, |n.children|, p);
    }
  }

  lemma {:induction false} VisitedBelowIsOutside(root: Node, n: Node, path: Path, m: nat, p: Path)
    requires Reached(root, n, path) && n.kind != ImportStatement && m <= |n.children|
    requires p in PreorderAll(n.children[..m], path)
    ensures Outside(root, p)
    decreases n, m
  {
    var ns := n.children[..m];
    assert ns[..m - 1] == n.children[..m - 1];
    if p in PreorderAll(ns[..m - 1], path) {
      VisitedBelowIsOutside(root, n, path, m - 1, p);
    } else {
      ChildReached(root, n, path, m - 1);
      VisitedIsOutside(root, n.children[m - 1], path + [m - 1], p);
    }
  }

  lemma {:induction false} ChildIsListed(ns: seq<Node>, path: Path, i: nat, p: Path)
    requires i < |ns| && p in Preorder(ns[i], path + [i])
    ensures p in PreorderAll(ns, path)
    decreases |ns|
  {
    if i < |ns| - 1 { ChildIsListed(ns[..|ns| - 1], path, i, p); }
  }

  lemma {:induction false} OutsideIsVisited(root: Node, p: Path, k: nat)
    requires Outside(root, p) && k <= |p| && At(root, p[..k]).Some?
    ensures p in Preorder(At(root, p[..k]).value, p[..k])
    decreases |p| - k
  {
    if k == |p| {
      assert p[..k] == p;
    } else {
      var n := At(root, p[..k]).value;
      assert p[..k + 1][..k] == p[..k];
      assert p[..k + 1] == p[..k] + [p[k]];
      assert At(root, p[..k + 1]).Some? by { if k + 1 == |p| { assert p[..k + 1] == p; } }
      OutsideIsVisited(root, p, k + 1);
      ChildIsListed(n.children, p[..k], p[k], p);
    }
  }

  /** The visit reaches exactly the nodes outside import statements, each once. */
  lemma VisitsEachNodeOnce(root: Node)
    ensures Distinct(Preorder(root, []))
    ensures forall p :: p in Preorder(root, []) <==> Outside(root, p)
  {
    PreorderIsDistinct(root, []);
    forall p ensures p in Preorder(root, []) <==> Outside(root, p) {
      if p in Preorder(root, []) { VisitedIsOutside(root, root, [], p); }
      if Outside(root, p) {
        assert p[..0] == [];
        OutsideIsVisited(root, p, 0);
      }
    }
  }

  // The facts, node by node.

  function FactsAt(r: Rules, root: Node, top: Scope, p: Path): seq<F.Fact> {
    if At(root, p).Some? then r.own(At(root, p).value, ScopeAt(r, root, top, p)) else []
  }

  function FactsAlong(r: Rules, root: Node, top: Scope, paths: seq<Path>): seq<F.Fact>
    decreases |paths|
  {
    if paths == [] then []
    else FactsAlong(r, root, top, paths[..|paths| - 1]) + FactsAt(r, root, top, paths[|paths| - 1])
  }

  lemma {:induction false} FactsAlongConcat(r: Rules, root: Node, top: Scope, a: seq<Path>, b: seq<Path>)
    ensures FactsAlong(r, root, top, a + b) == FactsAlong(r, root, top, a) + FactsAlong(r, root, top, b)
    decreases |b|
  {
    if b == [] {
      assert a + b == a;
    } else {
      var init, last := b[..|b| - 1], b[|b| - 1];
      FactsAlongConcat(r, root, top, a, init);
      assert (a + b)[..|a + b| - 1] == a + init;
      Regroup(FactsAlong(r, root, top, a), FactsAlong(r, root, top, init), FactsAt(r, root, top, last));
    }
  }

  lemma Regroup<X>(a: seq<X>, b: seq<X>, c: seq<X>)
    ensures (a + b) + c == a + (b + c)
  {
  }

  lemma ScopeAtChild(r: Rules, root: Node, top: Scope, n: Node, path: Path, i: nat)
    requires At(root, path) == Some(n) && i < |n.children|
    ensures At(root, path + [i]) == Some(n.children[i])
    ensures ScopeAt(r, root, top, path + [i]) == r.inner(n, ScopeAt(r, root, top, path))
  {
    assert (path + [i])[..|path|] == path;
  }

  /** The facts and paths of the first `m` children, from those of the first `m - 1`. */
  lemma ChildrenStep(r: Rules, ns: seq<Node>, parent: Scope, path: Path, m: nat)
    requires 0 < m <= |ns|
    ensures EmittedAll(r, ns[..m], parent) == EmittedAll(r, ns[..m - 1], parent) + Emitted(r, ns[m - 1], parent)
    ensures PreorderAll(ns[..m], path) == PreorderAll(ns[..m - 1], path) + Preorder(ns[m - 1], path + [m - 1])
  {
    assert ns[..m][..m - 1] == ns[..m - 1];
  }

  lemma {:induction false} EmittedAlong(r: Rules, root: Node, top: Scope, n: Node, path: Path)
    requires At(root, path) == Some(n)
    ensures FactsAlong(r, root, top, Preorder(n, path)) == Emitted(r, n, ScopeAt(r, root, top, path))
    decreases n, |n.children| + 1
  {
    assert [path][..0] == [];
    assert FactsAlong(r, root, top, [path]) == r.own(n, ScopeAt(r, root, top, path));
    if n.kind != ImportStatement {
      assert n.children[..|n.children|] == n.children;
      EmittedAllAlong(r, root, top, n, path, |n.children|);
      FactsAlongConcat(r, root, top, [path], PreorderAll(n.children, path));
    }
  }

  lemma {:induction false} EmittedAllAlong(r: Rules, root: Node, top: Scope, n: Node, path: Path, m: nat)
    requires At(root, path) == Some(n) && m <= |n.children|
    ensures FactsAlong(r, root, top, PreorderAll(n.children[..m], path)) ==
            EmittedAll(r, n.children[..m], r.inner(n, ScopeAt(r, root, top, path)))
    decreases n, m
  {
    var inner := r.inner(n, ScopeAt(r, root, top, path));
    if m == 0 {
      assert n.children[..m] == [];
    } else {
      var q := path + [m - 1];
      EmittedAllAlong(r, root, top, n, path, m - 1);
      ScopeAtChild(r, root, top, n, path, m - 1);
      EmittedAlong(r, root, top, n.children[m - 1], q);
      ChildrenStep(r, n.children, inner, path, m);
      AlongStep(r, root, top, PreorderAll(n.children[..m - 1], path), Preorder(n.children[m - 1], q),
                EmittedAll(r, n.children[..m - 1], inner), Emitted(r, n.children[m - 1], inner));
    }
  }

  lemma AlongStep(r: Rules, root: Node, top: Scope, a: seq<Path>, b: seq<Path>, factsA: seq<F.Fact>,
                  factsB: seq<F.Fact>)
    requires FactsAlong(r, root, top, a) == factsA && FactsAlong(r, root, top, b) == factsB
    ensures FactsAlong(r, root, top, a + b) == factsA + factsB
  {
    FactsAlongConcat(r, root, top, a, b);
  }

  /** The facts are those of the visited nodes in order, each told from its innermost enclosing declaration. */
  lemma EmittedByNode(r: Rules, root: Node, top: Scope)
    ensures Emitted(r, root, top) == FactsAlong(r, root, top, Preorder(root, []))
  {
    EmittedAlong(r, root, top, root, []);
  }
}

/** The visitor itself: one stack of scopes, pushed and popped around the children of a declaration. */
module Visitor {
  import opened Basics
  import T = Text
  import F = Facts
  import opened Syntax
  import opened VisitorSpec

  /** What visiting a node did before its children, or together with them when it entered a scope. */
  ghost predicate Visited(u: Unit, n: Node, parent: Scope, path: Path, entered: bool, f0: seq<F.Fact>, f1: seq<F.Fact>,
                          t0: seq<Path>, t1: seq<Path>) {
    && entered == Declared(u, n, parent).Some?
    && (entered ==>
          f1 == f0 + OwnFacts(u, n, parent) + EmittedAll(RulesOf(u), n.children, InnerScope(u, n, parent)) && t1 == t0 + PreorderAll(n.children, path))
    && (!entered ==> f1 == f0 + OwnFacts(u, n, parent) && t1 == t0)
  }

  lemma EmittedByImport(u: Unit, n: Node, parent: Scope, path: Path)
    requires n.kind == ImportStatement
    ensures Emitted(RulesOf(u), n, parent) == Imports(u, n.literal, n.line) && Preorder(n, path) == [path]
  {
  }

  lemma VisitedIsEmitted(u: Unit, n: Node, parent: Scope, path: Path, entered: bool, f0: seq<F.Fact>, f1: seq<F.Fact>,
                         f2: seq<F.Fact>,
                         t0: seq<Path>, t1: seq<Path>, t2: seq<Path>)
    requires n.kind != ImportStatement && Visited(u, n, parent, path, entered, f0, f1, t0 + [path], t1)
    requires if entered then f2 == f1 && t2 == t1 else f2 == f1 + EmittedAll(RulesOf(u), n.children, parent) && t2 == t1 + PreorderAll(n.children, path)
    ensures f2 == f0 + Emitted(RulesOf(u), n, parent) && t2 == t0 + Preorder(n, path)
  {
    Regroup(f0, OwnFacts(u, n, parent), EmittedAll(RulesOf(u), n.children, InnerScope(u, n, parent)));
    Regroup(t0, [path], PreorderAll(n.children, path));
  }

  /** Defining a scope and descending into it is all there is to a declaration without heritage. */
  lemma DefinedIsVisited(u: Unit, n: Node, parent: Scope, scope: Scope, path: Path, f0: seq<F.Fact>, f1: seq<F.Fact>,
                         t0: seq<Path>, t1: seq<Path>)
    requires Declared(u, n, parent) == Some(scope) && !n.kind.ClassDeclaration? && !n.kind.AbstractClassDeclaration?
    requires !n.kind.InterfaceDeclaration?
    requires f1 ==
             f0 + [DefinesFact(u, parent, scope.symbol, scope.display, scope.kind, n.line)] + EmittedAll(RulesOf(u), n.children, scope)
    requires t1 == t0 + PreorderAll(n.children, path)
    ensures Visited(u, n, parent, path, true, f0, f1, t0, t1)
  {
    assert OwnFacts(u, n, parent) == [DefinesFact(u, parent, scope.symbol, scope.display, scope.kind, n.line)];
  }

  lemma ClassIsVisited(u: Unit, n: Node, parent: Scope, scope: Scope, path: Path, f0: seq<F.Fact>, f1: seq<F.Fact>,
                       t0: seq<Path>, t1: seq<Path>)
    requires (n.kind == ClassDeclaration || n.kind == AbstractClassDeclaration) && Declared(u, n, parent) == Some(scope)
    requires f1 == f0 + [DefinesFact(u, parent, scope.symbol, scope.display, scope.kind, n.line)]
                   + ClassHeritage(u, n, scope) + EmittedAll(RulesOf(u), n.children, scope)
    requires t1 == t0 + PreorderAll(n.children, path)
    ensures Visited(u, n, parent, path, true, f0, f1, t0, t1)
  {
    Regroup(f0, [DefinesFact(u, parent, scope.symbol, scope.display, scope.kind, n.line)], ClassHeritage(u, n, scope));
  }

  lemma UnnamedIsVisited(u: Unit, n: Node, parent: Scope, path: Path, f: seq<F.Fact>, t: seq<Path>)
    requires Declared(u, n, parent).None? && OwnFacts(u, n, parent) == []
    ensures Visited(u, n, parent, path, false, f, f, t, t)
  {
  }

  lemma ChildEmitted(r: Rules, ns: seq<Node>, i: nat, parent: Scope, f0: seq<F.Fact>, f1: seq<F.Fact>, f2: seq<F.Fact>)
    requires i < |ns| && f1 == f0 + EmittedAll(r, ns[..i], parent) && f2 == f1 + Emitted(r, ns[i], parent)
    ensures f2 == f0 + EmittedAll(r, ns[..i + 1], parent)
  {
    assert ns[..i + 1][..i] == ns[..i];
    Regroup(f0, EmittedAll(r, ns[..i], parent), Emitted(r, ns[i], parent));
  }

  lemma ChildListed(ns: seq<Node>, i: nat, path: Path, t0: seq<Path>, t1: seq<Path>, t2: seq<Path>)
    requires i < |ns| && t1 == t0 + PreorderAll(ns[..i], path) && t2 == t1 + Preorder(ns[i], path + [i])
    ensures t2 == t0 + PreorderAll(ns[..i + 1], path)
  {
    assert ns[..i + 1][..i] == ns[..i];
    Regroup(t0, PreorderAll(ns[..i], path), Preorder(ns[i], path + [i]));
  }

  class TsVisitor {
    const unit: Unit
    var facts: seq<F.Fact>
    var scopes: seq<Scope>
    /** The nodes visited so far. */
    ghost var trail: seq<Path>

    constructor (u: Unit)
      ensures unit == u && facts == [] && scopes == [] && trail == []
    {
      unit, facts, scopes, trail := u, [], [], [];
    }

    function Current(): Scope
      reads this
    {
      if scopes == [] then ModuleScope(unit) else scopes[|scopes| - 1]
    }

    method VisitTsNode(n: Node, ghost path: Path)
      modifies this
      ensures scopes == old(scopes)
      ensures facts == old(facts) + Emitted(RulesOf(unit), n, old(Current()))
      ensures trail == old(trail) + Preorder(n, path)
      decreases n, 4
    {
      trail := trail + [path];
      if n.kind == ImportStatement {
        PushImport(n.literal, n.line);
        EmittedByImport(unit, n, old(Current()), path);
        return;
      }
      ghost var f0, t0 := facts, trail;
      var entered := VisitHere(n, path);
      ghost var f1, t1 := facts, trail;
      if !entered {
        VisitNamedChildren(n, path);
      }
      VisitedIsEmitted(unit, n, old(Current()), path, entered, f0, f1, facts, old(trail), t1, trail);
    }

    method VisitHere(n: Node, ghost path: Path) returns (entered: bool)
      requires n.kind != ImportStatement
      modifies this
      ensures scopes == old(scopes)
      ensures Visited(unit, n, old(Current()), path, entered, old(facts), facts, old(trail), trail)
      decreases n, 3
    {
      if n.kind == ClassDeclaration || n.kind == AbstractClassDeclaration {
        entered := VisitClass(n, path);
      } else if n.kind == InterfaceDeclaration {
        entered := VisitInterface(n, path);
      } else if n.kind == TypeAliasDeclaration || n.kind == EnumDeclaration || n.kind == InternalModule {
        entered := VisitNamed(n, path);
      } else if n.kind == FunctionDeclaration || n.kind == GeneratorFunctionDeclaration {
        entered := VisitFunction(n, path);
      } else if n.kind in {MethodDefinition, MethodSignature, AbstractMethodSignature, Pair, PublicFieldDefinition, PropertyDefinition, FieldDefinition} {
        entered := VisitMember(n, path);
      } else if n.kind == VariableDeclarator {
        entered := VisitVariable(n, path);
      } else {
        VisitUse(n);
        entered := false;
      }
    }

    method VisitNamedChildren(n: Node, ghost path: Path)
      modifies this
      ensures scopes == old(scopes)
      ensures facts == old(facts) + EmittedAll(RulesOf(unit), n.children, old(Current()))
      ensures trail == old(trail) + PreorderAll(n.children, path)
      decreases n, 0
    {
      ghost var parent, f0, t0 := Current(), facts, trail;
      for i := 0 to |n.children|
        invariant scopes == old(scopes)
        invariant facts == f0 + EmittedAll(RulesOf(unit), n.children[..i], parent)
        invariant trail == t0 + PreorderAll(n.children[..i], path)
      {
        ghost var f, t := facts, trail;
        VisitTsNode(n.children[i], path + [i]);
        ChildEmitted(RulesOf(unit), n.children, i, parent, f0, f, facts);
        ChildListed(n.children, i, path, t0, t, trail);
      }
      assert n.children[..|n.children|] == n.children;
    }

    /** Push, visit the children, pop. */
    method DescendInto(n: Node, scope: Scope, ghost path: Path)
      modifies this
      ensures scopes == old(scopes)
      ensures facts == old(facts) + EmittedAll(RulesOf(unit), n.children, scope)
      ensures trail == old(trail) + PreorderAll(n.children, path)
      decreases n, 1
    {
      scopes := scopes + [scope];
      VisitNamedChildren(n, path);
      scopes := scopes[..|scopes| - 1];
    }

    method PushImport(target: Option<string>, line: nat)
      modifies this`facts
      ensures facts == old(facts) + Imports(unit, target, line)
    {
      if target.Some? {
        facts := facts + [ImportFact(unit, target.value, line)];
      }
    }

    method VisitClass(n: Node, ghost path: Path) returns (entered: bool)
      requires n.kind == ClassDeclaration || n.kind == AbstractClassDeclaration
      modifies this
      ensures scopes == old(scopes)
      ensures Visited(unit, n, old(Current()), path, entered, old(facts), facts, old(trail), trail)
      decreases n, 2
    {
      if n.nameOrDefault.None? {
        UnnamedIsVisited(unit, n, Current(), path, facts, trail);
        return false;
      }
      var scope := Named(unit, "class", n.nameOrDefault.value, F.Class);
      facts := facts + [DefinesFact(unit, Current(), scope.symbol, scope.display, F.Class, n.line)];
      PushClassHeritage(n, scope);
      DescendInto(n, scope, path);
      ClassIsVisited(unit, n, old(Current()), scope, path, old(facts), facts, old(trail), trail);
      return true;
    }

    method PushClassHeritage(n: Node, scope: Scope)
      modifies this`facts
      ensures facts == old(facts) + ClassHeritage(unit, n, scope)
    {
      for i := 0 to |n.superTypes|
        invariant facts == old(facts) + seq(i,
                                            k requires 0 <= k < i => ExtendsFact(unit, scope, n.superTypes[k], n.line))
      {
        facts := facts + [ExtendsFact(unit, scope, n.superTypes[i], n.line)];
      }
      ghost var f1 := facts;
      for i := 0 to |n.interfaces|
        invariant facts == f1 + seq(i,
                                    k requires 0 <= k < i => InterfaceFact(unit, F.Implements, scope, n.interfaces[k], n.line))
      {
        facts := facts + [InterfaceFact(unit, F.Implements, scope, n.interfaces[i], n.line)];
      }
    }

    method VisitInterface(n: Node, ghost path: Path) returns (entered: bool)
      requires n.kind == InterfaceDeclaration
      modifies this
      ensures scopes == old(scopes)
      ensures Visited(unit, n, old(Current()), path, entered, old(facts), facts, old(trail), trail)
      decreases n, 2
    {
      if n.name.None? {
        UnnamedIsVisited(unit, n, Current(), path, facts, trail);
        return false;
      }
      var scope := Named(unit, "interface", n.name.value, F.Interface);
      facts := facts + [DefinesFact(unit, Current(), scope.symbol, scope.display, F.Interface, n.line)];
      ghost var f0 := facts;
      for i := 0 to |n.superTypes|
        invariant scopes == old(scopes) && trail == old(trail)
        invariant facts == f0 + seq(i,
                                    k requires 0 <= k < i => InterfaceFact(unit, F.Extends, scope, n.superTypes[k], n.line))
      {
        facts := facts + [InterfaceFact(unit, F.Extends, scope, n.superTypes[i], n.line)];
      }
      assert facts == old(facts) + OwnFacts(unit, n, old(Current()));
      DescendInto(n, scope, path);
      return true;
    }

    /** Define the scope in the current one and descend into it. */
    method Define(n: Node, scope: Scope, ghost path: Path)
      modifies this
      ensures scopes == old(scopes)
      ensures facts == old(facts) + [DefinesFact(unit, old(Current()), scope.symbol, scope.display, scope.kind, n.line)]
                       + EmittedAll(RulesOf(unit), n.children, scope)
      ensures trail == old(trail) + PreorderAll(n.children, path)
      decreases n, 2, 0
    {
      facts := facts + [DefinesFact(unit, Current(), scope.symbol, scope.display, scope.kind, n.line)];
      DescendInto(n, scope, path);
    }

    method VisitNamed(n: Node, ghost path: Path) returns (entered: bool)
      requires n.kind == TypeAliasDeclaration || n.kind == EnumDeclaration || n.kind == InternalModule
      modifies this
      ensures scopes == old(scopes)
      ensures Visited(unit, n, old(Current()), path, entered, old(facts), facts, old(trail), trail)
      decreases n, 2
    {
      if n.name.None? {
        UnnamedIsVisited(unit, n, Current(), path, facts, trail);
        return false;
      }
      var scope := if n.kind == InternalModule then Named(unit, "module", n.name.value, F.Module)
                   else if n.kind == EnumDeclaration then Named(unit, "class", n.name.value, F.Class)
                   else Named(unit, "symbol", n.name.value, F.Symbol);
      Define(n, scope, path);
      DefinedIsVisited(unit, n, old(Current()), scope, path, old(facts), facts, old(trail), trail);
      return true;
    }

    method VisitFunction(n: Node, ghost path: Path) returns (entered: bool)
      requires n.kind == FunctionDeclaration || n.kind == GeneratorFunctionDeclaration
      modifies this
      ensures scopes == old(scopes)
      ensures Visited(unit, n, old(Current()), path, entered, old(facts), facts, old(trail), trail)
      decreases n, 2
    {
      if n.nameOrDefault.None? {
        UnnamedIsVisited(unit, n, Current(), path, facts, trail);
        return false;
      }
      var scope := Named(unit, "function", n.nameOrDefault.value, F.Function);
      Define(n, scope, path);
      DefinedIsVisited(unit, n, old(Current()), scope, path, old(facts), facts, old(trail), trail);
      return true;
    }

    /** Methods always, pairs and fields only when their value is a function. */
    method VisitMember(n: Node, ghost path: Path) returns (entered: bool)
      requires n.kind in {MethodDefinition, MethodSignature, AbstractMethodSignature, Pair, PublicFieldDefinition, PropertyDefinition, FieldDefinition}
      modifies this
      ensures scopes == old(scopes)
      ensures Visited(unit, n, old(Current()), path, entered, old(facts), facts, old(trail), trail)
      decreases n, 2
    {
      var isMethod := n.kind == MethodDefinition || n.kind == MethodSignature || n.kind == AbstractMethodSignature;
      if (isMethod || n.functionValue) && n.memberName.Some? {
        var scope := MethodScope(unit, Current(), n.memberName.value);
        Define(n, scope, path);
        DefinedIsVisited(unit, n, old(Current()), scope, path, old(facts), facts, old(trail), trail);
        return true;
      }
      return false;
    }

    method VisitVariable(n: Node, ghost path: Path) returns (entered: bool)
      requires n.kind == VariableDeclarator
      modifies this
      ensures scopes == old(scopes)
      ensures Visited(unit, n, old(Current()), path, entered, old(facts), facts, old(trail), trail)
      decreases n, 2
    {
      if n.name.None? {
        UnnamedIsVisited(unit, n, Current(), path, facts, trail);
        return false;
      }
      if n.functionValue {
        var scope := Named(unit, "function", n.name.value, F.Function);
        Define(n, scope, path);
        DefinedIsVisited(unit, n, old(Current()), scope, path, old(facts), facts, old(trail), trail);
        return true;
      }
      facts := facts + [DefinesFact(unit, Current(), "symbol:" + unit.file + ":" + n.name.value, n.name.value, F.Symbol,
                                    n.line)];
      return false;
    }

    /** Re-exports, calls and elements. */
    method VisitUse(n: Node)
      requires n.kind in {ExportStatement, CallExpression, NewExpression, JsxOpeningElement, JsxSelfClosingElement, OtherKind}
      modifies this`facts
      ensures facts == old(facts) + OwnFacts(unit, n, old(Current()))
    {
      if n.kind == ExportStatement {
        PushImport(n.moduleSource, n.line);
      } else if n.kind == CallExpression || n.kind == NewExpression {
        if n.callee.Some? {
          if n.kind == CallExpression && (n.callee.value == "require" || n.callee.value == "import") {
            PushImport(n.literal, n.line);
          } else {
            PushCall(n.callee.value, n.line);
          }
        }
      } else if n.kind != OtherKind {
        if n.name.Some? && n.name.value != "" && unit.uppercase(n.name.value[0]) {
          facts := facts + [CallFact(unit, Current(), n.name.value, n.line)];
        }
      }
    }

    method PushCall(callee: string, line: nat)
      modifies this`facts
      ensures facts == old(facts) + if IsCall(unit, callee) then [CallFact(unit, old(Current()), callee, line)] else []
    {
      var first := T.Trim(FirstSegment(callee));
      if !unit.keyword(first) || ((first == "this" || first == "super") && '.' in callee) {
        facts := facts + [CallFact(unit, Current(), callee, line)];
      }
    }
  }
}
