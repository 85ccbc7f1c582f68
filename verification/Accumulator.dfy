/**
 * The graph accumulator as a value: what adding a vertex, an edge, an AST batch or a SCIP batch
 * does to the first-write-wins maps.  The mutable object is in GraphBuilder.
 */
module Accumulator {
  import opened Basics
  import opened GraphTypes
  import opened GraphModel
  import F = Facts

  datatype Anchor = Anchor(
    kind: string, direction: string, key: string, normalizedKey: string, nodeVid: string,
    evidenceFilePath: Option<string>, startLine: Option<int>, endLine: Option<int>,
    confidence: real, confidenceTier: string, source: string)

  datatype Graph = Graph(vertices: map<string, Vertex>, edges: map<string, Edge>, anchors: map<string, Anchor>)

  const EMPTY := Graph(map[], map[], map[])

  /** SHA-256 as used for vids, and its first 32 bits as used for edge ranks; both uninterpreted. */
  datatype Hashes = Hashes(sha: Digest, rank: string -> nat)

  datatype EdgeOptions = EdgeOptions(
    confidence: Option<real>, confidenceTier: Option<string>, evidenceFilePath: Option<string>,
    startLine: Option<int>, endLine: Option<int>,
    provenance: Option<string>, context: Option<string>, normalizedKey: Option<string>)

  const NO_OPTIONS := EdgeOptions(None, None, None, None, None, None, None, None)

  const SCIP := "scip"
  const HEURISTIC := "heuristic"
  const SCIP_CONFIDENCE := 0.95
  const EXTRACTED := "EXTRACTED"
  const INFERRED := "INFERRED"

  // Property bags.

  /** The columns that tie a row to its tenant and snapshot. */
  function Stamps(s: CodeGraphScope): Properties {
    map["orgId" := Int(s.orgId), "workspaceId" := Text(s.workspaceId), "repoId" := Int(s.repoId),
        "revision" := Text(s.revision), "commitHash" := Text(s.commitHash),
        "schemaVersion" := Int(SchemaVersionOf(s)), "builderVersion" := Text(BuilderVersionOf(s))]
  }

  ghost predicate Stamped(bag: Properties, s: CodeGraphScope) {
    forall name :: name in Stamps(s) ==> name in bag && bag[name] == Stamps(s)[name]
  }

  function TextOrNull(o: Option<string>): Primitive {
    match o case None => Null case Some(s) => Text(s)
  }

  function IntOrNull(o: Option<int>): Primitive {
    match o case None => Null case Some(n) => Int(n)
  }

  function Real(r: real): Primitive {
    Dbl(Finite(r))
  }

  function DefaultContext(kind: string): Option<string> {
    match kind
    case "CALLS" => Some("call")
    case "DEFINES" => Some("definition")
    case "REFERENCES" => Some("reference")
    case "IMPORTS_FROM" => Some("import")
    case "EXTENDS" => Some("inherits")
    case "IMPLEMENTS" => Some("inherits")
    case "TYPE_DEFINES" => Some("type")
    case "CONTAINS" => Some("containment")
    case _ => None
  }

  /** The edge columns besides the stamps. */
  function EdgeColumns(kind: string, source: string, o: EdgeOptions): Properties {
    map["kind" := Text(kind),
        "confidence" := Real(UnwrapOr(o.confidence, 1.0)),
        "confidenceTier" := Text(UnwrapOr(o.confidenceTier, EXTRACTED)),
        "evidenceFilePath" := TextOrNull(o.evidenceFilePath),
        "startLine" := IntOrNull(o.startLine),
        "endLine" := IntOrNull(o.endLine),
        "source" := Text(source),
        "provenance" := Text(UnwrapOr(o.provenance, HEURISTIC)),
        "context" := TextOrNull(if o.context.Some? then o.context else DefaultContext(kind))]
    + (if o.normalizedKey.Some? then map["normalizedKey" := Text(o.normalizedKey.value)] else map[])
  }

  function EdgeBag(s: CodeGraphScope, kind: string, source: string, o: EdgeOptions): Properties {
    EdgeColumns(kind, source, o) + Stamps(s)
  }

  /** The caller's properties come last and win. */
  function VertexBag(s: CodeGraphScope, kind: string, properties: Properties): Properties {
    map["kind" := Text(kind), "provenance" := Text(HEURISTIC)] + Stamps(s) + properties
  }

  // Adding one vertex or edge.

  function VidOf(h: Hashes, s: CodeGraphScope, kind: string, key: string): string {
    Vid(h.sha, Identity(s, kind, key))
  }

  function AddVertex(h: Hashes, g: Graph, s: CodeGraphScope, kind: string, key: string, properties: Properties): Graph {
    var vid := VidOf(h, s, kind, key);
    if vid in g.vertices then g
    else g.(vertices := g.vertices[vid := Vertex(vid, kind, VertexBag(s, kind, properties))])
  }

  function RankOf(h: Hashes, fromVid: string, toVid: string, kind: string, source: string): nat {
    h.rank(fromVid + "->" + toVid + ":" + kind + ":" + source)
  }

  function KeyFor(h: Hashes, fromVid: string, toVid: string, kind: string, source: string): string {
    EdgeKey(fromVid, toVid, kind, RankOf(h, fromVid, toVid, kind, source))
  }

  function NewEdge(h: Hashes, s: CodeGraphScope, fromVid: string, toVid: string, kind: string, source: string,
                   o: EdgeOptions): Edge {
    Edge(fromVid, toVid, kind, RankOf(h, fromVid, toVid, kind, source), EdgeBag(s, kind, source, o))
  }

  function AddEdge(h: Hashes, g: Graph, s: CodeGraphScope, fromVid: string, toVid: string, kind: string, source: string,
                   o: EdgeOptions): Graph {
    var key := KeyFor(h, fromVid, toVid, kind, source);
    if key in g.edges then g
    else g.(edges := g.edges[key := NewEdge(h, s, fromVid, toVid, kind, source, o)])
  }

  function FileVid(h: Hashes, s: CodeGraphScope, path: string): string {
    VidOf(h, s, "file", "file:" + path)
  }

  function FileProperties(path: string): Properties {
    map["key" := Text(path), "label" := Text(path), "path" := Text(path), "source" := Text(SCIP)]
  }

  function AddFileVertex(h: Hashes, g: Graph, s: CodeGraphScope, repoVid: string, path: string): Graph {
    var withFile := AddVertex(h, g, s, "file", "file:" + path, FileProperties(path));
    AddEdge(h, withFile, s, repoVid, FileVid(h, s, path), "CONTAINS", SCIP, NO_OPTIONS)
  }

  // AST facts.

  function SourceVertexKind(k: F.SymbolKind): string {
    match k case Class => "class" case Method => "method" case _ => "function"
  }

  function TargetVertexKind(k: F.SymbolKind): string {
    match k
    case External => "package"
    case Interface => "class"
    case Module => "file"
    case Function => "function"
    case Method => "method"
    case Class => "class"
    case Symbol => "symbol"
  }

  function EdgeKindOf(k: F.FactKind): string {
    match k
    case Defines => "DEFINES"
    case Calls => "CALLS"
    case ImportsFrom => "IMPORTS_FROM"
    case Extends => "EXTENDS"
    case Implements => "IMPLEMENTS"
  }

  function TierOf(facts: seq<F.Fact>): string {
    if facts != [] && facts[0].confidence >= 0.8 then EXTRACTED else INFERRED
  }

  function AstSource(language: string): string {
    "ast-" + language
  }

  function CommonProperties(key: string, shown: string, language: string, tier: string, fact: F.Fact): Properties {
    map["key" := Text(key), "label" := Text(shown), "language" := Text(language),
        "source" := Text(AstSource(language)), "confidence" := Real(fact.confidence),
        "confidenceTier" := Text(tier), "evidenceFilePath" := Text(fact.filePath)]
  }

  function WithPath(properties: Properties, path: string): Properties {
    properties + map["path" := Text(path)]
  }

  function SourceVid(h: Hashes, s: CodeGraphScope, fact: F.Fact): string {
    if fact.sourceKind == F.Module then FileVid(h, s, fact.filePath)
    else VidOf(h, s, SourceVertexKind(fact.sourceKind), "ast:" + fact.sourceSymbol)
  }

  function AddSource(h: Hashes, g: Graph, s: CodeGraphScope, language: string, tier: string, fact: F.Fact): Graph {
    if fact.sourceKind == F.Module then g
    else AddVertex(h, g, s, SourceVertexKind(fact.sourceKind), "ast:" + fact.sourceSymbol,
                   WithPath(CommonProperties(fact.sourceSymbol, fact.sourceDisplay, language, tier, fact),
                            fact.filePath))
  }

  function TargetVid(h: Hashes, s: CodeGraphScope, fact: F.Fact): string {
    VidOf(h, s, TargetVertexKind(fact.targetKind), "ast:" + fact.targetSymbol)
  }

  function TargetProperties(language: string, tier: string, fact: F.Fact): Properties {
    var common := CommonProperties(fact.targetSymbol, fact.targetDisplay, language, tier, fact);
    if fact.targetKind == F.External then common else WithPath(common, fact.filePath)
  }

  function AddTarget(h: Hashes, g: Graph, s: CodeGraphScope, language: string, tier: string, fact: F.Fact): Graph {
    AddVertex(h, g, s, TargetVertexKind(fact.targetKind), "ast:" + fact.targetSymbol,
              TargetProperties(language, tier, fact))
  }

  function FactOptions(tier: string, fact: F.Fact): EdgeOptions {
    EdgeOptions(Some(fact.confidence), Some(tier), Some(fact.filePath), Some(fact.startLine), Some(fact.endLine),
                Some(HEURISTIC), None, None)
  }

  /** One fact, its file vertex first. */
  function AddAstFact(h: Hashes, g: Graph, s: CodeGraphScope, repoVid: string, language: string, tier: string,
                      fact: F.Fact): Graph {
    var withFile := AddFileVertex(h, g, s, repoVid, fact.filePath);
    var withTarget := AddTarget(h, AddSource(h, withFile, s, language, tier, fact), s, language, tier, fact);
    AddEdge(h, withTarget, s, SourceVid(h, s, fact), TargetVid(h, s, fact), EdgeKindOf(fact.kind), AstSource(language),
            FactOptions(tier, fact))
  }

  function AddAstFacts(h: Hashes, g: Graph, s: CodeGraphScope, repoVid: string, language: string, tier: string,
                       facts: seq<F.Fact>): Graph {
    if facts == [] then g
    else AddAstFact(h, AddAstFacts(h, g, s, repoVid, language, tier, facts[..|facts| - 1]), s, repoVid, language, tier,
                    facts[|facts| - 1])
  }

  // SCIP rows.

  datatype ScipSymbol = ScipSymbol(
    symbol: string, displayName: string, kind: Option<string>, language: Option<string>,
    filePath: Option<string>, startLine: Option<int>, endLine: Option<int>)

  datatype Relationship = Relationship(
    sourceSymbol: string, targetSymbol: string,
    isReference: bool, isImplementation: bool, isTypeDefinition: bool, isDefinition: bool)

  datatype ScipRows = ScipRows(symbols: seq<ScipSymbol>, relationships: seq<Relationship>)

  function ScipKind(kind: Option<string>): string {
    match kind
    case None => "symbol"
    case Some(k) =>
      var lower := LowerAll(k);
      if lower in ["class", "struct", "union", "interface", "protocol", "trait"] then "class"
      else if lower in ["method", "constructor", "destructor"] then "method"
      else if lower in ["function", "staticmethod"] then "function"
      else if lower in ["module", "namespace", "package"] then "file"
      else if lower in ["field", "property", "variable", "staticfield"] then "symbol"
      else if lower in ["type", "typealias", "typeparameter", "enum", "enummember"] then "class"
      else "symbol"
  }

  function ScipSource(language: string): string {
    "scip-" + language
  }

  function Opt(name: string, o: Option<Primitive>): Properties {
    match o case None => map[] case Some(p) => map[name := p]
  }

  function MapText(o: Option<string>): Option<Primitive> {
    match o case None => None case Some(s) => Some(Text(s))
  }

  function MapInt(o: Option<int>): Option<Primitive> {
    match o case None => None case Some(n) => Some(Int(n))
  }

  function ScipCommon(key: string, shown: string, language: string, source: string): Properties {
    map["key" := Text(key), "label" := Text(shown), "language" := Text(language), "source" := Text(source),
        "provenance" := Text(SCIP), "confidence" := Real(SCIP_CONFIDENCE), "confidenceTier" := Text(EXTRACTED)]
  }

  function SymbolProperties(language: string, sym: ScipSymbol): Properties {
    ScipCommon(sym.symbol, sym.displayName, UnwrapOr(sym.language, language), ScipSource(language))
    + Opt("path", MapText(sym.filePath)) + Opt("evidenceFilePath", MapText(sym.filePath))
    + Opt("startLine", MapInt(sym.startLine)) + Opt("endLine", MapInt(sym.endLine))
  }

  function SymbolVid(h: Hashes, s: CodeGraphScope, sym: ScipSymbol): string {
    VidOf(h, s, ScipKind(sym.kind), "scip:" + sym.symbol)
  }

  function ScipOptions(evidence: Option<string>): EdgeOptions {
    NO_OPTIONS.(confidence := Some(SCIP_CONFIDENCE), confidenceTier := Some(EXTRACTED), evidenceFilePath := evidence,
                provenance := Some(SCIP))
  }

  function AddScipFile(h: Hashes, g: Graph, s: CodeGraphScope, repoVid: string, sym: ScipSymbol): Graph {
    match sym.filePath
    case None => g
    case Some(path) => AddFileVertex(h, g, s, repoVid, path)
  }

  /** The file vertex of each symbol that has a path. */
  function AddScipFiles(h: Hashes, g: Graph, s: CodeGraphScope, repoVid: string, symbols: seq<ScipSymbol>): Graph {
    if symbols == [] then g
    else AddScipFile(h, AddScipFiles(h, g, s, repoVid, symbols[..|symbols| - 1]), s, repoVid, symbols[|symbols| - 1])
  }

  function AddScipSymbol(h: Hashes, g: Graph, s: CodeGraphScope, language: string, sym: ScipSymbol): Graph {
    var withSymbol := AddVertex(h, g, s, ScipKind(sym.kind), "scip:" + sym.symbol, SymbolProperties(language, sym));
    match sym.filePath
    case None => withSymbol
    case Some(path) => AddEdge(h, withSymbol, s, FileVid(h, s, path), SymbolVid(h, s, sym), "CONTAINS",
                               ScipSource(language), ScipOptions(Some(path)))
  }

  function AddScipSymbols(h: Hashes, g: Graph, s: CodeGraphScope, language: string, symbols: seq<ScipSymbol>): Graph {
    if symbols == [] then g
    else AddScipSymbol(h, AddScipSymbols(h, g, s, language, symbols[..|symbols| - 1]), s, language,
                       symbols[|symbols| - 1])
  }

  /** The symbol table: the last row of a symbol wins. */
  function SymbolIndex(symbols: seq<ScipSymbol>): map<string, ScipSymbol> {
    if symbols == [] then map[]
    else SymbolIndex(symbols[..|symbols| - 1])[symbols[|symbols| - 1].symbol := symbols[|symbols| - 1]]
  }

  function RelatedVid(h: Hashes, s: CodeGraphScope, index: map<string, ScipSymbol>, symbol: string): string {
    if symbol in index then SymbolVid(h, s, index[symbol]) else VidOf(h, s, "symbol", "scip:" + symbol)
  }

  /** A symbol known to the table has its vertex already; any other gets a bare one. */
  function EnsureSymbol(h: Hashes, g: Graph, s: CodeGraphScope, language: string, index: map<string, ScipSymbol>,
                        symbol: string): Graph {
    if symbol in index then g
    else AddVertex(h, g, s, "symbol", "scip:" + symbol, ScipCommon(symbol, symbol, language, ScipSource(language)))
  }

  function EdgeIf(h: Hashes, g: Graph, s: CodeGraphScope, enabled: bool, fromVid: string, toVid: string, kind: string,
                  source: string, o: EdgeOptions): Graph {
    if enabled then AddEdge(h, g, s, fromVid, toVid, kind, source, o) else g
  }

  datatype Flag = Flag(kind: string, enabled: bool)

  function EdgesToEmit(rel: Relationship): seq<Flag> {
    [Flag("IMPLEMENTS", rel.isImplementation), Flag("TYPE_DEFINES", rel.isTypeDefinition),
     Flag("REFERENCES", rel.isReference), Flag("DEFINES", rel.isDefinition)]
  }

  /** One edge for each flag that is set. */
  function AddFlagEdges(h: Hashes, g: Graph, s: CodeGraphScope, flags: seq<Flag>, fromVid: string, toVid: string,
                        source: string, o: EdgeOptions): Graph {
    if flags == [] then g
    else
      var last := flags[|flags| - 1];
      EdgeIf(h, AddFlagEdges(h, g, s, flags[..|flags| - 1], fromVid, toVid, source, o), s, last.enabled, fromVid, toVid,
             last.kind, source, o)
  }

  function EvidenceOf(index: map<string, ScipSymbol>, symbol: string): Option<string> {
    if symbol in index then index[symbol].filePath else None
  }

  function AddRelationship(h: Hashes, g: Graph, s: CodeGraphScope, language: string, index: map<string, ScipSymbol>,
                           rel: Relationship): Graph {
    var withEnds := EnsureSymbol(h, EnsureSymbol(h, g, s, language, index, rel.sourceSymbol), s, language, index,
                                 rel.targetSymbol);
    AddFlagEdges(h, withEnds, s, EdgesToEmit(rel), RelatedVid(h, s, index, rel.sourceSymbol),
                 RelatedVid(h, s, index, rel.targetSymbol),
                 ScipSource(language), ScipOptions(EvidenceOf(index, rel.sourceSymbol)))
  }

  function AddRelationships(h: Hashes, g: Graph, s: CodeGraphScope, language: string, index: map<string, ScipSymbol>,
                            rels: seq<Relationship>): Graph {
    if rels == [] then g
    else AddRelationship(h, AddRelationships(h, g, s, language, index, rels[..|rels| - 1]), s, language, index,
                         rels[|rels| - 1])
  }

  function AddScipRows(h: Hashes, g: Graph, s: CodeGraphScope, repoVid: string, language: string,
                       rows: ScipRows): Graph {
    AddRelationships(h, AddScipSymbols(h, AddScipFiles(h, g, s, repoVid, rows.symbols), s, language, rows.symbols),
                     s, language, SymbolIndex(rows.symbols), rows.relationships)
  }

  // What every producer keeps.

  const CALLER_NAMES: set<string> :=
    {"key", "label", "path", "language", "source", "confidence", "confidenceTier", "evidenceFilePath", "startLine", "endLine", "provenance"}

  ghost predicate VertexOk(g: Graph, s: CodeGraphScope, vid: string)
    requires vid in g.vertices
  {
    g.vertices[vid].vid == vid && Stamped(g.vertices[vid].properties, s)
  }

  ghost predicate Anchored(g: Graph, repoVid: string, e: Edge) {
    e.toVid in g.vertices && (e.fromVid in g.vertices || e.fromVid == repoVid)
  }

  ghost predicate EdgeOk(g: Graph, s: CodeGraphScope, repoVid: string, k: string)
    requires k in g.edges
  {
    var e := g.edges[k];
    k == EdgeKey(e.fromVid, e.toVid, e.kind, e.rank) && Stamped(e.properties, s) && Anchored(g, repoVid, e)
  }

  /** Edges end at stored vertices and start at one or at the repository; every row is stamped with the scope. */
  ghost predicate GraphOk(g: Graph, s: CodeGraphScope, repoVid: string) {
    && (forall vid :: vid in g.vertices ==> VertexOk(g, s, vid))
    && (forall k :: k in g.edges ==> EdgeOk(g, s, repoVid, k))
  }

  /** Only the linker makes ANCHOR_LINK edges. */
  const ANCHOR_LINK := "ANCHOR_LINK"

  ghost predicate NoLinks(g: Graph) {
    forall k :: k in g.edges ==> g.edges[k].kind != ANCHOR_LINK
  }

  /** `b` has everything `a` has, unchanged. */
  ghost predicate Grows(a: Graph, b: Graph) {
    && (forall v :: v in a.vertices ==> v in b.vertices && b.vertices[v] == a.vertices[v])
    && (forall k :: k in a.edges ==> k in b.edges && b.edges[k] == a.edges[k])
    && a.anchors == b.anchors
  }
}
