/** Vertices, edges and their property bags. */
module GraphTypes {
  import opened Basics

  /** A 64-bit float: its value as a real, or one of the non-finite ones. */
  datatype Double = NonFinite | Finite(value: real)

  datatype Primitive = Null | Text(s: string) | Int(n: int) | Dbl(d: Double) | Boolean(b: bool)

  type Properties = map<string, Primitive>

  datatype Vertex = Vertex(vid: string, kind: string, properties: Properties)

  datatype Edge = Edge(fromVid: string, toVid: string, kind: string, rank: nat, properties: Properties)

  datatype Snapshot = Snapshot(vertices: seq<Vertex>, edges: seq<Edge>)

  function Property(bag: Properties, name: string): Primitive {
    if name in bag then bag[name] else Null
  }
}

/** The NGQL renderer: every string it prints. */
module Ngql {
  import opened Basics
  import T = Text
  import opened GraphTypes

  /** `format_js_number` on finite doubles; its digits are not modelled. */
  type NumberFormat = real -> string

  /** The names of the tag and the edge type, and their columns in order. */
  datatype Layout = Layout(nodeTag: string, edgeType: string, nodeProps: seq<string>, edgeProps: seq<string>)

  const NODE_PROPS: seq<string> := [
    "kind", "orgId", "workspaceId", "repoId", "revision", "commitHash", "schemaVersion", "builderVersion",
    "key", "label", "path", "language", "routeMethod", "routePath", "packageManager", "confidence",
    "confidenceTier", "evidenceFilePath", "startLine", "endLine", "source", "provenance"]

  const EDGE_PROPS: seq<string> := [
    "kind", "orgId", "workspaceId", "repoId", "revision", "commitHash", "schemaVersion", "builderVersion",
    "confidence", "confidenceTier", "evidenceFilePath", "startLine", "endLine", "normalizedKey", "source",
    "provenance", "context"]

  const CODE_GRAPH := Layout("code_graph_node", "code_graph_edge", NODE_PROPS, EDGE_PROPS)

  datatype ColumnType = IntColumn | DoubleColumn | StringColumn

  function PropType(prop: string): ColumnType {
    if prop in ["orgId", "repoId", "schemaVersion", "startLine", "endLine"] then IntColumn
    else if prop == "confidence" then DoubleColumn
    else StringColumn
  }

  function DoubleBackticks(s: string): string {
    if s == [] then [] else (if s[0] == '`' then "``" else [s[0]]) + DoubleBackticks(s[1..])
  }

  function QuoteIdentifier(s: string): string {
    "`" + DoubleBackticks(s) + "`"
  }

  function QuoteAll(names: seq<string>): seq<string> {
    seq(|names|, i requires 0 <= i < |names| => QuoteIdentifier(names[i]))
  }

  function HexDigit(n: nat): char
    requires n < 16
  {
    "0123456789abcdef"[n]
  }

  /** The characters with a two-character escape, and the letter it uses. */
  function ShortEscape(c: char): Option<char> {
    if c == '"' then Some('"')
    else if c == '\\' then Some('\\')
    else if c == '\U{0008}' then Some('b')
    else if c == '\t' then Some('t')
    else if c == '\n' then Some('n')
    else if c == '\U{000C}' then Some('f')
    else if c == '\r' then Some('r')
    else None
  }

  /** One character of a JSON string literal (section 7 of RFC 8259), as `serde_json` escapes it. */
  function EscapeChar(c: char): string {
    if ShortEscape(c).Some? then ['\\', ShortEscape(c).value]
    else if c < ' ' then ['\\', 'u', '0', '0', HexDigit(c as int / 16), HexDigit(c as int % 16)]
    else [c]
  }

  function EscapeAll(s: string): string {
    if s == [] then [] else EscapeChar(s[0]) + EscapeAll(s[1..])
  }

  function JsonString(s: string): string {
    "\"" + EscapeAll(s) + "\""
  }

  function NgqlValue(fmt: NumberFormat, p: Primitive): string {
    match p
    case Null => "NULL"
    case Boolean(b) => if b then "true" else "false"
    case Int(n) => T.Decimal(n)
    case Dbl(NonFinite) => "NULL"
    case Dbl(Finite(v)) => fmt(v)
    case Text(s) => JsonString(s)
  }

  /** The values of a row in column order, a missing property as NULL. */
  function ColumnValues(fmt: NumberFormat, props: seq<string>, bag: Properties): seq<string> {
    seq(|props|, i requires 0 <= i < |props| => NgqlValue(fmt, Property(bag, props[i])))
  }

  function RenderVertexRow(l: Layout, fmt: NumberFormat, v: Vertex): string {
    JsonString(v.vid) + ": (" + T.Join(ColumnValues(fmt, l.nodeProps, v.properties), ", ") + ")"
  }

  function RenderEdgeRow(l: Layout, fmt: NumberFormat, e: Edge): string {
    JsonString(e.fromVid) + "->" + JsonString(e.toVid) + "@" + T.Decimal(e.rank) + ": ("
    + T.Join(ColumnValues(fmt, l.edgeProps, e.properties), ", ") + ")"
  }

  function VertexRows(l: Layout, fmt: NumberFormat, vs: seq<Vertex>): seq<string> {
    seq(|vs|, i requires 0 <= i < |vs| => RenderVertexRow(l, fmt, vs[i]))
  }

  function EdgeRows(l: Layout, fmt: NumberFormat, es: seq<Edge>): seq<string> {
    seq(|es|, i requires 0 <= i < |es| => RenderEdgeRow(l, fmt, es[i]))
  }

  /** The table name, the column list, and VALUES. */
  function Target(table: string, props: seq<string>): string {
    QuoteIdentifier(table) + "(" + T.Join(QuoteAll(props), ", ") + ") VALUES "
  }

  function VertexHeader(l: Layout): string {
    "INSERT VERTEX " + Target(l.nodeTag, l.nodeProps)
  }

  function EdgeHeader(l: Layout): string {
    "INSERT EDGE " + Target(l.edgeType, l.edgeProps)
  }

  function InsertStatement(header: string, rows: seq<string>): string {
    header + T.Join(rows, ", ") + ";"
  }

  function RenderVertexInsert(l: Layout, fmt: NumberFormat, vs: seq<Vertex>): string {
    InsertStatement(VertexHeader(l), VertexRows(l, fmt, vs))
  }

  function RenderEdgeInsert(l: Layout, fmt: NumberFormat, es: seq<Edge>): string {
    InsertStatement(EdgeHeader(l), EdgeRows(l, fmt, es))
  }

  function Literals(vids: seq<string>): seq<string> {
    seq(|vids|, i requires 0 <= i < |vids| => JsonString(vids[i]))
  }

  function RenderDelete(vids: seq<string>): string {
    "DELETE VERTEX " + T.Join(Literals(vids), ", ") + " WITH EDGE;"
  }

  // The schema statements.

  function TypeName(c: ColumnType): string {
    match c case IntColumn => "int" case DoubleColumn => "double" case StringColumn => "string"
  }

  function ColumnDeclarations(props: seq<string>): seq<string> {
    seq(|props|, i requires 0 <= i < |props| => QuoteIdentifier(props[i]) + " " + TypeName(PropType(props[i])))
  }

  function IndexBody(l: Layout, index: string, columns: seq<string>): string {
    "TAG INDEX IF NOT EXISTS " + QuoteIdentifier(index) + " ON " + QuoteIdentifier(l.nodeTag) + "(" + T.Join(columns, ", ") + ");"
  }

  function PrefixIndexBody(l: Layout, index: string, column: string): string {
    IndexBody(l, index,
              [QuoteIdentifier("orgId"), QuoteIdentifier("workspaceId") + "(128)", QuoteIdentifier(column) + "(128)"])
  }

  /** The schema statements after their CREATE. */
  function SchemaBodies(l: Layout): seq<string> {
    [ "TAG IF NOT EXISTS " + QuoteIdentifier(l.nodeTag) + "(" + T.Join(ColumnDeclarations(l.nodeProps), ", ") + ");",
      "EDGE IF NOT EXISTS " + QuoteIdentifier(l.edgeType) + "(" + T.Join(ColumnDeclarations(l.edgeProps), ", ") + ");",
      IndexBody(l, "code_graph_node_scope_idx",
                [QuoteIdentifier("orgId"), QuoteIdentifier("workspaceId") + "(128)", QuoteIdentifier("repoId"),
                 QuoteIdentifier("commitHash") + "(40)", QuoteIdentifier("schemaVersion"), QuoteIdentifier("builderVersion") + "(128)"]),
      PrefixIndexBody(l, "code_graph_node_label_idx", "label"),
      PrefixIndexBody(l, "code_graph_node_key_idx", "key"),
      PrefixIndexBody(l, "code_graph_node_path_idx", "path"),
      PrefixIndexBody(l, "code_graph_node_route_path_idx", "routePath") ]
  }

  function Created(bodies: seq<string>): seq<string> {
    seq(|bodies|, i requires 0 <= i < |bodies| => "CREATE " + bodies[i])
  }

  function RenderSchemaStatements(l: Layout): seq<string> {
    Created(SchemaBodies(l))
  }

  // Chunking.

  const CHUNK := 250

  /** `slice::chunks`. */
  function Chunks<X>(s: seq<X>, n: nat): (r: seq<seq<X>>)
    requires n > 0
    ensures forall c :: c in r ==> c != [] && |c| <= n
    decreases |s|
  {
    if s == [] then [] else if |s| <= n then [s] else [s[..n]] + Chunks(s[n..], n)
  }

  function RenderChunks<X>(render: seq<X> -> string, s: seq<X>): seq<string> {
    var cs := Chunks(s, CHUNK);
    seq(|cs|, i requires 0 <= i < |cs| => render(cs[i]))
  }

  lemma RenderChunksStep<X>(render: seq<X> -> string, s: seq<X>)
    ensures s == [] ==> RenderChunks(render, s) == []
    ensures 0 < |s| <= CHUNK ==> RenderChunks(render, s) == [render(s)]
    ensures |s| > CHUNK ==> RenderChunks(render, s) == [render(s[..CHUNK])] + RenderChunks(render, s[CHUNK..])
  {
  }

  /** The loop over the chunks of a slice, pushing one statement for each. */
  method PushChunks<X>(render: seq<X> -> string, s: seq<X>, before: seq<string>) returns (statements: seq<string>)
    ensures statements == before + RenderChunks(render, s)
  {
    statements := before;
    var cs := Chunks(s, CHUNK);
    ghost var all := RenderChunks(render, s);
    for i := 0 to |cs|
      invariant statements == before + all[..i]
    {
      statements := statements + [render(cs[i])];
    }
    assert all[..|cs|] == all;
  }

  function VertexInsert(l: Layout, fmt: NumberFormat): seq<Vertex> -> string {
    vs => RenderVertexInsert(l, fmt, vs)
  }

  function EdgeInsert(l: Layout, fmt: NumberFormat): seq<Edge> -> string {
    es => RenderEdgeInsert(l, fmt, es)
  }

  function SnapshotStatements(l: Layout, fmt: NumberFormat, snapshot: Snapshot): seq<string> {
    RenderSchemaStatements(l) + RenderChunks(VertexInsert(l, fmt), snapshot.vertices) + RenderChunks(EdgeInsert(l, fmt), snapshot.edges)
  }

  /** `render_snapshot_statements`: the schema, then the two chunk loops. */
  method RenderSnapshotStatements(l: Layout, fmt: NumberFormat, snapshot: Snapshot) returns (statements: seq<string>)
    ensures statements == SnapshotStatements(l, fmt, snapshot)
  {
    statements := RenderSchemaStatements(l);
    statements := PushChunks(VertexInsert(l, fmt), snapshot.vertices, statements);
    statements := PushChunks(EdgeInsert(l, fmt), snapshot.edges, statements);
  }

  method RenderDeleteVerticesStatements(vids: seq<string>) returns (out: seq<string>)
    ensures out == RenderChunks(RenderDelete, vids)
  {
    out := PushChunks(RenderDelete, vids, []);
  }
}
