/**
 * A reader for the statements the renderer prints, and the proof that it recovers exactly the
 * rows that were printed, whatever characters their strings hold.
 */
module NgqlReader {
  import opened Basics
  import T = Text
  import opened GraphTypes
  import opened Ngql

  datatype Parsed<+X> = Parsed(value: X, rest: string)

  /** A column value as read: an integer where the column is one, other numbers as their text. */
  datatype Cell = NullCell | TextCell(s: string) | IntCell(n: int) | NumberCell(text: string) | BoolCell(b: bool)

  datatype Row =
    | VertexRow(vid: string, cells: seq<Cell>)
    | EdgeRow(fromVid: string, toVid: string, rank: int, cells: seq<Cell>)

  datatype Statement = Schema | Upsert(rows: seq<Row>) | DeleteVertices(vids: seq<string>)

  function StripPrefix(prefix: string, t: string): Option<string> {
    if prefix <= t then Some(t[|prefix|..]) else None
  }

  // String literals.

  function HexValue(c: char): Option<nat> {
    if '0' <= c <= '9' then Some(c as int - '0' as int)
    else if 'a' <= c <= 'f' then Some(c as int - 'a' as int + 10)
    else if 'A' <= c <= 'F' then Some(c as int - 'A' as int + 10)
    else None
  }

  /** What follows `\u`: four hex digits naming a scalar value. */
  function ReadUnicode(t: string): Option<Parsed<char>> {
    if |t| < 4 then None
    else
      var a, b, c, d := HexValue(t[0]), HexValue(t[1]), HexValue(t[2]), HexValue(t[3]);
      if a.None? || b.None? || c.None? || d.None? then None
      else
        var n := ((a.value * 16 + b.value) * 16 + c.value) * 16 + d.value;
        if 0xD800 <= n < 0xE000 || n >= 0x10000 then None else Some(Parsed(n as char, t[4..]))
  }

  function ShortEscaped(letter: char): Option<char> {
    match letter
    case '"' => Some('"')
    case '\\' => Some('\\')
    case '/' => Some('/')
    case 'b' => Some('\U{0008}')
    case 't' => Some('\t')
    case 'n' => Some('\n')
    case 'f' => Some('\U{000C}')
    case 'r' => Some('\r')
    case _ => None
  }

  /** What follows a backslash. */
  function ReadEscape(t: string): Option<Parsed<char>> {
    if t == [] then None
    else if t[0] == 'u' then ReadUnicode(t[1..])
    else match ShortEscaped(t[0]) case None => None case Some(c) => Some(Parsed(c, t[1..]))
  }

  function ReadStringChar(t: string): Option<Parsed<char>> {
    if t == [] || t[0] < ' ' || t[0] == '"' then None
    else if t[0] == '\\' then ReadEscape(t[1..])
    else Some(Parsed(t[0], t[1..]))
  }

  function ReadStringBody(t: string): Option<Parsed<string>>
    decreases |t|
  {
    if t != [] && t[0] == '"' then Some(Parsed("", t[1..]))
    else
      match ReadStringChar(t)
      case None => None
      case Some(c) =>
        if |c.rest| >= |t| then None
        else
          match ReadStringBody(c.rest)
          case None => None
          case Some(s) => Some(Parsed([c.value] + s.value, s.rest))
  }

  function ReadString(t: string): Option<Parsed<string>> {
    if t != [] && t[0] == '"' then ReadStringBody(t[1..]) else None
  }

  lemma HexDigitValue(n: nat)
    requires n < 16
    ensures HexValue(HexDigit(n)) == Some(n)
  {
  }

  lemma UnicodeReads(n: nat, rest: string)
    requires n < 32
    ensures ReadUnicode(['0', '0', HexDigit(n / 16), HexDigit(n % 16)] + rest) == Some(Parsed(n as char, rest))
  {
    HexDigitValue(n / 16);
    HexDigitValue(n % 16);
    var u := ['0', '0', HexDigit(n / 16), HexDigit(n % 16)] + rest;
    assert u[4..] == rest;
  }

  lemma ShortEscapeInverts(c: char)
    requires ShortEscape(c).Some?
    ensures ShortEscape(c).value != 'u' && ShortEscaped(ShortEscape(c).value) == Some(c)
  {
  }

  lemma EscapedCharReads(c: char, rest: string)
    ensures ReadStringChar(EscapeChar(c) + rest) == Some(Parsed(c, rest))
    ensures EscapeChar(c) != [] && EscapeChar(c)[0] != '"'
  {
    var t := EscapeChar(c) + rest;
    if ShortEscape(c).Some? {
      ShortEscapeInverts(c);
      assert t[1..] == [ShortEscape(c).value] + rest;
      assert t[1..][1..] == rest;
    } else if c < ' ' {
      var hex := ['0', '0', HexDigit(c as int / 16), HexDigit(c as int % 16)];
      UnicodeReads(c as int, rest);
      assert t[1..] == ['u'] + (hex + rest);
      assert t[1..][1..] == hex + rest;
    } else {
      assert t[1..] == rest;
    }
  }

  lemma {:induction false} EscapedReads(s: string, rest: string)
    ensures ReadStringBody(EscapeAll(s) + "\"" + rest) == Some(Parsed(s, rest))
  {
    if s == [] {
      assert EscapeAll(s) + "\"" + rest == "\"" + rest;
    } else {
      var tail := EscapeAll(s[1..]) + "\"" + rest;
      assert EscapeAll(s) + "\"" + rest == EscapeChar(s[0]) + tail;
      EscapedCharReads(s[0], tail);
      EscapedReads(s[1..], rest);
      assert [s[0]] + s[1..] == s;
    }
  }

  /** A string literal reads back as the string, for all strings. */
  lemma StringReads(s: string, rest: string)
    ensures ReadString(JsonString(s) + rest) == Some(Parsed(s, rest))
  {
    var t := JsonString(s) + rest;
    assert t[1..] == EscapeAll(s) + "\"" + rest;
    EscapedReads(s, rest);
  }

  // Numbers.

  predicate NumberChar(c: char) {
    T.IsDigit(c) || c in "+-.eE"
  }

  ghost predicate NumberToken(s: string) {
    s != [] && forall i :: 0 <= i < |s| ==> NumberChar(s[i])
  }

  /** All the model asks of the formatting of finite doubles. */
  ghost predicate FormatsNumbers(fmt: NumberFormat) {
    forall v :: NumberToken(fmt(v))
  }

  function ReadNumber(t: string): Parsed<string> {
    if t == [] || !NumberChar(t[0]) then Parsed("", t)
    else
      var r := ReadNumber(t[1..]);
      Parsed([t[0]] + r.value, r.rest)
  }

  ghost predicate EndsNumber(rest: string) {
    rest != [] ==> !NumberChar(rest[0])
  }

  lemma {:induction false} NumberReads(s: string, rest: string)
    requires forall i :: 0 <= i < |s| ==> NumberChar(s[i])
    requires EndsNumber(rest)
    ensures ReadNumber(s + rest) == Parsed(s, rest)
  {
    if s == [] {
      assert s + rest == rest;
    } else {
      NumberReads(s[1..], rest);
      assert (s + rest)[1..] == s[1..] + rest;
      assert [s[0]] + s[1..] == s;
    }
  }

  lemma DecimalIsNumber(n: int)
    ensures NumberToken(T.Decimal(n))
  {
    T.DecimalChars(n);
  }

  // Cells.

  function NumberCellOf(type_: ColumnType, text: string): Cell {
    if type_ == IntColumn && T.ParseDecimal(text).Some? then IntCell(T.ParseDecimal(text).value) else NumberCell(text)
  }

  /** What a reader of a column should see of a property. */
  function CellOf(fmt: NumberFormat, type_: ColumnType, p: Primitive): Cell {
    match p
    case Null => NullCell
    case Boolean(b) => BoolCell(b)
    case Text(s) => TextCell(s)
    case Int(n) => if type_ == IntColumn then IntCell(n) else NumberCell(T.Decimal(n))
    case Dbl(NonFinite) => NullCell
    case Dbl(Finite(v)) => NumberCellOf(type_, fmt(v))
  }

  function CellsOf(fmt: NumberFormat, props: seq<string>, bag: Properties): seq<Cell> {
    seq(|props|, i requires 0 <= i < |props| => CellOf(fmt, PropType(props[i]), Property(bag, props[i])))
  }

  function ReadCell(type_: ColumnType, t: string): Option<Parsed<Cell>> {
    if "NULL" <= t then Some(Parsed(NullCell, t[4..]))
    else if "true" <= t then Some(Parsed(BoolCell(true), t[4..]))
    else if "false" <= t then Some(Parsed(BoolCell(false), t[5..]))
    else if t != [] && t[0] == '"' then
      match ReadString(t) case None => None case Some(s) => Some(Parsed(TextCell(s.value), s.rest))
    else
      var n := ReadNumber(t);
      if n.value == "" then None else Some(Parsed(NumberCellOf(type_, n.value), n.rest))
  }

  lemma NumberCellReads(type_: ColumnType, s: string, rest: string)
    requires NumberToken(s) && EndsNumber(rest)
    ensures ReadCell(type_, s + rest) == Some(Parsed(NumberCellOf(type_, s), rest))
  {
    NumberReads(s, rest);
    assert (s + rest)[0] == s[0];
  }

  lemma CellReads(fmt: NumberFormat, type_: ColumnType, p: Primitive, rest: string)
    requires FormatsNumbers(fmt) && EndsNumber(rest)
    ensures ReadCell(type_, NgqlValue(fmt, p) + rest) == Some(Parsed(CellOf(fmt, type_, p), rest))
  {
    match p {
      case Int(n) =>
        DecimalIsNumber(n);
        NumberCellReads(type_, T.Decimal(n), rest);
        T.DecimalRoundTrip(n);
      case Dbl(Finite(v)) =>
        NumberCellReads(type_, fmt(v), rest);
      case Text(s) =>
        StringReads(s, rest);
        assert (JsonString(s) + rest)[0] == '"';
      case Boolean(b) =>
        assert b ==> ("true" + rest)[4..] == rest && ("true" + rest)[0] == 't';
        assert !b ==> ("false" + rest)[5..] == rest && ("false" + rest)[0] == 'f';
      case _ =>
        assert ("NULL" + rest)[4..] == rest;
    }
  }

  function Types(props: seq<string>): seq<ColumnType> {
    seq(|props|, i requires 0 <= i < |props| => PropType(props[i]))
  }

  function ReadCells(types: seq<ColumnType>, t: string): Option<Parsed<seq<Cell>>> {
    if types == [] then None
    else
      match ReadCell(types[0], t)
      case None => None
      case Some(c) =>
        if |types| == 1 then
          match StripPrefix(")", c.rest) case None => None case Some(rest) => Some(Parsed([c.value], rest))
        else
          match StripPrefix(", ", c.rest)
          case None => None
          case Some(more) =>
            match ReadCells(types[1..], more)
            case None => None
            case Some(cs) => Some(Parsed([c.value] + cs.value, cs.rest))
  }

  lemma StripPrefixReads(prefix: string, rest: string)
    ensures StripPrefix(prefix, prefix + rest) == Some(rest)
  {
  }

  /** A printed cell reads back before any delimiter. */
  ghost predicate CellText(type_: ColumnType, text: string, cell: Cell) {
    forall rest :: EndsNumber(rest) ==> ReadCell(type_, text + rest) == Some(Parsed(cell, rest))
  }

  lemma ReadCellsCons(types: seq<ColumnType>, text: string, cell: Cell, more: string, others: seq<Cell>, rest: string)
    requires |types| > 1 && CellText(types[0], text, cell)
    requires ReadCells(types[1..], more) == Some(Parsed(others, rest))
    ensures ReadCells(types, text + (", " + more)) == Some(Parsed([cell] + others, rest))
  {
    assert EndsNumber(", " + more);
    StripPrefixReads(", ", more);
  }

  lemma {:induction false} CellListReads(types: seq<ColumnType>, texts: seq<string>, cells: seq<Cell>, rest: string)
    requires |types| == |texts| == |cells| && types != []
    requires forall i :: 0 <= i < |types| ==> CellText(types[i], texts[i], cells[i])
    ensures ReadCells(types, T.Join(texts, ", ") + ")" + rest) == Some(Parsed(cells, rest))
  {
    assert CellText(types[0], texts[0], cells[0]);
    if |types| == 1 {
      assert T.Join(texts, ", ") + ")" + rest == texts[0] + (")" + rest);
      assert EndsNumber(")" + rest);
      StripPrefixReads(")", rest);
      assert cells == [cells[0]];
    } else {
      var joined := T.Join(texts[1..], ", ");
      CellListReads(types[1..], texts[1..], cells[1..], rest);
      ReadCellsCons(types, texts[0], cells[0], joined + ")" + rest, cells[1..], rest);
      T.JoinCons(texts, ", ");
      T.Assoc(texts[0], ", " + joined, ")" + rest);
      T.Assoc(", ", joined, ")" + rest);
      T.Assoc(joined, ")", rest);
      T.Assoc(T.Join(texts, ", "), ")", rest);
      assert cells == [cells[0]] + cells[1..];
    }
  }

  lemma CellsRead(fmt: NumberFormat, props: seq<string>, bag: Properties, rest: string)
    requires FormatsNumbers(fmt) && props != []
    ensures ReadCells(Types(props), T.Join(ColumnValues(fmt, props, bag), ", ") + ")" + rest) ==
            Some(Parsed(CellsOf(fmt, props, bag), rest))
  {
    forall i | 0 <= i < |props| ensures CellText(Types(props)[i], ColumnValues(fmt, props, bag)[i],
                                                 CellsOf(fmt, props, bag)[i]) {
      forall r | EndsNumber(r)
        ensures ReadCell(Types(props)[i], ColumnValues(fmt, props, bag)[i] + r) ==
                Some(Parsed(CellsOf(fmt, props, bag)[i], r))
      {
        CellReads(fmt, PropType(props[i]), Property(bag, props[i]), r);
      }
    }
    CellListReads(Types(props), ColumnValues(fmt, props, bag), CellsOf(fmt, props, bag), rest);
  }

  // Rows.

  function ReadVertexRow(types: seq<ColumnType>, t: string): Option<Parsed<Row>> {
    match ReadString(t)
    case None => None
    case Some(vid) =>
      match StripPrefix(": (", vid.rest)
      case None => None
      case Some(body) =>
        match ReadCells(types, body)
        case None => None
        case Some(cells) => Some(Parsed(VertexRow(vid.value, cells.value), cells.rest))
  }

  function ReadRankAndCells(types: seq<ColumnType>, fromVid: string, toVid: string, t: string): Option<Parsed<Row>> {
    var number := ReadNumber(t);
    var rank := T.ParseDecimal(number.value);
    if rank.None? then None
    else
      match StripPrefix(": (", number.rest)
      case None => None
      case Some(body) =>
        match ReadCells(types, body)
        case None => None
        case Some(cells) => Some(Parsed(EdgeRow(fromVid, toVid, rank.value, cells.value), cells.rest))
  }

  function ReadEdgeRow(types: seq<ColumnType>, t: string): Option<Parsed<Row>> {
    match ReadString(t)
    case None => None
    case Some(src) =>
      match StripPrefix("->", src.rest)
      case None => None
      case Some(arrow) =>
        match ReadString(arrow)
        case None => None
        case Some(dst) =>
          match StripPrefix("@", dst.rest)
          case None => None
          case Some(at) => ReadRankAndCells(types, src.value, dst.value, at)
  }

  function VertexRowOf(l: Layout, fmt: NumberFormat, v: Vertex): Row {
    VertexRow(v.vid, CellsOf(fmt, l.nodeProps, v.properties))
  }

  function EdgeRowOf(l: Layout, fmt: NumberFormat, e: Edge): Row {
    EdgeRow(e.fromVid, e.toVid, e.rank, CellsOf(fmt, l.edgeProps, e.properties))
  }

  lemma Regroup(a: string, b: string, c: string, d: string, r: string)
    ensures a + b + c + d + r == a + (b + (c + d + r))
  {
    T.Assoc(a, b, c + d + r);
    assert a + b + c + d + r == a + b + (c + d + r);
  }

  lemma VertexTextReads(fmt: NumberFormat, props: seq<string>, vid: string, bag: Properties, rest: string)
    requires FormatsNumbers(fmt) && props != []
    ensures ReadVertexRow(Types(props),
                          JsonString(vid) + ": (" + T.Join(ColumnValues(fmt, props, bag), ", ") + ")" + rest)
            == Some(Parsed(VertexRow(vid, CellsOf(fmt, props, bag)), rest))
  {
    var joined := T.Join(ColumnValues(fmt, props, bag), ", ");
    var cells := joined + ")" + rest;
    Regroup(JsonString(vid), ": (", joined, ")", rest);
    StringReads(vid, ": (" + cells);
    StripPrefixReads(": (", cells);
    CellsRead(fmt, props, bag, rest);
  }

  lemma RankReads(fmt: NumberFormat, props: seq<string>, src: string, dst: string, rank: nat, bag: Properties,
                  rest: string)
    requires FormatsNumbers(fmt) && props != []
    ensures ReadRankAndCells(Types(props), src, dst,
                             T.Decimal(rank) + (": (" + (T.Join(ColumnValues(fmt, props, bag), ", ") + ")" + rest)))
            == Some(Parsed(EdgeRow(src, dst, rank, CellsOf(fmt, props, bag)), rest))
  {
    var cells := T.Join(ColumnValues(fmt, props, bag), ", ") + ")" + rest;
    DecimalIsNumber(rank);
    assert (": (" + cells)[0] == ':';
    NumberReads(T.Decimal(rank), ": (" + cells);
    T.DecimalRoundTrip(rank);
    StripPrefixReads(": (", cells);
    CellsRead(fmt, props, bag, rest);
  }

  lemma RegroupEdge(a: string, b: string, c: string, d: string, e: string, f: string, g: string, h: string, r: string)
    ensures a + b + c + d + e + f + g + h + r == a + (b + (c + (d + (e + (f + (g + h + r))))))
  {
    Regroup(e, f, g, h, r);
    Regroup(a, b, c, d, e + (f + (g + h + r)));
    T.Assoc(c, d, e + (f + (g + h + r)));
    assert a + b + c + d + e + f + g + h + r == a + b + c + d + (e + f + g + h + r);
  }

  lemma EdgeTextReads(fmt: NumberFormat, props: seq<string>, src: string, dst: string, rank: nat, bag: Properties,
                      rest: string)
    requires FormatsNumbers(fmt) && props != []
    ensures ReadEdgeRow(Types(props), JsonString(src) + "->" + JsonString(dst) + "@" + T.Decimal(rank) + ": ("
                                      + T.Join(ColumnValues(fmt, props, bag), ", ") + ")" + rest)
            == Some(Parsed(EdgeRow(src, dst, rank, CellsOf(fmt, props, bag)), rest))
  {
    var joined := T.Join(ColumnValues(fmt, props, bag), ", ");
    var at := T.Decimal(rank) + (": (" + (joined + ")" + rest));
    RegroupEdge(JsonString(src), "->", JsonString(dst), "@", T.Decimal(rank), ": (", joined, ")", rest);
    RankReads(fmt, props, src, dst, rank, bag, rest);
    ArrowReads(Types(props), src, dst, at);
  }

  lemma ArrowReads(types: seq<ColumnType>, src: string, dst: string, at: string)
    ensures ReadEdgeRow(types, JsonString(src) + ("->" + (JsonString(dst) + ("@" + at)))) ==
            ReadRankAndCells(types, src, dst, at)
  {
    var arrow := JsonString(dst) + ("@" + at);
    StringReads(src, "->" + arrow);
    StripPrefixReads("->", arrow);
    StringReads(dst, "@" + at);
    StripPrefixReads("@", at);
  }

  // Comma-separated lists.

  type Reader<!X> = string -> Option<Parsed<X>>

  function ReadList<X>(read: Reader<X>, end: string, t: string): Option<seq<X>>
    decreases |t|
  {
    match read(t)
    case None => None
    case Some(first) =>
      if first.rest == end then Some([first.value])
      else
        match StripPrefix(", ", first.rest)
        case None => None
        case Some(more) =>
          if |more| >= |t| then None
          else
            match ReadList(read, end, more)
            case None => None
            case Some(others) => Some([first.value] + others)
  }

  /** A printed item reads back whatever follows it. */
  ghost predicate Reads<X(!new)>(read: Reader<X>, text: string, item: X) {
    forall rest :: read(text + rest) == Some(Parsed(item, rest))
  }

  lemma {:induction false} ListReads<X(!new)>(read: Reader<X>, end: string, texts: seq<string>, items: seq<X>)
    requires |texts| == |items| && items != []
    requires forall i :: 0 <= i < |items| ==> Reads(read, texts[i], items[i])
    requires end == [] || end[0] != ','
    ensures ReadList(read, end, T.Join(texts, ", ") + end) == Some(items)
    decreases |texts|
  {
    assert Reads(read, texts[0], items[0]);
    if |texts| == 1 {
      assert T.Join(texts, ", ") == texts[0];
      assert read(texts[0] + end) == Some(Parsed(items[0], end));
      assert items == [items[0]];
    } else {
      var more := T.Join(texts[1..], ", ") + end;
      assert T.Join(texts, ", ") + end == texts[0] + (", " + more);
      assert read(texts[0] + (", " + more)) == Some(Parsed(items[0], ", " + more));
      assert (", " + more)[0] == ',';
      StripPrefixReads(", ", more);
      ListReads(read, end, texts[1..], items[1..]);
      assert [items[0]] + items[1..] == items;
    }
  }

  // Statements.

  function VertexReader(props: seq<string>): Reader<Row> {
    t => ReadVertexRow(Types(props), t)
  }

  function EdgeReader(props: seq<string>): Reader<Row> {
    t => ReadEdgeRow(Types(props), t)
  }

  function ReadRows(read: Reader<Row>, t: string): Option<Statement> {
    match ReadList(read, ";", t) case None => None case Some(rows) => Some(Upsert(rows))
  }

  /** Which statement a text is, by how it begins. */
  function Dispatch(vertexHeader: string, edgeHeader: string, nodeProps: seq<string>, edgeProps: seq<string>,
                    t: string): Option<Statement> {
    if vertexHeader <= t then ReadRows(VertexReader(nodeProps), t[|vertexHeader|..])
    else if edgeHeader <= t then ReadRows(EdgeReader(edgeProps), t[|edgeHeader|..])
    else if "DELETE VERTEX " <= t then
      match ReadList(ReadString, " WITH EDGE;", t[14..]) case None => None case Some(vids) => Some(DeleteVertices(vids))
    else if "CREATE " <= t then Some(Schema)
    else None
  }

  function ReadStatement(l: Layout, t: string): Option<Statement> {
    Dispatch(VertexHeader(l), EdgeHeader(l), l.nodeProps, l.edgeProps, t)
  }

  lemma DispatchVertices(vh: string, eh: string, np: seq<string>, ep: seq<string>, rows: seq<string>)
    ensures Dispatch(vh, eh, np, ep, InsertStatement(vh, rows)) == ReadRows(VertexReader(np), T.Join(rows, ", ") + ";")
  {
    assert InsertStatement(vh, rows) == vh + (T.Join(rows, ", ") + ";");
  }

  lemma DispatchEdges(vh: string, eh: string, np: seq<string>, ep: seq<string>, rows: seq<string>)
    requires |vh| > 7 && |eh| > 7 && vh[7] != eh[7]
    ensures Dispatch(vh, eh, np, ep, InsertStatement(eh, rows)) == ReadRows(EdgeReader(ep), T.Join(rows, ", ") + ";")
  {
    assert InsertStatement(eh, rows) == eh + (T.Join(rows, ", ") + ";");
    assert InsertStatement(eh, rows)[7] == eh[7];
  }

  lemma DispatchDelete(vh: string, eh: string, np: seq<string>, ep: seq<string>, body: string)
    requires vh != [] && eh != [] && vh[0] == eh[0] == 'I'
    ensures Dispatch(vh, eh, np, ep, "DELETE VERTEX " + body) ==
            match ReadList(ReadString, " WITH EDGE;", body) case None => None case Some(vids) => Some(DeleteVertices(vids))
  {
    var t := "DELETE VERTEX " + body;
    assert t[0] == 'D' && t[14..] == body;
  }

  lemma DispatchSchema(vh: string, eh: string, np: seq<string>, ep: seq<string>, body: string)
    requires vh != [] && eh != [] && vh[0] == eh[0] == 'I'
    ensures Dispatch(vh, eh, np, ep, "CREATE " + body) == Some(Schema)
  {
    var t := "CREATE " + body;
    assert t[0] == 'C';
  }

  lemma HeadersDiffer(l: Layout)
    ensures |VertexHeader(l)| > 7 && VertexHeader(l)[0] == 'I' && VertexHeader(l)[7] == 'V'
    ensures |EdgeHeader(l)| > 7 && EdgeHeader(l)[0] == 'I' && EdgeHeader(l)[7] == 'E'
  {
    BeginsWith("INSERT VERTEX ", Target(l.nodeTag, l.nodeProps), VertexHeader(l));
    BeginsWith("INSERT EDGE ", Target(l.edgeType, l.edgeProps), EdgeHeader(l));
  }

  lemma BeginsWith(prefix: string, rest: string, whole: string)
    requires whole == prefix + rest && |prefix| > 7
    ensures |whole| > 7 && whole[0] == prefix[0] && whole[7] == prefix[7]
  {
  }

  lemma VertexRowsRead(fmt: NumberFormat, props: seq<string>, vs: seq<Vertex>, texts: seq<string>, rows: seq<Row>)
    requires FormatsNumbers(fmt) && props != [] && vs != [] && |texts| == |rows| == |vs|
    requires forall i :: 0 <= i < |vs| ==>
               texts[i] == JsonString(vs[i].vid) + ": (" + T.Join(ColumnValues(fmt, props, vs[i].properties), ", ") + ")"
    requires forall i :: 0 <= i < |vs| ==> rows[i] == VertexRow(vs[i].vid, CellsOf(fmt, props, vs[i].properties))
    ensures ReadRows(VertexReader(props), T.Join(texts, ", ") + ";") == Some(Upsert(rows))
  {
    var read := VertexReader(props);
    forall i | 0 <= i < |vs| ensures Reads(read, texts[i], rows[i]) {
      forall rest ensures read(texts[i] + rest) == Some(Parsed(rows[i], rest)) {
        VertexTextReads(fmt, props, vs[i].vid, vs[i].properties, rest);
      }
    }
    ListReads(read, ";", texts, rows);
  }

  lemma EdgeRowsRead(fmt: NumberFormat, props: seq<string>, es: seq<Edge>, texts: seq<string>, rows: seq<Row>)
    requires FormatsNumbers(fmt) && props != [] && es != [] && |texts| == |rows| == |es|
    requires forall i :: 0 <= i < |es| ==>
               texts[i] == JsonString(es[i].fromVid) + "->" + JsonString(es[i].toVid) + "@" + T.Decimal(es[i].rank) + ": ("
                                                     + T.Join(ColumnValues(fmt, props, es[i].properties), ", ") + ")"
    requires forall i :: 0 <= i < |es| ==> rows[i] == EdgeRow(es[i].fromVid, es[i].toVid, es[i].rank,
                                                              CellsOf(fmt, props, es[i].properties))
    ensures ReadRows(EdgeReader(props), T.Join(texts, ", ") + ";") == Some(Upsert(rows))
  {
    var read := EdgeReader(props);
    forall i | 0 <= i < |es| ensures Reads(read, texts[i], rows[i]) {
      forall rest ensures read(texts[i] + rest) == Some(Parsed(rows[i], rest)) {
        EdgeTextReads(fmt, props, es[i].fromVid, es[i].toVid, es[i].rank, es[i].properties, rest);
      }
    }
    ListReads(read, ";", texts, rows);
  }

  function VertexRowsOf(l: Layout, fmt: NumberFormat, vs: seq<Vertex>): seq<Row> {
    seq(|vs|, i requires 0 <= i < |vs| => VertexRowOf(l, fmt, vs[i]))
  }

  function EdgeRowsOf(l: Layout, fmt: NumberFormat, es: seq<Edge>): seq<Row> {
    seq(|es|, i requires 0 <= i < |es| => EdgeRowOf(l, fmt, es[i]))
  }

  /** Reading an INSERT VERTEX statement recovers the rows it was printed from. */
  lemma VertexInsertReads(l: Layout, fmt: NumberFormat, vs: seq<Vertex>)
    requires FormatsNumbers(fmt) && l.nodeProps != [] && vs != []
    ensures ReadStatement(l, RenderVertexInsert(l, fmt, vs)) == Some(Upsert(VertexRowsOf(l, fmt, vs)))
  {
    DispatchVertices(VertexHeader(l), EdgeHeader(l), l.nodeProps, l.edgeProps, VertexRows(l, fmt, vs));
    VertexRowsRead(fmt, l.nodeProps, vs, VertexRows(l, fmt, vs), VertexRowsOf(l, fmt, vs));
  }

  /** Reading an INSERT EDGE statement recovers the rows it was printed from. */
  lemma EdgeInsertReads(l: Layout, fmt: NumberFormat, es: seq<Edge>)
    requires FormatsNumbers(fmt) && l.edgeProps != [] && es != []
    ensures ReadStatement(l, RenderEdgeInsert(l, fmt, es)) == Some(Upsert(EdgeRowsOf(l, fmt, es)))
  {
    HeadersDiffer(l);
    DispatchEdges(VertexHeader(l), EdgeHeader(l), l.nodeProps, l.edgeProps, EdgeRows(l, fmt, es));
    EdgeRowsRead(fmt, l.edgeProps, es, EdgeRows(l, fmt, es), EdgeRowsOf(l, fmt, es));
  }

  /** Reading a DELETE VERTEX statement recovers the vids. */
  lemma DeleteReads(l: Layout, vids: seq<string>)
    requires vids != []
    ensures ReadStatement(l, RenderDelete(vids)) == Some(DeleteVertices(vids))
  {
    var body := T.Join(Literals(vids), ", ") + " WITH EDGE;";
    assert RenderDelete(vids) == "DELETE VERTEX " + body;
    HeadersDiffer(l);
    DispatchDelete(VertexHeader(l), EdgeHeader(l), l.nodeProps, l.edgeProps, body);
    forall i | 0 <= i < |vids| ensures Reads(ReadString, Literals(vids)[i], vids[i]) {
      forall rest ensures ReadString(Literals(vids)[i] + rest) == Some(Parsed(vids[i], rest)) {
        StringReads(vids[i], rest);
      }
    }
    ListReads(ReadString, " WITH EDGE;", Literals(vids), vids);
  }

  /** The statements before the inserts change no row. */
  lemma SchemaReads(l: Layout, body: string)
    ensures ReadStatement(l, "CREATE " + body) == Some(Schema)
  {
    HeadersDiffer(l);
    DispatchSchema(VertexHeader(l), EdgeHeader(l), l.nodeProps, l.edgeProps, body);
  }
}
