/**
 * Executing the rendered statements.  INSERT VERTEX and INSERT EDGE upsert by vid and by
 * (from, to, rank), so the queue's at-least-once delivery must not change the outcome.
 */
module GraphStore {
  import opened Basics
  import opened GraphTypes
  import opened Ngql
  import opened NgqlReader

  datatype Key = VertexKey(vid: string) | EdgeKey(fromVid: string, toVid: string, rank: int)

  type Store = map<Key, seq<Cell>>

  function KeyOf(row: Row): Key {
    match row
    case VertexRow(vid, _) => VertexKey(vid)
    case EdgeRow(f, t, rank, _) => EdgeKey(f, t, rank)
  }

  function UpsertAll(store: Store, rows: seq<Row>): Store
    decreases rows
  {
    if rows == [] then store else UpsertAll(store[KeyOf(rows[0]) := rows[0].cells], rows[1..])
  }

  /** Whether deleting these vertices, with their edges, removes a key. */
  predicate Removed(vids: seq<string>, k: Key) {
    match k
    case VertexKey(v) => v in vids
    case EdgeKey(f, t, _) => f in vids || t in vids
  }

  function Without(store: Store, vids: seq<string>): Store {
    map k | k in store && !Removed(vids, k) :: store[k]
  }

  type StatementReader = string -> Option<Statement>

  function ReaderOf(l: Layout): StatementReader {
    t => ReadStatement(l, t)
  }

  function Execute(read: StatementReader, store: Store, text: string): Store {
    match read(text)
    case Some(Upsert(rows)) => UpsertAll(store, rows)
    case Some(DeleteVertices(vids)) => Without(store, vids)
    case _ => store
  }

  function ExecuteAll(read: StatementReader, store: Store, texts: seq<string>): Store
    decreases texts
  {
    if texts == [] then store else ExecuteAll(read, Execute(read, store, texts[0]), texts[1..])
  }

  // Upserting is overriding by a map that depends on the rows alone.

  lemma {:induction false} UpsertOverrides(store: Store, rows: seq<Row>)
    ensures UpsertAll(store, rows) == store + UpsertAll(map[], rows)
    decreases rows
  {
    if rows != [] {
      var k, cells := KeyOf(rows[0]), rows[0].cells;
      UpsertOverrides(store[k := cells], rows[1..]);
      UpsertOverrides(map[k := cells], rows[1..]);
      var later := UpsertAll(map[], rows[1..]);
      assert store[k := cells] + later == store + (map[k := cells] + later);
    }
  }

  lemma {:induction false} UpsertConcat(store: Store, a: seq<Row>, b: seq<Row>)
    ensures UpsertAll(store, a + b) == UpsertAll(UpsertAll(store, a), b)
    decreases a
  {
    if a == [] {
      assert a + b == b;
    } else {
      assert (a + b)[1..] == a[1..] + b;
      UpsertConcat(store[KeyOf(a[0]) := a[0].cells], a[1..], b);
    }
  }

  lemma {:induction false} UpsertKeys(rows: seq<Row>)
    ensures UpsertAll(map[], rows).Keys == set r | r in rows :: KeyOf(r)
  {
    if rows != [] {
      UpsertKeys(rows[1..]);
      UpsertOverrides(map[KeyOf(rows[0]) := rows[0].cells], rows[1..]);
      assert rows == [rows[0]] + rows[1..];
    }
  }

  /** Having executed some of the rows before does not change the outcome of executing all of them. */
  lemma UpsertAbsorbs(store: Store, some: seq<Row>, all: seq<Row>)
    requires forall r :: r in some ==> r in all
    ensures UpsertAll(UpsertAll(store, some), all) == UpsertAll(store, all)
  {
    UpsertOverrides(store, some);
    UpsertOverrides(store, all);
    UpsertOverrides(UpsertAll(store, some), all);
    UpsertKeys(some);
    UpsertKeys(all);
    assert UpsertAll(map[], some).Keys <= UpsertAll(map[], all).Keys;
    assert (store + UpsertAll(map[], some)) + UpsertAll(map[], all) == store + UpsertAll(map[], all);
  }

  // Texts that only upsert.

  function RowsIn(read: StatementReader, text: string): seq<Row> {
    match read(text) case Some(Upsert(rows)) => rows case _ => []
  }

  function RowsInAll(read: StatementReader, texts: seq<string>): seq<Row> {
    if texts == [] then [] else RowsIn(read, texts[0]) + RowsInAll(read, texts[1..])
  }

  ghost predicate NoDeletes(read: StatementReader, texts: seq<string>) {
    forall t :: t in texts ==> !(read(t).Some? && read(t).value.DeleteVertices?)
  }

  lemma {:induction false} ExecuteUpserts(read: StatementReader, store: Store, texts: seq<string>)
    requires NoDeletes(read, texts)
    ensures ExecuteAll(read, store, texts) == UpsertAll(store, RowsInAll(read, texts))
    decreases texts
  {
    if texts != [] {
      assert texts[0] in texts;
      ExecuteUpserts(read, Execute(read, store, texts[0]), texts[1..]);
      UpsertConcat(store, RowsIn(read, texts[0]), RowsInAll(read, texts[1..]));
    }
  }

  lemma {:induction false} RowsInAllConcat(read: StatementReader, a: seq<string>, b: seq<string>)
    ensures RowsInAll(read, a + b) == RowsInAll(read, a) + RowsInAll(read, b)
  {
    if a == [] {
      assert a + b == b;
    } else {
      assert (a + b)[1..] == a[1..] + b;
      RowsInAllConcat(read, a[1..], b);
    }
  }

  ghost predicate Prefixes(attempts: seq<nat>, texts: seq<string>) {
    forall i :: 0 <= i < |attempts| ==> attempts[i] <= |texts|
  }

  /** Deliveries abandoned after so many statements each. */
  function Replay(read: StatementReader, store: Store, texts: seq<string>, attempts: seq<nat>): Store
    requires Prefixes(attempts, texts)
    decreases attempts
  {
    if attempts == [] then store
    else Replay(read, ExecuteAll(read, store, texts[..attempts[0]]), texts, attempts[1..])
  }

  /** Any number of abandoned deliveries, each stopping anywhere, before one that runs to the end. */
  lemma {:induction false} RetriesAreIdempotent(read: StatementReader, store: Store, texts: seq<string>,
                                                attempts: seq<nat>)
    requires NoDeletes(read, texts) && Prefixes(attempts, texts)
    ensures ExecuteAll(read, Replay(read, store, texts, attempts), texts) == ExecuteAll(read, store, texts)
    decreases attempts
  {
    if attempts != [] {
      var done, left := texts[..attempts[0]], texts[attempts[0]..];
      assert texts == done + left;
      RetriesAreIdempotent(read, ExecuteAll(read, store, done), texts, attempts[1..]);
      ExecuteUpserts(read, store, done);
      ExecuteUpserts(read, UpsertAll(store, RowsInAll(read, done)), texts);
      ExecuteUpserts(read, store, texts);
      RowsInAllConcat(read, done, left);
      UpsertAbsorbs(store, RowsInAll(read, done), RowsInAll(read, texts));
    }
  }

  // A rendered snapshot.

  ghost predicate ReadsChunks<X(!new)>(read: StatementReader, render: seq<X> -> string, rowsOf: seq<X> -> seq<Row>) {
    forall c :: c != [] ==> read(render(c)) == Some(Upsert(rowsOf(c)))
  }

  ghost predicate Additive<X(!new)>(rowsOf: seq<X> -> seq<Row>) {
    rowsOf([]) == [] && forall a, b :: rowsOf(a + b) == rowsOf(a) + rowsOf(b)
  }

  /** However the rows fall into chunks, the statements together hold exactly the rows, in order. */
  lemma {:induction false} ChunkedRows<X(!new)>(read: StatementReader, render: seq<X> -> string,
                                                rowsOf: seq<X> -> seq<Row>, s: seq<X>)
    requires ReadsChunks(read, render, rowsOf) && Additive(rowsOf)
    ensures RowsInAll(read, RenderChunks(render, s)) == rowsOf(s)
    ensures NoDeletes(read, RenderChunks(render, s))
    decreases |s|
  {
    RenderChunksStep(render, s);
    if |s| > CHUNK {
      var head, tail := s[..CHUNK], s[CHUNK..];
      ChunkedRows(read, render, rowsOf, tail);
      assert s == head + tail;
      RowsInAllConcat(read, [render(head)], RenderChunks(render, tail));
      OneText(read, render(head), rowsOf(head));
    } else if s != [] {
      OneText(read, render(s), rowsOf(s));
    }
  }

  lemma OneText(read: StatementReader, text: string, rows: seq<Row>)
    requires read(text) == Some(Upsert(rows))
    ensures RowsInAll(read, [text]) == rows
  {
    assert RowsInAll(read, [text][1..]) == [];
  }

  function VertexRowsFor(l: Layout, fmt: NumberFormat): seq<Vertex> -> seq<Row> {
    vs => VertexRowsOf(l, fmt, vs)
  }

  function EdgeRowsFor(l: Layout, fmt: NumberFormat): seq<Edge> -> seq<Row> {
    es => EdgeRowsOf(l, fmt, es)
  }

  function SnapshotRows(l: Layout, fmt: NumberFormat, snapshot: Snapshot): seq<Row> {
    VertexRowsOf(l, fmt, snapshot.vertices) + EdgeRowsOf(l, fmt, snapshot.edges)
  }

  lemma VertexRowsAdd(l: Layout, fmt: NumberFormat)
    ensures Additive(VertexRowsFor(l, fmt))
  {
    forall a, b ensures VertexRowsFor(l, fmt)(a + b) == VertexRowsFor(l, fmt)(a) + VertexRowsFor(l, fmt)(b) {
      assert VertexRowsOf(l, fmt, a + b) == VertexRowsOf(l, fmt, a) + VertexRowsOf(l, fmt, b);
    }
  }

  lemma VertexChunksRead(l: Layout, fmt: NumberFormat)
    requires FormatsNumbers(fmt) && l.nodeProps != []
    ensures ReadsChunks(ReaderOf(l), VertexInsert(l, fmt), VertexRowsFor(l, fmt)) && Additive(VertexRowsFor(l, fmt))
  {
    forall c | c != [] ensures ReaderOf(l)(VertexInsert(l, fmt)(c)) == Some(Upsert(VertexRowsFor(l, fmt)(c))) {
      VertexInsertReads(l, fmt, c);
    }
    VertexRowsAdd(l, fmt);
  }

  lemma EdgeRowsAdd(l: Layout, fmt: NumberFormat)
    ensures Additive(EdgeRowsFor(l, fmt))
  {
    forall a, b ensures EdgeRowsFor(l, fmt)(a + b) == EdgeRowsFor(l, fmt)(a) + EdgeRowsFor(l, fmt)(b) {
      assert EdgeRowsOf(l, fmt, a + b) == EdgeRowsOf(l, fmt, a) + EdgeRowsOf(l, fmt, b);
    }
  }

  lemma EdgeChunksRead(l: Layout, fmt: NumberFormat)
    requires FormatsNumbers(fmt) && l.edgeProps != []
    ensures ReadsChunks(ReaderOf(l), EdgeInsert(l, fmt), EdgeRowsFor(l, fmt)) && Additive(EdgeRowsFor(l, fmt))
  {
    forall c | c != [] ensures ReaderOf(l)(EdgeInsert(l, fmt)(c)) == Some(Upsert(EdgeRowsFor(l, fmt)(c))) {
      EdgeInsertReads(l, fmt, c);
    }
    EdgeRowsAdd(l, fmt);
  }

  lemma CreatedReads(l: Layout, bodies: seq<string>, t: string)
    requires t in Created(bodies)
    ensures ReaderOf(l)(t) == Some(Schema)
  {
    var i :| 0 <= i < |bodies| && Created(bodies)[i] == t;
    SchemaReads(l, bodies[i]);
  }

  lemma {:induction false} QuietTexts(read: StatementReader, texts: seq<string>)
    requires forall t :: t in texts ==> read(t) == Some(Schema)
    ensures RowsInAll(read, texts) == [] && NoDeletes(read, texts)
  {
    if texts != [] {
      assert texts[0] in texts;
      QuietTexts(read, texts[1..]);
    }
  }

  lemma QuietSchema(l: Layout, bodies: seq<string>)
    ensures RowsInAll(ReaderOf(l), Created(bodies)) == [] && NoDeletes(ReaderOf(l), Created(bodies))
  {
    forall t | t in Created(bodies) ensures ReaderOf(l)(t) == Some(Schema) {
      CreatedReads(l, bodies, t);
    }
    QuietTexts(ReaderOf(l), Created(bodies));
  }

  lemma ThreeParts(read: StatementReader, a: seq<string>, b: seq<string>, c: seq<string>, rb: seq<Row>, rc: seq<Row>)
    requires NoDeletes(read, a) && NoDeletes(read, b) && NoDeletes(read, c)
    requires RowsInAll(read, a) == [] && RowsInAll(read, b) == rb && RowsInAll(read, c) == rc
    ensures NoDeletes(read, a + b + c) && RowsInAll(read, a + b + c) == rb + rc
  {
    RowsInAllConcat(read, a, b);
    RowsInAllConcat(read, a + b, c);
  }

  /** The text of a snapshot holds exactly the snapshot's rows. */
  lemma SnapshotTextHolds(l: Layout, fmt: NumberFormat, snapshot: Snapshot)
    requires FormatsNumbers(fmt) && l.nodeProps != [] && l.edgeProps != []
    ensures RowsInAll(ReaderOf(l), SnapshotStatements(l, fmt, snapshot)) == SnapshotRows(l, fmt, snapshot)
    ensures NoDeletes(ReaderOf(l), SnapshotStatements(l, fmt, snapshot))
  {
    var read := ReaderOf(l);
    QuietSchema(l, SchemaBodies(l));
    VertexChunksRead(l, fmt);
    ChunkedRows(read, VertexInsert(l, fmt), VertexRowsFor(l, fmt), snapshot.vertices);
    EdgeChunksRead(l, fmt);
    ChunkedRows(read, EdgeInsert(l, fmt), EdgeRowsFor(l, fmt), snapshot.edges);
    ThreeParts(read, Created(SchemaBodies(l)), RenderChunks(VertexInsert(l, fmt), snapshot.vertices),
               RenderChunks(EdgeInsert(l, fmt), snapshot.edges),
               VertexRowsOf(l, fmt, snapshot.vertices), EdgeRowsOf(l, fmt, snapshot.edges));
  }

  ghost predicate DistinctKeys(rows: seq<Row>) {
    forall i, j :: 0 <= i < j < |rows| ==> KeyOf(rows[i]) != KeyOf(rows[j])
  }

  lemma {:induction false} UpsertDistinct(rows: seq<Row>, i: nat)
    requires DistinctKeys(rows) && i < |rows|
    ensures KeyOf(rows[i]) in UpsertAll(map[], rows) && UpsertAll(map[], rows)[KeyOf(rows[i])] == rows[i].cells
  {
    UpsertOverrides(map[KeyOf(rows[0]) := rows[0].cells], rows[1..]);
    if i > 0 {
      UpsertDistinct(rows[1..], i - 1);
    } else {
      UpsertKeys(rows[1..]);
      assert forall r :: r in rows[1..] ==> KeyOf(r) != KeyOf(rows[0]);
    }
  }

  /** The store holds these rows under their keys, and nothing else. */
  ghost predicate Holds(store: Store, rows: seq<Row>) {
    && store.Keys == (set r | r in rows :: KeyOf(r))
    && forall i :: 0 <= i < |rows| ==> KeyOf(rows[i]) in store && store[KeyOf(rows[i])] == rows[i].cells
  }

  lemma DistinctRowsHeld(rows: seq<Row>)
    requires DistinctKeys(rows)
    ensures Holds(UpsertAll(map[], rows), rows)
  {
    UpsertKeys(rows);
    forall i | 0 <= i < |rows|
      ensures KeyOf(rows[i]) in UpsertAll(map[], rows) && UpsertAll(map[], rows)[KeyOf(rows[i])] == rows[i].cells
    {
      UpsertDistinct(rows, i);
    }
  }

  /**
   * Executing a rendered snapshot on an empty store, after any number of abandoned deliveries,
   * stores exactly its rows, when vids and (from, to, rank) triples are distinct.
   */
  lemma DeliveredSnapshotIsExact(l: Layout, fmt: NumberFormat, snapshot: Snapshot, texts: seq<string>,
                                 attempts: seq<nat>)
    requires FormatsNumbers(fmt) && l.nodeProps != [] && l.edgeProps != []
    requires texts == SnapshotStatements(l, fmt, snapshot) && Prefixes(attempts, texts)
    requires DistinctKeys(SnapshotRows(l, fmt, snapshot))
    ensures Holds(ExecuteAll(ReaderOf(l), Replay(ReaderOf(l), map[], texts, attempts), texts),
                  SnapshotRows(l, fmt, snapshot))
  {
    var read, rows := ReaderOf(l), SnapshotRows(l, fmt, snapshot);
    SnapshotTextHolds(l, fmt, snapshot);
    RetriesAreIdempotent(read, map[], texts, attempts);
    ExecuteUpserts(read, map[], texts);
    DistinctRowsHeld(rows);
  }

  /** A list has as many different members as places exactly when it has no duplicates. */
  lemma {:induction false} DistinctCount(keys: seq<Key>)
    ensures |Elements(keys)| <= |keys| && (|Elements(keys)| == |keys| <==> Distinct(keys))
    decreases |keys|
  {
    if keys != [] {
      var init, last := keys[..|keys| - 1], keys[|keys| - 1];
      DistinctCount(init);
      assert keys == init + [last];
      assert Elements(keys) == Elements(init) + {last};
      DistinctNext(init, last);
    }
  }

  lemma DistinctNext(init: seq<Key>, last: Key)
    ensures Distinct(init + [last]) <==> Distinct(init) && last !in Elements(init)
  {
    var keys := init + [last];
    if Distinct(keys) {
      forall i, j | 0 <= i < j < |init| ensures init[i] != init[j] { assert keys[i] != keys[j]; }
      forall i | 0 <= i < |init| ensures init[i] != last { assert keys[i] != keys[|init|]; }
    }
  }

  function KeysOf(rows: seq<Row>): (keys: seq<Key>)
    ensures |keys| == |rows| && forall i :: 0 <= i < |rows| ==> keys[i] == KeyOf(rows[i])
  {
    seq(|rows|, i requires 0 <= i < |rows| => KeyOf(rows[i]))
  }

  /** Storing rows keeps one for each exactly when their keys are distinct. */
  lemma StoredCount(rows: seq<Row>)
    ensures |UpsertAll(map[], rows)| == |rows| <==> DistinctKeys(rows)
  {
    UpsertKeys(rows);
    DistinctCount(KeysOf(rows));
    var store := UpsertAll(map[], rows);
    assert store.Keys == Elements(KeysOf(rows));
    assert |store| == |store.Keys|;
  }

  /** What delivering a snapshot stores, after any number of abandoned deliveries. */
  lemma DeliveredRows(l: Layout, fmt: NumberFormat, snapshot: Snapshot, texts: seq<string>, attempts: seq<nat>)
    returns (store: Store, rows: seq<Row>)
    requires FormatsNumbers(fmt) && l.nodeProps != [] && l.edgeProps != []
    requires texts == SnapshotStatements(l, fmt, snapshot) && Prefixes(attempts, texts)
    ensures store == ExecuteAll(ReaderOf(l), Replay(ReaderOf(l), map[], texts, attempts), texts)
    ensures rows == SnapshotRows(l, fmt, snapshot) && store == UpsertAll(map[], rows)
  {
    var read := ReaderOf(l);
    rows := SnapshotRows(l, fmt, snapshot);
    SnapshotTextHolds(l, fmt, snapshot);
    RetriesAreIdempotent(read, map[], texts, attempts);
    ExecuteUpserts(read, map[], texts);
    store := UpsertAll(map[], rows);
  }

  // Rendered deletions.

  ghost predicate ReadsDeletes(read: StatementReader, render: seq<string> -> string) {
    forall vids :: vids != [] ==> read(render(vids)) == Some(DeleteVertices(vids))
  }

  lemma WithoutConcat(store: Store, a: seq<string>, b: seq<string>)
    ensures Without(Without(store, a), b) == Without(store, a + b)
  {
  }

  lemma {:induction false} ChunkedDeletes(read: StatementReader, render: seq<string> -> string, store: Store,
                                          vids: seq<string>)
    requires ReadsDeletes(read, render)
    ensures ExecuteAll(read, store, RenderChunks(render, vids)) == Without(store, vids)
    decreases |vids|
  {
    var texts := RenderChunks(render, vids);
    RenderChunksStep(render, vids);
    if |vids| > CHUNK {
      var head, tail := vids[..CHUNK], vids[CHUNK..];
      assert texts[0] == render(head) && texts[1..] == RenderChunks(render, tail);
      ChunkedDeletes(read, render, Without(store, head), tail);
      WithoutConcat(store, head, tail);
      assert vids == head + tail;
    } else if vids != [] {
      assert texts[0] == render(vids) && texts[1..] == [];
    }
  }

  /** Executing the rendered deletions removes exactly the listed vertices and their edges. */
  lemma DeletionsRemove(l: Layout, store: Store, vids: seq<string>)
    ensures ExecuteAll(ReaderOf(l), store, RenderChunks(RenderDelete, vids)) == Without(store, vids)
  {
    forall vs: seq<string> | vs != [] ensures ReaderOf(l)(RenderDelete(vs)) == Some(DeleteVertices(vs)) {
      DeleteReads(l, vs);
    }
    ChunkedDeletes(ReaderOf(l), RenderDelete, store, vids);
  }
}
