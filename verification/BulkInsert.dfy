/**
 * Inserting a manifest's files with multi-row statements, and loading them back.  A statement is
 * its columns, its rows of parameter numbers and its list of parameters; `Executed` says which
 * table rows the database makes of it.
 */
module BulkInsert {
  import opened Basics
  import opened Manifests
  import M = ManifestTable

  datatype Value =
    | TextValue(text: string)
    | NullableText(textOrNull: Option<string>)
    | Flag(flag: bool)
    | ArtifactsValue(artifacts: Option<map<IndexerKind, string>>)

  datatype Column = Id | Path | ContentHash | Language | ProjectRoot | Generated | Vendor | Test | Artifacts | ManifestId

  /** One row of the file table. */
  datatype TableRow = TableRow(
    id: string,
    path: string,
    contentHash: string,
    language: Option<string>,
    projectRoot: Option<string>,
    generated: bool,
    vendor: bool,
    test: bool,
    artifacts: Option<map<IndexerKind, string>>,
    manifestId: string)

  datatype Statement = Statement(columns: seq<Column>, rows: seq<seq<nat>>, params: seq<Value>)

  const COLUMNS := [Id, Path, ContentHash, Language, ProjectRoot, Generated, Vendor, Test, Artifacts, ManifestId]
  const PARAMS_PER_ROW := 9
  const MAX_PARAMS := 60_000
  const MAX_CHUNK := MAX_PARAMS / PARAMS_PER_ROW

  /** The parameters pushed for one file, in order. */
  function RowParams(id: string, f: ManifestFile): (r: seq<Value>)
    ensures |r| == PARAMS_PER_ROW
  {
    [TextValue(id), TextValue(f.path), TextValue(f.contentHash), NullableText(f.language), NullableText(f.projectRoot),
     Flag(UnwrapOr(f.generated, false)), Flag(UnwrapOr(f.vendor, false)), Flag(UnwrapOr(f.test, false)), ArtifactsValue(f.artifacts)]
  }

  // The database.

  ghost function InColumn(row: TableRow, c: Column): Value {
    match c
    case Id => TextValue(row.id)
    case Path => TextValue(row.path)
    case ContentHash => TextValue(row.contentHash)
    case Language => NullableText(row.language)
    case ProjectRoot => NullableText(row.projectRoot)
    case Generated => Flag(row.generated)
    case Vendor => Flag(row.vendor)
    case Test => Flag(row.test)
    case Artifacts => ArtifactsValue(row.artifacts)
    case ManifestId => TextValue(row.manifestId)
  }

  /** Each listed column takes the parameter its place names; parameter numbers count from one. */
  ghost predicate Stores(columns: seq<Column>, numbers: seq<nat>, params: seq<Value>, row: TableRow) {
    && |numbers| == |columns|
    && forall c :: 0 <= c < |columns| ==>
         1 <= numbers[c] <= |params| && params[numbers[c] - 1] == InColumn(row, columns[c])
  }

  ghost predicate Executed(s: Statement, table: seq<TableRow>) {
    |table| == |s.rows| && forall r :: 0 <= r < |table| ==> Stores(s.columns, s.rows[r], s.params, table[r])
  }

  /** The statements in turn append these rows to the table. */
  ghost predicate AllExecuted(ss: seq<Statement>, table: seq<TableRow>)
    decreases |ss|
  {
    if ss == [] then table == []
    else
      var init, last := ss[..|ss| - 1], ss[|ss| - 1];
      |last.rows| <= |table| && AllExecuted(init, table[..|table| - |last.rows|])
      && Executed(last, table[|table| - |last.rows|..])
  }

  /** What a row holds of a file. */
  ghost predicate Holds(row: TableRow, manifestId: string, id: string, f: ManifestFile) {
    && row.id == id && row.manifestId == manifestId
    && row.path == f.path && row.contentHash == f.contentHash
    && row.language == f.language && row.projectRoot == f.projectRoot
    && row.generated == UnwrapOr(f.generated, false) && row.vendor == UnwrapOr(f.vendor, false)
    && row.test == UnwrapOr(f.test, false) && row.artifacts == f.artifacts
  }

  ghost predicate Inserted(table: seq<TableRow>, manifestId: string, ids: seq<string>, files: seq<ManifestFile>) {
    && |table| == |ids| == |files|
    && forall i :: 0 <= i < |files| ==> Holds(table[i], manifestId, ids[i], files[i])
  }

  // One chunk.

  function Placeholders(i: nat, manifestIdIndex: nat): (r: seq<nat>)
    ensures |r| == 10
  {
    var base := i * PARAMS_PER_ROW;
    [base + 1, base + 2, base + 3, base + 4, base + 5, base + 6, base + 7, base + 8, base + 9, manifestIdIndex]
  }

  /** The parameters of the first rows, row by row. */
  ghost predicate Pushed(ids: seq<string>, files: seq<ManifestFile>, n: nat, params: seq<Value>)
    requires |ids| == |files| && n <= |files|
  {
    && |params| == n * PARAMS_PER_ROW
    && forall i: nat, c: nat :: i < n && c < PARAMS_PER_ROW ==> ParamAt(params, i, c) == RowParams(ids[i], files[i])[c]
  }

  ghost function ParamAt(params: seq<Value>, i: nat, c: nat): Value
    requires i * PARAMS_PER_ROW + c < |params|
  {
    params[i * PARAMS_PER_ROW + c]
  }

  lemma PushedNext(ids: seq<string>, files: seq<ManifestFile>, n: nat, params: seq<Value>)
    requires |ids| == |files| && n < |files| && Pushed(ids, files, n, params)
    ensures Pushed(ids, files, n + 1, params + RowParams(ids[n], files[n]))
  {
    var next := params + RowParams(ids[n], files[n]);
    forall i: nat, c: nat | i < n + 1 && c < PARAMS_PER_ROW
      ensures ParamAt(next, i, c) == RowParams(ids[i], files[i])[c]
    {
      if i < n {
        assert ParamAt(next, i, c) == ParamAt(params, i, c);
      } else {
        assert next[n * PARAMS_PER_ROW + c] == RowParams(ids[n], files[n])[c];
      }
    }
  }

  /** A row's placeholders name the parameters pushed for that row, and the last one the manifest. */
  lemma RowBinds(manifestId: string, ids: seq<string>, files: seq<ManifestFile>, params: seq<Value>, i: nat)
    requires |ids| == |files| && Pushed(ids, files, |files|, params) && i < |files|
    ensures var row, all := Placeholders(i, |files| * PARAMS_PER_ROW + 1), params + [TextValue(manifestId)];
            && (forall c :: 0 <= c < |row| ==> 1 <= row[c] <= |all|)
            && (forall c :: 0 <= c < PARAMS_PER_ROW ==> all[row[c] - 1] == RowParams(ids[i], files[i])[c])
            && all[row[PARAMS_PER_ROW] - 1] == TextValue(manifestId)
  {
    var row, all := Placeholders(i, |files| * PARAMS_PER_ROW + 1), params + [TextValue(manifestId)];
    forall c | 0 <= c < PARAMS_PER_ROW
      ensures 1 <= row[c] <= |all| && all[row[c] - 1] == RowParams(ids[i], files[i])[c]
    {
      assert row[c] == i * PARAMS_PER_ROW + c + 1;
      assert ParamAt(params, i, c) == RowParams(ids[i], files[i])[c];
    }
  }

  /** The parameters of a row that holds the file, column by column. */
  lemma HeldInColumns(manifestId: string, id: string, f: ManifestFile, row: TableRow)
    ensures |COLUMNS| == 10
    ensures Holds(row, manifestId, id, f) <==>
            && (forall c :: 0 <= c < PARAMS_PER_ROW ==> InColumn(row, COLUMNS[c]) == RowParams(id, f)[c])
            && InColumn(row, COLUMNS[9]) == TextValue(manifestId)
  {
    var pushed, columns := RowParams(id, f), COLUMNS;
    assert columns[0] == Id && columns[1] == Path && columns[2] == ContentHash && columns[3] == Language;
    assert columns[4] == ProjectRoot && columns[5] == Generated && columns[6] == Vendor && columns[7] == Test;
    assert columns[8] == Artifacts && columns[9] == ManifestId;
  }

  /** With the columns in this order, a row's parameters store exactly its file. */
  lemma RowStores(numbers: seq<nat>, params: seq<Value>, manifestId: string, id: string, f: ManifestFile, row: TableRow)
    requires |numbers| == |COLUMNS| && forall c :: 0 <= c < |numbers| ==> 1 <= numbers[c] <= |params|
    requires forall c :: 0 <= c < PARAMS_PER_ROW ==> params[numbers[c] - 1] == RowParams(id, f)[c]
    requires params[numbers[PARAMS_PER_ROW] - 1] == TextValue(manifestId)
    ensures Stores(COLUMNS, numbers, params, row) <==> Holds(row, manifestId, id, f)
  {
    HeldInColumns(manifestId, id, f, row);
  }

  ghost predicate WellFormed(s: Statement, manifestId: string) {
    && 1 <= |s.params| <= 59_995 && s.params[|s.params| - 1] == TextValue(manifestId)
    && forall r :: 0 <= r < |s.rows| ==> |s.rows[r]| == 10 && s.rows[r][9] == |s.params|
  }

  lemma ChunkStores(s: Statement, manifestId: string, ids: seq<string>, chunk: seq<ManifestFile>, params: seq<Value>,
                    table: seq<TableRow>)
    requires |ids| == |chunk| == |s.rows| <= MAX_CHUNK && Pushed(ids, chunk, |chunk|, params)
    requires s.columns == COLUMNS && s.params == params + [TextValue(manifestId)]
    requires forall i :: 0 <= i < |chunk| ==> s.rows[i] == Placeholders(i, |chunk| * PARAMS_PER_ROW + 1)
    ensures Executed(s, table) <==> Inserted(table, manifestId, ids, chunk)
  {
    if |table| == |chunk| {
      forall i | 0 <= i < |chunk|
        ensures Stores(COLUMNS, s.rows[i], s.params, table[i]) <==> Holds(table[i], manifestId, ids[i], chunk[i])
      {
        RowBinds(manifestId, ids, chunk, params, i);
        RowStores(s.rows[i], s.params, manifestId, ids[i], chunk[i], table[i]);
      }
    }
  }

  method InsertChunk(manifestId: string, ids: seq<string>, chunk: seq<ManifestFile>) returns (s: Statement)
    requires |ids| == |chunk| <= MAX_CHUNK
    ensures WellFormed(s, manifestId) && |s.rows| == |chunk|
    ensures forall table :: Executed(s, table) <==> Inserted(table, manifestId, ids, chunk)
  {
    var rows: seq<seq<nat>> := [];
    var params: seq<Value> := [];
    var manifestIdIndex := |chunk| * PARAMS_PER_ROW + 1;
    for i := 0 to |chunk|
      invariant |rows| == i && forall j :: 0 <= j < i ==> rows[j] == Placeholders(j, manifestIdIndex)
      invariant Pushed(ids, chunk, i, params)
    {
      rows := rows + [Placeholders(i, manifestIdIndex)];
      PushedNext(ids, chunk, i, params);
      params := params + RowParams(ids[i], chunk[i]);
    }
    s := Statement(COLUMNS, rows, params + [TextValue(manifestId)]);
    forall table ensures Executed(s, table) <==> Inserted(table, manifestId, ids, chunk) {
      ChunkStores(s, manifestId, ids, chunk, params, table);
    }
  }

  // All chunks.

  lemma InsertedSplits(table: seq<TableRow>, manifestId: string, ids: seq<string>, files: seq<ManifestFile>, m: nat,
                       n: nat)
    requires |ids| == |files| && m <= n <= |files| && n - m <= |table|
    ensures var k := |table| - (n - m);
            Inserted(table, manifestId, ids[..n], files[..n]) <==>
            Inserted(table[..k], manifestId, ids[..m], files[..m]) && Inserted(table[k..], manifestId, ids[m..n], files[m..n])
  {
    var k := |table| - (n - m);
    if |table| == n {
      if Inserted(table, manifestId, ids[..n], files[..n]) {
        forall i | 0 <= i < n - m ensures Holds(table[k..][i], manifestId, ids[m..n][i], files[m..n][i]) {
          assert Holds(table[m + i], manifestId, ids[..n][m + i], files[..n][m + i]);
        }
        forall i | 0 <= i < m ensures Holds(table[..k][i], manifestId, ids[..m][i], files[..m][i]) {
          assert Holds(table[i], manifestId, ids[..n][i], files[..n][i]);
        }
      }
      if Inserted(table[..k], manifestId, ids[..m], files[..m]) && Inserted(table[k..], manifestId, ids[m..n], files[m..n]) {
        forall i | 0 <= i < n ensures Holds(table[i], manifestId, ids[..n][i], files[..n][i]) {
          if i < m {
            assert Holds(table[..k][i], manifestId, ids[..m][i], files[..m][i]);
          } else {
            assert Holds(table[k..][i - m], manifestId, ids[m..n][i - m], files[m..n][i - m]);
          }
        }
      }
    }
  }

  /** The statements so far insert exactly the files so far. */
  ghost predicate InsertsExactly(ss: seq<Statement>, manifestId: string, ids: seq<string>, files: seq<ManifestFile>) {
    forall table :: AllExecuted(ss, table) <==> Inserted(table, manifestId, ids, files)
  }

  lemma InsertsNext(ss: seq<Statement>, s: Statement, manifestId: string, ids: seq<string>, files: seq<ManifestFile>,
                    m: nat, n: nat)
    requires |ids| == |files| && m <= n <= |files| && |s.rows| == n - m
    requires InsertsExactly(ss, manifestId, ids[..m], files[..m])
    requires forall table :: Executed(s, table) <==> Inserted(table, manifestId, ids[m..n], files[m..n])
    ensures InsertsExactly(ss + [s], manifestId, ids[..n], files[..n])
  {
    assert (ss + [s])[..|ss|] == ss;
    forall table ensures AllExecuted(ss + [s], table) <==> Inserted(table, manifestId, ids[..n], files[..n]) {
      if n - m <= |table| { InsertedSplits(table, manifestId, ids, files, m, n); }
    }
  }

  /**
   * The rows the statements insert are exactly these: every file once, in order, with its own
   * columns, under the manifest; no statement binds more than 59,995 parameters.
   */
  method BulkInsertFiles(manifestId: string, ids: seq<string>, files: seq<ManifestFile>) returns (ss: seq<Statement>)
    requires |ids| == |files|
    ensures forall i :: 0 <= i < |ss| ==> WellFormed(ss[i], manifestId)
    ensures InsertsExactly(ss, manifestId, ids, files)
  {
    ss := [];
    var start := 0;
    while start < |files|
      invariant 0 <= start <= |files|
      invariant forall i :: 0 <= i < |ss| ==> WellFormed(ss[i], manifestId)
      invariant InsertsExactly(ss, manifestId, ids[..start], files[..start])
    {
      var end := if |files| - start <= MAX_CHUNK then |files| else start + MAX_CHUNK;
      var s := InsertChunk(manifestId, ids[start..end], files[start..end]);
      InsertsNext(ss, s, manifestId, ids, files, start, end);
      ss := ss + [s];
      start := end;
    }
    assert ids[..start] == ids && files[..start] == files;
  }

  /** Executing the statements is possible, and only one sequence of rows comes of it. */
  lemma InsertIsDetermined(ss: seq<Statement>, manifestId: string, ids: seq<string>, files: seq<ManifestFile>)
    returns (rows: seq<TableRow>)
    requires |ids| == |files| && InsertsExactly(ss, manifestId, ids, files)
    ensures AllExecuted(ss, rows) && Inserted(rows, manifestId, ids, files)
    ensures forall other :: AllExecuted(ss, other) ==> other == rows
  {
    rows := seq(|files|, i requires 0 <= i < |files| =>
      TableRow(ids[i], files[i].path, files[i].contentHash, files[i].language, files[i].projectRoot,
               UnwrapOr(files[i].generated, false), UnwrapOr(files[i].vendor, false),
               UnwrapOr(files[i].test, false), files[i].artifacts, manifestId));
    forall i | 0 <= i < |files| ensures Holds(rows[i], manifestId, ids[i], files[i]) {
    }
    forall other | AllExecuted(ss, other) ensures other == rows {
      assert Inserted(other, manifestId, ids, files);
      forall i | 0 <= i < |files| ensures other[i] == rows[i] {
        assert Holds(other[i], manifestId, ids[i], files[i]);
      }
    }
  }

  // Loading back.

  /** `load_manifest_files` on one row; an artifact object without entries reads as absent. */
  function FileOf(row: TableRow): ManifestFile {
    ManifestFile(row.path, row.contentHash, row.language, row.projectRoot, Some(row.generated), Some(row.vendor),
                 Some(row.test), if row.artifacts == Some(map[]) then None else row.artifacts)
  }

  /** The table's rows of one manifest, in table order. */
  function Loaded(table: seq<TableRow>, manifestId: string): seq<ManifestFile> {
    if table == [] then []
    else
      var last := table[|table| - 1];
      Loaded(table[..|table| - 1], manifestId) + if last.manifestId == manifestId then [FileOf(last)] else []
  }

  method LoadManifestFiles(table: seq<TableRow>, manifestId: string) returns (files: seq<ManifestFile>)
    ensures files == Loaded(table, manifestId)
  {
    files := [];
    for i := 0 to |table|
      invariant files == Loaded(table[..i], manifestId)
    {
      assert table[..i + 1][..i] == table[..i];
      if table[i].manifestId == manifestId {
        files := files + [FileOf(table[i])];
      }
    }
    assert table[..|table|] == table;
  }

  /** The files as the table keeps them. */
  ghost function Kept(files: seq<ManifestFile>): (r: seq<ManifestFile>)
    ensures |r| == |files| && forall i :: 0 <= i < |files| ==> r[i] == M.LoadedFile(files[i])
  {
    seq(|files|, i requires 0 <= i < |files| => M.LoadedFile(files[i]))
  }

  lemma HeldFile(row: TableRow, manifestId: string, id: string, f: ManifestFile)
    requires Holds(row, manifestId, id, f)
    ensures row.manifestId == manifestId && FileOf(row) == M.LoadedFile(f)
  {
  }

  lemma LoadedNext(table: seq<TableRow>, row: TableRow, asked: string)
    ensures Loaded(table + [row], asked) == Loaded(table, asked) + if row.manifestId == asked then [FileOf(row)] else []
  {
    assert (table + [row])[..|table|] == table;
  }

  lemma KeptNext(files: seq<ManifestFile>, f: ManifestFile)
    ensures Kept(files + [f]) == Kept(files) + [M.LoadedFile(f)]
  {
  }

  lemma OneMoreLoaded(table: seq<TableRow>, rows: seq<TableRow>, row: TableRow, manifestId: string,
                      files: seq<ManifestFile>, f: ManifestFile)
    requires row.manifestId == manifestId && FileOf(row) == M.LoadedFile(f)
    requires Loaded(table + rows, manifestId) == Loaded(table, manifestId) + Kept(files)
    ensures Loaded(table + (rows + [row]), manifestId) == Loaded(table, manifestId) + Kept(files + [f])
  {
    LoadedNext(table + rows, row, manifestId);
    KeptNext(files, f);
    assert table + rows + [row] == table + (rows + [row]);
  }

  /** The first `n` of the inserted rows load as the first `n` files. */
  lemma {:induction false} LoadedOfInserted(table: seq<TableRow>, rows: seq<TableRow>, manifestId: string,
                                            ids: seq<string>, files: seq<ManifestFile>, n: nat)
    requires Inserted(rows, manifestId, ids, files) && n <= |rows|
    ensures Loaded(table + rows[..n], manifestId) == Loaded(table, manifestId) + Kept(files[..n])
    decreases n
  {
    if n == 0 {
      assert table + rows[..n] == table && Kept(files[..n]) == [];
    } else {
      var k := n - 1;
      LoadedOfInserted(table, rows, manifestId, ids, files, k);
      HeldFile(rows[k], manifestId, ids[k], files[k]);
      OneMoreLoaded(table, rows[..k], rows[k], manifestId, files[..k], files[k]);
      assert rows[..n] == rows[..k] + [rows[k]] && files[..n] == files[..k] + [files[k]];
    }
  }

  lemma {:induction false} LoadedOfOthers(table: seq<TableRow>, rows: seq<TableRow>, asked: string)
    requires forall i :: 0 <= i < |rows| ==> rows[i].manifestId != asked
    ensures Loaded(table + rows, asked) == Loaded(table, asked)
    decreases |rows|
  {
    if rows == [] {
      assert table + rows == table;
    } else {
      var n := |rows| - 1;
      LoadedOfOthers(table, rows[..n], asked);
      LoadedNext(table + rows[..n], rows[n], asked);
      assert table + rows == table + rows[..n] + [rows[n]];
    }
  }

  lemma NewRowsLoad(table: seq<TableRow>, rows: seq<TableRow>, manifestId: string, ids: seq<string>,
                    files: seq<ManifestFile>)
    requires forall i :: 0 <= i < |table| ==> table[i].manifestId != manifestId
    requires Inserted(rows, manifestId, ids, files)
    ensures Loaded(table + rows, manifestId) == Kept(files)
  {
    LoadedOfInserted(table, rows, manifestId, ids, files, |rows|);
    assert rows[..|rows|] == rows && files[..|rows|] == files;
    LoadedOfOthers([], table, manifestId);
    assert [] + table == table;
  }

  lemma OtherRowsLoad(table: seq<TableRow>, rows: seq<TableRow>, manifestId: string, ids: seq<string>,
                      files: seq<ManifestFile>, asked: string)
    requires Inserted(rows, manifestId, ids, files) && asked != manifestId
    ensures Loaded(table + rows, asked) == Loaded(table, asked)
  {
    forall i | 0 <= i < |rows| ensures rows[i].manifestId != asked {
      assert Holds(rows[i], manifestId, ids[i], files[i]);
    }
    LoadedOfOthers(table, rows, asked);
  }

  /**
   * Inserting a new manifest's files and selecting them again gives those files in order, each as
   * the table keeps it, and leaves what every other manifest loads as it was.
   */
  lemma InsertedFilesLoadBack(table: seq<TableRow>, ss: seq<Statement>, rows: seq<TableRow>, manifestId: string,
                              ids: seq<string>, m: Manifest, asked: string)
    requires forall i :: 0 <= i < |table| ==> table[i].manifestId != manifestId
    requires InsertsExactly(ss, manifestId, ids, m.files) && AllExecuted(ss, rows)
    ensures asked != manifestId ==> Loaded(table + rows, asked) == Loaded(table, asked)
    ensures Loaded(table + rows, manifestId) == Kept(m.files)
    ensures Elements(Loaded(table + rows, manifestId)) == M.StoredFiles(m)
  {
    NewRowsLoad(table, rows, manifestId, ids, m.files);
    if asked != manifestId { OtherRowsLoad(table, rows, manifestId, ids, m.files, asked); }
    KeptIsStored(m);
  }

  lemma KeptIsStored(m: Manifest)
    ensures Elements(Kept(m.files)) == M.StoredFiles(m)
  {
    forall f | f in m.files ensures M.LoadedFile(f) in Kept(m.files) {
      var i :| 0 <= i < |m.files| && m.files[i] == f;
      assert Kept(m.files)[i] == M.LoadedFile(f);
    }
  }
}
