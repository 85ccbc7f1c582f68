/** The two scanners as loops over a queue of directories. */
module WalkerScan {
  import opened Basics
  import T = Text
  import opened Walker
  import opened WalkerLaws

  // One language.

  method ReadFile(x: Extractor, language: string, maxBytes: nat, state: FileState, r: Scan) returns (r': Scan)
    ensures r' == ScanFile(x, language, maxBytes, state, r)
  {
    r' := r;
    match state
    case Plain(relative, size, text) =>
      if size > maxBytes || text.None? {
        r' := r'.(skipped := r'.skipped + 1);
        return;
      }
      var extracted := x(language, relative, text.value);
      match extracted {
        case Ok(facts) =>
          r' := r'.(facts := r'.facts + facts);
        case Err(error) =>
          r' := r'.(warnings := r'.warnings + [ParseFailed(language, relative, error)]);
          r' := r'.(skipped := r'.skipped + 1);
          return;
      }
      r' := r'.(scanned := r'.scanned + 1);
    case _ =>
      r' := r'.(skipped := r'.skipped + 1);
  }

  lemma EntriesNext(x: Extractor, t: Table, language: string, maxBytes: nat, es: seq<Entry>, i: nat, r: Scan)
    requires i < |es|
    ensures ScanEntries(x, t, language, maxBytes, es[..i + 1], r) ==
            ScanEntry(x, t, language, maxBytes, es[i], ScanEntries(x, t, language, maxBytes, es[..i], r))
  {
    assert es[..i + 1][..i] == es[..i];
  }

  lemma SubdirsNext(es: seq<Entry>, i: nat)
    requires i < |es|
    ensures Subdirs(es[..i + 1]) == Subdirs(es[..i]) + if Queues(es[i]) then [es[i].dir] else []
  {
    assert es[..i + 1][..i] == es[..i];
  }

  method ListDirectory(x: Extractor, t: Table, language: string, maxBytes: nat, es: seq<Entry>, rest: seq<Dir>, r: Scan)
    returns (queue: seq<Dir>, r': Scan)
    ensures queue == rest + Subdirs(es) && r' == ScanEntries(x, t, language, maxBytes, es, r)
  {
    queue, r' := rest, r;
    for i := 0 to |es|
      invariant queue == rest + Subdirs(es[..i]) && r' == ScanEntries(x, t, language, maxBytes, es[..i], r)
    {
      EntriesNext(x, t, language, maxBytes, es, i, r);
      SubdirsNext(es, i);
      match es[i] {
        case Symlink =>
          r' := r'.(skipped := r'.skipped + 1);
        case Folder(name, dir) =>
          if !IgnoredFolder(name) {
            queue := queue + [dir];
          }
        case File(extension, state) =>
          if Wants(t, language, extension) {
            r' := ReadFile(x, language, maxBytes, state, r');
          }
        case _ =>
      }
    }
    assert es[..|es|] == es;
  }

  /** `scan_syntactic_ast_facts`; the file limit is checked once per directory. */
  method ScanSyntacticAstFacts(x: Extractor, t: Table, language: string, o: Options) returns (r: Scan)
    ensures r == ScanOne(x, t, language, o).scan
    ensures WithinLimits(x, t, language, o) ==>
              Complete(x, t, language, LimitsOf(o).bytes, RootDir(o.root.value), r)
  {
    if WithinLimits(x, t, language, o) { UnlimitedWalkIsComplete(x, t, language, o); }
    r := NOTHING;
    if t(language).None? {
      r := Warn(r, NoExtractor(language));
      return;
    }
    if o.root.Err? {
      r := Warn(r, RootUnresolved(o.root.error));
      return;
    }
    var lim := LimitsOf(o);
    var queue, visited := [RootDir(o.root.value)], 0;
    while queue != []
      invariant Walk(x, t, language, lim, queue, visited, r) == ScanOne(x, t, language, o)
      decreases QueueWeight(queue)
    {
      if r.scanned >= lim.files {
        return;
      }
      if visited >= lim.directories {
        r := Warn(r, HitMaxDirectories(language, lim.directories));
        return;
      }
      ghost var next := NextQueue(queue);
      var current := queue[0];
      queue := queue[1..];
      visited := visited + 1;
      if current.inside && current.Listed? {
        queue, r := ListDirectory(x, t, language, lim.bytes, current.entries, queue, r);
      }
      assert queue == next;
    }
  }

  // Many languages.

  ghost predicate IndexesOf(names: seq<string>, wanted: string -> bool, indexes: seq<nat>) {
    Distinct(indexes) && forall i: nat :: i in indexes <==> i < |names| && wanted(names[i])
  }

  ghost predicate ExtensionsOf(t: Table, names: seq<string>, byExtension: map<string, seq<nat>>) {
    && (forall e :: e in byExtension ==> IndexesOf(names, n => Wants(t, n, e), byExtension[e]))
    && (forall e, i :: e !in byExtension && 0 <= i < |names| ==> !Wants(t, names[i], e))
  }

  ghost predicate TableOk(t: Table) {
    forall language :: t(language).Some? ==> Distinct(t(language).value)
  }

  lemma ExtensionsTableOk()
    ensures TableOk(Extensions)
  {
    forall language | Extensions(language).Some? ensures Distinct(Extensions(language).value) {
      var e := Extensions(language).value;
      if |e| == 4 {
        assert e[0][1] != e[2][1] && e[0][1] != e[3][1] && e[2][1] != e[3][1] && |e[0]| == 3 && |e[1]| == 4
            && e[1][1] == e[0][1];
      }
    }
  }

  /** The listed places are rewritten, the others kept. */
  ghost predicate Rewritten(f: Lang -> Lang, before: seq<Lang>, after: seq<Lang>, indexes: seq<nat>) {
    |after| == |before| && forall i: nat :: i < |before| ==> after[i] == if i in indexes then f(before[i]) else before[i]
  }

  /** `for index in indexes { results[index] = … }`. */
  method RewriteAll(f: Lang -> Lang, ls: seq<Lang>, indexes: seq<nat>) returns (r: seq<Lang>)
    requires Distinct(indexes) && forall i :: i in indexes ==> i < |ls|
    ensures Rewritten(f, ls, r, indexes)
  {
    r := ls;
    for k := 0 to |indexes|
      invariant Rewritten(f, ls, r, indexes[..k])
    {
      assert indexes[k] in indexes && indexes[k] !in indexes[..k];
      assert indexes[..k + 1] == indexes[..k] + [indexes[k]];
      r := r[indexes[k] := f(r[indexes[k]])];
    }
    assert indexes[..|indexes|] == indexes;
  }

  /** Every language whose name is wanted is rewritten. */
  ghost predicate Applied(f: Lang -> Lang, wanted: string -> bool, before: seq<Lang>, after: seq<Lang>) {
    |after| == |before| && forall i :: 0 <= i < |before| ==> after[i] == if wanted(before[i].name) then f(before[i]) else before[i]
  }

  lemma RewrittenIsApplied(f: Lang -> Lang, wanted: string -> bool, before: seq<Lang>, after: seq<Lang>,
                           indexes: seq<nat>)
    requires Rewritten(f, before, after, indexes) && IndexesOf(Names(before), wanted, indexes)
    ensures Applied(f, wanted, before, after)
  {
    forall i: nat | i < |before| ensures after[i] == if wanted(before[i].name) then f(before[i]) else before[i] {
      assert Names(before)[i] == before[i].name;
    }
  }

  method RewriteWanted(f: Lang -> Lang, ghost wanted: string -> bool, ls: seq<Lang>, indexes: seq<nat>)
    returns (r: seq<Lang>)
    requires IndexesOf(Names(ls), wanted, indexes)
    ensures Applied(f, wanted, ls, r)
  {
    r := RewriteAll(f, ls, indexes);
    RewrittenIsApplied(f, wanted, ls, r, indexes);
  }

  ghost predicate EntryDone(x: Extractor, t: Table, maxBytes: nat, e: Entry, before: seq<Lang>, after: seq<Lang>) {
    |after| == |before| && forall i :: 0 <= i < |before| ==> after[i] == LangEntry(x, t, maxBytes, e, before[i])
  }

  function SkipLang(l: Lang): Lang {
    l.(scan := Skip(l.scan))
  }

  function ExtractLang(x: Extractor, relative: string, text: string, l: Lang): Lang {
    l.(scan := Extract(x, l.name, relative, text, l.scan))
  }

  method ReadFileForAll(x: Extractor, t: Table, maxBytes: nat, ls: seq<Lang>, extension: string, state: FileState,
                        indexes: seq<nat>)
    returns (r: seq<Lang>)
    requires IndexesOf(Names(ls), n => Wants(t, n, extension), indexes)
    ensures EntryDone(x, t, maxBytes, File(extension, state), ls, r)
  {
    if !state.Plain? || state.size > maxBytes || state.text.None? {
      r := RewriteWanted(SkipLang, n => Wants(t, n, extension), ls, indexes);
    } else {
      r := RewriteWanted(l => ExtractLang(x, state.relative, state.text.value, l), n => Wants(t, n, extension), ls,
                         indexes);
    }
  }

  method ScanEntryForAll(x: Extractor, t: Table, maxBytes: nat, ls: seq<Lang>, e: Entry, active: seq<nat>,
                         byExtension: map<string, seq<nat>>)
    returns (r: seq<Lang>)
    requires IndexesOf(Names(ls), n => t(n).Some?, active) && ExtensionsOf(t, Names(ls), byExtension)
    ensures EntryDone(x, t, maxBytes, e, ls, r)
  {
    r := ls;
    match e
    case Symlink =>
      r := RewriteWanted(SkipLang, n => t(n).Some?, ls, active);
    case File(extension, state) =>
      if extension in byExtension {
        r := ReadFileForAll(x, t, maxBytes, ls, extension, state, byExtension[extension]);
      } else {
        forall i | 0 <= i < |ls| ensures !Wants(t, ls[i].name, extension) {
          assert Names(ls)[i] == ls[i].name;
        }
      }
    case _ =>
  }

  ghost predicate EntriesDone(x: Extractor, t: Table, maxBytes: nat, es: seq<Entry>, before: seq<Lang>,
                              after: seq<Lang>) {
    |after| == |before| && forall i :: 0 <= i < |before| ==> after[i] == LangEntries(x, t, maxBytes, es, before[i])
  }

  lemma EntriesDoneNext(x: Extractor, t: Table, maxBytes: nat, es: seq<Entry>, k: nat, a: seq<Lang>, b: seq<Lang>,
                        c: seq<Lang>)
    requires k < |es| && EntriesDone(x, t, maxBytes, es[..k], a, b) && EntryDone(x, t, maxBytes, es[k], b, c)
    ensures EntriesDone(x, t, maxBytes, es[..k + 1], a, c)
  {
    forall i | 0 <= i < |a| ensures c[i] == LangEntries(x, t, maxBytes, es[..k + 1], a[i]) {
      EntriesNext(x, t, a[i].name, maxBytes, es, k, a[i].scan);
    }
  }

  lemma NamesStay(a: seq<Lang>, b: seq<Lang>)
    requires |a| == |b| && forall i :: 0 <= i < |a| ==> a[i].name == b[i].name
    ensures Names(a) == Names(b)
  {
  }

  method ListDirectoryForAll(x: Extractor, t: Table, maxBytes: nat, es: seq<Entry>, rest: seq<Dir>, ls: seq<Lang>,
                             active: seq<nat>,
                             byExtension: map<string, seq<nat>>)
    returns (queue: seq<Dir>, r: seq<Lang>)
    requires IndexesOf(Names(ls), n => t(n).Some?, active) && ExtensionsOf(t, Names(ls), byExtension)
    ensures queue == rest + Subdirs(es) && EntriesDone(x, t, maxBytes, es, ls, r) && Names(r) == Names(ls)
  {
    queue, r := rest, ls;
    for k := 0 to |es|
      invariant queue == rest + Subdirs(es[..k]) && EntriesDone(x, t, maxBytes, es[..k], ls, r) && Names(r) == Names(ls)
    {
      ghost var before := r;
      SubdirsNext(es, k);
      if es[k].Folder? {
        if !IgnoredFolder(es[k].name) {
          queue := queue + [es[k].dir];
        }
      } else {
        r := ScanEntryForAll(x, t, maxBytes, r, es[k], active, byExtension);
        NamesStay(before, r);
      }
      EntriesDoneNext(x, t, maxBytes, es, k, ls, before, r);
    }
    assert es[..|es|] == es;
  }

  method CheckAllFull(t: Table, maxFiles: nat, ls: seq<Lang>, active: seq<nat>) returns (full: bool)
    requires IndexesOf(Names(ls), n => t(n).Some?, active)
    ensures full == AllFull(t, maxFiles, ls)
  {
    for k := 0 to |active|
      invariant forall j :: 0 <= j < k ==> active[j] < |ls| && ls[active[j]].scan.scanned >= maxFiles
    {
      assert active[k] in active;
      if ls[active[k]].scan.scanned < maxFiles {
        assert Names(ls)[active[k]] == ls[active[k]].name;
        return false;
      }
    }
    forall i: nat | i < |ls| && Active(t, ls[i]) ensures ls[i].scan.scanned >= maxFiles {
      assert Names(ls)[i] == ls[i].name;
      assert i in active;
    }
    return true;
  }

  // Setting up the languages.

  ghost predicate Indexed(ls: seq<Lang>, byName: map<string, nat>) {
    forall name :: name in byName <==> Known(ls, name)
  }

  lemma IndexesAppend(names: seq<string>, wanted: string -> bool, indexes: seq<nat>, name: string)
    requires IndexesOf(names, wanted, indexes)
    ensures wanted(name) ==> IndexesOf(names + [name], wanted, indexes + [|names|])
    ensures !wanted(name) ==> IndexesOf(names + [name], wanted, indexes)
  {
    var index: nat := |names|;
    assert index !in indexes;
    assert forall i: nat :: i in indexes + [index] <==> i in indexes || i == index;
    assert forall i: nat :: i < |names| ==> (names + [name])[i] == names[i];
  }

  /** While the extensions of the newest language are entered: those in `done` know it, the others do not. */
  ghost predicate Entering(t: Table, names: seq<string>, name: string, done: seq<string>, m: map<string, seq<nat>>) {
    && (forall e :: e in done ==> e in m)
    && (forall e :: e in m ==> if e in done then IndexesOf(names + [name], n => Wants(t, n, e), m[e]) else IndexesOf(names, n => Wants(t, n, e), m[e]))
    && (forall e, i :: e !in m && 0 <= i < |names| ==> !Wants(t, names[i], e))
  }

  lemma EnteringNext(t: Table, names: seq<string>, name: string, es: seq<string>, k: nat, m: map<string, seq<nat>>)
    requires t(name) == Some(es) && Distinct(es) && k < |es| && Entering(t, names, name, es[..k], m)
    ensures Entering(t, names, name, es[..k + 1], m[es[k] := (if es[k] in m then m[es[k]] else []) + [|names|]])
  {
    var e := es[k];
    assert es[..k + 1] == es[..k] + [e];
    var previous: seq<nat> := if e in m then m[e] else [];
    assert IndexesOf(names, n => Wants(t, n, e), previous);
    IndexesAppend(names, n => Wants(t, n, e), previous, name);
  }

  lemma EnteredAll(t: Table, names: seq<string>, name: string, es: seq<string>, m: map<string, seq<nat>>)
    requires t(name) == Some(es) && Entering(t, names, name, es, m)
    ensures ExtensionsOf(t, names + [name], m)
  {
    forall e | e in m ensures IndexesOf(names + [name], n => Wants(t, n, e), m[e]) {
      if e !in es { IndexesAppend(names, n => Wants(t, n, e), m[e], name); }
    }
  }

  lemma ExtensionsUnchanged(t: Table, names: seq<string>, name: string, m: map<string, seq<nat>>)
    requires t(name).None? && ExtensionsOf(t, names, m)
    ensures ExtensionsOf(t, names + [name], m)
  {
    forall e | e in m ensures IndexesOf(names + [name], n => Wants(t, n, e), m[e]) {
      IndexesAppend(names, n => Wants(t, n, e), m[e], name);
    }
  }

  method EnterExtensions(t: Table, ghost names: seq<string>, name: string, index: nat,
                         byExtension: map<string, seq<nat>>)
    returns (m: map<string, seq<nat>>)
    requires TableOk(t) && t(name).Some? && index == |names| && ExtensionsOf(t, names, byExtension)
    ensures ExtensionsOf(t, names + [name], m)
  {
    m := byExtension;
    var es := t(name).value;
    for k := 0 to |es|
      invariant Entering(t, names, name, es[..k], m)
    {
      EnteringNext(t, names, name, es, k, m);
      m := m[es[k] := (if es[k] in m then m[es[k]] else []) + [index]];
    }
    assert es[..|es|] == es;
    EnteredAll(t, names, name, es, m);
  }

  lemma IndexedNext(ls: seq<Lang>, byName: map<string, nat>, l: Lang)
    requires Indexed(ls, byName)
    ensures Indexed(ls + [l], byName[l.name := |ls|])
  {
    forall name ensures name in byName[l.name := |ls|] <==> Known(ls + [l], name) {
      if Known(ls, name) {
        var i :| 0 <= i < |ls| && ls[i].name == name;
        assert (ls + [l])[i].name == name;
      }
      assert (ls + [l])[|ls|] == l;
    }
  }

  method SetUp(t: Table, languages: seq<string>)
    returns (ls: seq<Lang>, active: seq<nat>, byExtension: map<string, seq<nat>>)
    requires TableOk(t)
    ensures ls == Start(t, languages)
    ensures IndexesOf(Names(ls), n => t(n).Some?, active) && ExtensionsOf(t, Names(ls), byExtension)
  {
    ls, active, byExtension := [], [], map[];
    var byName: map<string, nat> := map[];
    for j := 0 to |languages|
      invariant ls == Start(t, languages[..j]) && Indexed(ls, byName)
      invariant IndexesOf(Names(ls), n => t(n).Some?, active) && ExtensionsOf(t, Names(ls), byExtension)
    {
      assert languages[..j + 1][..j] == languages[..j];
      var name := T.Trim(languages[j]);
      if name != "" && name !in byName {
        var index := |ls|;
        ghost var names := Names(ls);
        IndexedNext(ls, byName, StartOf(t, name));
        IndexesAppend(names, n => t(n).Some?, active, name);
        byName := byName[name := index];
        ls := ls + [StartOf(t, name)];
        assert Names(ls) == names + [name];
        if t(name).Some? {
          active := active + [index];
          byExtension := EnterExtensions(t, names, name, index, byExtension);
        } else {
          ExtensionsUnchanged(t, names, name, byExtension);
        }
      }
    }
    assert languages[..|languages|] == languages;
  }

  lemma MapIs(f: Lang -> Lang, ls: seq<Lang>, r: seq<Lang>)
    requires |r| == |ls| && forall i :: 0 <= i < |ls| ==> r[i] == f(ls[i])
    ensures r == MapLangs(f, ls)
  {
  }

  lemma NoneActive(t: Table, ls: seq<Lang>, active: seq<nat>)
    requires IndexesOf(Names(ls), n => t(n).Some?, active) && active == []
    ensures forall i :: 0 <= i < |ls| ==> !Active(t, ls[i])
  {
    forall i: nat | i < |ls| ensures !Active(t, ls[i]) {
      assert Names(ls)[i] == ls[i].name;
      assert i !in active;
    }
  }

  /** `scan_syntactic_ast_facts_multi`: one walk for all, until every active language is full. */
  method ScanSyntacticAstFactsMulti(x: Extractor, t: Table, languages: seq<string>, o: Options) returns (r: seq<Lang>)
    requires TableOk(t)
    ensures r == ScanMany(x, t, languages, o)
  {
    var active, byExtension;
    r, active, byExtension := SetUp(t, languages);
    if active == [] {
      NoneActive(t, r, active);
      return;
    }
    if o.root.Err? {
      var start := r;
      r := RewriteWanted((l: Lang) => l.(scan := Warn(l.scan, RootUnresolved(o.root.error))), n => t(n).Some?, r,
                         active);
      return;
    }
    var lim := LimitsOf(o);
    var queue, visited := [RootDir(o.root.value)], 0;
    while queue != []
      invariant WalkAll(x, t, lim, queue, visited, r) == ScanMany(x, t, languages, o)
      invariant IndexesOf(Names(r), n => t(n).Some?, active) && ExtensionsOf(t, Names(r), byExtension)
      decreases QueueWeight(queue)
    {
      var full := CheckAllFull(t, lim.files, r, active);
      if full {
        return;
      }
      if visited >= lim.directories {
        ghost var before := r;
        r := RewriteWanted((l: Lang) => l.(scan := Warn(l.scan, HitMaxDirectories(l.name, lim.directories))),
                           n => t(n).Some?, r, active);
        return;
      }
      ghost var next, before := NextQueue(queue), r;
      var current := queue[0];
      queue := queue[1..];
      visited := visited + 1;
      if current.inside && current.Listed? {
        queue, r := ListDirectoryForAll(x, t, lim.bytes, current.entries, queue, r, active, byExtension);
      }
      assert queue == next;
      assert EntriesDone(x, t, lim.bytes, EntriesOf(current), before, r);
      MapIs(l => LangEntries(x, t, lim.bytes, EntriesOf(current), l), before, r);
    }
  }
}
