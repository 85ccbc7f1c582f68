/**
 * Scanning a repository tree for facts: one breadth-first walk per language, and one shared walk
 * for many languages.  The tree is what the file system would answer; the per-file extractor is
 * a parameter.
 */
module Walker {
  import opened Basics
  import T = Text
  import F = Facts

  /** What the walk finds out about a regular file before it reads it, and its text if that can be read. */
  datatype FileState =
    | CannotResolve
    | OutsideRoot
    | NoMetadata
    | NotPlain
    | Plain(relative: string, size: nat, text: Option<string>)

  datatype Entry =
    | Broken
    | Symlink
    | Special
    | Folder(name: string, dir: Dir)
    | File(extension: string, state: FileState)

  /** A directory: whether its path is inside the root, and its entries if it can be listed. */
  datatype Dir = Unlistable(inside: bool) | Listed(inside: bool, entries: seq<Entry>)

  datatype Warning =
    | NoExtractor(language: string)
    | RootUnresolved(error: string)
    | HitMaxDirectories(language: string, limit: nat)
    | ParseFailed(language: string, file: string, error: string)

  datatype Scan = Scan(facts: seq<F.Fact>, scanned: nat, skipped: nat, warnings: seq<Warning>)

  datatype Options = Options(root: Result<Dir, string>, maxFiles: Option<nat>, maxFileBytes: Option<nat>,
                             maxDirectories: Option<nat>)

  datatype Limits = Limits(files: nat, bytes: nat, directories: nat)

  /** `dispatch_extractor_result`: language, relative path and text to facts or an error. */
  type Extractor = (string, string, string) -> Result<seq<F.Fact>, string>

  const NOTHING := Scan([], 0, 0, [])

  function LimitsOf(o: Options): Limits {
    Limits(UnwrapOr(o.maxFiles, 5000), UnwrapOr(o.maxFileBytes, 512 * 1024), UnwrapOr(o.maxDirectories, 20_000))
  }

  function Extensions(language: string): Option<seq<string>> {
    match language
    case "go" => Some([".go"])
    case "python" => Some([".py"])
    case "java" => Some([".java"])
    case "ruby" => Some([".rb"])
    case "csharp" => Some([".cs"])
    case "rust" => Some([".rs"])
    case "dart" => Some([".dart"])
    case "typescript" => Some([".ts", ".tsx", ".mts", ".cts"])
    case "javascript" => Some([".js", ".jsx", ".mjs", ".cjs"])
    case _ => None
  }

  predicate IgnoredFolder(name: string) {
    || name in ["node_modules", "dist", "build", "out", "generated", "__generated__", "coverage", "vendor", "target", "bin", "obj", "venv", "__pycache__"]
    || "." <= name
  }

  /** The languages with their extensions; every language the walks know is one of these. */
  type Table = string -> Option<seq<string>>

  predicate Wants(t: Table, language: string, extension: string) {
    t(language).Some? && extension in t(language).value
  }

  // One language.

  function Skip(r: Scan): Scan {
    r.(skipped := r.skipped + 1)
  }

  function Warn(r: Scan, w: Warning): Scan {
    r.(warnings := r.warnings + [w])
  }

  function Extract(x: Extractor, language: string, relative: string, text: string, r: Scan): Scan {
    match x(language, relative, text)
    case Ok(facts) => r.(facts := r.facts + facts, scanned := r.scanned + 1)
    case Err(error) => Skip(Warn(r, ParseFailed(language, relative, error)))
  }

  function ScanFile(x: Extractor, language: string, maxBytes: nat, state: FileState, r: Scan): Scan {
    match state
    case Plain(relative, size, Some(text)) => if size > maxBytes then Skip(r) else Extract(x, language, relative, text, r)
    case _ => Skip(r)
  }

  function ScanEntry(x: Extractor, t: Table, language: string, maxBytes: nat, e: Entry, r: Scan): Scan {
    match e
    case Symlink => Skip(r)
    case File(extension, state) => if Wants(t, language, extension) then ScanFile(x, language, maxBytes, state, r) else r
    case _ => r
  }

  function ScanEntries(x: Extractor, t: Table, language: string, maxBytes: nat, es: seq<Entry>, r: Scan): Scan
    decreases |es|
  {
    if es == [] then r else ScanEntry(x, t, language, maxBytes, es[|es| - 1],
                                      ScanEntries(x, t, language, maxBytes, es[..|es| - 1], r))
  }

  /** The directory's entries, if the walk gets to see them. */
  function EntriesOf(d: Dir): seq<Entry> {
    if d.Listed? && d.inside then d.entries else []
  }

  predicate Queues(e: Entry) {
    e.Folder? && !IgnoredFolder(e.name)
  }

  function Subdirs(es: seq<Entry>): seq<Dir>
    decreases |es|
  {
    if es == [] then [] else Subdirs(es[..|es| - 1]) + if Queues(es[|es| - 1]) then [es[|es| - 1].dir] else []
  }

  /** The number of directories the walk can reach from here. */
  function Weight(d: Dir): nat {
    match d
    case Unlistable(_) => 1
    case Listed(inside, es) => 1 + if inside then EntriesWeight(es) else 0
  }

  function EntriesWeight(es: seq<Entry>): nat {
    if es == [] then 0
    else
      var last := es[|es| - 1];
      EntriesWeight(es[..|es| - 1]) + match last { case Folder(name, d) => if IgnoredFolder(name) then 0 else Weight(d) case _ => 0 }
  }

  function QueueWeight(queue: seq<Dir>): nat
    decreases |queue|
  {
    if queue == [] then 0 else QueueWeight(queue[..|queue| - 1]) + Weight(queue[|queue| - 1])
  }

  lemma {:induction false} QueueWeightConcat(a: seq<Dir>, b: seq<Dir>)
    ensures QueueWeight(a + b) == QueueWeight(a) + QueueWeight(b)
    decreases |b|
  {
    if b == [] {
      assert a + b == a;
    } else {
      assert (a + b)[..|a + b| - 1] == a + b[..|b| - 1];
      QueueWeightConcat(a, b[..|b| - 1]);
    }
  }

  lemma {:induction false} SubdirsWeight(es: seq<Entry>)
    ensures QueueWeight(Subdirs(es)) == EntriesWeight(es)
    decreases |es|
  {
    if es != [] {
      var last := es[|es| - 1];
      SubdirsWeight(es[..|es| - 1]);
      if Queues(last) {
        QueueWeightConcat(Subdirs(es[..|es| - 1]), [last.dir]);
        assert [last.dir][..0] == [];
      } else {
        assert Subdirs(es) == Subdirs(es[..|es| - 1]);
      }
    }
  }

  /** The queue after its first directory was listed weighs one less. */
  lemma NextQueueWeight(queue: seq<Dir>)
    requires queue != []
    ensures QueueWeight(queue[1..] + Subdirs(EntriesOf(queue[0]))) + 1 == QueueWeight(queue)
  {
    assert queue == [queue[0]] + queue[1..];
    QueueWeightConcat([queue[0]], queue[1..]);
    assert [queue[0]][..0] == [];
    QueueWeightConcat(queue[1..], Subdirs(EntriesOf(queue[0])));
    SubdirsWeight(EntriesOf(queue[0]));
  }

  function NextQueue(queue: seq<Dir>): (r: seq<Dir>)
    requires queue != []
    ensures QueueWeight(r) + 1 == QueueWeight(queue)
  {
    NextQueueWeight(queue);
    queue[1..] + Subdirs(EntriesOf(queue[0]))
  }

  datatype Outcome = Outcome(scan: Scan, stoppedOnFiles: bool)

  function Walk(x: Extractor, t: Table, language: string, lim: Limits, queue: seq<Dir>, visited: nat, r: Scan): Outcome
    decreases QueueWeight(queue)
  {
    if queue == [] then Outcome(r, false)
    else if r.scanned >= lim.files then Outcome(r, true)
    else if visited >= lim.directories then Outcome(Warn(r, HitMaxDirectories(language, lim.directories)), false)
    else Walk(x, t, language, lim, NextQueue(queue), visited + 1,
              ScanEntries(x, t, language, lim.bytes, EntriesOf(queue[0]), r))
  }

  /** The root itself always passes the path check. */
  function RootDir(d: Dir): Dir {
    d.(inside := true)
  }

  function ScanOne(x: Extractor, t: Table, language: string, o: Options): Outcome {
    if t(language).None? then Outcome(Warn(NOTHING, NoExtractor(language)), false)
    else match o.root
      case Err(error) => Outcome(Warn(NOTHING, RootUnresolved(error)), false)
      case Ok(d) => Walk(x, t, language, LimitsOf(o), [RootDir(d)], 0, NOTHING)
  }

  // Many languages.

  datatype Lang = Lang(name: string, scan: Scan)

  predicate Active(t: Table, l: Lang) {
    t(l.name).Some?
  }

  function LangEntry(x: Extractor, t: Table, maxBytes: nat, e: Entry, l: Lang): Lang {
    if Active(t, l) then l.(scan := ScanEntry(x, t, l.name, maxBytes, e, l.scan)) else l
  }

  function LangEntries(x: Extractor, t: Table, maxBytes: nat, es: seq<Entry>, l: Lang): Lang {
    if Active(t, l) then l.(scan := ScanEntries(x, t, l.name, maxBytes, es, l.scan)) else l
  }

  function LangWarn(t: Table, w: Lang -> Warning, l: Lang): Lang {
    if Active(t, l) then l.(scan := Warn(l.scan, w(l))) else l
  }

  function MapLangs(f: Lang -> Lang, ls: seq<Lang>): (r: seq<Lang>)
    ensures |r| == |ls| && forall i :: 0 <= i < |ls| ==> r[i] == f(ls[i])
  {
    seq(|ls|, i requires 0 <= i < |ls| => f(ls[i]))
  }

  predicate AllFull(t: Table, maxFiles: nat, ls: seq<Lang>) {
    forall i :: 0 <= i < |ls| && Active(t, ls[i]) ==> ls[i].scan.scanned >= maxFiles
  }

  function WalkAll(x: Extractor, t: Table, lim: Limits, queue: seq<Dir>, visited: nat, ls: seq<Lang>): seq<Lang>
    decreases QueueWeight(queue)
  {
    if queue == [] || AllFull(t, lim.files, ls) then ls
    else if visited >= lim.directories then MapLangs(l => LangWarn(t, (m: Lang) => HitMaxDirectories(m.name, lim.directories), l), ls)
    else WalkAll(x, t, lim, NextQueue(queue), visited + 1,
                 MapLangs(l => LangEntries(x, t, lim.bytes, EntriesOf(queue[0]), l), ls))
  }

  predicate Known(ls: seq<Lang>, name: string) {
    exists i :: 0 <= i < |ls| && ls[i].name == name
  }

  function StartOf(t: Table, name: string): Lang {
    Lang(name, if t(name).Some? then NOTHING else Warn(NOTHING, NoExtractor(name)))
  }

  /** Trimmed, blank and repeated names dropped. */
  function Start(t: Table, languages: seq<string>): seq<Lang> {
    if languages == [] then []
    else
      var before, name := Start(t, languages[..|languages| - 1]), T.Trim(languages[|languages| - 1]);
      if name == "" || Known(before, name) then before else before + [StartOf(t, name)]
  }

  function ScanMany(x: Extractor, t: Table, languages: seq<string>, o: Options): seq<Lang> {
    var start := Start(t, languages);
    match o.root
    case Err(error) => MapLangs(l => LangWarn(t, (m: Lang) => RootUnresolved(error), l), start)
    case Ok(d) => WalkAll(x, t, LimitsOf(o), [RootDir(d)], 0, start)
  }
}
