/** What the shared walk owes each single-language walk, and what a walk owes the tree. */
module WalkerLaws {
  import opened Basics
  import T = Text
  import F = Facts
  import opened Walker

  /** Nothing recorded is taken back. */
  ghost predicate Extends(a: Scan, b: Scan) {
    a.facts <= b.facts && a.warnings <= b.warnings && a.scanned <= b.scanned && a.skipped <= b.skipped
  }

  lemma {:induction false} ScanEntriesExtends(x: Extractor, t: Table, language: string, maxBytes: nat, es: seq<Entry>,
                                              r: Scan)
    ensures Extends(r, ScanEntries(x, t, language, maxBytes, es, r))
    decreases |es|
  {
    if es != [] {
      ScanEntriesExtends(x, t, language, maxBytes, es[..|es| - 1], r);
    }
  }

  lemma {:induction false} WalkAllExtends(x: Extractor, t: Table, lim: Limits, queue: seq<Dir>, visited: nat,
                                          ls: seq<Lang>, i: nat)
    requires i < |ls|
    ensures var out := WalkAll(x, t, lim, queue, visited, ls);
            |out| == |ls| && out[i].name == ls[i].name && Extends(ls[i].scan, out[i].scan)
    decreases QueueWeight(queue)
  {
    if queue != [] && !AllFull(t, lim.files, ls) && visited < lim.directories {
      var next := MapLangs(l => LangEntries(x, t, lim.bytes, EntriesOf(queue[0]), l), ls);
      ScanEntriesExtends(x, t, ls[i].name, lim.bytes, EntriesOf(queue[0]), ls[i].scan);
      WalkAllExtends(x, t, lim, NextQueue(queue), visited + 1, next, i);
    }
  }

  /**
   * From any point of the walk: the language's own walk records a prefix, and the same if it is not
   * stopped by the file limit.
   */
  lemma {:induction false} SharedWalkFollows(x: Extractor, t: Table, lim: Limits, queue: seq<Dir>, visited: nat,
                                             ls: seq<Lang>, i: nat)
    requires i < |ls| && Active(t, ls[i])
    ensures var out, one := WalkAll(x, t, lim, queue, visited, ls), Walk(x, t, ls[i].name, lim, queue, visited, ls[i].scan);
            && |out| == |ls| && out[i].name == ls[i].name && Extends(one.scan, out[i].scan)
            && (!one.stoppedOnFiles ==> out[i].scan == one.scan)
    decreases QueueWeight(queue)
  {
    if queue == [] {
    } else if ls[i].scan.scanned >= lim.files {
      WalkAllExtends(x, t, lim, queue, visited, ls, i);
    } else if visited < lim.directories {
      var next := MapLangs(l => LangEntries(x, t, lim.bytes, EntriesOf(queue[0]), l), ls);
      assert next[i] == Lang(ls[i].name, ScanEntries(x, t, ls[i].name, lim.bytes, EntriesOf(queue[0]), ls[i].scan));
      SharedWalkFollows(x, t, lim, NextQueue(queue), visited + 1, next, i);
    }
  }

  // The languages of the shared walk.

  ghost function Names(ls: seq<Lang>): seq<string> {
    seq(|ls|, i requires 0 <= i < |ls| => ls[i].name)
  }

  ghost predicate NamedBy(name: string, languages: seq<string>) {
    name != "" && exists j :: 0 <= j < |languages| && T.Trim(languages[j]) == name
  }

  /** Each name that is listed, trimmed and not blank, has exactly one place. */
  lemma {:induction false} StartNames(t: Table, languages: seq<string>)
    ensures Distinct(Names(Start(t, languages)))
    ensures forall i :: 0 <= i < |Start(t, languages)| ==>
              Start(t, languages)[i] == StartOf(t, Names(Start(t, languages))[i])
    ensures forall name :: name in Names(Start(t, languages)) <==> NamedBy(name, languages)
  {
    if languages != [] {
      var init, last := languages[..|languages| - 1], languages[|languages| - 1];
      StartNames(t, init);
      var before, after := Start(t, init), Start(t, languages);
      assert forall name :: name in Names(before) <==> Known(before, name) by {
        forall name ensures name in Names(before) <==> Known(before, name) {
          if Known(before, name) {
            var i :| 0 <= i < |before| && before[i].name == name;
            assert Names(before)[i] == name;
          }
        }
      }
      NamedNext(init, last);
      assert languages == init + [last];
      if after != before {
        assert Names(after) == Names(before) + [T.Trim(last)];
      }
    }
  }

  lemma NamedNext(init: seq<string>, last: string)
    ensures forall name :: NamedBy(name, init + [last]) <==> NamedBy(name, init) || (name != "" && name == T.Trim(last))
  {
    var all := init + [last];
    forall name ensures NamedBy(name, all) <==> NamedBy(name, init) || (name != "" && name == T.Trim(last)) {
      if NamedBy(name, init) {
        var j :| 0 <= j < |init| && T.Trim(init[j]) == name;
        assert all[j] == init[j];
      }
      if name != "" && name == T.Trim(last) { assert all[|init|] == last; }
    }
  }

  lemma ScanManyNames(x: Extractor, t: Table, languages: seq<string>, o: Options, i: nat)
    requires i < |Start(t, languages)|
    ensures |ScanMany(x, t, languages, o)| == |Start(t, languages)|
    ensures ScanMany(x, t, languages, o)[i].name == Start(t, languages)[i].name
  {
    if o.root.Ok? { WalkAllExtends(x, t, LimitsOf(o), [RootDir(o.root.value)], 0, Start(t, languages), i); }
  }

  lemma {:induction false} InactiveStays(x: Extractor, t: Table, lim: Limits, queue: seq<Dir>, visited: nat,
                                         ls: seq<Lang>, i: nat)
    requires i < |ls| && !Active(t, ls[i])
    ensures |WalkAll(x, t, lim, queue, visited, ls)| == |ls| && WalkAll(x, t, lim, queue, visited, ls)[i] == ls[i]
    decreases QueueWeight(queue)
  {
    if queue != [] && !AllFull(t, lim.files, ls) && visited < lim.directories {
      InactiveStays(x, t, lim, NextQueue(queue), visited + 1,
                    MapLangs(l => LangEntries(x, t, lim.bytes, EntriesOf(queue[0]), l), ls), i);
    }
  }

  /**
   * For every tree and list of names, what a language's own walk finds is a prefix of what the
   * shared walk finds for it, and all four fields agree unless its own walk stops on the file limit.
   */
  lemma SharedWalkServesEach(x: Extractor, t: Table, languages: seq<string>, o: Options, i: nat)
    requires i < |Start(t, languages)|
    ensures |ScanMany(x, t, languages, o)| == |Start(t, languages)|
    ensures var shared := ScanMany(x, t, languages, o)[i]; var one := ScanOne(x, t, shared.name, o);
            && Extends(one.scan, shared.scan)
            && (!one.stoppedOnFiles ==> shared.scan == one.scan)
  {
    var start := Start(t, languages);
    StartNames(t, languages);
    assert start[i] == StartOf(t, start[i].name);
    ScanManyNames(x, t, languages, o, i);
    if o.root.Ok? {
      if Active(t, start[i]) {
        SharedWalkFollows(x, t, LimitsOf(o), [RootDir(o.root.value)], 0, start, i);
      } else {
        InactiveStays(x, t, LimitsOf(o), [RootDir(o.root.value)], 0, start, i);
      }
    }
  }

  // The entries a walk comes by, and what it says of each.

  /** A file of the language that can be read, is within the byte limit and extracts without error. */
  predicate Extractable(x: Extractor, t: Table, language: string, maxBytes: nat, e: Entry) {
    && e.File? && Wants(t, language, e.extension)
    && e.state.Plain? && e.state.size <= maxBytes && e.state.text.Some?
    && x(language, e.state.relative, e.state.text.value).Ok?
  }

  /** A file of the language that can be read and is within the byte limit, but does not extract. */
  predicate Failing(x: Extractor, t: Table, language: string, maxBytes: nat, e: Entry) {
    && e.File? && Wants(t, language, e.extension)
    && e.state.Plain? && e.state.size <= maxBytes && e.state.text.Some?
    && x(language, e.state.relative, e.state.text.value).Err?
  }

  /** A symbolic link, or a file of the language. */
  predicate Counted(t: Table, language: string, e: Entry) {
    e.Symlink? || (e.File? && Wants(t, language, e.extension))
  }

  /** What an entry adds to one of the fields of the scan. */
  type Yield<!X> = Entry -> seq<X>

  function FactsOf(x: Extractor, t: Table, language: string, maxBytes: nat): Yield<F.Fact> {
    (e: Entry) => if Extractable(x, t, language, maxBytes, e) then x(language, e.state.relative, e.state.text.value).value else []
  }

  function ScannedOf(x: Extractor, t: Table, language: string, maxBytes: nat): Yield<Entry> {
    (e: Entry) => if Extractable(x, t, language, maxBytes, e) then [e] else []
  }

  function SkippedOf(x: Extractor, t: Table, language: string, maxBytes: nat): Yield<Entry> {
    (e: Entry) => if Counted(t, language, e) && !Extractable(x, t, language, maxBytes, e) then [e] else []
  }

  function FailuresOf(x: Extractor, t: Table, language: string, maxBytes: nat): Yield<Warning> {
    (e: Entry) => if Failing(x, t, language, maxBytes, e)
                  then [ParseFailed(language, e.state.relative, x(language, e.state.relative, e.state.text.value).error)]
                  else []
  }

  function Along<X>(y: Yield<X>, es: seq<Entry>): seq<X>
    decreases |es|
  {
    if es == [] then [] else Along(y, es[..|es| - 1]) + y(es[|es| - 1])
  }

  lemma {:induction false} AlongConcat<X>(y: Yield<X>, a: seq<Entry>, b: seq<Entry>)
    ensures Along(y, a + b) == Along(y, a) + Along(y, b)
    decreases |b|
  {
    if b == [] {
      assert a + b == a;
    } else {
      assert (a + b)[..|a + b| - 1] == a + b[..|b| - 1];
      AlongConcat(y, a, b[..|b| - 1]);
    }
  }

  /** The four fields of `after` are those of `before` with what the entries in between yield. */
  ghost predicate Reports(x: Extractor, t: Table, language: string, maxBytes: nat, es: seq<Entry>, before: Scan,
                          after: Scan) {
    && after.facts == before.facts + Along(FactsOf(x, t, language, maxBytes), es)
    && after.scanned == before.scanned + |Along(ScannedOf(x, t, language, maxBytes), es)|
    && after.skipped == before.skipped + |Along(SkippedOf(x, t, language, maxBytes), es)|
    && after.warnings == before.warnings + Along(FailuresOf(x, t, language, maxBytes), es)
  }

  lemma ScanEntryReports(x: Extractor, t: Table, language: string, maxBytes: nat, e: Entry, r: Scan)
    ensures var after := ScanEntry(x, t, language, maxBytes, e, r);
            && after.facts == r.facts + FactsOf(x, t, language, maxBytes)(e)
            && after.scanned == r.scanned + |ScannedOf(x, t, language, maxBytes)(e)|
            && after.skipped == r.skipped + |SkippedOf(x, t, language, maxBytes)(e)|
            && after.warnings == r.warnings + FailuresOf(x, t, language, maxBytes)(e)
  {
    var facts, failures := FactsOf(x, t, language, maxBytes)(e), FailuresOf(x, t, language, maxBytes)(e);
    if !Extractable(x, t, language, maxBytes, e) { assert facts == [] && r.facts + facts == r.facts; }
    if !Failing(x, t, language, maxBytes, e) { assert failures == [] && r.warnings + failures == r.warnings; }
  }

  lemma {:induction false} ScanEntriesReports(x: Extractor, t: Table, language: string, maxBytes: nat, es: seq<Entry>,
                                              r: Scan)
    ensures Reports(x, t, language, maxBytes, es, r, ScanEntries(x, t, language, maxBytes, es, r))
    decreases |es|
  {
    if es != [] {
      var init, last := es[..|es| - 1], es[|es| - 1];
      ScanEntriesReports(x, t, language, maxBytes, init, r);
      ScanEntryReports(x, t, language, maxBytes, last, ScanEntries(x, t, language, maxBytes, init, r));
    }
  }

  // The walk is one scan of the listing of its queue.

  /** The entries of the directories in the order a walk without limits lists them. */
  ghost function Listing(queue: seq<Dir>): seq<Entry>
    decreases QueueWeight(queue)
  {
    if queue == [] then [] else EntriesOf(queue[0]) + Listing(NextQueue(queue))
  }

  lemma {:induction false} ScanEntriesConcat(x: Extractor, t: Table, language: string, maxBytes: nat, a: seq<Entry>,
                                             b: seq<Entry>, r: Scan)
    ensures ScanEntries(x, t, language, maxBytes, a + b, r) ==
            ScanEntries(x, t, language, maxBytes, b, ScanEntries(x, t, language, maxBytes, a, r))
    decreases |b|
  {
    if b == [] {
      assert a + b == a;
    } else {
      assert (a + b)[..|a + b| - 1] == a + b[..|b| - 1];
      ScanEntriesConcat(x, t, language, maxBytes, a, b[..|b| - 1], r);
    }
  }

  /** What a walk returns when it has scanned exactly these entries. */
  ghost predicate Ends(out: Outcome, lim: Limits, language: string, scanned: Scan) {
    if out.stoppedOnFiles then out.scan == scanned && scanned.scanned >= lim.files
    else out.scan in {scanned, scanned.(warnings := scanned.warnings + [HitMaxDirectories(language, lim.directories)])}
  }

  /** A walk scans the first entries of the listing, and all of them if neither limit is met. */
  lemma {:induction false} WalkScansListing(x: Extractor, t: Table, language: string, lim: Limits, queue: seq<Dir>,
                                            visited: nat, r: Scan) returns (n: nat)
    ensures n <= |Listing(queue)|
    ensures var out := Walk(x, t, language, lim, queue, visited, r);
            var scanned := ScanEntries(x, t, language, lim.bytes, Listing(queue)[..n], r);
            && Ends(out, lim, language, scanned)
            && (visited + QueueWeight(queue) <= lim.directories && !out.stoppedOnFiles ==>
                  n == |Listing(queue)| && out.scan == scanned)
    decreases QueueWeight(queue)
  {
    if queue == [] || r.scanned >= lim.files || visited >= lim.directories {
      n := 0;
      assert Listing(queue)[..n] == [];
    } else {
      var es, rest := EntriesOf(queue[0]), Listing(NextQueue(queue));
      var k := WalkScansListing(x, t, language, lim, NextQueue(queue), visited + 1,
                                ScanEntries(x, t, language, lim.bytes, es, r));
      n := |es| + k;
      assert (es + rest)[..n] == es + rest[..k];
      ScanEntriesConcat(x, t, language, lim.bytes, es, rest[..k], r);
    }
  }

  // The same, by recursion over the tree.

  /** Nothing below a dotted folder, or one of dependencies or build output, is ever reached. */
  lemma IgnoredFolderYieldsNothing<X>(y: Yield<X>, es: seq<Entry>, name: string, d: Dir)
    requires (name != "" && name[0] == '.') || name in {"node_modules", "vendor", "target", "build", "dist"}
    ensures ForestYield(y, es + [Folder(name, d)]) == ForestYield(y, es) + multiset(y(Folder(name, d)))
    ensures Subdirs(es + [Folder(name, d)]) == Subdirs(es)
  {
    assert (es + [Folder(name, d)])[..|es|] == es;
    assert name != "" && name[0] == '.' ==> "." <= name;
  }

  /** What the entries in and below a directory yield, ignored folders aside. */
  function TreeYield<X>(y: Yield<X>, d: Dir): multiset<X> {
    match d
    case Unlistable(_) => multiset{}
    case Listed(inside, es) => if inside then ForestYield(y, es) else multiset{}
  }

  function ForestYield<X>(y: Yield<X>, es: seq<Entry>): multiset<X> {
    if es == [] then multiset{}
    else
      var last := es[|es| - 1];
      ForestYield(y, es[..|es| - 1]) + multiset(y(last)) + if Queues(last) then TreeYield(y, last.dir) else multiset{}
  }

  function QueueYield<X>(y: Yield<X>, queue: seq<Dir>): multiset<X>
    decreases |queue|
  {
    if queue == [] then multiset{} else QueueYield(y, queue[..|queue| - 1]) + TreeYield(y, queue[|queue| - 1])
  }

  lemma {:induction false} QueueYieldConcat<X>(y: Yield<X>, a: seq<Dir>, b: seq<Dir>)
    ensures QueueYield(y, a + b) == QueueYield(y, a) + QueueYield(y, b)
    decreases |b|
  {
    if b == [] {
      assert a + b == a;
    } else {
      assert (a + b)[..|a + b| - 1] == a + b[..|b| - 1];
      QueueYieldConcat(y, a, b[..|b| - 1]);
    }
  }

  lemma QueueYieldOne<X>(y: Yield<X>, d: Dir)
    ensures QueueYield(y, [d]) == TreeYield(y, d)
  {
    assert [d][..0] == [];
  }

  /** Listing a directory yields its own entries' part and queues the rest. */
  lemma {:induction false} EntriesYield<X>(y: Yield<X>, es: seq<Entry>)
    ensures multiset(Along(y, es)) + QueueYield(y, Subdirs(es)) == ForestYield(y, es)
    decreases |es|
  {
    if es != [] {
      var init, last := es[..|es| - 1], es[|es| - 1];
      EntriesYield(y, init);
      if Queues(last) {
        QueueYieldConcat(y, Subdirs(init), [last.dir]);
        QueueYieldOne(y, last.dir);
      } else {
        assert Subdirs(es) == Subdirs(init);
      }
    }
  }

  lemma NextQueueYield<X>(y: Yield<X>, queue: seq<Dir>)
    requires queue != []
    ensures multiset(Along(y, EntriesOf(queue[0]))) + QueueYield(y, NextQueue(queue)) == QueueYield(y, queue)
  {
    var es := EntriesOf(queue[0]);
    assert queue == [queue[0]] + queue[1..];
    QueueYieldConcat(y, [queue[0]], queue[1..]);
    QueueYieldOne(y, queue[0]);
    QueueYieldConcat(y, queue[1..], Subdirs(es));
    EntriesYield(y, es);
  }

  lemma {:induction false} ListingYield<X>(y: Yield<X>, queue: seq<Dir>)
    ensures multiset(Along(y, Listing(queue))) == QueueYield(y, queue)
    decreases QueueWeight(queue)
  {
    if queue != [] {
      NextQueueYield(y, queue);
      ListingYield(y, NextQueue(queue));
      AlongConcat(y, EntriesOf(queue[0]), Listing(NextQueue(queue)));
    }
  }

  lemma RootListingYield<X>(y: Yield<X>, d: Dir)
    ensures multiset(Along(y, Listing([d]))) == TreeYield(y, d)
    ensures |Along(y, Listing([d]))| == |TreeYield(y, d)|
  {
    ListingYield(y, [d]);
    QueueYieldOne(y, d);
    assert |multiset(Along(y, Listing([d])))| == |Along(y, Listing([d]))|;
  }

  /** The first entries of a listing yield no more than all of it. */
  lemma PrefixYieldsLess<X>(y: Yield<X>, es: seq<Entry>, n: nat)
    requires n <= |es|
    ensures |Along(y, es[..n])| <= |Along(y, es)|
  {
    assert es == es[..n] + es[n..];
    AlongConcat(y, es[..n], es[n..]);
  }

  // What a walk owes the tree.

  /** The scan holds exactly what the tree yields, field by field. */
  ghost predicate Complete(x: Extractor, t: Table, language: string, maxBytes: nat, d: Dir, r: Scan) {
    && multiset(r.facts) == TreeYield(FactsOf(x, t, language, maxBytes), d)
    && r.scanned == |TreeYield(ScannedOf(x, t, language, maxBytes), d)|
    && r.skipped == |TreeYield(SkippedOf(x, t, language, maxBytes), d)|
    && multiset(r.warnings) == TreeYield(FailuresOf(x, t, language, maxBytes), d)
  }

  lemma WholeListingIsComplete(x: Extractor, t: Table, language: string, maxBytes: nat, d: Dir, r: Scan)
    requires Reports(x, t, language, maxBytes, Listing([d]), NOTHING, r)
    ensures Complete(x, t, language, maxBytes, d, r)
  {
    RootListingYield(FactsOf(x, t, language, maxBytes), d);
    RootListingYield(ScannedOf(x, t, language, maxBytes), d);
    RootListingYield(SkippedOf(x, t, language, maxBytes), d);
    RootListingYield(FailuresOf(x, t, language, maxBytes), d);
    assert r.facts == Along(FactsOf(x, t, language, maxBytes), Listing([d]));
    assert r.warnings == Along(FailuresOf(x, t, language, maxBytes), Listing([d]));
  }

  /** The counts of a walk that may have stopped. */
  ghost predicate AtMost(x: Extractor, t: Table, language: string, maxBytes: nat, d: Dir, r: Scan) {
    && r.scanned <= |TreeYield(ScannedOf(x, t, language, maxBytes), d)|
    && r.skipped <= |TreeYield(SkippedOf(x, t, language, maxBytes), d)|
  }

  lemma PartOfListing(x: Extractor, t: Table, language: string, maxBytes: nat, d: Dir, n: nat, r: Scan)
    requires n <= |Listing([d])| && Reports(x, t, language, maxBytes, Listing([d])[..n], NOTHING, r)
    ensures AtMost(x, t, language, maxBytes, d, r)
  {
    RootListingYield(ScannedOf(x, t, language, maxBytes), d);
    RootListingYield(SkippedOf(x, t, language, maxBytes), d);
    PrefixYieldsLess(ScannedOf(x, t, language, maxBytes), Listing([d]), n);
    PrefixYieldsLess(SkippedOf(x, t, language, maxBytes), Listing([d]), n);
  }

  lemma RootWalk(x: Extractor, t: Table, language: string, lim: Limits, d: Dir, out: Outcome)
    requires out == Walk(x, t, language, lim, [d], 0, NOTHING)
    ensures AtMost(x, t, language, lim.bytes, d, out.scan)
    ensures out.stoppedOnFiles ==> out.scan.scanned >= lim.files
    ensures Weight(d) <= lim.directories && !out.stoppedOnFiles ==> Complete(x, t, language, lim.bytes, d, out.scan)
  {
    assert [d][..0] == [];
    assert QueueWeight([d]) == Weight(d);
    var n := WalkScansListing(x, t, language, lim, [d], 0, NOTHING);
    var scanned := ScanEntries(x, t, language, lim.bytes, Listing([d])[..n], NOTHING);
    ScanEntriesReports(x, t, language, lim.bytes, Listing([d])[..n], NOTHING);
    PartOfListing(x, t, language, lim.bytes, d, n, scanned);
    if Weight(d) <= lim.directories && !out.stoppedOnFiles {
      assert Listing([d])[..n] == Listing([d]);
      WholeListingIsComplete(x, t, language, lim.bytes, d, scanned);
    }
  }

  /**
   * No link or file of the language is counted twice.  A walk that meets neither limit counts as
   * scanned exactly the reached files of the language that can be read, fit and extract, as
   * skipped the links and the other files of the language, finds exactly the facts of the scanned
   * files, and warns once of every file that did not extract.
   */
  lemma EveryFileIsCountedOnce(x: Extractor, t: Table, language: string, o: Options)
    requires t(language).Some? && o.root.Ok?
    ensures var d, out := RootDir(o.root.value), ScanOne(x, t, language, o);
            && AtMost(x, t, language, LimitsOf(o).bytes, d, out.scan)
            && (Weight(d) <= LimitsOf(o).directories && !out.stoppedOnFiles ==>
                  Complete(x, t, language, LimitsOf(o).bytes, d, out.scan))
  {
    RootWalk(x, t, language, LimitsOf(o), RootDir(o.root.value), ScanOne(x, t, language, o));
  }

  /** No more directories than the limit, and fewer extractable files of the language than the limit. */
  ghost predicate WithinLimits(x: Extractor, t: Table, language: string, o: Options) {
    && t(language).Some? && o.root.Ok?
    && Weight(RootDir(o.root.value)) <= LimitsOf(o).directories
    && |TreeYield(ScannedOf(x, t, language, LimitsOf(o).bytes), RootDir(o.root.value))| < LimitsOf(o).files
  }

  /** In a tree within the limits the walk is complete, however many links and other files there are. */
  lemma UnlimitedWalkIsComplete(x: Extractor, t: Table, language: string, o: Options)
    requires WithinLimits(x, t, language, o)
    ensures !ScanOne(x, t, language, o).stoppedOnFiles
    ensures Complete(x, t, language, LimitsOf(o).bytes, RootDir(o.root.value), ScanOne(x, t, language, o).scan)
  {
    RootWalk(x, t, language, LimitsOf(o), RootDir(o.root.value), ScanOne(x, t, language, o));
  }

  /** And so is the shared walk, for every listed language that is within the limits. */
  lemma SharedWalkIsComplete(x: Extractor, t: Table, languages: seq<string>, o: Options, language: string)
    returns (i: nat)
    requires WithinLimits(x, t, language, o) && NamedBy(language, languages)
    ensures i < |ScanMany(x, t, languages, o)| && ScanMany(x, t, languages, o)[i].name == language
    ensures Complete(x, t, language, LimitsOf(o).bytes, RootDir(o.root.value), ScanMany(x, t, languages, o)[i].scan)
  {
    StartNames(t, languages);
    var names := Names(Start(t, languages));
    i :| 0 <= i < |names| && names[i] == language;
    ScanManyNames(x, t, languages, o, i);
    SharedWalkServesEach(x, t, languages, o, i);
    UnlimitedWalkIsComplete(x, t, language, o);
  }
}
