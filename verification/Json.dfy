/**
 * Key-order-insensitive JSON comparison, by which the planner compares fingerprints.
 * An object is the list of its entries, so that the order of keys is visible to the model.
 */
module Json {
  import opened Basics
  import opened ByteOrder

  datatype Entry = Entry(key: string, value: Json)

  datatype Json =
    | Null
    | Bool(b: bool)
    | Int(n: int)
    | Float(token: string)
    | Str(s: string)
    | Array(items: seq<Json>)
    | Object(entries: seq<Entry>)

  /** Collecting entries into a map: the last entry of a key wins. */
  function Collect(es: seq<Entry>): map<string, Json> {
    if es == [] then map[]
    else Collect(es[..|es| - 1])[es[|es| - 1].key := es[|es| - 1].value]
  }

  /** The entries of a map in key order. */
  function Listing(m: map<string, Json>): (r: seq<Entry>)
    ensures |r| == |m.Keys|
  {
    var ks := Sorted(m.Keys);
    assert forall i :: 0 <= i < |ks| ==> ks[i] in Elements(ks);
    seq(|ks|, i requires 0 <= i < |ks| => Entry(ks[i], m[ks[i]]))
  }

  function SortJson(j: Json): Json
    decreases j
  {
    match j
    case Array(items) => Array(seq(|items|, i requires 0 <= i < |items| => SortJson(items[i])))
    case Object(es) => Object(Listing(Collect(
      seq(|es|, i requires 0 <= i < |es| => Entry(es[i].key, SortJson(es[i].value))))))
    case _ => j
  }

  predicate StableJsonEqual(a: Json, b: Json) {
    SortJson(a) == SortJson(b)
  }

  ghost predicate DistinctKeys(es: seq<Entry>) {
    forall i, j :: 0 <= i < j < |es| ==> es[i].key != es[j].key
  }

  /** What `serde_json::Map` guarantees of every object in a tree. */
  ghost predicate UniqueKeys(j: Json)
    decreases j
  {
    match j
    case Array(items) => forall i :: 0 <= i < |items| ==> UniqueKeys(items[i])
    case Object(es) => DistinctKeys(es) && forall i :: 0 <= i < |es| ==> UniqueKeys(es[i].value)
    case _ => true
  }

  /** The trees agree up to reordering the keys of objects, at every level. */
  ghost predicate Same(a: Json, b: Json)
    decreases a
  {
    match (a, b)
    case (Array(x), Array(y)) =>
      |x| == |y| && forall i :: 0 <= i < |x| ==> Same(x[i], y[i])
    case (Object(x), Object(y)) =>
      && (forall i :: 0 <= i < |x| ==> HasPeer(x[i], y))
      && (forall j :: 0 <= j < |y| ==> IsPeerOfOne(x, y[j]))
    case _ => a == b
  }

  ghost predicate HasPeer(e: Entry, y: seq<Entry>)
    decreases e
  {
    exists j :: 0 <= j < |y| && e.key == y[j].key && Same(e.value, y[j].value)
  }

  ghost predicate IsPeerOfOne(x: seq<Entry>, f: Entry)
    decreases x
  {
    exists i :: 0 <= i < |x| && x[i].key == f.key && Same(x[i].value, f.value)
  }

  lemma {:induction false} CollectSource(es: seq<Entry>, k: string) returns (i: nat)
    requires k in Collect(es)
    ensures i < |es| && es[i] == Entry(k, Collect(es)[k])
  {
    if es[|es| - 1].key == k {
      i := |es| - 1;
    } else {
      i := CollectSource(es[..|es| - 1], k);
    }
  }

  lemma {:induction false} CollectAt(es: seq<Entry>, i: nat)
    requires DistinctKeys(es) && i < |es|
    ensures es[i].key in Collect(es) && Collect(es)[es[i].key] == es[i].value
  {
    if i < |es| - 1 {
      CollectAt(es[..|es| - 1], i);
    }
  }

  lemma ListingAt(m: map<string, Json>, i: nat)
    requires i < |Listing(m)|
    ensures Listing(m)[i].key == Sorted(m.Keys)[i]
    ensures Listing(m)[i].key in m && m[Listing(m)[i].key] == Listing(m)[i].value
  {
    assert Sorted(m.Keys)[i] in Elements(Sorted(m.Keys));
  }

  lemma ListingHasDistinctKeys(m: map<string, Json>)
    ensures DistinctKeys(Listing(m))
  {
    forall i, j | 0 <= i < j < |Listing(m)| ensures Listing(m)[i].key != Listing(m)[j].key {
      ListingAt(m, i);
      ListingAt(m, j);
      LessIsStrict(Listing(m)[i].key);
    }
  }

  lemma ListingHas(m: map<string, Json>, k: string)
    requires k in m
    ensures k in Collect(Listing(m)) && Collect(Listing(m))[k] == m[k]
  {
    assert k in Elements(Sorted(m.Keys));
    var i :| 0 <= i < |Sorted(m.Keys)| && Sorted(m.Keys)[i] == k;
    ListingAt(m, i);
    ListingHasDistinctKeys(m);
    CollectAt(Listing(m), i);
  }

  lemma CollectListing(m: map<string, Json>)
    ensures Collect(Listing(m)) == m
  {
    forall k | k in Collect(Listing(m)) ensures k in m {
      var i := CollectSource(Listing(m), k);
      ListingAt(m, i);
    }
    forall k | k in m ensures k in Collect(Listing(m)) && Collect(Listing(m))[k] == m[k] {
      ListingHas(m, k);
    }
  }

  /** Listing a map and collecting the listing again is the identity, so listing is injective. */
  lemma ListingIsInjective(m: map<string, Json>, n: map<string, Json>)
    requires Listing(m) == Listing(n)
    ensures m == n
  {
    CollectListing(m);
    CollectListing(n);
  }

  function SortValues(es: seq<Entry>): seq<Entry> {
    seq(|es|, i requires 0 <= i < |es| => Entry(es[i].key, SortJson(es[i].value)))
  }

  lemma EqualObjects(x: seq<Entry>, y: seq<Entry>)
    ensures StableJsonEqual(Object(x), Object(y)) <==> Collect(SortValues(x)) == Collect(SortValues(y))
  {
    if StableJsonEqual(Object(x), Object(y)) {
      ListingIsInjective(Collect(SortValues(x)), Collect(SortValues(y)));
    }
  }

  /** `stable_json_equal` is exactly agreement up to key order, for trees of any depth. */
  lemma {:induction false} StableJsonEqualIsSame(a: Json, b: Json)
    requires UniqueKeys(a) && UniqueKeys(b)
    ensures StableJsonEqual(a, b) <==> Same(a, b)
    decreases a
  {
    match (a, b) {
      case (Array(x), Array(y)) =>
        ArraysEqual(x, y);
        if |x| == |y| {
          forall i | 0 <= i < |x| ensures (SortJson(x[i]) == SortJson(y[i])) <==> Same(x[i], y[i]) {
            StableJsonEqualIsSame(x[i], y[i]);
          }
        }
      case (Object(x), Object(y)) =>
        if StableJsonEqual(a, b) {
          EqualObjectsAreSame(a, b);
        } else if Same(a, b) {
          SameObjectsAreEqual(a, b);
        }
      case _ =>
    }
  }

  lemma ArraysEqual(x: seq<Json>, y: seq<Json>)
    ensures StableJsonEqual(Array(x), Array(y)) <==>
            |x| == |y| && forall i :: 0 <= i < |x| ==> SortJson(x[i]) == SortJson(y[i])
  {
    var sx, sy := SortJson(Array(x)).items, SortJson(Array(y)).items;
    assert |sx| == |x| && |sy| == |y|;
    if sx == sy {
      forall i | 0 <= i < |x| ensures SortJson(x[i]) == SortJson(y[i]) {
        assert sx[i] == SortJson(x[i]) && sy[i] == SortJson(y[i]);
      }
    }
  }

  lemma {:induction false} EqualObjectsAreSame(a: Json, b: Json)
    requires UniqueKeys(a) && UniqueKeys(b) && a.Object? && b.Object?
    requires StableJsonEqual(a, b)
    ensures Same(a, b)
    decreases a, 0
  {
    var x, y := a.entries, b.entries;
    forall i | 0 <= i < |x| ensures HasPeer(x[i], y) {
      var j := MatchingEntry(x, y, i);
      StableJsonEqualIsSame(x[i].value, y[j].value);
    }
    forall j | 0 <= j < |y| ensures IsPeerOfOne(x, y[j]) {
      var i := MatchingEntry(y, x, j);
      StableJsonEqualIsSame(x[i].value, y[j].value);
    }
  }

  /** Equal canonical forms pair the entries of two objects by key, with equal sorted values. */
  lemma MatchingEntry(x: seq<Entry>, y: seq<Entry>, i: nat) returns (j: nat)
    requires DistinctKeys(x) && i < |x|
    requires StableJsonEqual(Object(x), Object(y))
    ensures j < |y| && x[i].key == y[j].key && SortJson(x[i].value) == SortJson(y[j].value)
  {
    var sx, sy := SortValues(x), SortValues(y);
    EqualObjects(x, y);
    CollectAt(sx, i);
    j := CollectSource(sy, x[i].key);
  }

  lemma {:induction false} SameObjectsAreEqual(a: Json, b: Json)
    requires UniqueKeys(a) && UniqueKeys(b) && a.Object? && b.Object?
    requires Same(a, b)
    ensures StableJsonEqual(a, b)
    decreases a, 1
  {
    var x, y := a.entries, b.entries;
    forall i | 0 <= i < |x| ensures SortValues(x)[i] in SortValues(y) {
      PeerAfter(a, b, i);
    }
    forall j | 0 <= j < |y| ensures SortValues(y)[j] in SortValues(x) {
      PeerBefore(a, b, j);
    }
    CollectSame(SortValues(x), SortValues(y));
    EqualObjects(x, y);
  }

  lemma {:induction false} PeerAfter(a: Json, b: Json, i: nat)
    requires UniqueKeys(a) && UniqueKeys(b) && a.Object? && b.Object?
    requires i < |a.entries| && HasPeer(a.entries[i], b.entries)
    ensures SortValues(a.entries)[i] in SortValues(b.entries)
    decreases a, 0
  {
    var x, y := a.entries, b.entries;
    var j :| 0 <= j < |y| && x[i].key == y[j].key && Same(x[i].value, y[j].value);
    StableJsonEqualIsSame(x[i].value, y[j].value);
    assert SortValues(y)[j] == SortValues(x)[i];
  }

  lemma {:induction false} PeerBefore(a: Json, b: Json, j: nat)
    requires UniqueKeys(a) && UniqueKeys(b) && a.Object? && b.Object?
    requires j < |b.entries| && IsPeerOfOne(a.entries, b.entries[j])
    ensures SortValues(b.entries)[j] in SortValues(a.entries)
    decreases a, 0
  {
    var x, y := a.entries, b.entries;
    var i :| 0 <= i < |x| && x[i].key == y[j].key && Same(x[i].value, y[j].value);
    StableJsonEqualIsSame(x[i].value, y[j].value);
    assert SortValues(x)[i] == SortValues(y)[j];
  }

  lemma CollectContains(x: seq<Entry>, y: seq<Entry>)
    requires DistinctKeys(y)
    requires forall i :: 0 <= i < |x| ==> x[i] in y
    ensures forall k :: k in Collect(x) ==> k in Collect(y) && Collect(y)[k] == Collect(x)[k]
  {
    forall k | k in Collect(x) ensures k in Collect(y) && Collect(y)[k] == Collect(x)[k] {
      var i := CollectSource(x, k);
      var j :| 0 <= j < |y| && y[j] == x[i];
      CollectAt(y, j);
    }
  }

  lemma CollectSame(x: seq<Entry>, y: seq<Entry>)
    requires DistinctKeys(x) && DistinctKeys(y)
    requires (forall i :: 0 <= i < |x| ==> x[i] in y) && (forall j :: 0 <= j < |y| ==> y[j] in x)
    ensures Collect(x) == Collect(y)
  {
    CollectContains(x, y);
    CollectContains(y, x);
  }

  /** `sort_json` is a canonical form: idempotent, and equal to its input up to key order. */
  lemma {:induction false} SortJsonIsCanonical(j: Json)
    ensures SortJson(SortJson(j)) == SortJson(j)
    ensures UniqueKeys(SortJson(j))
    ensures UniqueKeys(j) ==> Same(j, SortJson(j))
    decreases j
  {
    match j {
      case Array(items) =>
        forall i | 0 <= i < |items|
          ensures SortJson(SortJson(items[i])) == SortJson(items[i]) && UniqueKeys(SortJson(items[i]))
        {
          SortJsonIsCanonical(items[i]);
        }
        ArraysEqual(SortJson(j).items, items);
      case Object(es) =>
        var sv := SortValues(es);
        var c := Listing(Collect(sv));
        forall i | 0 <= i < |sv| ensures SortJson(sv[i].value) == sv[i].value && UniqueKeys(sv[i].value) {
          SortJsonIsCanonical(es[i].value);
        }
        ListingHasDistinctKeys(Collect(sv));
        forall i | 0 <= i < |c| ensures SortJson(c[i].value) == c[i].value && UniqueKeys(c[i].value) {
          ListingAt(Collect(sv), i);
          var k := CollectSource(sv, c[i].key);
        }
        assert SortValues(c) == c;
        CollectListing(Collect(sv));
      case _ =>
    }
    if UniqueKeys(j) { StableJsonEqualIsSame(j, SortJson(j)); }
  }
}
