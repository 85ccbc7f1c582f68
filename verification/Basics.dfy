/** Datatypes and small sequence vocabulary shared by every module. */
module Basics {

  datatype Option<+T> = None | Some(value: T)

  datatype Result<+T, +E> = Ok(value: T) | Err(error: E)

  function Elements<T>(s: seq<T>): set<T> {
    set x | x in s
  }

  lemma ElementsEmpty<T>(s: seq<T>)
    ensures Elements(s) == {} <==> s == []
  {
    if s != [] { assert s[0] in Elements(s); }
  }

  lemma ElementsConcat<T>(a: seq<T>, b: seq<T>)
    ensures Elements(a + b) == Elements(a) + Elements(b)
  {
    assert forall x :: x in a + b <==> x in a || x in b;
  }

  lemma ElementsCons<T>(x: T, s: seq<T>)
    ensures Elements([x] + s) == {x} + Elements(s)
  {
    ElementsConcat([x], s);
  }

  ghost predicate Distinct<T>(s: seq<T>) {
    forall i, j :: 0 <= i < j < |s| ==> s[i] != s[j]
  }

  lemma DistinctConcat<T>(a: seq<T>, b: seq<T>)
    requires Distinct(a) && Distinct(b) && Elements(a) !! Elements(b)
    ensures Distinct(a + b)
  {
    forall i, j | 0 <= i < j < |a + b| ensures (a + b)[i] != (a + b)[j] {
      if i < |a| <= j { assert a[i] in Elements(a) && b[j - |a|] in Elements(b); }
    }
  }

  function UnwrapOr<T>(o: Option<T>, default: T): T {
    match o
    case Some(v) => v
    case None => default
  }
}

/**
 * The order in which Rust's `str::cmp`, `BTreeMap<String, _>` and `Vec<String>::sort` arrange
 * strings.  They compare UTF-8 bytes, and UTF-8 preserves code point order, so comparing
 * characters gives the same answer.
 */
module ByteOrder {
  import opened Basics

  predicate Less(a: string, b: string) {
    if b == [] then false
    else if a == [] then true
    else a[0] < b[0] || (a[0] == b[0] && Less(a[1..], b[1..]))
  }

  lemma LessIsStrict(a: string)
    ensures !Less(a, a)
  {
  }

  lemma {:induction false} LessIsTransitive(a: string, b: string, c: string)
    requires Less(a, b) && Less(b, c)
    ensures Less(a, c)
  {
    if a != [] && a[0] == b[0] && b[0] == c[0] {
      LessIsTransitive(a[1..], b[1..], c[1..]);
    }
  }

  lemma {:induction false} LessIsTotal(a: string, b: string)
    ensures a == b || Less(a, b) || Less(b, a)
  {
    if a != [] && b != [] && a[0] == b[0] {
      LessIsTotal(a[1..], b[1..]);
      if a[1..] == b[1..] {
        assert a == [a[0]] + a[1..] == [b[0]] + b[1..] == b;
      }
    }
  }

  ghost predicate Ascending(s: seq<string>) {
    forall i, j :: 0 <= i < j < |s| ==> Less(s[i], s[j])
  }

  lemma AscendingIsDistinct(s: seq<string>)
    requires Ascending(s)
    ensures Distinct(s)
  {
    forall i, j | 0 <= i < j < |s| ensures s[i] != s[j] {
      LessIsStrict(s[i]);
    }
  }

  ghost predicate IsLeast(m: string, s: set<string>) {
    m in s && forall x :: x in s ==> x == m || Less(m, x)
  }

  lemma {:induction false} LeastExists(s: set<string>)
    requires s != {}
    ensures exists m :: IsLeast(m, s)
  {
    var x :| x in s;
    if s == {x} {
      assert IsLeast(x, s);
    } else {
      LeastExists(s - {x});
      var m :| IsLeast(m, s - {x});
      LessIsTotal(x, m);
      if Less(m, x) {
        assert IsLeast(m, s);
      } else {
        forall y | y in s ensures y == x || Less(x, y) {
          if y != x && y != m { LessIsTransitive(x, m, y); }
        }
        assert IsLeast(x, s);
      }
    }
  }

  lemma LeastIsUnique(m: string, n: string, s: set<string>)
    requires IsLeast(m, s) && IsLeast(n, s)
    ensures m == n
  {
    if m != n {
      LessIsTransitive(m, n, m);
      LessIsStrict(m);
    }
  }

  function Least(s: set<string>): (m: string)
    requires s != {}
    ensures IsLeast(m, s)
  {
    LeastExists(s);
    assert forall a, b | a in s && b in s && (forall x :: x in s ==> x == a || Less(a, x))
        && (forall x :: x in s ==> x == b || Less(b, x)) :: a == b by {
      forall a, b | a in s && b in s && (forall x :: x in s ==> x == a || Less(a, x))
        && (forall x :: x in s ==> x == b || Less(b, x)) ensures a == b {
        LeastIsUnique(a, b, s);
      }
    }
    var m :| m in s && forall x :: x in s ==> x == m || Less(m, x);
    m
  }

  lemma LeastFirst(m: string, rest: seq<string>, s: set<string>)
    requires IsLeast(m, s) && Ascending(rest) && Elements(rest) == s - {m} && |rest| == |s - {m}|
    ensures Ascending([m] + rest) && Elements([m] + rest) == s && |[m] + rest| == |s|
  {
    ElementsCons(m, rest);
    forall i | 0 <= i < |rest| ensures Less(m, rest[i]) {
      assert rest[i] in Elements(rest);
    }
  }

  /** The keys of a `BTreeMap` or `BTreeSet` in iteration order. */
  function Sorted(s: set<string>): (r: seq<string>)
    ensures Ascending(r)
    ensures Elements(r) == s
    ensures |r| == |s|
  {
    if s == {} then []
    else
      var m := Least(s);
      LeastFirst(m, Sorted(s - {m}), s);
      [m] + Sorted(s - {m})
  }

  /** A sorted, duplicate-free listing of a set is unique. */
  lemma {:induction false} AscendingIsUnique(a: seq<string>, b: seq<string>)
    requires Ascending(a) && Ascending(b)
    requires Elements(a) == Elements(b)
    ensures a == b
  {
    ElementsEmpty(a);
    ElementsEmpty(b);
    if a != [] {
      assert IsLeast(a[0], Elements(a));
      assert IsLeast(b[0], Elements(b));
      LeastIsUnique(a[0], b[0], Elements(a));
      AscendingIsDistinct(a);
      AscendingIsDistinct(b);
      assert a == [a[0]] + a[1..] && b == [b[0]] + b[1..];
      assert Elements(a[1..]) == Elements(a) - {a[0]};
      assert Elements(b[1..]) == Elements(b) - {b[0]};
      AscendingIsUnique(a[1..], b[1..]);
    }
  }

  /** Appending a string larger than everything listed keeps a listing ascending. */
  lemma AscendingAppend(s: seq<string>, x: string)
    requires Ascending(s)
    requires forall y :: y in s ==> Less(y, x)
    ensures Ascending(s + [x])
    ensures Elements(s + [x]) == Elements(s) + {x}
  {
  }

  /** `Vec<String>::sort`. */
  function Sort(v: seq<string>): (r: seq<string>)
    ensures Elements(r) == Elements(v)
    ensures |r| == |v|
  {
    if v == [] then []
    else
      ElementsCons(v[0], v[1..]);
      assert v == [v[0]] + v[1..];
      Insert(v[0], Sort(v[1..]))
  }

  function Insert(x: string, v: seq<string>): (r: seq<string>)
    ensures Elements(r) == Elements(v) + {x}
    ensures |r| == |v| + 1
  {
    ElementsCons(x, v);
    if v == [] || !Less(v[0], x) then [x] + v
    else
      ElementsCons(v[0], v[1..]);
      ElementsCons(v[0], Insert(x, v[1..]));
      assert v == [v[0]] + v[1..];
      [v[0]] + Insert(x, v[1..])
  }

  lemma {:induction false} InsertAscending(x: string, v: seq<string>)
    requires Ascending(v) && x !in v
    ensures Ascending(Insert(x, v))
  {
    if v == [] {
    } else if Less(v[0], x) {
      InsertAscending(x, v[1..]);
      var tail := Insert(x, v[1..]);
      forall y | y in tail ensures Less(v[0], y) {
        assert y in Elements(tail);
        assert y == x || y in v[1..];
      }
      assert Insert(x, v) == [v[0]] + tail;
    } else {
      LessIsTotal(v[0], x);
      forall i | 0 <= i < |v| ensures Less(x, v[i]) {
        if i > 0 { LessIsTransitive(x, v[0], v[i]); }
      }
    }
  }

  /** Sorting a duplicate-free list lists its elements in order. */
  lemma {:induction false} SortOfDistinct(v: seq<string>)
    requires Distinct(v)
    ensures Sort(v) == Sorted(Elements(v))
  {
    SortAscends(v);
    AscendingIsUnique(Sort(v), Sorted(Elements(v)));
  }

  lemma {:induction false} SortAscends(v: seq<string>)
    requires Distinct(v)
    ensures Ascending(Sort(v))
  {
    if v != [] {
      SortAscends(v[1..]);
      assert v[0] !in v[1..];
      assert v[0] !in Elements(Sort(v[1..]));
      InsertAscending(v[0], Sort(v[1..]));
    }
  }
}
