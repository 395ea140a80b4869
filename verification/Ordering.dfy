/**
  The byte order of strings, and sorting by a string key. A sequence that is strictly ascending
  in its keys is determined by the set of its elements.
 */
module Ordering {
  import opened Sequences

  predicate Before(a: string, b: string) {
    b != [] && (a == [] || a[0] < b[0] || (a[0] == b[0] && Before(a[1..], b[1..])))
  }

  lemma {:induction false} BeforeTotal(a: string, b: string)
    ensures a == b || Before(a, b) || Before(b, a)
  {
    if a != [] && b != [] && a[0] == b[0] {
      BeforeTotal(a[1..], b[1..]);
      assert a == [a[0]] + a[1..] && b == [b[0]] + b[1..];
    }
  }

  lemma {:induction false} BeforeTransitive(a: string, b: string, c: string)
    requires Before(a, b) && Before(b, c)
    ensures Before(a, c)
  {
    if a != [] && a[0] == b[0] == c[0] {
      BeforeTransitive(a[1..], b[1..], c[1..]);
    }
  }

  lemma {:induction false} BeforeIrreflexive(a: string)
    ensures !Before(a, a)
  {
    if a != [] {
      BeforeIrreflexive(a[1..]);
    }
  }

  /** Keys are wrapped so that they are compared only through Before. */
  datatype Name = Name(text: string)

  predicate Less(a: Name, b: Name) {
    Before(a.text, b.text)
  }

  lemma LessTotal(a: Name, b: Name)
    ensures a == b || Less(a, b) || Less(b, a)
  {
    BeforeTotal(a.text, b.text);
  }

  lemma LessTransitive(a: Name, b: Name, c: Name)
    requires Less(a, b) && Less(b, c)
    ensures Less(a, c)
  {
    BeforeTransitive(a.text, b.text, c.text);
  }

  lemma LessIrreflexive(a: Name)
    ensures !Less(a, a)
  {
    BeforeIrreflexive(a.text);
  }

  // ----- Sorting by a key -------------------------------------------------------------------

  ghost predicate Ascending<T>(s: seq<T>, key: T -> Name) {
    forall i, j :: 0 <= i < j < |s| ==> Less(key(s[i]), key(s[j]))
  }

  ghost predicate Fresh<T(!new)>(x: T, s: seq<T>, key: T -> Name) {
    forall y :: y in s ==> key(y) != key(x)
  }

  ghost predicate DistinctKeys<T>(s: seq<T>, key: T -> Name) {
    forall i, j :: 0 <= i < j < |s| ==> key(s[i]) != key(s[j])
  }

  function Insert<T(!new)>(x: T, s: seq<T>, key: T -> Name): (r: seq<T>)
    ensures Elements(r) == Elements(s) + {x} && |r| == |s| + 1
  {
    if s == [] || Less(key(x), key(s[0])) then
      [x] + s
    else
      var r := Insert(x, s[1..], key);
      assert s == [s[0]] + s[1..];
      [s[0]] + r
  }

  lemma {:induction false} InsertAscending<T(!new)>(x: T, s: seq<T>, key: T -> Name)
    requires Ascending(s, key) && Fresh(x, s, key)
    ensures Ascending(Insert(x, s, key), key)
  {
    if s != [] {
      if Less(key(x), key(s[0])) {
        forall j | 1 <= j < |s| ensures Less(key(x), key(s[j])) {
          LessTransitive(key(x), key(s[0]), key(s[j]));
        }
      } else {
        LessTotal(key(x), key(s[0]));
        assert s[0] in s;
        assert Less(key(s[0]), key(x));
        var rest := Insert(x, s[1..], key);
        InsertAscending(x, s[1..], key);
        forall y | y in rest ensures Less(key(s[0]), key(y)) {
          assert y in Elements(s[1..]) + {x};
        }
        assert forall j :: 0 <= j < |rest| ==> rest[j] in rest;
      }
    }
  }

  function Sort<T(!new)>(s: seq<T>, key: T -> Name): (r: seq<T>)
    ensures Elements(r) == Elements(s) && |r| == |s|
  {
    if s == [] then []
    else
      assert s == [s[0]] + s[1..];
      Insert(s[0], Sort(s[1..], key), key)
  }

  lemma {:induction false} SortAscending<T(!new)>(s: seq<T>, key: T -> Name)
    requires DistinctKeys(s, key)
    ensures Ascending(Sort(s, key), key)
  {
    if s != [] {
      var rest := Sort(s[1..], key);
      SortAscending(s[1..], key);
      forall y | y in rest ensures key(y) != key(s[0]) {
        assert y in Elements(s[1..]);
        var j :| 0 <= j < |s| - 1 && s[1..][j] == y;
        assert s[j + 1] == y;
      }
      InsertAscending(s[0], rest, key);
    }
  }

  /** Only one sequence lists a set in strictly ascending order. */
  lemma {:induction false} AscendingUnique<T(!new)>(a: seq<T>, b: seq<T>, key: T -> Name)
    requires Ascending(a, key) && Ascending(b, key) && Elements(a) == Elements(b)
    ensures a == b
    decreases a
  {
    assert (a != [] ==> a[0] in Elements(a)) && (b != [] ==> b[0] in Elements(b));
    if a != [] && b != [] {
      FirstIsLeast(a, b, key);
      TailElements(a, key);
      TailElements(b, key);
      AscendingUnique(a[1..], b[1..], key);
      assert a == [a[0]] + a[1..] && b == [b[0]] + b[1..];
    }
  }

  lemma FirstIsLeast<T(!new)>(a: seq<T>, b: seq<T>, key: T -> Name)
    requires Ascending(a, key) && Ascending(b, key) && Elements(a) == Elements(b) && a != [] && b != []
    ensures a[0] == b[0]
  {
    assert a[0] in Elements(b) && b[0] in Elements(a);
    var i :| 0 <= i < |b| && b[i] == a[0];
    var j :| 0 <= j < |a| && a[j] == b[0];
    if i != 0 && j != 0 {
      LessTransitive(key(a[0]), key(b[0]), key(a[0]));
      LessIrreflexive(key(a[0]));
    }
  }

  lemma TailElements<T(!new)>(a: seq<T>, key: T -> Name)
    requires Ascending(a, key) && a != []
    ensures Elements(a[1..]) == Elements(a) - {a[0]} && Ascending(a[1..], key)
  {
    forall y | y in a[1..] ensures y != a[0] {
      var j :| 0 <= j < |a| - 1 && a[1..][j] == y;
      assert Less(key(a[0]), key(a[j + 1]));
      LessIrreflexive(key(a[0]));
    }
    assert a == [a[0]] + a[1..];
  }

  // ----- Sorting with equal keys ------------------------------------------------------------

  /** No element comes before one with a smaller key. */
  ghost predicate Sorted<T>(s: seq<T>, key: T -> Name) {
    forall i, j :: 0 <= i < j < |s| ==> !Less(key(s[j]), key(s[i]))
  }

  lemma LessThenNot(a: Name, b: Name, c: Name)
    requires Less(a, b) && !Less(c, b)
    ensures !Less(c, a)
  {
    if Less(c, a) {
      LessTransitive(c, a, b);
    }
  }

  lemma HeadSorted<T>(x: T, s: seq<T>, key: T -> Name)
    requires Sorted(s, key) && forall j :: 0 <= j < |s| ==> !Less(key(s[j]), key(x))
    ensures Sorted([x] + s, key)
  {
  }

  lemma {:induction false} InsertBag<T(!new)>(x: T, s: seq<T>, key: T -> Name)
    ensures multiset(Insert(x, s, key)) == multiset(s) + multiset{x}
  {
    if s != [] && !Less(key(x), key(s[0])) {
      InsertBag(x, s[1..], key);
      assert s == [s[0]] + s[1..];
    }
  }

  lemma {:induction false} InsertSorted<T(!new)>(x: T, s: seq<T>, key: T -> Name)
    requires Sorted(s, key)
    ensures Sorted(Insert(x, s, key), key)
  {
    if s != [] {
      LessIrreflexive(key(s[0]));
      if Less(key(x), key(s[0])) {
        forall j | 0 <= j < |s| ensures !Less(key(s[j]), key(x)) {
          LessThenNot(key(x), key(s[0]), key(s[j]));
        }
        HeadSorted(x, s, key);
      } else {
        InsertSorted(x, s[1..], key);
        InsertedNotBefore(x, s, key);
        HeadSorted(s[0], Insert(x, s[1..], key), key);
      }
    }
  }

  lemma InsertedNotBefore<T(!new)>(x: T, s: seq<T>, key: T -> Name)
    requires Sorted(s, key) && s != [] && !Less(key(x), key(s[0]))
    ensures forall j :: 0 <= j < |s| ==> !Less(key(Insert(x, s[1..], key)[j]), key(s[0]))
  {
    var rest := Insert(x, s[1..], key);
    forall j | 0 <= j < |s| ensures !Less(key(rest[j]), key(s[0])) {
      assert rest[j] in Elements(s[1..]) + {x};
    }
  }

  lemma {:induction false} SortSorted<T(!new)>(s: seq<T>, key: T -> Name)
    ensures Sorted(Sort(s, key), key) && multiset(Sort(s, key)) == multiset(s)
  {
    if s != [] {
      assert s == [s[0]] + s[1..];
      SortSorted(s[1..], key);
      InsertSorted(s[0], Sort(s[1..], key), key);
      InsertBag(s[0], Sort(s[1..], key), key);
    }
  }

  /** Elements with equal keys are equal. */
  ghost predicate TiesEqual<T(!new)>(s: seq<T>, key: T -> Name) {
    forall x, y :: x in s && y in s && key(x) == key(y) ==> x == y
  }

  lemma SameFirst<T(!new)>(a: seq<T>, b: seq<T>, key: T -> Name)
    requires Sorted(a, key) && Sorted(b, key) && multiset(a) == multiset(b) && TiesEqual(a, key) && a != [] && b != []
    ensures a[0] == b[0]
  {
    assert a[0] in multiset(b) && b[0] in multiset(a);
    var i :| 0 <= i < |b| && b[i] == a[0];
    var j :| 0 <= j < |a| && a[j] == b[0];
    LessTotal(key(a[0]), key(b[0]));
  }

  /** A sequence whose ties are equal is sorted in only one way. */
  lemma {:induction false} SortedUnique<T(!new)>(a: seq<T>, b: seq<T>, key: T -> Name)
    requires Sorted(a, key) && Sorted(b, key) && multiset(a) == multiset(b) && TiesEqual(a, key)
    ensures a == b
    decreases a
  {
    if a == [] || b == [] {
      assert |multiset(a)| == |a| && |multiset(b)| == |b|;
    } else {
      SameFirst(a, b, key);
      assert a == [a[0]] + a[1..] && b == [b[0]] + b[1..];
      Cancel(a[0], multiset(a[1..]), multiset(b[1..]));
      SortedUnique(a[1..], b[1..], key);
    }
  }

  lemma Cancel<T>(x: T, m: multiset<T>, n: multiset<T>)
    requires multiset{x} + m == multiset{x} + n
    ensures m == n
  {
    assert m == (multiset{x} + m) - multiset{x};
    assert n == (multiset{x} + n) - multiset{x};
  }

  /** Exchanging two elements with equal keys keeps a sequence sorted. */
  lemma SwapSorted<T>(a: seq<T>, i: nat, j: nat, key: T -> Name, b: seq<T>)
    requires Sorted(a, key) && i < j < |a| && key(a[i]) == key(a[j]) && b == a[i := a[j]][j := a[i]]
    ensures Sorted(b, key) && multiset(b) == multiset(a)
  {
    assert forall k :: 0 <= k < |a| ==> key(b[k]) == key(a[k]);
  }
}
