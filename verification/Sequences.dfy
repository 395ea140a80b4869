/**
  Facts about sequences without repetitions, and about first-in-first-out windows: the last n
  elements of a growing sequence.
 */
module Sequences {

  predicate Distinct<T(==)>(s: seq<T>) {
    forall i, j :: 0 <= i < j < |s| ==> s[i] != s[j]
  }

  function Elements<T(!new)>(s: seq<T>): (e: set<T>)
    ensures forall x :: x in e <==> x in s
  {
    set x | x in s
  }

  /** A sequence without repetitions is as long as the set of its elements is large. */
  lemma {:induction false} DistinctSize<T(!new)>(s: seq<T>)
    requires Distinct(s)
    ensures |Elements(s)| == |s|
  {
    if s != [] {
      var rest := s[1..];
      assert s == [s[0]] + rest;
      DistinctSize(rest);
      assert Elements(s) == {s[0]} + Elements(rest);
    }
  }

  /** A subset is smaller, unless it is the whole set. */
  lemma SubsetSize<T>(a: set<T>, b: set<T>)
    requires a <= b
    ensures |a| <= |b| && (|a| == |b| ==> a == b)
  {
    assert b == a + (b - a);
    if |a| == |b| {
      assert b - a == {};
    }
  }

  /** By how much s is longer than n. */
  function Excess<T>(s: seq<T>, n: nat): (e: nat)
    ensures e <= |s|
  {
    if |s| > n then |s| - n else 0
  }

  /** The last n elements of s, or all of them. */
  function KeepLast<T>(s: seq<T>, n: nat): seq<T> {
    s[Excess(s, n)..]
  }

  /** The elements KeepLast leaves out. */
  function Dropped<T>(s: seq<T>, n: nat): seq<T> {
    s[..Excess(s, n)]
  }

  lemma KeepLastOfKeepLast<T>(s: seq<T>, x: T, m: nat, n: nat)
    requires n <= m
    ensures KeepLast(KeepLast(s, n) + [x], n) == KeepLast(KeepLast(s + [x], m), n)
  {
  }

  lemma DistinctAppend<T>(s: seq<T>, x: T)
    requires Distinct(s) && x !in s
    ensures Distinct(s + [x])
  {
  }

  lemma {:induction false} ElementsSize<T(!new)>(s: seq<T>)
    ensures |Elements(s)| <= |s|
  {
    if s != [] {
      ElementsSize(s[1..]);
      assert s == [s[0]] + s[1..];
      assert Elements(s) == {s[0]} + Elements(s[1..]);
    }
  }

  /** The sequence lists a set, each element once: there are as many places as elements. */
  ghost predicate Lists<T(!new)>(order: seq<T>, keys: set<T>) {
    Elements(order) == keys && |order| == |keys|
  }

  /** A list of a set has no repetitions. */
  lemma {:induction false} ListsDistinct<T(!new)>(order: seq<T>, keys: set<T>)
    requires Lists(order, keys)
    ensures Distinct(order)
  {
    if order != [] {
      ListsDrop(order, keys, 1);
      var rest := order[1..];
      assert order == [order[0]] + rest && order[..1] == [order[0]];
      ListsDistinct(rest, keys - Elements(order[..1]));
      assert order[0] !in Elements(rest);
    }
  }

  lemma ListsAppend<T(!new)>(order: seq<T>, keys: set<T>, x: T)
    requires Lists(order, keys) && x !in keys
    ensures Lists(order + [x], keys + {x})
  {
    assert Elements(order + [x]) == Elements(order) + {x};
  }

  lemma ListsDrop<T(!new)>(order: seq<T>, keys: set<T>, n: nat)
    requires Lists(order, keys) && n <= |order|
    ensures Lists(order[n..], keys - Elements(order[..n]))
  {
    var front, rest := Elements(order[..n]), Elements(order[n..]);
    assert order == order[..n] + order[n..];
    assert keys == front + rest;
    ElementsSize(order[..n]);
    ElementsSize(order[n..]);
    assert |front + rest| == |front| + |rest - front|;
    assert rest == (rest - front) + (rest * front);
    assert |rest * front| == 0;
    assert keys - front == rest;
  }

  lemma ListsTail<T(!new)>(order: seq<T>, keys: set<T>)
    requires Lists(order, keys) && order != []
    ensures Lists(order[1..], keys - {order[0]})
  {
    ListsDrop(order, keys, 1);
    assert Elements(order[..1]) == {order[0]};
  }

  lemma ListsWindow<T(!new)>(order: seq<T>, keys: set<T>, n: nat)
    requires Lists(order, keys)
    ensures Lists(KeepLast(order, n), keys - Elements(Dropped(order, n)))
  {
    ListsDrop(order, keys, Excess(order, n));
  }

  lemma ListsPush<T(!new)>(order: seq<T>, keys: set<T>, x: T, n: nat)
    requires Lists(order, keys) && x !in keys && n > 0
    ensures Lists(KeepLast(order + [x], n), keys + {x} - Elements(Dropped(order + [x], n)))
    ensures x !in Dropped(order + [x], n)
  {
    ListsAppend(order, keys, x);
    ListsWindow(order + [x], keys + {x}, n);
  }

  // ----- Bounded first-in-first-out tables --------------------------------------------------

  /** A map together with its keys in insertion order. */
  datatype Window<K, V> = Window(order: seq<K>, entries: map<K, V>)

  ghost predicate WindowConsistent<K(!new), V>(w: Window<K, V>) {
    Lists(w.order, w.entries.Keys)
  }

  /** Appends an entry and forgets the oldest beyond the last n. */
  function Push<K(!new), V>(w: Window<K, V>, key: K, value: V, n: nat): Window<K, V> {
    Window(KeepLast(w.order + [key], n), w.entries[key := value] - Elements(Dropped(w.order + [key], n)))
  }

  lemma PushConsistent<K(!new), V>(w: Window<K, V>, key: K, value: V, n: nat)
    requires WindowConsistent(w) && key !in w.entries && n > 0
    ensures WindowConsistent(Push(w, key, value, n))
    ensures key in Push(w, key, value, n).entries && Push(w, key, value, n).entries[key] == value
  {
    ListsPush(w.order, w.entries.Keys, key, n);
    var dropped := Elements(Dropped(w.order + [key], n));
    assert (w.entries[key := value] - dropped).Keys == w.entries.Keys + {key} - dropped;
  }

  lemma PushKeepsOthers<K(!new), V>(w: Window<K, V>, key: K, value: V, n: nat)
    ensures forall k :: k in Push(w, key, value, n).entries && k != key ==>
                          k in w.entries && Push(w, key, value, n).entries[k] == w.entries[k]
  {
  }
}
