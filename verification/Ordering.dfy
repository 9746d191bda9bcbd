/**
 The order behind Python's `sorted` on tuples of strings and behind Rust's order on
 strings and paths: lexicographic on sequences of strings, each compared character
 by character.  `Sorted` lists a finite set in that order.
 */
module Ordering {

  type Key = seq<string>

  predicate TextLe(a: string, b: string) {
    a == "" || (b != "" && (a[0] < b[0] || (a[0] == b[0] && TextLe(a[1..], b[1..]))))
  }

  predicate KeyLe(a: Key, b: Key) {
    a == [] || (b != [] && if a[0] == b[0] then KeyLe(a[1..], b[1..]) else TextLe(a[0], b[0]))
  }

  lemma {:induction false} TextTotal(a: string, b: string)
    ensures TextLe(a, b) || TextLe(b, a)
    ensures TextLe(a, b) && TextLe(b, a) ==> a == b
  {
    if a != "" && b != "" {
      TextTotal(a[1..], b[1..]);
      if a[0] == b[0] && a[1..] == b[1..] {
        assert a == [a[0]] + a[1..] && b == [b[0]] + b[1..];
      }
    }
  }

  lemma {:induction false} TextTransitive(a: string, b: string, c: string)
    requires TextLe(a, b) && TextLe(b, c)
    ensures TextLe(a, c)
  {
    if a != "" && a[0] == b[0] == c[0] {
      TextTransitive(a[1..], b[1..], c[1..]);
    }
  }

  lemma {:induction false} KeyTotal(a: Key, b: Key)
    ensures KeyLe(a, b) || KeyLe(b, a)
    ensures KeyLe(a, b) && KeyLe(b, a) ==> a == b
  {
    if a != [] && b != [] {
      TextTotal(a[0], b[0]);
      KeyTotal(a[1..], b[1..]);
      if a[0] == b[0] && a[1..] == b[1..] {
        assert a == [a[0]] + a[1..] && b == [b[0]] + b[1..];
      }
    }
  }

  lemma {:induction false} KeyTransitive(a: Key, b: Key, c: Key)
    requires KeyLe(a, b) && KeyLe(b, c)
    ensures KeyLe(a, c)
  {
    if a != [] {
      if a[0] == b[0] && b[0] == c[0] {
        KeyTransitive(a[1..], b[1..], c[1..]);
      } else {
        TextTotal(b[0], b[0]);
        TextTransitive(a[0], b[0], c[0]);
        TextTotal(a[0], b[0]);
        KeyTotal(a, c);
      }
    }
  }

  ghost predicate Injective<T(!new)>(key: T -> Key) {
    forall x, y :: key(x) == key(y) ==> x == y
  }

  predicate IsLeast<T(==)>(m: T, s: set<T>, key: T -> Key) {
    m in s && forall x :: x in s ==> KeyLe(key(m), key(x))
  }

  lemma {:induction false} LeastExists<T(!new)>(s: set<T>, key: T -> Key) returns (m: T)
    requires s != {}
    ensures IsLeast(m, s, key)
  {
    var x :| x in s;
    m := x;
    KeyTotal(key(x), key(x));
    if s != {x} {
      var m' := LeastExists(s - {x}, key);
      KeyTotal(key(x), key(m'));
      m := if KeyLe(key(x), key(m')) then x else m';
      forall y | y in s
        ensures KeyLe(key(m), key(y))
      {
        if y != x && KeyLe(key(x), key(m')) {
          KeyTransitive(key(x), key(m'), key(y));
        }
      }
    }
  }

  function Least<T(!new, ==)>(s: set<T>, key: T -> Key): (m: T)
    requires s != {} && Injective(key)
    ensures IsLeast(m, s, key)
  {
    assert exists m :: m in s && IsLeast(m, s, key) by {
      var m := LeastExists(s, key);
    }
    assert forall m, m' :: IsLeast(m, s, key) && IsLeast(m', s, key) ==> m == m' by {
      forall m, m' | IsLeast(m, s, key) && IsLeast(m', s, key)
        ensures m == m'
      {
        KeyTotal(key(m), key(m'));
      }
    }
    var m :| m in s && IsLeast(m, s, key);
    m
  }

  // The elements of a finite set in increasing order.
  function Sorted<T(!new, ==)>(s: set<T>, key: T -> Key): (r: seq<T>)
    requires Injective(key)
    ensures forall x :: x in r <==> x in s
    ensures |r| == |s|
  {
    if s == {} then []
    else
      var m := Least(s, key);
      [m] + Sorted(s - {m}, key)
  }

  ghost predicate IsSorted<T>(r: seq<T>, key: T -> Key) {
    forall i, j :: 0 <= i < j < |r| ==> KeyLe(key(r[i]), key(r[j])) && r[i] != r[j]
  }

  lemma SortedStep<T(!new)>(s: set<T>, key: T -> Key)
    requires Injective(key)
    ensures s == {} ==> Sorted(s, key) == []
    ensures s != {} ==> Sorted(s, key) == [Least(s, key)] + Sorted(s - {Least(s, key)}, key)
  {
    hide Least;
  }

  lemma SortedCons<T>(m: T, r: seq<T>, key: T -> Key)
    requires IsSorted(r, key) && forall j :: 0 <= j < |r| ==> KeyLe(key(m), key(r[j])) && m != r[j]
    ensures IsSorted([m] + r, key)
  {
  }

  lemma {:induction false} SortedIsSorted<T(!new)>(s: set<T>, key: T -> Key)
    requires Injective(key)
    ensures IsSorted(Sorted(s, key), key)
  {
    hide Sorted, Injective, IsSorted;
    SortedStep(s, key);
    if s == {} {
      NothingSorted(key);
    } else {
      var m := Least(s, key);
      var r := Sorted(s - {m}, key);
      SortedIsSorted(s - {m}, key);
      forall j | 0 <= j < |r|
        ensures KeyLe(key(m), key(r[j])) && m != r[j]
      {
        assert r[j] in s - {m};
      }
      SortedCons(m, r, key);
    }
  }

  lemma NothingSorted<T>(key: T -> Key)
    ensures IsSorted([], key)
  {
  }

  lemma FirstIsLeast<T(!new)>(r: seq<T>, s: set<T>, key: T -> Key)
    requires Injective(key) && IsSorted(r, key) && r != []
    requires forall x :: x in r <==> x in s
    ensures s != {} && r[0] == Least(s, key)
  {
    assert r[0] in s;
    var l := Least(s, key);
    var i :| 0 <= i < |r| && r[i] == l;
    assert r[0] in s;
    KeyTotal(key(r[0]), key(l));
  }

  lemma RestWithoutFirst<T(!new)>(r: seq<T>, s: set<T>, key: T -> Key)
    requires IsSorted(r, key) && r != []
    requires forall x :: x in r <==> x in s
    ensures IsSorted(r[1..], key)
    ensures forall x :: x in r[1..] <==> x in s - {r[0]}
  {
    forall x | x in s - {r[0]}
      ensures x in r[1..]
    {
      assert x in r;
      assert r == [r[0]] + r[1..];
    }
    forall x | x in r[1..]
      ensures x in s - {r[0]}
    {
      var i :| 0 <= i < |r[1..]| && r[1..][i] == x;
      assert r[i + 1] == x;
    }
  }

  // A strictly increasing list is determined by its elements.
  lemma {:induction false} SortedUnique<T(!new)>(r: seq<T>, s: set<T>, key: T -> Key)
    requires Injective(key) && IsSorted(r, key)
    requires forall x :: x in r <==> x in s
    ensures r == Sorted(s, key)
    decreases |r|
  {
    hide IsSorted, Least, IsLeast, Injective, Sorted;
    SortedStep(s, key);
    if r == [] {
      assert s == {};
    } else {
      FirstIsLeast(r, s, key);
      RestWithoutFirst(r, s, key);
      SortedUnique(r[1..], s - {r[0]}, key);
      assert r == [r[0]] + r[1..];
    }
  }

  function Elements<T(==,!new)>(s: seq<T>): (r: set<T>)
    ensures forall x :: x in r <==> x in s
  {
    set x | x in s
  }

  // The elements of a list that belong to a set, in the order of the list.
  ghost function Keep<T>(r: seq<T>, t: set<T>): seq<T> {
    if r == [] then []
    else
      var front := Keep(r[..|r| - 1], t);
      if r[|r| - 1] in t then front + [r[|r| - 1]] else front
  }

  lemma KeepSnoc<T>(r: seq<T>, k: nat, t: set<T>)
    requires k < |r|
    ensures Keep(r[..k + 1], t) == Keep(r[..k], t) + if r[k] in t then [r[k]] else []
  {
    assert r[..k + 1][..k] == r[..k];
  }

  lemma {:induction false} KeepIn<T>(r: seq<T>, t: set<T>, x: T)
    ensures x in Keep(r, t) <==> x in r && x in t
    decreases |r|
  {
    if r != [] {
      var r', last := r[..|r| - 1], r[|r| - 1];
      KeepIn(r', t, x);
      assert r == r' + [last];
    }
  }

  lemma {:induction false} KeepIsSorted<T>(r: seq<T>, t: set<T>, key: T -> Key)
    requires IsSorted(r, key)
    ensures IsSorted(Keep(r, t), key)
    decreases |r|
  {
    if r != [] {
      var r', last := r[..|r| - 1], r[|r| - 1];
      var f := Keep(r', t);
      KeepIsSorted(r', t, key);
      forall k | 0 <= k < |f|
        ensures KeyLe(key(f[k]), key(last)) && f[k] != last
      {
        KeepIn(r', t, f[k]);
        var i :| 0 <= i < |r'| && r'[i] == f[k];
        assert r[i] == f[k];
      }
    }
  }

  // Selecting from the listing of a set lists the subset.
  lemma KeepSorted<T(!new)>(s: set<T>, t: set<T>, key: T -> Key)
    requires Injective(key) && t <= s
    ensures Keep(Sorted(s, key), t) == Sorted(t, key)
  {
    SortedIsSorted(s, key);
    KeepIsSorted(Sorted(s, key), t, key);
    forall x
      ensures x in Keep(Sorted(s, key), t) <==> x in t
    {
      KeepIn(Sorted(s, key), t, x);
    }
    SortedUnique(Keep(Sorted(s, key), t), t, key);
  }
}
