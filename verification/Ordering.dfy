/** Byte order on strings and sorting, as used wherever the framework makes an
    iteration order deterministic. */
module Ordering {

  predicate Le(a: string, b: string) {
    a == [] || (b != [] && (a[0] < b[0] || (a[0] == b[0] && Le(a[1..], b[1..]))))
  }

  lemma {:induction false} LeTotal(a: string, b: string)
    ensures Le(a, b) || Le(b, a)
    decreases |a|
  {
    if a != [] && b != [] { LeTotal(a[1..], b[1..]); }
  }

  lemma {:induction false} LeAntisymmetric(a: string, b: string)
    requires Le(a, b) && Le(b, a)
    ensures a == b
  {
    if a != [] && b != [] {
      LeAntisymmetric(a[1..], b[1..]);
      assert a == [a[0]] + a[1..] && b == [b[0]] + b[1..];
    }
  }

  lemma {:induction false} LeTransitive(a: string, b: string, c: string)
    requires Le(a, b) && Le(b, c)
    ensures Le(a, c)
  {
    if a != [] && a[0] == b[0] == c[0] { LeTransitive(a[1..], b[1..], c[1..]); }
  }

  // ---------- Keys: lists of strings compared position by position ----------

  type Key = seq<string>

  predicate KeyLe(a: Key, b: Key) {
    a == [] || (b != [] && (if a[0] == b[0] then KeyLe(a[1..], b[1..]) else Le(a[0], b[0])))
  }

  lemma {:induction false} KeyLeTotal(a: Key, b: Key)
    ensures KeyLe(a, b) || KeyLe(b, a)
    decreases |a|
  {
    if a != [] && b != [] {
      LeTotal(a[0], b[0]);
      if a[0] == b[0] { KeyLeTotal(a[1..], b[1..]); }
    }
  }

  lemma {:induction false} KeyLeAntisymmetric(a: Key, b: Key)
    requires KeyLe(a, b) && KeyLe(b, a)
    ensures a == b
  {
    if a != [] && b != [] {
      if a[0] == b[0] {
        KeyLeAntisymmetric(a[1..], b[1..]);
        assert a == [a[0]] + a[1..] && b == [b[0]] + b[1..];
      } else {
        LeAntisymmetric(a[0], b[0]);
      }
    }
  }

  lemma {:induction false} KeyLeTransitive(a: Key, b: Key, c: Key)
    requires KeyLe(a, b) && KeyLe(b, c)
    ensures KeyLe(a, c)
  {
    if a != [] {
      if a[0] == b[0] == c[0] {
        KeyLeTransitive(a[1..], b[1..], c[1..]);
      } else if a[0] != b[0] && b[0] != c[0] {
        LeTransitive(a[0], b[0], c[0]);
        if a[0] == c[0] { LeAntisymmetric(a[0], b[0]); }
      }
    }
  }

  // ---------- Sorting ----------

  predicate Sorted(s: seq<Key>) {
    forall i, j :: 0 <= i < j < |s| ==> KeyLe(s[i], s[j])
  }

  function Insert(x: Key, s: seq<Key>): seq<Key> {
    if s == [] || KeyLe(x, s[0]) then [x] + s else [s[0]] + Insert(x, s[1..])
  }

  function Sort(s: seq<Key>): seq<Key> {
    if s == [] then [] else Insert(s[0], Sort(s[1..]))
  }

  lemma {:induction false} InsertKeeps(x: Key, s: seq<Key>)
    ensures multiset(Insert(x, s)) == multiset(s) + multiset{x}
  {
    if s != [] && !KeyLe(x, s[0]) {
      InsertKeeps(x, s[1..]);
      TailMultiset(s);
    }
  }

  lemma {:induction false} InsertSorts(x: Key, s: seq<Key>)
    requires Sorted(s)
    ensures Sorted(Insert(x, s)) && multiset(Insert(x, s)) == multiset(s) + multiset{x}
  {
    InsertKeeps(x, s);
    if s == [] {
    } else if KeyLe(x, s[0]) {
      forall j | 0 < j < |s| ensures KeyLe(x, s[j]) { KeyLeTransitive(x, s[0], s[j]); }
    } else {
      KeyLeTotal(x, s[0]);
      InsertSorts(x, s[1..]);
      var r := Insert(x, s[1..]);
      forall j | 0 <= j < |r| ensures KeyLe(s[0], r[j]) { InsertedFrom(x, s[1..], r[j]); }
    }
  }

  lemma InsertedFrom(x: Key, s: seq<Key>, y: Key)
    requires y in Insert(x, s)
    ensures y == x || y in s
  {
    InsertKeeps(x, s);
    assert y in multiset(Insert(x, s));
    assert y == x || y in multiset(s);
  }

  lemma {:induction false} SortSorts(s: seq<Key>)
    ensures Sorted(Sort(s)) && multiset(Sort(s)) == multiset(s)
  {
    if s != [] {
      SortSorts(s[1..]);
      InsertSorts(s[0], Sort(s[1..]));
      assert s == [s[0]] + s[1..];
    }
  }

  lemma HeadIsLeast(a: seq<Key>, x: Key)
    requires Sorted(a) && x in multiset(a)
    ensures a != [] && KeyLe(a[0], x)
  {
    var i :| 0 <= i < |a| && a[i] == x;
    KeyLeTotal(x, x);
  }

  lemma HeadsAgree(a: seq<Key>, b: seq<Key>)
    requires Sorted(a) && Sorted(b) && multiset(a) == multiset(b) && a != [] && b != []
    ensures a[0] == b[0]
  {
    HeadIsLeast(b, a[0]);
    HeadIsLeast(a, b[0]);
    KeyLeAntisymmetric(a[0], b[0]);
  }

  /** A sorted arrangement of given elements is unique. */
  lemma {:induction false} SortedUnique(a: seq<Key>, b: seq<Key>)
    requires Sorted(a) && Sorted(b) && multiset(a) == multiset(b)
    ensures a == b
  {
    if a == [] || b == [] {
      assert |multiset(a)| == |multiset(b)|;
    } else {
      HeadsAgree(a, b);
      TailMultiset(a);
      TailMultiset(b);
      SortedUnique(a[1..], b[1..]);
    }
  }

  lemma TailMultiset(a: seq<Key>)
    requires a != []
    ensures a == [a[0]] + a[1..] && multiset(a[1..]) == multiset(a) - multiset{a[0]}
  {
    assert a == [a[0]] + a[1..];
  }

  predicate NoDup<T(==)>(s: seq<T>) {
    forall i, j :: 0 <= i < j < |s| ==> s[i] != s[j]
  }

  /** In a duplicate-free sequence everything occurs once. */
  lemma {:induction false} NoDupCounts<T>(s: seq<T>, x: T)
    requires NoDup(s)
    ensures multiset(s)[x] == if x in s then 1 else 0
  {
    if s != [] {
      NoDupCounts(s[1..], x);
      assert s == [s[0]] + s[1..];
      assert x in s <==> x == s[0] || x in s[1..];
    }
  }

  lemma CountsNoDup<T>(s: seq<T>)
    requires forall x :: x in s ==> multiset(s)[x] == 1
    ensures NoDup(s)
  {
    forall i, j | 0 <= i < j < |s| ensures s[i] != s[j] {
      var a, b := s[..j], s[j..];
      assert s == a + b;
      assert a[i] in multiset(a) && b[0] in multiset(b);
      assert s[j] in s;
    }
  }

  /** Sorting forgets the original arrangement. */
  lemma SortDetermined(a: seq<Key>, b: seq<Key>)
    requires NoDup(a) && NoDup(b) && forall x :: x in a <==> x in b
    ensures Sort(a) == Sort(b)
  {
    SortSorts(a);
    SortSorts(b);
    forall x: Key ensures multiset(a)[x] == multiset(b)[x] {
      NoDupCounts(a, x);
      NoDupCounts(b, x);
    }
    assert multiset(a) == multiset(b);
    SortedUnique(Sort(a), Sort(b));
  }

  lemma SortElements(s: seq<Key>)
    ensures |Sort(s)| == |s| && forall x :: x in Sort(s) <==> x in s
    ensures NoDup(s) ==> NoDup(Sort(s))
  {
    SortSorts(s);
    assert |multiset(Sort(s))| == |multiset(s)|;
    forall x: Key ensures x in Sort(s) <==> x in s {
      assert x in multiset(Sort(s)) <==> x in multiset(s);
    }
    if NoDup(s) {
      forall x | x in Sort(s) ensures multiset(Sort(s))[x] == 1 { NoDupCounts(s, x); }
      CountsNoDup(Sort(s));
    }
  }

  /** Sorting keeps keys of one width. */
  lemma SortUniform(s: seq<Key>, width: nat)
    requires forall i :: 0 <= i < |s| ==> |s[i]| == width
    ensures forall i :: 0 <= i < |Sort(s)| ==> |Sort(s)[i]| == width
  {
    SortElements(s);
    forall i | 0 <= i < |Sort(s)| ensures |Sort(s)[i]| == width {
      assert Sort(s)[i] in s;
    }
  }
}
