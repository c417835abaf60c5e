/** What several models share: sorted sequences of key-data pairs and the maps they stand for, lists
    without repetition, and the size of a machine word. */
module Entries {

  const TWO_32: int := 0x1_0000_0000

  // A `void*`; only ever copied and swapped.
  type Pointer = int

  type Entry = (int, Pointer)

  datatype Option<T> = None | Some(value: T)

  ghost predicate Sorted(s: seq<Entry>)
  {
    forall i, j :: 0 <= i < j < |s| ==> s[i].0 < s[j].0
  }

  ghost function ToMap(s: seq<Entry>): map<int, Pointer>
    requires Sorted(s)
  {
    map e | e in s :: e.0 := e.1
  }

  ghost predicate AllBelow(s: seq<Entry>, key: int) { forall e <- s :: e.0 < key }

  ghost predicate AllAbove(key: int, s: seq<Entry>) { forall e <- s :: key < e.0 }

  lemma SortedWith(a: seq<Entry>, e: Entry, b: seq<Entry>)
    requires Sorted(a + b) && AllBelow(a, e.0) && AllAbove(e.0, b)
    ensures Sorted(a + [e] + b)
    ensures ToMap(a + [e] + b) == ToMap(a + b)[e.0 := e.1]
    ensures e.0 !in ToMap(a + b)
  {
    StaysSorted(a, e, b);
    var s := a + [e] + b;
    assert forall x :: x in s <==> x in a + b || x == e;
    assert e.0 !in ToMap(a + b);
  }

  lemma StaysSorted(a: seq<Entry>, e: Entry, b: seq<Entry>)
    requires Sorted(a + b) && AllBelow(a, e.0) && AllAbove(e.0, b)
    ensures Sorted(a + [e] + b)
  {
    var s, t := a + [e] + b, a + b;
    forall i, j | 0 <= i < j < |s| ensures s[i].0 < s[j].0 {
      if j < |a| {
        assert s[i] == t[i] && s[j] == t[j];
      } else if i > |a| {
        assert s[i] == t[i - 1] && s[j] == t[j - 1];
      } else if j == |a| {
        assert s[i] == a[i] && a[i] in a;
      } else if i == |a| {
        assert s[j] == b[j - |a| - 1] && b[j - |a| - 1] in b;
      } else {
        assert s[i] == t[i] && s[j] == t[j - 1];
      }
    }
  }

  lemma SortedCut(a: seq<Entry>, e: Entry, b: seq<Entry>)
    requires Sorted(a + [e] + b)
    ensures Sorted(a + b) && AllBelow(a, e.0) && AllAbove(e.0, b)
  {
    var s := a + [e] + b;
    assert s[|a|] == e;
    assert forall i :: 0 <= i < |a| ==> s[i] == a[i];
    assert forall i :: 0 <= i < |b| ==> s[|a| + 1 + i] == b[i];
    forall i, j | 0 <= i < j < |a + b| ensures (a + b)[i].0 < (a + b)[j].0 {
      assert (a + b)[i] == s[if i < |a| then i else i + 1];
      assert (a + b)[j] == s[if j < |a| then j else j + 1];
    }
  }

  lemma SortedWithout(a: seq<Entry>, e: Entry, b: seq<Entry>)
    requires Sorted(a + [e] + b)
    ensures Sorted(a + b)
    ensures e.0 in ToMap(a + [e] + b) && ToMap(a + [e] + b)[e.0] == e.1
    ensures ToMap(a + b) == ToMap(a + [e] + b) - {e.0}
  {
    SortedCut(a, e, b);
    SortedWith(a, e, b);
  }

  // As many bindings as entries.
  lemma {:induction false} MapSize(s: seq<Entry>)
    requires Sorted(s)
    ensures |ToMap(s)| == |s|
    decreases |s|
  {
    if s == [] {
      assert ToMap(s) == map[];
    } else {
      hide Sorted, ToMap;
      var e, rest := s[0], s[1..];
      assert s == [] + [e] + rest;
      SortedWithout([], e, rest);
      assert [] + rest == rest;
      MapSize(rest);
      LessOne(ToMap(s), e.0);
    }
  }

  lemma LessOne(m: map<int, Pointer>, k: int)
    requires k in m
    ensures |m - {k}| == |m| - 1
  {
    var r := m - {k};
    assert m == r[k := m[k]];
  }

  // Regrouping of concatenations.
  lemma Group2(b: seq<Entry>, x: seq<Entry>, e: Entry, y: seq<Entry>, a: seq<Entry>)
    ensures b + (x + [e] + y) + a == b + x + ([e] + y + a)
    ensures b + (x + [e] + y) + a == b + (x + [e]) + y + a
  {
  }

  ghost function Concat<T>(chunks: seq<seq<T>>): seq<T>
  {
    if chunks == [] then [] else chunks[0] + Concat(chunks[1..])
  }

  ghost function Elems<T>(q: seq<T>): set<T> { set t | t in q }

  ghost predicate NoDup(q: seq<nat>) { forall i, j :: 0 <= i < j < |q| ==> q[i] != q[j] }

  lemma NoDupAppend(q: seq<nat>, p: nat)
    requires NoDup(q) && p !in q
    ensures NoDup(q + [p])
  {
  }

  lemma NoDupRest(q: seq<nat>)
    requires NoDup(q) && q != []
    ensures NoDup(q[1..]) && forall p :: p in q[1..] <==> p in q && p != q[0]
  {
    assert q == [q[0]] + q[1..];
  }

  ghost function Pow(b: nat, n: nat): nat
  {
    if n == 0 then 1 else b * Pow(b, n - 1)
  }
}
