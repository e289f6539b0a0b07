/** Facts about sequences used as ordered lists without repetition (`new Set(...)` in JavaScript). */
module Seqs {

  predicate Distinct<T(==)>(s: seq<T>) {
    forall i, j :: 0 <= i < j < |s| ==> s[i] != s[j]
  }

  /** Every element of `r` first appears in `s` before the first appearance of any later element of `r`. */
  ghost predicate InFirstOccurrenceOrder<T>(r: seq<T>, s: seq<T>) {
    forall i, j, q :: 0 <= i < j < |r| && 0 <= q < |s| && s[q] == r[j] ==>
      exists p :: 0 <= p < q && s[p] == r[i]
  }

  /** `Array.from(new Set(s))`: the elements of `s`, each once, in order of first appearance. */
  function Dedup<T(==, !new)>(s: seq<T>): (r: seq<T>)
    ensures Distinct(r)
    ensures forall x :: x in r <==> x in s
    ensures |r| <= |s|
  {
    if s == [] then []
    else
      var d := Dedup(s[..|s| - 1]);
      var x := s[|s| - 1];
      assert forall y :: y in s <==> y in s[..|s| - 1] || y == x by {
        assert s == s[..|s| - 1] + [x];
      }
      if x in d then d else d + [x]
  }

  lemma {:induction false} DedupInFirstOccurrenceOrder<T(!new)>(s: seq<T>)
    ensures InFirstOccurrenceOrder(Dedup(s), s)
  {
    if s != [] {
      var init := s[..|s| - 1];
      var x := s[|s| - 1];
      var d := Dedup(init);
      DedupInFirstOccurrenceOrder(init);
      var r := Dedup(s);
      forall i, j, q | 0 <= i < j < |r| && 0 <= q < |s| && s[q] == r[j]
        ensures exists p :: 0 <= p < q && s[p] == r[i]
      {
        if q < |s| - 1 {
          assert init[q] == s[q];
          if j < |d| {
            var p :| 0 <= p < q && init[p] == d[i];
            assert s[p] == r[i];
          } else {
            // r[j] is the last element, new to d, yet it already occurs at q in init
            assert false;
          }
        } else {
          assert r[i] == d[i] && d[i] in init;
          var p :| 0 <= p < |init| && init[p] == d[i];
          assert s[p] == r[i];
        }
      }
    }
  }

  /** `s.filter(y => y != x)`: `s` without any occurrence of `x`, order kept. */
  function RemoveAll<T(==, !new)>(s: seq<T>, x: T): (r: seq<T>)
    ensures forall y :: y in r <==> y in s && y != x
    ensures |r| <= |s|
  {
    if s == [] then []
    else
      var init := s[..|s| - 1];
      var last := s[|s| - 1];
      assert s == init + [last];
      if last == x then RemoveAll(init, x) else RemoveAll(init, x) + [last]
  }

  /** Two elements of `RemoveAll(s, x)` sit in `s` in the same order. */
  lemma {:induction false} RemoveAllKeepsPositions<T(!new)>(s: seq<T>, x: T, i: nat, j: nat)
    requires i < j < |RemoveAll(s, x)|
    ensures exists p, q :: 0 <= p < q < |s| && s[p] == RemoveAll(s, x)[i] && s[q] == RemoveAll(s, x)[j]
  {
    var init := s[..|s| - 1];
    var last := s[|s| - 1];
    var r := RemoveAll(s, x);
    var r0 := RemoveAll(init, x);
    if last == x {
      RemoveAllKeepsPositions(init, x, i, j);
      var p, q :| 0 <= p < q < |init| && init[p] == r0[i] && init[q] == r0[j];
      assert s[p] == r[i] && s[q] == r[j];
    } else if j < |r0| {
      RemoveAllKeepsPositions(init, x, i, j);
      var p, q :| 0 <= p < q < |init| && init[p] == r0[i] && init[q] == r0[j];
      assert s[p] == r[i] && s[q] == r[j];
    } else {
      assert r[i] == r0[i] && r0[i] in init;
      var p :| 0 <= p < |init| && init[p] == r0[i];
      assert s[p] == r[i] && s[|s| - 1] == r[j];
    }
  }

  lemma RemoveAllKeepsDistinct<T(!new)>(s: seq<T>, x: T)
    requires Distinct(s)
    ensures Distinct(RemoveAll(s, x))
  {
    var r := RemoveAll(s, x);
    forall i, j | 0 <= i < j < |r|
      ensures r[i] != r[j]
    {
      RemoveAllKeepsPositions(s, x, i, j);
    }
  }

  /** Dropping one value keeps the first-occurrence order of the rest. */
  lemma RemoveAllKeepsFirstOccurrenceOrder<T(!new)>(d: seq<T>, x: T, s: seq<T>)
    requires InFirstOccurrenceOrder(d, s)
    ensures InFirstOccurrenceOrder(RemoveAll(d, x), s)
  {
    var r := RemoveAll(d, x);
    forall i, j, q | 0 <= i < j < |r| && 0 <= q < |s| && s[q] == r[j]
      ensures exists p :: 0 <= p < q && s[p] == r[i]
    {
      RemoveAllKeepsPositions(d, x, i, j);
      var a, b :| 0 <= a < b < |d| && d[a] == r[i] && d[b] == r[j];
    }
  }
}
