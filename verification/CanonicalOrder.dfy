/**
 The canonical ordering step of normalize32 (miniutf.cpp:338-358, section 3.11 of the Unicode
 Standard): every maximal run of characters with a non-zero combining class is stably sorted by
 class. The combining class is an arbitrary function.
 */
module CanonicalOrder {

  type Class = int -> nat

  // ---------- Stable sorting of one run ----------

  predicate SortedBy(s: seq<int>, ccc: Class) {
    forall i, j :: 0 <= i < j < |s| ==> ccc(s[i]) <= ccc(s[j])
  }

  /** The elements of class c, in order. */
  function OfClass(s: seq<int>, ccc: Class, c: nat): (r: seq<int>) {
    if s == [] then [] else (if ccc(s[0]) == c then [s[0]] else []) + OfClass(s[1..], ccc, c)
  }

  /** Same elements, and elements of equal class in the same order. */
  ghost predicate SameByClass(a: seq<int>, b: seq<int>, ccc: Class) {
    |a| == |b| && forall c: nat :: OfClass(a, ccc, c) == OfClass(b, ccc, c)
  }

  /** Inserts x after every element of its class or a lower one. */
  function Insert(s: seq<int>, x: int, ccc: Class): (r: seq<int>)
    ensures |r| == |s| + 1
  {
    if s == [] || ccc(s[|s| - 1]) <= ccc(x) then s + [x]
    else Insert(s[..|s| - 1], x, ccc) + [s[|s| - 1]]
  }

  /** std::stable_sort by combining class. */
  function StableSort(s: seq<int>, ccc: Class): (r: seq<int>)
    ensures |r| == |s|
  {
    if s == [] then [] else Insert(StableSort(s[..|s| - 1], ccc), s[|s| - 1], ccc)
  }

  lemma OfClassStep(s: seq<int>, ccc: Class, c: nat)
    requires s != []
    ensures OfClass(s, ccc, c) == (if ccc(s[0]) == c then [s[0]] else []) + OfClass(s[1..], ccc, c)
  {
  }

  lemma {:induction false} OfClassAppend(a: seq<int>, b: seq<int>, ccc: Class, c: nat)
    ensures OfClass(a + b, ccc, c) == OfClass(a, ccc, c) + OfClass(b, ccc, c)
  {
    if a == [] {
      assert a + b == b;
    } else {
      OfClassAppend(a[1..], b, ccc, c);
      assert (a + b)[1..] == a[1..] + b && (a + b)[0] == a[0];
      OfClassStep(a + b, ccc, c);
      OfClassStep(a, ccc, c);
      hide OfClass;
    }
  }

  lemma OfClassOne(x: int, ccc: Class, c: nat)
    ensures OfClass([x], ccc, c) == if ccc(x) == c then [x] else []
  {
    assert OfClass([x][1..], ccc, c) == [];
  }

  lemma {:induction false} InsertSorted(s: seq<int>, x: int, ccc: Class)
    requires SortedBy(s, ccc)
    ensures SortedBy(Insert(s, x, ccc), ccc)
    ensures forall i :: 0 <= i < |s| + 1 ==> Insert(s, x, ccc)[i] == x || Insert(s, x, ccc)[i] in s
  {
    if !(s == [] || ccc(s[|s| - 1]) <= ccc(x)) {
      var front, last := s[..|s| - 1], s[|s| - 1];
      InsertSorted(front, x, ccc);
      var ins := Insert(front, x, ccc);
      forall i | 0 <= i < |ins|
        ensures ccc(ins[i]) <= ccc(last) && (ins[i] == x || ins[i] in s)
      {
        if ins[i] != x {
          var k :| 0 <= k < |front| && front[k] == ins[i];
          assert s[k] == ins[i];
        }
      }
    }
  }

  lemma {:induction false} InsertOfClass(s: seq<int>, x: int, ccc: Class, c: nat)
    ensures OfClass(Insert(s, x, ccc), ccc, c) == OfClass(s, ccc, c) + OfClass([x], ccc, c)
  {
    if s == [] || ccc(s[|s| - 1]) <= ccc(x) {
      OfClassAppend(s, [x], ccc, c);
    } else {
      var front, last := s[..|s| - 1], s[|s| - 1];
      InsertOfClass(front, x, ccc, c);
      OfClassAppend(Insert(front, x, ccc), [last], ccc, c);
      OfClassAppend(front, [last], ccc, c);
      assert s == front + [last];
      OfClassOne(x, ccc, c);
      OfClassOne(last, ccc, c);
      hide OfClass;
      var f := OfClass(front, ccc, c);
      assert f + OfClass([x], ccc, c) + OfClass([last], ccc, c) == f + OfClass([last], ccc, c) + OfClass([x], ccc, c);
    }
  }

  lemma {:induction false} StableSortProps(s: seq<int>, ccc: Class, c: nat)
    ensures SortedBy(StableSort(s, ccc), ccc)
    ensures OfClass(StableSort(s, ccc), ccc, c) == OfClass(s, ccc, c)
  {
    if s != [] {
      var front, last := s[..|s| - 1], s[|s| - 1];
      StableSortProps(front, ccc, c);
      InsertSorted(StableSort(front, ccc), last, ccc);
      InsertOfClass(StableSort(front, ccc), last, ccc, c);
      OfClassAppend(front, [last], ccc, c);
      assert s == front + [last];
    }
  }

  lemma SortIsStable(s: seq<int>, ccc: Class)
    ensures SortedBy(StableSort(s, ccc), ccc) && SameByClass(s, StableSort(s, ccc), ccc)
  {
    forall c: nat
      ensures OfClass(s, ccc, c) == OfClass(StableSort(s, ccc), ccc, c)
    {
      StableSortProps(s, ccc, c);
    }
    StableSortProps(s, ccc, 0);
  }

  lemma {:induction false} InOfClass(s: seq<int>, ccc: Class, i: nat)
    requires i < |s|
    ensures OfClass(s, ccc, ccc(s[i])) != []
    ensures SortedBy(s, ccc) ==> OfClass(s, ccc, ccc(s[0])) != [] && OfClass(s, ccc, ccc(s[0]))[0] == s[0]
  {
    if i > 0 {
      InOfClass(s[1..], ccc, i - 1);
    }
  }

  lemma {:induction false} OfClassHas(s: seq<int>, ccc: Class, c: nat) returns (i: nat)
    requires OfClass(s, ccc, c) != []
    ensures i < |s| && ccc(s[i]) == c
  {
    if ccc(s[0]) == c {
      i := 0;
    } else {
      var j := OfClassHas(s[1..], ccc, c);
      i := j + 1;
    }
  }

  /** Being sorted and the same by class determines a sequence. */
  lemma {:induction false} StableSortUnique(a: seq<int>, b: seq<int>, ccc: Class)
    requires SortedBy(a, ccc) && SortedBy(b, ccc) && SameByClass(a, b, ccc)
    ensures a == b
  {
    if a != [] {
      var ca, cb := ccc(a[0]), ccc(b[0]);
      InOfClass(a, ccc, 0);
      InOfClass(b, ccc, 0);
      assert OfClass(a, ccc, ca) == OfClass(b, ccc, ca) && OfClass(a, ccc, cb) == OfClass(b, ccc, cb);
      var i := OfClassHas(b, ccc, ca);
      var j := OfClassHas(a, ccc, cb);
      assert ca == cb;
      assert a[0] == b[0];
      forall c: nat
        ensures OfClass(a[1..], ccc, c) == OfClass(b[1..], ccc, c)
      {
        assert OfClass(a, ccc, c) == OfClass(b, ccc, c);
        var h: seq<int> := if ca == c then [a[0]] else [];
        assert OfClass(a, ccc, c)[|h|..] == OfClass(a[1..], ccc, c);
        assert OfClass(b, ccc, c)[|h|..] == OfClass(b[1..], ccc, c);
      }
      StableSortUnique(a[1..], b[1..], ccc);
      assert a == [a[0]] + a[1..] && b == [b[0]] + b[1..];
    }
  }

  // ---------- The reordering of a whole string ----------

  /** The length of the run of non-zero classes that starts the string. */
  function RunLength(s: seq<int>, ccc: Class): (n: nat)
    ensures n <= |s| && (forall i :: 0 <= i < n ==> ccc(s[i]) != 0) && (n < |s| ==> ccc(s[n]) == 0)
  {
    if s == [] || ccc(s[0]) == 0 then 0 else 1 + RunLength(s[1..], ccc)
  }

  function Reorder(s: seq<int>, ccc: Class): (r: seq<int>)
    ensures |r| == |s|
    decreases |s|
  {
    if s == [] then []
    else if ccc(s[0]) == 0 then [s[0]] + Reorder(s[1..], ccc)
    else
      var n := RunLength(s, ccc);
      StableSort(s[..n], ccc) + Reorder(s[n..], ccc)
  }

  /** s[a..b] is a maximal run of non-zero classes. */
  predicate IsRun(s: seq<int>, ccc: Class, a: nat, b: nat) {
    && a < b <= |s|
    && (forall i :: a <= i < b ==> ccc(s[i]) != 0)
    && (a > 0 ==> ccc(s[a - 1]) == 0) && (b < |s| ==> ccc(s[b]) == 0)
  }

  /**
   r is the canonical ordering of s: class-0 characters stay where they are, classes do not
   decrease inside a run, and each run keeps its characters, those of equal class in their order.
   */
  ghost predicate Canonical(s: seq<int>, r: seq<int>, ccc: Class) {
    && |r| == |s|
    && (forall i :: 0 <= i < |s| ==> (ccc(s[i]) == 0 ==> r[i] == s[i]) && (ccc(s[i]) != 0 ==> ccc(r[i]) != 0))
    && (forall a: nat, b: nat :: IsRun(s, ccc, a, b) ==> SortedBy(r[a..b], ccc) && SameByClass(s[a..b], r[a..b], ccc))
  }

  lemma {:induction false} OfClassZero(s: seq<int>, ccc: Class)
    ensures OfClass(s, ccc, 0) == [] <==> forall i :: 0 <= i < |s| ==> ccc(s[i]) != 0
  {
    if s != [] {
      OfClassZero(s[1..], ccc);
      assert forall i :: 1 <= i < |s| ==> s[i] == s[1..][i - 1];
    }
  }

  lemma SortKeepsNonZero(s: seq<int>, ccc: Class)
    requires forall i :: 0 <= i < |s| ==> ccc(s[i]) != 0
    ensures forall i :: 0 <= i < |s| ==> ccc(StableSort(s, ccc)[i]) != 0
  {
    OfClassZero(s, ccc);
    OfClassZero(StableSort(s, ccc), ccc);
    StableSortProps(s, ccc, 0);
  }

  /** A run of the string is a run of its tail, or starts the string. */
  lemma RunsShift(s: seq<int>, ccc: Class, n: nat, a: nat, b: nat)
    requires n <= |s| && (n > 0 ==> ccc(s[n - 1]) == 0 || (n == |s| || ccc(s[n]) == 0))
    ensures IsRun(s[n..], ccc, a, b) ==> IsRun(s, ccc, a + n, b + n)
    ensures a >= n && IsRun(s, ccc, a, b) ==> IsRun(s[n..], ccc, a - n, b - n)
  {
    if IsRun(s[n..], ccc, a, b) {
      assert forall i :: a + n <= i < b + n ==> s[i] == s[n..][i - n];
      assert s[n..][a] == s[n + a];
    }
    if a >= n && IsRun(s, ccc, a, b) {
      assert forall i :: a - n <= i < b - n ==> s[n..][i] == s[i + n];
    }
  }

  lemma FirstRun(s: seq<int>, ccc: Class, a: nat, b: nat)
    requires s != [] && ccc(s[0]) != 0 && IsRun(s, ccc, a, b)
    ensures var n := RunLength(s, ccc); (a == 0 && b == n) || a > n
  {
    var n := RunLength(s, ccc);
  }

  /** The first class-0 character, or the first run. */
  function HeadLength(s: seq<int>, ccc: Class): (n: nat)
    requires s != []
    ensures 1 <= n <= |s|
  {
    if ccc(s[0]) == 0 then 1 else RunLength(s, ccc)
  }

  lemma HeadIsCanonical(s: seq<int>, ccc: Class)
    requires s != []
    ensures var n := HeadLength(s, ccc);
            && Reorder(s, ccc) == Reorder(s, ccc)[..n] + Reorder(s[n..], ccc)
            && (forall i :: 0 <= i < n ==>
                  (ccc(s[i]) == 0 ==> Reorder(s, ccc)[i] == s[i]) && (ccc(s[i]) != 0 ==> ccc(Reorder(s, ccc)[i]) != 0))
            && (ccc(s[0]) != 0 ==>
                  SortedBy(Reorder(s, ccc)[..n], ccc) && SameByClass(s[..n], Reorder(s, ccc)[..n], ccc))
  {
    var n, r := HeadLength(s, ccc), Reorder(s, ccc);
    if ccc(s[0]) == 0 {
      assert r[..1] == [s[0]] && r[1..] == Reorder(s[1..], ccc);
    } else {
      var head := StableSort(s[..n], ccc);
      assert r == head + Reorder(s[n..], ccc);
      assert r[..n] == head && r[n..] == Reorder(s[n..], ccc);
      hide StableSort;
      hide Reorder;
      SortKeepsNonZero(s[..n], ccc);
      SortIsStable(s[..n], ccc);
      assert forall i :: 0 <= i < n ==> r[i] == head[i];
    }
  }

  lemma CanonicalJoin(s: seq<int>, r: seq<int>, tail: seq<int>, ccc: Class)
    requires s != [] && |r| == |s| && r == r[..HeadLength(s, ccc)] + tail
    requires forall i :: 0 <= i < HeadLength(s, ccc) ==>
               (ccc(s[i]) == 0 ==> r[i] == s[i]) && (ccc(s[i]) != 0 ==> ccc(r[i]) != 0)
    requires ccc(s[0]) != 0 ==>
               SortedBy(r[..HeadLength(s, ccc)], ccc) && SameByClass(s[..HeadLength(s, ccc)], r[..HeadLength(s, ccc)], ccc)
    requires Canonical(s[HeadLength(s, ccc)..], tail, ccc)
    ensures Canonical(s, r, ccc)
  {
    var n := HeadLength(s, ccc);
    hide SameByClass;
    hide SortedBy;
    hide HeadLength;
    forall i | n <= i < |s|
      ensures (ccc(s[i]) == 0 ==> r[i] == s[i]) && (ccc(s[i]) != 0 ==> ccc(r[i]) != 0)
    {
      assert r[i] == tail[i - n] && s[i] == s[n..][i - n];
    }
    forall a: nat, b: nat | IsRun(s, ccc, a, b)
      ensures SortedBy(r[a..b], ccc) && SameByClass(s[a..b], r[a..b], ccc)
    {
      RunOfReordered(s, r, tail, ccc, n, a, b);
    }
  }

  /** The loop's result is a canonical ordering. */
  lemma {:induction false} ReorderIsCanonical(s: seq<int>, ccc: Class)
    ensures Canonical(s, Reorder(s, ccc), ccc)
    decreases |s|
  {
    if s != [] {
      var n := HeadLength(s, ccc);
      HeadIsCanonical(s, ccc);
      ReorderIsCanonical(s[n..], ccc);
      hide *;
      CanonicalJoin(s, Reorder(s, ccc), Reorder(s[n..], ccc), ccc);
    }
  }

  lemma RunOfReordered(s: seq<int>, r: seq<int>, tail: seq<int>, ccc: Class, n: nat, a: nat, b: nat)
    requires s != [] && n == HeadLength(s, ccc) && |r| == |s| && r == r[..n] + tail
    requires IsRun(s, ccc, a, b) && Canonical(s[n..], tail, ccc)
    requires ccc(s[0]) != 0 ==> SortedBy(r[..n], ccc) && SameByClass(s[..n], r[..n], ccc)
    ensures SortedBy(r[a..b], ccc) && SameByClass(s[a..b], r[a..b], ccc)
  {
    hide *;
    RunPlace(s, ccc, n, a, b);
    if a >= n {
      RunsShift(s, ccc, n, a, b);
      CanonicalAt(s[n..], tail, ccc, a - n, b - n);
      assert r[a..b] == tail[a - n..b - n] && s[a..b] == s[n..][a - n..b - n];
    } else {
      assert r[a..b] == r[..n] && s[a..b] == s[..n];
    }
  }

  /** A run lies behind the head, or is the head. */
  lemma RunPlace(s: seq<int>, ccc: Class, n: nat, a: nat, b: nat)
    requires s != [] && n == HeadLength(s, ccc) && IsRun(s, ccc, a, b)
    ensures a < b <= |s| && n <= |s| && (a >= n || (a == 0 && b == n && ccc(s[0]) != 0))
    ensures n > 0 ==> ccc(s[n - 1]) == 0 || (n == |s| || ccc(s[n]) == 0)
  {
    if ccc(s[0]) != 0 {
      FirstRun(s, ccc, a, b);
    }
  }

  lemma CanonicalAt(s: seq<int>, r: seq<int>, ccc: Class, a: nat, b: nat)
    requires Canonical(s, r, ccc) && IsRun(s, ccc, a, b)
    ensures |r| == |s| && a < b <= |s| && SortedBy(r[a..b], ccc) && SameByClass(s[a..b], r[a..b], ccc)
  {
    hide SortedBy;
    hide SameByClass;
  }

  lemma CanonicalTail(s: seq<int>, r: seq<int>, ccc: Class)
    requires s != [] && Canonical(s, r, ccc)
    ensures |r| == |s| && Canonical(s[HeadLength(s, ccc)..], r[HeadLength(s, ccc)..], ccc)
  {
    var n := HeadLength(s, ccc);
    var s', r' := s[n..], r[n..];
    hide SameByClass;
    hide SortedBy;
    HeadEnd(s, ccc);
    forall a: nat, b: nat | IsRun(s', ccc, a, b)
      ensures SortedBy(r'[a..b], ccc) && SameByClass(s'[a..b], r'[a..b], ccc)
    {
      RunsShift(s, ccc, n, a, b);
      CanonicalAt(s, r, ccc, a + n, b + n);
      assert r'[a..b] == r[a + n..b + n] && s'[a..b] == s[a + n..b + n];
    }
    PointwiseTail(s, r, ccc, n);
    hide *;
    CanonicalIntro(s', r', ccc);
  }

  lemma HeadEnd(s: seq<int>, ccc: Class)
    requires s != []
    ensures var n := HeadLength(s, ccc); n > 0 ==> ccc(s[n - 1]) == 0 || (n == |s| || ccc(s[n]) == 0)
  {
  }

  lemma PointwiseTail(s: seq<int>, r: seq<int>, ccc: Class, n: nat)
    requires Canonical(s, r, ccc) && n <= |s|
    ensures |r| == |s|
    ensures forall i :: 0 <= i < |s[n..]| ==>
              (ccc(s[n..][i]) == 0 ==> r[n..][i] == s[n..][i]) && (ccc(s[n..][i]) != 0 ==> ccc(r[n..][i]) != 0)
  {
  }

  lemma CanonicalIntro(s: seq<int>, r: seq<int>, ccc: Class)
    requires |r| == |s|
    requires forall i :: 0 <= i < |s| ==> (ccc(s[i]) == 0 ==> r[i] == s[i]) && (ccc(s[i]) != 0 ==> ccc(r[i]) != 0)
    requires forall a: nat, b: nat :: IsRun(s, ccc, a, b) ==> SortedBy(r[a..b], ccc) && SameByClass(s[a..b], r[a..b], ccc)
    ensures Canonical(s, r, ccc)
  {
  }

  lemma CanonicalHead(s: seq<int>, r: seq<int>, ccc: Class)
    requires s != [] && Canonical(s, r, ccc)
    ensures var n := HeadLength(s, ccc); r[..n] == Reorder(s, ccc)[..n]
  {
    var n := HeadLength(s, ccc);
    HeadIsCanonical(s, ccc);
    hide Reorder;
    if ccc(s[0]) == 0 {
      assert r[..1] == [s[0]] == Reorder(s, ccc)[..1];
    } else {
      assert IsRun(s, ccc, 0, n);
      assert r[0..n] == r[..n] && s[0..n] == s[..n];
      StableSortUnique(r[..n], Reorder(s, ccc)[..n], ccc);
    }
  }

  /** It is the only one. */
  lemma {:induction false} CanonicalIsUnique(s: seq<int>, r: seq<int>, ccc: Class)
    requires Canonical(s, r, ccc)
    ensures r == Reorder(s, ccc)
    decreases |s|
  {
    if s != [] {
      var n := HeadLength(s, ccc);
      assert |r| == |s|;
      hide Canonical;
      hide Reorder;
      CanonicalTail(s, r, ccc);
      CanonicalHead(s, r, ccc);
      HeadIsCanonical(s, ccc);
      CanonicalIsUnique(s[n..], r[n..], ccc);
      assert r == r[..n] + r[n..];
    }
  }

  /** A string in canonical order is left alone. */
  lemma {:induction false} ReorderIsIdempotent(s: seq<int>, ccc: Class)
    ensures Reorder(Reorder(s, ccc), ccc) == Reorder(s, ccc)
  {
    var r := Reorder(s, ccc);
    ReorderIsCanonical(s, ccc);
    forall a: nat, b: nat | IsRun(r, ccc, a, b)
      ensures SortedBy(r[a..b], ccc)
    {
      assert forall i :: 0 <= i < |s| ==> (ccc(s[i]) == 0 <==> ccc(r[i]) == 0);
      assert IsRun(s, ccc, a, b);
    }
    CanonicalIsUnique(r, r, ccc);
  }

  // ---------- The loop ----------

  lemma {:induction false} OfClassCount(s: seq<int>, ccc: Class, x: int)
    ensures multiset(OfClass(s, ccc, ccc(x)))[x] == multiset(s)[x]
  {
    if s != [] {
      OfClassCount(s[1..], ccc, x);
      assert s == [s[0]] + s[1..];
    }
  }

  lemma SameByClassPermutes(a: seq<int>, b: seq<int>, ccc: Class)
    requires SameByClass(a, b, ccc)
    ensures multiset(a) == multiset(b)
  {
    forall x
      ensures multiset(a)[x] == multiset(b)[x]
    {
      OfClassCount(a, ccc, x);
      OfClassCount(b, ccc, x);
    }
  }

  /** The reordering is a permutation. */
  lemma {:induction false} ReorderPermutes(s: seq<int>, ccc: Class)
    ensures multiset(Reorder(s, ccc)) == multiset(s)
    decreases |s|
  {
    if s != [] {
      var n, r := HeadLength(s, ccc), Reorder(s, ccc);
      HeadIsCanonical(s, ccc);
      ReorderPermutes(s[n..], ccc);
      assert s == s[..n] + s[n..] && r == r[..n] + Reorder(s[n..], ccc);
      if ccc(s[0]) == 0 {
        assert r[..1] == s[..1];
      } else {
        SameByClassPermutes(s[..n], r[..n], ccc);
      }
    }
  }

  lemma ReorderFromRun(s: seq<int>, ccc: Class, n: nat)
    requires 0 < n <= |s| && (forall i :: 0 <= i < n ==> ccc(s[i]) != 0) && (n < |s| ==> ccc(s[n]) == 0)
    ensures RunLength(s, ccc) == n
    ensures Reorder(s, ccc) == StableSort(s[..n], ccc) + Reorder(s[n..], ccc)
    ensures n < |s| ==> Reorder(s[n..], ccc) == [s[n]] + Reorder(s[n + 1..], ccc)
  {
    var k := RunLength(s, ccc);
    if n < |s| {
      assert s[n..][1..] == s[n + 1..] && s[n..][0] == s[n];
    }
  }

  lemma ZeroStep(points: seq<int>, ccc: Class, start: nat)
    requires start < |points| && ccc(points[start]) == 0
    ensures points[..start] + Reorder(points[start..], ccc) == points[..start + 1] + Reorder(points[start + 1..], ccc)
  {
    assert points[start..][0] == points[start] && points[start..][1..] == points[start + 1..];
    assert points[..start + 1] == points[..start] + [points[start]];
  }

  lemma Spliced(points: seq<int>, ccc: Class, start: nat, end: nat, head: seq<int>, sorted: seq<int>)
    requires start < end <= |points| && (forall i :: start <= i < end ==> ccc(points[i]) != 0)
    requires end < |points| ==> ccc(points[end]) == 0
    requires head == StableSort(points[start..end], ccc) && sorted == points[..start] + head + points[end..]
    ensures |sorted| == |points|
    ensures points[..start] + Reorder(points[start..], ccc) ==
            if end < |points| then sorted[..end + 1] + Reorder(sorted[end + 1..], ccc) else sorted
  {
    var before, rest, n := points[..start], points[start..], end - start;
    ReorderFromRun(rest, ccc, n);
    ReorderEmpty(ccc);
    assert rest[..n] == points[start..end] && rest[n..] == points[end..];
    hide StableSort;
    hide Reorder;
    if end < |points| {
      assert rest[n] == points[end] && rest[n + 1..] == points[end + 1..];
      assert sorted[..end + 1] == before + head + [points[end]];
      assert sorted[end + 1..] == points[end + 1..];
      var tail := Reorder(points[end + 1..], ccc);
      assert before + (head + ([points[end]] + tail)) == before + head + [points[end]] + tail;
    } else {
      assert points[end..] == [];
      assert before + (head + []) == before + head + [];
    }
  }

  lemma ReorderEmpty(ccc: Class)
    ensures Reorder([], ccc) == []
  {
  }

  /** The end of the run that starts at `start`. */
  method FindRunEnd(points: seq<int>, ccc: Class, start: nat) returns (end: nat)
    requires start < |points| && ccc(points[start]) != 0
    ensures start < end <= |points| && (forall i :: start <= i < end ==> ccc(points[i]) != 0)
    ensures end < |points| ==> ccc(points[end]) == 0
  {
    end := start + 1;
    while end < |points| && ccc(points[end]) != 0
      invariant start < end <= |points|
      invariant forall i :: start <= i < end ==> ccc(points[i]) != 0
    {
      end := end + 1;
    }
  }

  /**
   Sorts one run in place, if it has more than one character (miniutf.cpp:352-355): afterwards it is
   sorted by class, every class has its characters in their old order, and the rest is untouched.
   */
  method SortRun(points: seq<int>, ccc: Class, start: nat, end: nat) returns (sorted: seq<int>)
    requires start < end <= |points|
    ensures |sorted| == |points| && sorted[..start] == points[..start] && sorted[end..] == points[end..]
    ensures SortedBy(sorted[start..end], ccc) && SameByClass(points[start..end], sorted[start..end], ccc)
  {
    var run := points[start..end];
    SortIsStable(run, ccc);
    if end - start > 1 {
      var ordered := StableSort(run, ccc);
      sorted := points[..start] + ordered + points[end..];
      assert sorted[start..end] == ordered;
      assert sorted[..start] == points[..start] && sorted[end..] == points[end..];
    } else {
      sorted := points;
    }
  }

  /** Those properties leave only one possible result. */
  lemma SortedRunIs(points: seq<int>, sorted: seq<int>, ccc: Class, start: nat, end: nat)
    requires start < end <= |points| && |sorted| == |points|
    requires sorted[..start] == points[..start] && sorted[end..] == points[end..]
    requires SortedBy(sorted[start..end], ccc) && SameByClass(points[start..end], sorted[start..end], ccc)
    ensures sorted == points[..start] + StableSort(points[start..end], ccc) + points[end..]
  {
    SortIsStable(points[start..end], ccc);
    StableSortUnique(sorted[start..end], StableSort(points[start..end], ccc), ccc);
    assert sorted == sorted[..start] + sorted[start..end] + sorted[end..];
  }

  /** The state of the ordering loop: everything before `start` is final. */
  ghost predicate Ordered(s: seq<int>, points: seq<int>, start: nat, ccc: Class) {
    && |points| == |s|
    && Reorder(s, ccc) ==
       if start <= |points| then points[..start] + Reorder(points[start..], ccc) else points
  }

  lemma OrderedEnds(s: seq<int>, points: seq<int>, start: nat, ccc: Class)
    ensures Ordered(s, s, 0, ccc)
    ensures start >= |points| && Ordered(s, points, start, ccc) ==> points == Reorder(s, ccc)
  {
    ReorderEmpty(ccc);
    assert s[..0] + Reorder(s[0..], ccc) == Reorder(s, ccc) by { assert s[0..] == s; }
    if start == |points| {
      assert points[..start] == points && points[start..] == [];
    }
  }

  lemma OrderedZero(s: seq<int>, points: seq<int>, start: nat, ccc: Class)
    requires start < |points| && ccc(points[start]) == 0 && Ordered(s, points, start, ccc)
    ensures Ordered(s, points, start + 1, ccc)
  {
    ZeroStep(points, ccc, start);
    hide Reorder;
  }

  lemma OrderedRun(s: seq<int>, points: seq<int>, sorted: seq<int>, start: nat, end: nat, ccc: Class)
    requires start < end <= |points| && |sorted| == |points| && Ordered(s, points, start, ccc)
    requires (forall i :: start <= i < end ==> ccc(points[i]) != 0) && (end < |points| ==> ccc(points[end]) == 0)
    requires sorted[..start] == points[..start] && sorted[end..] == points[end..]
    requires SortedBy(sorted[start..end], ccc) && SameByClass(points[start..end], sorted[start..end], ccc)
    ensures Ordered(s, sorted, end + 1, ccc)
  {
    SortedRunIs(points, sorted, ccc, start, end);
    Spliced(points, ccc, start, end, StableSort(points[start..end], ccc), sorted);
    hide Reorder;
    hide StableSort;
    hide SameByClass;
    hide SortedBy;
  }

  method CanonicalOrdering(s: seq<int>, ccc: Class) returns (points: seq<int>)
    ensures points == Reorder(s, ccc)
  {
    hide *;
    points := s;
    var start := 0;
    OrderedEnds(s, points, 0, ccc);
    while start < |points|
      invariant Ordered(s, points, start, ccc)
      decreases |points| - start
    {
      if ccc(points[start]) == 0 {
        OrderedZero(s, points, start, ccc);
        start := start + 1;
      } else {
        var end := FindRunEnd(points, ccc, start);
        var sorted := SortRun(points, ccc, start, end);
        OrderedRun(s, points, sorted, start, end, ccc);
        points := sorted;
        start := end + 1;
      }
    }
    OrderedEnds(s, points, start, ccc);
  }
}
