/** What the operations of the kernel's list template mean on the sequence of
    stored elements. `LinkedList` proves its pointer code against these
    functions and the kernel model keeps its queues with them. */
module ListSpec {

  datatype Option<+T> = None | Some(value: T)

  type Comparer<!T> = (T, T) -> bool

  // ---------------------------------------------------------------- removal

  /** `s` without the first occurrence of `x`. */
  function Remove<T(==)>(s: seq<T>, x: T): (r: seq<T>)
    ensures x !in s ==> r == s
    ensures x in s ==> |r| == |s| - 1
  {
    if s == [] then [] else if s[0] == x then s[1..] else [s[0]] + Remove(s[1..], x)
  }

  ghost predicate NoDup<T>(s: seq<T>) {
    forall i, j :: 0 <= i < j < |s| ==> s[i] != s[j]
  }

  lemma ConsDistinct<T>(x: T, s: seq<T>)
    requires NoDup(s) && x !in s
    ensures NoDup([x] + s)
  {
    var r := [x] + s;
    forall i, j | 0 <= i < j < |r| ensures r[i] != r[j] { assert r[j] == s[j - 1]; }
  }

  lemma SplitDistinct<T>(s: seq<T>, k: nat)
    requires NoDup(s) && k < |s|
    ensures NoDup(s[..k] + s[k + 1..])
  {
    var r := s[..k] + s[k + 1..];
    assert forall i :: 0 <= i < |r| ==> r[i] == s[if i < k then i else i + 1];
  }

  /** The position of the first `x`; the length of `s` when there is none. */
  function IndexOf<T(==)>(s: seq<T>, x: T): (k: nat)
    ensures k <= |s| && (k < |s| <==> x in s)
    ensures k < |s| ==> s[k] == x
    ensures forall i :: 0 <= i < k ==> s[i] != x
  {
    if s == [] then 0 else if s[0] == x then 0 else 1 + IndexOf(s[1..], x)
  }

  lemma {:induction false} RemoveSplits<T>(s: seq<T>, x: T)
    requires x in s
    ensures var k := IndexOf(s, x); Remove(s, x) == s[..k] + s[k + 1..]
  {
    if s[0] != x {
      RemoveSplits(s[1..], x);
      var k := IndexOf(s[1..], x);
      assert [s[0]] + (s[1..][..k] + s[1..][k + 1..]) == s[..k + 1] + s[k + 2..];
    }
  }

  /** What a scan that stops at the first `x`, or at the end, has found. */
  lemma FirstOccurrence<T>(s: seq<T>, x: T, i: nat)
    requires i <= |s| && (forall j :: 0 <= j < i ==> s[j] != x) && (i < |s| ==> s[i] == x)
    ensures i == IndexOf(s, x) && (x in s <==> i < |s|)
    ensures Remove(s, x) == if i < |s| then s[..i] + s[i + 1..] else s
  {
    hide Remove, IndexOf;
    if i < |s| {
      assert x in s;
      RemoveSplits(s, x);
    }
  }

  /** Removing by value from a list without repeats: exactly `x` goes. */
  lemma {:induction false} RemoveFromDistinct<T>(s: seq<T>, x: T)
    requires NoDup(s)
    ensures NoDup(Remove(s, x))
    ensures forall y :: y in Remove(s, x) <==> y in s && y != x
  {
    if s != [] {
      RemoveFromDistinct(s[1..], x);
      assert forall y :: y in s <==> y == s[0] || y in s[1..];
      if s[0] == x {
        assert forall y :: y in s[1..] ==> y != x;
      } else {
        assert forall y :: y in Remove(s, x) <==> y == s[0] || y in Remove(s[1..], x);
        assert s[0] !in s[1..];
      }
    }
  }

  /** Removing `x` moves another element up by one if it stood behind `x` and
      leaves its place alone otherwise. */
  lemma {:induction false} RemoveMovesUp<T>(s: seq<T>, x: T, y: T)
    requires x in s && y in s && x != y
    ensures y in Remove(s, x)
    ensures IndexOf(Remove(s, x), y) == IndexOf(s, y) - (if IndexOf(s, x) < IndexOf(s, y) then 1 else 0)
  {
    if s[0] != x {
      assert Remove(s, x)[0] == s[0] && Remove(s, x)[1..] == Remove(s[1..], x);
      if s[0] != y { RemoveMovesUp(s[1..], x, y); }
    }
  }

  // ------------------------------------------------- iteration under removal

  /** The longest prefix whose elements all satisfy `p`. */
  function TakeWhile<T>(s: seq<T>, p: T -> bool): (r: seq<T>)
    ensures r <= s && (forall x :: x in r ==> p(x))
    ensures |r| < |s| ==> !p(s[|r|])
  {
    if s == [] || !p(s[0]) then [] else [s[0]] + TakeWhile(s[1..], p)
  }

  function DropWhile<T>(s: seq<T>, p: T -> bool): (r: seq<T>)
    ensures s == TakeWhile(s, p) + r
    ensures r != [] ==> !p(r[0])
  {
    if s == [] || !p(s[0]) then s else DropWhile(s[1..], p)
  }

  lemma WhileStep<T>(s: seq<T>, p: T -> bool)
    requires s != []
    ensures TakeWhile(s, p) == if p(s[0]) then [s[0]] + TakeWhile(s[1..], p) else []
    ensures DropWhile(s, p) == if p(s[0]) then DropWhile(s[1..], p) else s
  {
  }

  /** The prefix is the one a scan finds. */
  lemma {:induction false} PrefixPoint<T>(s: seq<T>, p: T -> bool, k: nat)
    requires k <= |s| && (forall i :: 0 <= i < k ==> p(s[i])) && (k < |s| ==> !p(s[k]))
    ensures TakeWhile(s, p) == s[..k] && DropWhile(s, p) == s[k..]
  {
    if k > 0 {
      PrefixPoint(s[1..], p, k - 1);
      assert s[..k] == [s[0]] + s[1..][..k - 1];
    }
  }

  // ------------------------------------------------------- ordered insertion

  /** `x` placed before the first element that `cmp` does not put ahead of it. */
  function Insert<T>(s: seq<T>, x: T, cmp: Comparer<T>): (r: seq<T>)
    ensures |r| == |s| + 1
  {
    if s == [] || !cmp(s[0], x) then [x] + s else [s[0]] + Insert(s[1..], x, cmp)
  }

  /** The elements of `s` inserted one by one, first to last, into an empty list. */
  function InsertAll<T>(s: seq<T>, cmp: Comparer<T>): (r: seq<T>)
    ensures |r| == |s|
  {
    if s == [] then [] else Insert(InsertAll(s[..|s| - 1], cmp), s[|s| - 1], cmp)
  }

  lemma {:induction false} InsertSplits<T>(s: seq<T>, x: T, cmp: Comparer<T>) returns (k: nat)
    ensures k <= |s| && Insert(s, x, cmp) == s[..k] + [x] + s[k..]
    ensures forall i :: 0 <= i < k ==> cmp(s[i], x)
    ensures k < |s| ==> !cmp(s[k], x)
  {
    if s == [] || !cmp(s[0], x) {
      k := 0;
    } else {
      var m := InsertSplits(s[1..], x, cmp);
      k := m + 1;
      assert s[..k] + [x] + s[k..] == [s[0]] + (s[1..][..m] + [x] + s[1..][m..]);
    }
  }

  /** The place is the one a scan finds. */
  lemma {:induction false} InsertionPoint<T>(s: seq<T>, x: T, cmp: Comparer<T>, k: nat)
    requires k <= |s| && (forall i :: 0 <= i < k ==> cmp(s[i], x)) && (k < |s| ==> !cmp(s[k], x))
    ensures Insert(s, x, cmp) == s[..k] + [x] + s[k..]
  {
    if k > 0 {
      InsertionPoint(s[1..], x, cmp, k - 1);
      assert s[..k] + [x] + s[k..] == [s[0]] + (s[1..][..k - 1] + [x] + s[1..][k - 1..]);
    }
  }

  lemma InsertDistinct<T>(s: seq<T>, x: T, k: nat)
    requires NoDup(s) && x !in s && k <= |s|
    ensures NoDup(s[..k] + [x] + s[k..])
  {
    var r := s[..k] + [x] + s[k..];
    assert forall i :: 0 <= i < |r| ==> r[i] == if i < k then s[i] else if i == k then x else s[i - 1];
  }

  lemma {:induction false} InsertMembers<T>(s: seq<T>, x: T, cmp: Comparer<T>)
    ensures multiset(Insert(s, x, cmp)) == multiset(s) + multiset{x}
    ensures forall y :: y in Insert(s, x, cmp) <==> y in s || y == x
  {
    if s != [] && cmp(s[0], x) {
      InsertMembers(s[1..], x, cmp);
      assert s == [s[0]] + s[1..];
      assert forall y :: y in s <==> y == s[0] || y in s[1..];
    }
  }

  lemma InsertKeepsDistinct<T>(s: seq<T>, x: T, cmp: Comparer<T>)
    requires NoDup(s) && x !in s
    ensures NoDup(Insert(s, x, cmp))
  {
    var k := InsertSplits(s, x, cmp);
    InsertDistinct(s, x, k);
  }

  // -------------------------------------------------------------- comparators

  /** The comparators ordered lists are kept with: transitive, and a step from
      `a` to `c` passes any `b` on one side or the other. Every total preorder
      and the strict part of every total preorder is one (see below). */
  ghost predicate Ordering<T(!new)>(cmp: Comparer<T>) {
    && (forall a, b, c :: cmp(a, b) && cmp(b, c) ==> cmp(a, c))
    && (forall a, b, c :: cmp(a, c) ==> cmp(a, b) || cmp(b, c))
  }

  ghost predicate TotalPreorder<T(!new)>(le: Comparer<T>) {
    && (forall a, b :: le(a, b) || le(b, a))
    && (forall a, b, c :: le(a, b) && le(b, c) ==> le(a, c))
  }

  ghost predicate StrictPart<T(!new)>(lt: Comparer<T>, le: Comparer<T>) {
    forall a, b :: lt(a, b) <==> le(a, b) && !le(b, a)
  }

  lemma PreordersAndTheirStrictPartsOrder<T(!new)>(le: Comparer<T>, lt: Comparer<T>)
    requires TotalPreorder(le) && StrictPart(lt, le)
    ensures Ordering(le) && Ordering(lt)
  {
    forall a, b, c | le(a, c) ensures le(a, b) || le(b, c) { assert le(a, b) || le(b, a); }
    forall a, b, c | lt(a, b) && lt(b, c) ensures lt(a, c) { assert le(c, a) ==> le(b, a); }
    forall a, b, c | lt(a, c) ensures lt(a, b) || lt(b, c) { assert le(a, b) || le(b, a); assert le(b, c) || le(c, b); }
  }

  /** No later element belongs strictly ahead of an earlier one. */
  ghost predicate Sorted<T>(s: seq<T>, cmp: Comparer<T>) {
    forall i, j :: 0 <= i < j < |s| ==> cmp(s[i], s[j]) || !cmp(s[j], s[i])
  }

  predicate Tied<T>(a: T, b: T, cmp: Comparer<T>) { cmp(a, b) == cmp(b, a) }

  /** The elements of `s` that the order cannot tell from `g`, in list order. */
  function TiedWith<T>(s: seq<T>, g: T, cmp: Comparer<T>): (r: seq<T>) {
    if s == [] then [] else IfTied(s[0], g, cmp) + TiedWith(s[1..], g, cmp)
  }

  function IfTied<T>(a: T, g: T, cmp: Comparer<T>): seq<T> {
    if Tied(a, g, cmp) then [a] else []
  }

  lemma TiedWithCons<T>(a: T, s: seq<T>, g: T, cmp: Comparer<T>)
    ensures TiedWith([a] + s, g, cmp) == IfTied(a, g, cmp) + TiedWith(s, g, cmp)
  {
    assert ([a] + s)[1..] == s;
  }

  function Reverse<T>(s: seq<T>): (r: seq<T>) {
    if s == [] then [] else Reverse(s[1..]) + [s[0]]
  }

  lemma {:induction false} TiedWithConcat<T>(s: seq<T>, t: seq<T>, g: T, cmp: Comparer<T>)
    ensures TiedWith(s + t, g, cmp) == TiedWith(s, g, cmp) + TiedWith(t, g, cmp)
  {
    if s == [] {
      assert s + t == t;
    } else {
      TiedWithConcat(s[1..], t, g, cmp);
      TiedWithCons(s[0], s[1..], g, cmp);
      TiedWithCons(s[0], s[1..] + t, g, cmp);
      hide TiedWith, IfTied;
      assert s + t == [s[0]] + (s[1..] + t) && s == [s[0]] + s[1..];
    }
  }

  lemma {:induction false} ReverseAppend<T>(s: seq<T>, x: T)
    ensures Reverse(s + [x]) == [x] + Reverse(s)
  {
    if s == [] {
      assert s + [x] == [x];
    } else {
      ReverseAppend(s[1..], x);
      assert (s + [x])[1..] == s[1..] + [x];
    }
  }

  lemma {:induction false} NothingTied<T>(s: seq<T>, g: T, cmp: Comparer<T>)
    requires forall y :: y in s ==> !Tied(y, g, cmp)
    ensures TiedWith(s, g, cmp) == []
  {
    if s != [] { NothingTied(s[1..], g, cmp); }
  }

  lemma InsertKeepsSorted<T(!new)>(s: seq<T>, x: T, cmp: Comparer<T>)
    requires Ordering(cmp) && Sorted(s, cmp)
    ensures Sorted(Insert(s, x, cmp), cmp)
  {
    var k := InsertSplits(s, x, cmp);
    var r := Insert(s, x, cmp);
    forall i, j | 0 <= i < j < |r| ensures cmp(r[i], r[j]) || !cmp(r[j], r[i]) {
      if j == k {
        assert r[i] == s[i];
      } else if i == k {
        assert r[j] == s[j - 1] && !cmp(s[k], x);
        if k < j - 1 { assert cmp(s[k], s[j - 1]) || !cmp(s[j - 1], s[k]); }
      } else {
        var i', j' := if i < k then i else i - 1, if j < k then j else j - 1;
        assert r[i] == s[i'] && r[j] == s[j'];
      }
    }
  }

  lemma {:induction false} InsertAllSorts<T(!new)>(s: seq<T>, cmp: Comparer<T>)
    requires Ordering(cmp)
    ensures Sorted(InsertAll(s, cmp), cmp) && multiset(InsertAll(s, cmp)) == multiset(s)
  {
    if s != [] {
      var rest, x := s[..|s| - 1], s[|s| - 1];
      InsertAllSorts(rest, cmp);
      InsertKeepsSorted(InsertAll(rest, cmp), x, cmp);
      InsertMembers(InsertAll(rest, cmp), x, cmp);
      assert s == rest + [x];
    }
  }

  /** A reflexive comparator puts a new element behind its equals. */
  lemma {:induction false} InsertBehindTies<T(!new)>(s: seq<T>, x: T, g: T, cmp: Comparer<T>)
    requires Ordering(cmp) && Sorted(s, cmp) && forall a :: cmp(a, a)
    ensures TiedWith(Insert(s, x, cmp), g, cmp) == TiedWith(s, g, cmp) + IfTied(x, g, cmp)
  {
    TiedWithCons(x, s, g, cmp);
    if s == [] {
    } else if cmp(s[0], x) {
      InsertBehindTies(s[1..], x, g, cmp);
      TiedWithCons(s[0], Insert(s[1..], x, cmp), g, cmp);
    } else if Tied(x, g, cmp) {
      forall y | y in s ensures !Tied(y, g, cmp) {
        var j :| 0 <= j < |s| && s[j] == y;
        assert cmp(x, x) && cmp(y, y);
        assert cmp(s[0], s[j]);
        assert !cmp(y, x);
      }
      NothingTied(s, g, cmp);
    }
  }

  lemma AheadIsNotTied<T(!new)>(a: T, x: T, g: T, cmp: Comparer<T>)
    requires Ordering(cmp) && !cmp(x, x) && !cmp(a, a) && cmp(a, x)
    ensures Tied(x, g, cmp) ==> !Tied(a, g, cmp)
  {
    assert cmp(a, g) || cmp(g, x);
  }

  /** An irreflexive comparator puts a new element ahead of its equals. */
  lemma {:induction false} InsertAheadOfTies<T(!new)>(s: seq<T>, x: T, g: T, cmp: Comparer<T>)
    requires Ordering(cmp) && forall a :: !cmp(a, a)
    ensures TiedWith(Insert(s, x, cmp), g, cmp) == IfTied(x, g, cmp) + TiedWith(s, g, cmp)
  {
    hide Ordering;
    TiedWithCons(x, s, g, cmp);
    if s != [] && cmp(s[0], x) {
      AheadIsNotTied(s[0], x, g, cmp);
      InsertAheadOfTies(s[1..], x, g, cmp);
      TiedWithCons(s[0], Insert(s[1..], x, cmp), g, cmp);
      TiedWithCons(s[0], s[1..], g, cmp);
      hide TiedWith;
      assert s == [s[0]] + s[1..] && Insert(s, x, cmp) == [s[0]] + Insert(s[1..], x, cmp);
    }
  }

  /** Repeated insertion is stable for a reflexive comparator and turns ties
      exactly round for an irreflexive one. */
  lemma {:induction false} InsertAllTies<T(!new)>(s: seq<T>, g: T, cmp: Comparer<T>)
    requires Ordering(cmp)
    ensures (forall a :: cmp(a, a)) ==> TiedWith(InsertAll(s, cmp), g, cmp) == TiedWith(s, g, cmp)
    ensures (forall a :: !cmp(a, a)) ==> TiedWith(InsertAll(s, cmp), g, cmp) == Reverse(TiedWith(s, g, cmp))
  {
    if s != [] {
      var rest, x := s[..|s| - 1], s[|s| - 1];
      var r := InsertAll(rest, cmp);
      InsertAllSorts(rest, cmp);
      InsertAllTies(rest, g, cmp);
      TiedWithConcat(rest, [x], g, cmp);
      assert s == rest + [x] && [x] == [x] + [];
      TiedWithCons(x, [], g, cmp);
      var ties := TiedWith(rest, g, cmp);
      ReverseAppend(ties, x);
      hide Ordering;
      if forall a :: cmp(a, a) { InsertBehindTies(r, x, g, cmp); }
      if forall a :: !cmp(a, a) { InsertAheadOfTies(r, x, g, cmp); }
      hide TiedWith, Reverse, Insert;
      assert TiedWith(s, g, cmp) == ties + IfTied(x, g, cmp);
      assert ties + [] == ties;
    }
  }

  // --------------------------------------------------------------- merge sort

  /** The two-way merge: the left head goes first exactly when `cmp` says so. */
  function Merge<T>(l: seq<T>, r: seq<T>, cmp: Comparer<T>): (m: seq<T>)
    ensures |m| == |l| + |r|
    decreases |l| + |r|
  {
    if l == [] then r
    else if r == [] then l
    else if cmp(l[0], r[0]) then [l[0]] + Merge(l[1..], r, cmp)
    else [r[0]] + Merge(l, r[1..], cmp)
  }

  /** Sorting by halves, the longer half first. */
  function MergeSort<T>(s: seq<T>, cmp: Comparer<T>): (r: seq<T>)
    ensures |r| == |s|
    decreases |s|
  {
    if |s| < 2 then s
    else
      var m := (|s| + 1) / 2;
      Merge(MergeSort(s[..m], cmp), MergeSort(s[m..], cmp), cmp)
  }

  lemma MergeStep<T>(l: seq<T>, r: seq<T>, cmp: Comparer<T>)
    requires l != [] && r != []
    ensures Merge(l, r, cmp) == if cmp(l[0], r[0]) then [l[0]] + Merge(l[1..], r, cmp) else [r[0]] + Merge(l, r[1..], cmp)
  {
  }

  lemma MergeSortStep<T>(s: seq<T>, cmp: Comparer<T>)
    requires |s| >= 2
    ensures var m := (|s| + 1) / 2;
            MergeSort(s, cmp) == Merge(MergeSort(s[..m], cmp), MergeSort(s[m..], cmp), cmp)
  {
    hide Merge;
  }

  /** Merging commutes with inserting on the right: the step that makes merge
      sort agree with repeated insertion. Neither list needs to be sorted. */
  lemma {:induction false} MergeInsert<T(!new)>(l: seq<T>, r: seq<T>, x: T, cmp: Comparer<T>)
    requires Ordering(cmp)
    ensures Merge(l, Insert(r, x, cmp), cmp) == Insert(Merge(l, r, cmp), x, cmp)
    decreases |l| + |r|
  {
    var rx := Insert(r, x, cmp);
    if l == [] {
    } else if r == [] {
      MergeInsert(l[1..], r, x, cmp);
      assert rx == [x] && rx[1..] == [];
    } else {
      MergeInsert(l[1..], r, x, cmp);
      if cmp(r[0], x) {
        assert rx[0] == r[0] && rx[1..] == Insert(r[1..], x, cmp);
        MergeInsert(l, r[1..], x, cmp);
        assert cmp(l[0], r[0]) ==> cmp(l[0], x);
      } else {
        assert rx[0] == x && rx[1..] == r;
        assert cmp(l[0], x) ==> cmp(l[0], r[0]);
      }
      var m := Merge(l, r, cmp);
      assert m[1..] == if cmp(l[0], r[0]) then Merge(l[1..], r, cmp) else Merge(l, r[1..], cmp);
    }
  }

  lemma {:induction false} MergeOfInsertions<T(!new)>(a: seq<T>, b: seq<T>, cmp: Comparer<T>)
    requires Ordering(cmp)
    ensures Merge(InsertAll(a, cmp), InsertAll(b, cmp), cmp) == InsertAll(a + b, cmp)
    decreases |b|
  {
    hide Ordering;
    if b == [] {
      assert a + b == a;
    } else {
      var rest, x := b[..|b| - 1], b[|b| - 1];
      MergeOfInsertions(a, rest, cmp);
      MergeInsert(InsertAll(a, cmp), InsertAll(rest, cmp), x, cmp);
      assert (a + b)[..|a + b| - 1] == a + rest;
    }
  }

  /** Merge sort gives, element for element, the list repeated ordered insertion
      gives. */
  lemma {:induction false} MergeSortIsInsertion<T(!new)>(s: seq<T>, cmp: Comparer<T>)
    requires Ordering(cmp)
    ensures MergeSort(s, cmp) == InsertAll(s, cmp)
    decreases |s|
  {
    hide Ordering;
    if |s| == 1 {
      assert InsertAll(s[..0], cmp) == [] && Insert([], s[0], cmp) == [s[0]];
    } else if |s| >= 2 {
      var m := (|s| + 1) / 2;
      MergeSortIsInsertion(s[..m], cmp);
      MergeSortIsInsertion(s[m..], cmp);
      assert s[..m] + s[m..] == s;
      MergeOfInsertions(s[..m], s[m..], cmp);
    }
  }

  /** What sorting promises: a sorted rearrangement that keeps ties in order for
      a total preorder and turns them exactly round for its strict part. */
  lemma SortMeaning<T(!new)>(s: seq<T>, g: T, le: Comparer<T>, lt: Comparer<T>)
    requires TotalPreorder(le) && StrictPart(lt, le)
    ensures Sorted(MergeSort(s, le), le) && multiset(MergeSort(s, le)) == multiset(s)
    ensures Sorted(MergeSort(s, lt), lt) && multiset(MergeSort(s, lt)) == multiset(s)
    ensures TiedWith(MergeSort(s, le), g, le) == TiedWith(s, g, le)
    ensures TiedWith(MergeSort(s, lt), g, lt) == Reverse(TiedWith(s, g, lt))
  {
    PreordersAndTheirStrictPartsOrder(le, lt);
    assert forall a :: le(a, a);
    assert forall a :: !lt(a, a);
    hide Ordering;
    MergeSortIsInsertion(s, le);
    MergeSortIsInsertion(s, lt);
    InsertAllSorts(s, le);
    InsertAllSorts(s, lt);
    InsertAllTies(s, g, le);
    InsertAllTies(s, g, lt);
  }
}
