/** The singly linked list with head and tail pointers that every kernel queue
    is. Each method rewrites the links in place and is proved against the
    sequence functions of `ListSpec`. Node allocation always succeeds. */
module LinkedList {
  import opened ListSpec

  class Elem<T> {
    const data: T
    var next: Elem?<T>

    constructor (data: T, next: Elem?<T>)
      ensures this.data == data && this.next == next
    {
      this.data, this.next := data, next;
    }
  }

  /** The `i`-th node, or the null link at the end of the chain. */
  ghost function Link<T>(ns: seq<Elem<T>>, i: nat): Elem?<T> {
    if i < |ns| then ns[i] else null
  }

  ghost function Set<T>(ns: seq<Elem<T>>): set<Elem<T>> {
    set n | n in ns
  }

  /** Following `next` from `h` visits exactly the distinct nodes `ns` and ends. */
  ghost predicate Chain<T>(h: Elem?<T>, ns: seq<Elem<T>>)
    reads Set(ns)
  {
    && NoDup(ns)
    && h == Link(ns, 0)
    && forall i :: 0 <= i < |ns| ==> ns[i].next == Link(ns, i + 1)
  }

  ghost function Data<T>(ns: seq<Elem<T>>): (r: seq<T>)
    ensures |r| == |ns| && forall i :: 0 <= i < |ns| ==> r[i] == ns[i].data
  {
    seq(|ns|, i requires 0 <= i < |ns| => ns[i].data)
  }

  lemma DataWithout<T>(ns: seq<Elem<T>>, k: nat)
    requires k < |ns|
    ensures Data(ns[..k] + ns[k + 1..]) == Data(ns)[..k] + Data(ns)[k + 1..]
  {
  }

  lemma DataWith<T>(ns: seq<Elem<T>>, e: Elem<T>, k: nat)
    requires k <= |ns|
    ensures Data(ns[..k] + [e] + ns[k..]) == Data(ns)[..k] + [e.data] + Data(ns)[k..]
  {
  }

  /** The comparator of the stored elements, lifted to nodes. */
  ghost function OnData<T>(cmp: Comparer<T>): Comparer<Elem<T>> {
    (a: Elem<T>, b: Elem<T>) => cmp(a.data, b.data)
  }

  lemma MergeOneSided<T>(s: seq<T>, cmp: Comparer<T>)
    ensures Merge(s, [], cmp) == s == Merge([], s, cmp)
  {
  }

  lemma DataCons<T>(e: Elem<T>, ns: seq<Elem<T>>)
    ensures Data([e] + ns) == [e.data] + Data(ns)
  {
  }

  lemma {:induction false} MergeOnData<T>(l: seq<Elem<T>>, r: seq<Elem<T>>, cmp: Comparer<T>)
    ensures Data(Merge(l, r, OnData(cmp))) == Merge(Data(l), Data(r), cmp)
    decreases |l| + |r|
  {
    hide Merge, Data;
    if l == [] {
      MergeOneSided(r, OnData(cmp));
      MergeOneSided(Data(r), cmp);
    } else if r == [] {
      MergeOneSided(l, OnData(cmp));
      MergeOneSided(Data(l), cmp);
    } else {
      MergeStep(l, r, OnData(cmp));
      MergeStep(Data(l), Data(r), cmp);
      assert Data(l)[1..] == Data(l[1..]) && Data(r)[1..] == Data(r[1..]);
      if cmp(l[0].data, r[0].data) {
        MergeOnData(l[1..], r, cmp);
        DataCons(l[0], Merge(l[1..], r, OnData(cmp)));
      } else {
        MergeOnData(l, r[1..], cmp);
        DataCons(r[0], Merge(l, r[1..], OnData(cmp)));
      }
    }
  }

  /** Sorting the nodes sorts their elements. */
  lemma {:induction false} MergeSortOnData<T>(ns: seq<Elem<T>>, cmp: Comparer<T>)
    ensures Data(MergeSort(ns, OnData(cmp))) == MergeSort(Data(ns), cmp)
    decreases |ns|
  {
    if |ns| < 2 {
      assert MergeSort(ns, OnData(cmp)) == ns && MergeSort(Data(ns), cmp) == Data(ns);
    } else {
      hide MergeSort, Merge;
      var m := (|ns| + 1) / 2;
      MergeSortStep(ns, OnData(cmp));
      MergeSortStep(Data(ns), cmp);
      MergeSortOnData(ns[..m], cmp);
      MergeSortOnData(ns[m..], cmp);
      assert Data(ns)[..m] == Data(ns[..m]) && Data(ns)[m..] == Data(ns[m..]);
      MergeOnData(MergeSort(ns[..m], OnData(cmp)), MergeSort(ns[m..], OnData(cmp)), cmp);
    }
  }

  lemma {:induction false} MergeNodes<T>(l: seq<T>, r: seq<T>, cmp: Comparer<T>)
    ensures forall n :: n in Merge(l, r, cmp) <==> n in l || n in r
    ensures NoDup(l) && NoDup(r) && (forall n :: n in l ==> n !in r) ==> NoDup(Merge(l, r, cmp))
    decreases |l| + |r|
  {
    if l != [] && r != [] {
      assert forall n :: n in l <==> n == l[0] || n in l[1..];
      assert forall n :: n in r <==> n == r[0] || n in r[1..];
      if cmp(l[0], r[0]) {
        MergeNodes(l[1..], r, cmp);
        if NoDup(l) && NoDup(r) && (forall n :: n in l ==> n !in r) {
          ConsDistinct(l[0], Merge(l[1..], r, cmp));
        }
      } else {
        MergeNodes(l, r[1..], cmp);
        if NoDup(l) && NoDup(r) && (forall n :: n in l ==> n !in r) {
          ConsDistinct(r[0], Merge(l, r[1..], cmp));
        }
      }
    }
  }

  lemma {:induction false} MergeSortNodes<T>(s: seq<T>, cmp: Comparer<T>)
    ensures forall n :: n in MergeSort(s, cmp) <==> n in s
    decreases |s|
  {
    if |s| >= 2 {
      var m := (|s| + 1) / 2;
      MergeSortNodes(s[..m], cmp);
      MergeSortNodes(s[m..], cmp);
      MergeNodes(MergeSort(s[..m], cmp), MergeSort(s[m..], cmp), cmp);
      assert s == s[..m] + s[m..];
    }
  }

  /** Null pointers show where a chain ends. */
  lemma ChainEnds<T>(h: Elem?<T>, ns: seq<Elem<T>>)
    requires Chain(h, ns)
    ensures NoDup(ns) && (h == null <==> ns == [])
    ensures h != null ==> (h.next == null <==> |ns| == 1)
  {
  }

  lemma ChainRest<T>(h: Elem<T>, ns: seq<Elem<T>>)
    requires Chain(h, ns)
    ensures |ns| > 0 && h == ns[0] && h !in ns[1..] && Chain(h.next, ns[1..])
    ensures forall n :: n in ns <==> n == h || n in ns[1..]
  {
    assert forall i :: 0 <= i < |ns| - 1 ==> ns[1..][i] == ns[i + 1];
  }

  lemma ChainCons<T>(h: Elem<T>, ns: seq<Elem<T>>)
    requires Chain(h.next, ns) && h !in ns
    ensures Chain(h, [h] + ns)
  {
    ConsDistinct(h, ns);
    var r := [h] + ns;
    assert forall i :: 0 < i < |r| ==> r[i] == ns[i - 1];
  }

  lemma ChainCut<T>(h: Elem?<T>, ns: seq<Elem<T>>, k: nat)
    requires NoDup(ns) && 0 < k <= |ns| && h == ns[0]
    requires forall i :: 0 <= i < k - 1 ==> ns[i].next == ns[i + 1]
    requires ns[k - 1].next == null
    requires forall i :: k <= i < |ns| ==> ns[i].next == Link(ns, i + 1)
    ensures Chain(h, ns[..k]) && Chain(Link(ns, k), ns[k..])
  {
    var r := ns[k..];
    assert forall i :: 0 <= i < |r| ==> r[i] == ns[k + i];
  }

  lemma ChainHead<T>(h: Elem?<T>, ns: seq<Elem<T>>)
    requires Chain(h, ns)
    ensures h == Link(ns, 0)
  {
  }

  lemma ChainAt<T>(h: Elem?<T>, ns: seq<Elem<T>>, k: nat)
    requires Chain(h, ns) && k <= |ns|
    ensures NoDup(ns) && h == Link(ns, 0) && forall i :: 0 <= i < |ns| ==> ns[i].next == Link(ns, i + 1)
    ensures forall j :: 0 <= j < |ns| && k > 0 && j != k - 1 ==> ns[j] != ns[k - 1]
  {
  }

  /** The links after bypassing node `k`. */
  lemma Unlinked<T>(h: Elem?<T>, ns: seq<Elem<T>>, k: nat)
    requires NoDup(ns) && h == Link(ns, 0) && k < |ns|
    requires forall i :: 0 <= i < |ns| ==> ns[i].next == Link(ns, if i == k - 1 then k + 1 else i + 1)
    ensures Chain(if k == 0 then Link(ns, 1) else h, ns[..k] + ns[k + 1..])
  {
    hide NoDup;
    SplitDistinct(ns, k);
    var r := ns[..k] + ns[k + 1..];
    assert forall j :: 0 <= j < |r| ==> r[j] == ns[if j < k then j else j + 1];
  }

  /** The links after putting node `e` in front of node `k`. */
  lemma LinkedIn<T>(h: Elem?<T>, ns: seq<Elem<T>>, k: nat, e: Elem<T>)
    requires NoDup(ns) && h == Link(ns, 0) && k <= |ns| && e !in ns && e.next == Link(ns, k)
    requires forall i :: 0 <= i < |ns| ==> ns[i].next == if i == k - 1 then e else Link(ns, i + 1)
    ensures Chain(if k == 0 then e else h, ns[..k] + [e] + ns[k..])
  {
    hide NoDup;
    InsertDistinct(ns, e, k);
    var r := ns[..k] + [e] + ns[k..];
    assert forall j :: 0 <= j < |r| ==> r[j] == if j < k then ns[j] else if j == k then e else ns[j - 1];
    forall j | 0 <= j < |r| ensures r[j].next == Link(r, j + 1) {
      assert j > k ==> ns[j - 1].next == Link(ns, j);
    }
  }

  /** Splices two sorted chains into one by rewriting `next` links. */
  method MergeChains<T>(left: Elem?<T>, right: Elem?<T>, cmp: Comparer<T>, ghost ls: seq<Elem<T>>, ghost rs: seq<Elem<T>>)
    returns (result: Elem?<T>)
    requires Chain(left, ls) && Chain(right, rs) && Set(ls) !! Set(rs)
    modifies Set(ls) + Set(rs)
    ensures Chain(result, Merge(ls, rs, OnData(cmp)))
    decreases |ls| + |rs|
  {
    hide Chain, Merge;
    ghost var order := OnData(cmp);
    ChainEnds(left, ls);
    ChainEnds(right, rs);
    if left == null {
      MergeOneSided(rs, order);
      return right;
    }
    if right == null {
      MergeOneSided(ls, order);
      return left;
    }
    ChainRest(left, ls);
    ChainRest(right, rs);
    MergeStep(ls, rs, order);
    assert left in Set(ls) && right in Set(rs);
    if cmp(left.data, right.data) {
      result := left;
      var rest := MergeChains(left.next, right, cmp, ls[1..], rs);
      MergeNodes(ls[1..], rs, order);
      assert result !in Set(Merge(ls[1..], rs, order));
      result.next := rest;
      assert Chain(rest, Merge(ls[1..], rs, order));
      ChainCons(result, Merge(ls[1..], rs, order));
    } else {
      result := right;
      var rest := MergeChains(left, right.next, cmp, ls, rs[1..]);
      MergeNodes(ls, rs[1..], order);
      assert result !in Set(Merge(ls, rs[1..], order));
      result.next := rest;
      assert Chain(rest, Merge(ls, rs[1..], order));
      ChainCons(result, Merge(ls, rs[1..], order));
    }
  }

  /** The last node of the longer first half. */
  method GetMiddle<T>(head: Elem<T>, ghost ns: seq<Elem<T>>) returns (slow: Elem<T>)
    requires Chain(head, ns)
    ensures |ns| > 0 && slow == ns[(|ns| - 1) / 2]
  {
    slow := head;
    var fast := head.next;
    ghost var i := 0;
    while fast != null
      invariant 0 <= 2 * i < |ns| && slow == ns[i]
      invariant if fast == null then |ns| <= 2 * i + 2 else fast == Link(ns, 2 * i + 1)
      decreases |ns| - i, fast != null
    {
      fast := fast.next;
      if fast != null {
        slow := slow.next;
        fast := fast.next;
        i := i + 1;
      }
    }
  }

  /** Cuts a chain of two or more nodes behind its middle node. */
  method CutInHalf<T>(head: Elem<T>, ghost ns: seq<Elem<T>>) returns (nextToMiddle: Elem?<T>)
    requires Chain(head, ns) && |ns| >= 2
    modifies Set(ns)
    ensures var m := (|ns| + 1) / 2; Chain(head, ns[..m]) && Chain(nextToMiddle, ns[m..])
  {
    var middle := GetMiddle(head, ns);
    nextToMiddle := middle.next;
    middle.next := null;
    ChainCut(head, ns, (|ns| + 1) / 2);
  }

  lemma MergeSortShort<T>(s: seq<T>, cmp: Comparer<T>)
    requires |s| < 2
    ensures MergeSort(s, cmp) == s
  {
  }

  lemma Halves<T>(ns: seq<Elem<T>>, cmp: Comparer<T>)
    requires NoDup(ns) && |ns| >= 2
    ensures var m := (|ns| + 1) / 2;
            var sl, sr := MergeSort(ns[..m], OnData(cmp)), MergeSort(ns[m..], OnData(cmp));
            && MergeSort(ns, OnData(cmp)) == Merge(sl, sr, OnData(cmp))
            && Set(sl) == Set(ns[..m]) && Set(sr) == Set(ns[m..])
            && Set(ns) == Set(ns[..m]) + Set(ns[m..]) && Set(ns[..m]) !! Set(ns[m..])
  {
    hide MergeSort, Merge, OnData;
    var m := (|ns| + 1) / 2;
    MergeSortStep(ns, OnData(cmp));
    MergeSortNodes(ns[..m], OnData(cmp));
    MergeSortNodes(ns[m..], OnData(cmp));
    var sl, sr := MergeSort(ns[..m], OnData(cmp)), MergeSort(ns[m..], OnData(cmp));
    assert Set(sl) == Set(ns[..m]) && Set(sr) == Set(ns[m..]);
    assert ns == ns[..m] + ns[m..];
  }

  method MergeSortChain<T>(head: Elem?<T>, cmp: Comparer<T>, ghost ns: seq<Elem<T>>) returns (result: Elem?<T>)
    requires Chain(head, ns)
    modifies Set(ns)
    ensures Chain(result, MergeSort(ns, OnData(cmp)))
    decreases |ns|
  {
    hide Chain, NoDup, MergeSort, Merge;
    ChainEnds(head, ns);
    if head == null || head.next == null {
      MergeSortShort(ns, OnData(cmp));
      return head;
    }
    ghost var m := (|ns| + 1) / 2;
    Halves(ns, cmp);
    var nextToMiddle := CutInHalf(head, ns);
    var left := MergeSortChain(head, cmp, ns[..m]);
    var right := MergeSortChain(nextToMiddle, cmp, ns[m..]);
    result := MergeChains(left, right, cmp, MergeSort(ns[..m], OnData(cmp)), MergeSort(ns[m..], OnData(cmp)));
  }

  method LastOf<T>(head: Elem<T>, ghost ns: seq<Elem<T>>) returns (tail: Elem<T>)
    requires Chain(head, ns)
    ensures |ns| > 0 && tail == ns[|ns| - 1]
  {
    tail := head;
    ghost var i := 0;
    while tail.next != null
      invariant 0 <= i < |ns| && tail == ns[i]
      decreases |ns| - i
    {
      tail := tail.next;
      i := i + 1;
    }
  }

  class List<T(==)> {
    var head: Elem?<T>
    var tail: Elem?<T>
    ghost var nodes: seq<Elem<T>>

    ghost predicate Valid()
      reads this, Set(nodes)
    {
      && Chain(head, nodes)
      && tail == (if nodes == [] then null else nodes[|nodes| - 1])
    }

    ghost function Contents(): seq<T>
      reads this
    {
      Data(nodes)
    }

    constructor ()
      ensures Valid() && Contents() == []
    {
      head, tail, nodes := null, null, [];
    }

    method AddFirst(data: T)
      requires Valid()
      modifies this
      ensures Valid() && Contents() == [data] + old(Contents())
      ensures |nodes| > 0 && fresh(nodes[0]) && nodes[1..] == old(nodes)
    {
      var elem := new Elem(data, head);
      head := elem;
      if tail == null {
        tail := head;
      }
      nodes := [elem] + nodes;
    }

    method AddLast(data: T)
      requires Valid()
      modifies this, Set(nodes)
      ensures Valid() && Contents() == old(Contents()) + [data]
      ensures |nodes| == |old(nodes)| + 1 && nodes[..|old(nodes)|] == old(nodes) && fresh(nodes[|old(nodes)|])
    {
      hide NoDup, Chain, Data;
      ghost var ns := nodes;
      ChainAt(head, ns, |ns|);
      var elem := new Elem(data, null);
      assert elem !in ns;
      if tail != null {
        tail.next := elem;
        tail := elem;
      } else {
        head, tail := elem, elem;
      }
      nodes := ns[..|ns|] + [elem] + ns[|ns|..];
      LinkedIn(old(head), ns, |ns|, elem);
      DataWith(ns, elem, |ns|);
    }

    method RemoveFirst() returns (ret: Option<T>)
      requires Valid()
      modifies this
      ensures Valid()
      ensures old(Contents()) == [] ==> ret == None && nodes == []
      ensures old(Contents()) != [] ==> ret == Some(old(Contents())[0]) && nodes == old(nodes)[1..]
      ensures old(Contents()) != [] ==> Contents() == old(Contents())[1..]
    {
      if head == null {
        return None;
      }
      ret := Some(head.data);
      head := head.next;
      if head == null {
        tail := null;
      }
      nodes := nodes[1..];
    }

    method PeekFirst() returns (ret: Option<T>)
      requires Valid()
      ensures ret == if Contents() == [] then None else Some(Contents()[0])
    {
      ret := if head != null then Some(head.data) else None;
    }

    method PeekLast() returns (ret: Option<T>)
      requires Valid()
      ensures ret == if Contents() == [] then None else Some(Contents()[|Contents()| - 1])
    {
      ret := if tail != null then Some(tail.data) else None;
    }

    method RemoveLast() returns (ret: Option<T>)
      requires Valid()
      modifies this, Set(nodes)
      ensures Valid()
      ensures old(Contents()) == [] ==> ret == None && nodes == []
      ensures old(Contents()) != [] ==>
                var n := |old(nodes)| - 1;
                ret == Some(old(Contents())[n]) && nodes == old(nodes)[..n] && Contents() == old(Contents())[..n]
    {
      if head == null {
        return None;
      }
      var prev: Elem?<T>, curr: Elem?<T> := null, head;
      ghost var i := 0;
      while curr != tail
        invariant 0 <= i < |nodes| && curr == nodes[i]
        invariant prev == if i == 0 then null else nodes[i - 1]
        decreases |nodes| - i
      {
        prev, curr := curr, curr.next;
        i := i + 1;
      }
      ret := Some(tail.data);
      if prev != null {
        prev.next := null;
        tail := prev;
      } else {
        head, tail := null, null;
      }
      nodes := nodes[..i];
    }

    /** Unlinks the first node that holds the element; a null pointer is never found. */
    method RemoveSpec(ptr: Option<T>) returns (found: bool)
      requires Valid()
      modifies this, Set(nodes)
      ensures Valid()
      ensures found == (ptr.Some? && ptr.value in old(Contents()))
      ensures Contents() == if ptr.Some? then Remove(old(Contents()), ptr.value) else old(Contents())
      ensures found ==> var k := IndexOf(old(Contents()), ptr.value); nodes == old(nodes)[..k] + old(nodes)[k + 1..]
      ensures !found ==> nodes == old(nodes)
    {
      hide NoDup, Chain, Data, Remove, IndexOf;
      if ptr.None? {
        return false;
      }
      var prev: Elem?<T>, curr := null, head;
      ghost var i, ns := 0, nodes;
      ChainAt(head, ns, 0);
      while curr != null && curr.data != ptr.value
        invariant 0 <= i <= |ns| && curr == Link(ns, i)
        invariant prev == if i == 0 then null else ns[i - 1]
        invariant forall j :: 0 <= j < i ==> ns[j].data != ptr.value
        decreases |ns| - i
      {
        prev, curr := curr, curr.next;
        i := i + 1;
      }
      FirstOccurrence(Data(ns), ptr.value, i);
      if curr == null {
        return false;
      }
      Unlink(prev, curr, i);
      return true;
    }

    /** Takes node `i`, found behind `prev`, out of the chain. */
    method Unlink(prev: Elem?<T>, curr: Elem<T>, ghost i: nat)
      requires Valid() && i < |nodes| && curr == nodes[i] && prev == if i == 0 then null else nodes[i - 1]
      modifies this, Set(nodes)
      ensures Valid() && nodes == old(nodes[..i] + nodes[i + 1..])
      ensures Contents() == old(Contents()[..i] + Contents()[i + 1..])
    {
      hide NoDup, Chain, Data;
      ghost var ns := nodes;
      ChainAt(head, ns, i);
      if prev != null {
        prev.next := curr.next;
      } else {
        head := curr.next;
      }
      if curr == tail {
        tail := prev;
      }
      nodes := ns[..i] + ns[i + 1..];
      DataWithout(ns, i);
      Unlinked(old(head), ns, i);
    }

    /** A null pointer is not inserted. */
    method InsertSorted(data: Option<T>, cmp: Comparer<T>)
      requires Valid()
      modifies this, Set(nodes)
      ensures Valid()
      ensures data.None? ==> nodes == old(nodes)
      ensures data.Some? ==> Contents() == Insert(old(Contents()), data.value, cmp)
      ensures data.Some? ==> exists k, e :: 0 <= k <= |old(nodes)| && fresh(e) &&
                                       nodes == old(nodes)[..k] + [e] + old(nodes)[k..]
    {
      if data.None? {
        return;
      }
      var x := data.value;
      var prev: Elem?<T>, curr := null, head;
      ghost var k, ns := 0, nodes;
      while curr != null && cmp(curr.data, x)
        invariant 0 <= k <= |ns| && curr == Link(ns, k)
        invariant prev == if k == 0 then null else ns[k - 1]
        invariant forall j :: 0 <= j < k ==> cmp(ns[j].data, x)
        decreases |ns| - k
      {
        prev, curr := curr, curr.next;
        k := k + 1;
      }
      InsertionPoint(Data(ns), x, cmp, k);
      LinkIn(prev, curr, x, k);
    }

    /** Puts a new node behind `prev`, in front of `curr`. */
    method LinkIn(prev: Elem?<T>, curr: Elem?<T>, x: T, ghost k: nat)
      requires Valid() && k <= |nodes| && curr == Link(nodes, k) && prev == if k == 0 then null else nodes[k - 1]
      modifies this, Set(nodes)
      ensures Valid() && Contents() == old(Contents()[..k] + [x] + Contents()[k..])
      ensures exists e :: fresh(e) && nodes == old(nodes)[..k] + [e] + old(nodes)[k..]
    {
      hide NoDup, Chain, Data;
      ghost var ns := nodes;
      ChainAt(head, ns, k);
      var elem := new Elem(x, curr);
      if prev == null {
        head := elem;
      } else {
        prev.next := elem;
      }
      if curr == null {
        tail := elem;
      }
      nodes := ns[..k] + [elem] + ns[k..];
      assert elem !in ns;
      LinkedIn(old(head), ns, k, elem);
      DataWith(ns, elem, k);
    }

    /** Relinks the same nodes into sorted order and finds the new tail. */
    method Sort(cmp: Comparer<T>)
      requires Valid()
      modifies this, Set(nodes)
      ensures Valid()
      ensures nodes == MergeSort(old(nodes), OnData(cmp)) && Contents() == MergeSort(old(Contents()), cmp)
      ensures forall n :: n in nodes <==> n in old(nodes)
    {
      hide MergeSort, NoDup, OnData, Data, Chain;
      ghost var sorted := MergeSort(nodes, OnData(cmp));
      MergeSortOnData(nodes, cmp);
      MergeSortNodes(nodes, OnData(cmp));
      assert Set(sorted) == Set(nodes);
      ChainEnds(head, nodes);
      if |nodes| < 2 { MergeSortShort(nodes, OnData(cmp)); }
      if head == null || head.next == null {
        return;
      }
      head := MergeSortChain(head, cmp, nodes);
      assert nodes[0] in Set(sorted);
      ChainEnds(head, sorted);
      tail := LastOf(head, sorted);
      nodes := sorted;
    }

    /** The callback: remove the element of the node being visited, the first. */
    method RemoveVisited(toCheck: Elem<T>)
      requires Valid() && nodes != [] && toCheck == nodes[0]
      modifies this, Set(nodes)
      ensures Valid() && nodes == old(nodes)[1..] && head == old(toCheck.next) == Link(nodes, 0)
    {
      assert Contents()[0] == toCheck.data && IndexOf(Contents(), toCheck.data) == 0;
      var _ := RemoveSpec(Some(toCheck.data));
    }

    /** Iteration whose callback takes the visited element out of the list, as
        both callers in the kernel do: `next` is read before the callback. */
    method ForeachWhileRemoving(condition: T -> bool) returns (visited: seq<T>)
      requires Valid()
      modifies this, Set(nodes)
      ensures Valid()
      ensures visited == TakeWhile(old(Contents()), condition)
      ensures Contents() == DropWhile(old(Contents()), condition)
      ensures nodes == old(nodes)[|visited|..]
    {
      hide NoDup, Chain, TakeWhile, DropWhile;
      visited := [];
      var curr := head;
      ghost var ns, k := nodes, 0;
      ChainHead(head, nodes);
      while curr != null && condition(curr.data)
        invariant 0 <= k <= |ns| && nodes == ns[k..] && Valid() && curr == head == Link(ns, k)
        invariant |visited| == k && forall j :: 0 <= j < k ==> visited[j] == ns[j].data && condition(visited[j])
        decreases |ns| - k
      {
        var toCheck := curr;
        curr := curr.next;
        visited := visited + [toCheck.data];
        RemoveVisited(toCheck);
        k := k + 1;
      }
      assert visited == Data(ns)[..k] && Contents() == Data(ns)[k..];
      PrefixPoint(Data(ns), condition, k);
    }
  }
}
