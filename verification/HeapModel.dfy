/** The kernel heap as a tiling of `total` equal cells by free and taken blocks.
    Nothing here mentions memory words; `MemoryAllocator` ties the two together. */
module HeapModel {

  datatype Block = Block(start: nat, len: nat) {
    function End(): nat { start + len }
    predicate Has(k: int) { start <= k < start + len }
  }

  datatype Heap = Heap(total: nat, free: seq<Block>, taken: seq<Block>)

  ghost predicate Covered(bs: seq<Block>, k: int) {
    exists i :: 0 <= i < |bs| && bs[i].Has(k)
  }

  /** Blocks in address order, none empty, with at least one cell between neighbours. */
  ghost predicate Gapped(bs: seq<Block>) {
    && (forall i :: 0 <= i < |bs| ==> bs[i].len > 0)
    && (forall i, j :: 0 <= i < j < |bs| ==> bs[i].End() < bs[j].start)
  }

  ghost predicate Disjoint(bs: seq<Block>) {
    && (forall i :: 0 <= i < |bs| ==> bs[i].len > 0)
    && (forall i, j :: 0 <= i < j < |bs| ==> bs[i].End() <= bs[j].start || bs[j].End() <= bs[i].start)
  }

  ghost predicate Within(bs: seq<Block>, total: nat) {
    forall i :: 0 <= i < |bs| ==> bs[i].End() <= total
  }

  /** The two lists tile the heap exactly: every cell is in one block of one
      list, and the free list is ordered and fully coalesced. */
  ghost predicate WellFormed(h: Heap) {
    && Gapped(h.free) && Within(h.free, h.total)
    && Disjoint(h.taken) && Within(h.taken, h.total)
    && forall k :: 0 <= k < h.total ==> Covered(h.free, k) != Covered(h.taken, k)
  }

  // ------------------------------------------------------------ canonical form

  lemma CoveredHead(bs: seq<Block>, k: int)
    requires Gapped(bs) && bs != []
    ensures Covered(bs, k) <==> bs[0].Has(k) || Covered(bs[1..], k)
    ensures Covered(bs[1..], k) ==> bs[0].End() < k
    ensures Gapped(bs[1..])
  {
    if Covered(bs, k) {
      var i :| 0 <= i < |bs| && bs[i].Has(k);
      if i > 0 { assert bs[1..][i - 1].Has(k); }
    }
    if Covered(bs[1..], k) {
      var i :| 0 <= i < |bs[1..]| && bs[1..][i].Has(k);
      assert bs[i + 1].Has(k);
    }
  }

  lemma CoversStart(bs: seq<Block>, i: nat)
    requires i < |bs| && bs[i].len > 0
    ensures Covered(bs, bs[i].start)
  {
    assert bs[i].Has(bs[i].start);
  }

  lemma FirstCovered(bs: seq<Block>)
    requires Gapped(bs) && bs != []
    ensures Covered(bs, bs[0].start) && !Covered(bs, bs[0].End())
    ensures forall k :: Covered(bs, k) ==> bs[0].start <= k
    ensures forall k :: bs[0].Has(k) ==> Covered(bs, k)
  {
    CoversStart(bs, 0);
    forall k ensures Covered(bs, k) ==> bs[0].start <= k && k != bs[0].End() { CoveredHead(bs, k); }
  }

  /** An ordered, coalesced list is determined by the cells it covers. */
  lemma {:induction false} CanonicalList(f: seq<Block>, g: seq<Block>)
    requires Gapped(f) && Gapped(g)
    requires forall k :: Covered(f, k) <==> Covered(g, k)
    ensures f == g
  {
    if f == [] || g == [] {
      if f != [] { CoversStart(f, 0); }
      if g != [] { CoversStart(g, 0); }
    } else {
      FirstCovered(f);
      FirstCovered(g);
      var f0, g0 := f[0], g[0];
      assert f0.start == g0.start;
      assert f0.len < g0.len ==> g0.Has(f0.End());
      assert g0.len < f0.len ==> f0.Has(g0.End());
      assert f0 == g0;
      forall k ensures Covered(f[1..], k) <==> Covered(g[1..], k) {
        CoveredHead(f, k);
        CoveredHead(g, k);
      }
      CoveredHead(f, 0);
      CoveredHead(g, 0);
      CanonicalList(f[1..], g[1..]);
      assert f == [f[0]] + f[1..] && g == [g[0]] + g[1..];
    }
  }

  /** Cells outside the heap belong to no block. */
  lemma CoveredWithin(bs: seq<Block>, total: nat, k: int)
    requires Within(bs, total) && Covered(bs, k)
    ensures 0 <= k < total
  {
  }

  /** The free list is a function of the cells in taken blocks alone. */
  lemma FreeListIsCanonical(h: Heap, h': Heap)
    requires WellFormed(h) && WellFormed(h') && h.total == h'.total
    requires forall k :: Covered(h.taken, k) <==> Covered(h'.taken, k)
    ensures h.free == h'.free
  {
    forall k ensures Covered(h.free, k) <==> Covered(h'.free, k) {
      if Covered(h.free, k) { CoveredWithin(h.free, h.total, k); }
      if Covered(h'.free, k) { CoveredWithin(h'.free, h.total, k); }
    }
    CanonicalList(h.free, h'.free);
  }

  function Initial(total: nat): Heap {
    Heap(total, [Block(0, total)], [])
  }

  lemma InitialTiles(total: nat)
    requires total > 0
    ensures WellFormed(Initial(total))
  {
    forall k | 0 <= k < total ensures Covered(Initial(total).free, k) { assert Initial(total).free[0].Has(k); }
  }

  /** With nothing taken the free list is one block holding the whole heap. */
  lemma NothingTakenOneBlock(h: Heap)
    requires WellFormed(h) && h.total > 0 && h.taken == []
    ensures h == Initial(h.total)
  {
    InitialTiles(h.total);
    FreeListIsCanonical(h, Initial(h.total));
  }

  // ------------------------------------------------------------------ releasing

  /** The taken list without the block that starts at cell `k`. */
  function Without(bs: seq<Block>, k: nat): (r: seq<Block>)
    ensures |r| <= |bs|
  {
    if bs == [] then [] else if bs[0].start == k then bs[1..] else [bs[0]] + Without(bs[1..], k)
  }

  predicate Live(h: Heap, k: int) {
    exists t :: t in h.taken && t.start == k
  }

  /** What a successful release of the block at cell `k` means. It says nothing
      of the free list: the tiling leaves only one possibility. */
  ghost predicate Releases(h: Heap, k: nat, h': Heap) {
    && WellFormed(h) && WellFormed(h') && h'.total == h.total
    && Live(h, k) && h'.taken == Without(h.taken, k)
  }

  /** Releasing the blocks at `ks` one after the other. */
  ghost predicate ReleasesAll(hs: seq<Heap>, ks: seq<nat>) {
    && |hs| == |ks| + 1
    && forall i :: 0 <= i < |ks| ==> Releases(hs[i], ks[i], hs[i + 1])
  }

  function Keep(bs: seq<Block>, ks: set<nat>): (r: seq<Block>) {
    if bs == [] then [] else (if bs[0].start in ks then [] else [bs[0]]) + Keep(bs[1..], ks)
  }

  ghost predicate DistinctStarts(bs: seq<Block>) {
    forall i, j :: 0 <= i < j < |bs| ==> bs[i].start != bs[j].start
  }

  lemma {:induction false} KeepAll(bs: seq<Block>, ks: set<nat>)
    requires forall t :: t in bs ==> t.start !in ks
    ensures Keep(bs, ks) == bs
  {
    if bs != [] { KeepAll(bs[1..], ks); }
  }

  lemma DistinctTail(bs: seq<Block>)
    requires DistinctStarts(bs) && bs != []
    ensures DistinctStarts(bs[1..]) && forall t :: t in bs[1..] ==> t.start != bs[0].start
  {
    assert forall i :: 0 <= i < |bs| - 1 ==> bs[1..][i] == bs[i + 1];
  }

  lemma {:induction false} WithoutMembers(bs: seq<Block>, k: nat)
    requires DistinctStarts(bs)
    ensures forall t :: t in Without(bs, k) <==> t in bs && t.start != k
  {
    if bs != [] {
      DistinctTail(bs);
      WithoutMembers(bs[1..], k);
      assert forall t :: t in bs <==> t == bs[0] || t in bs[1..];
    }
  }

  lemma {:induction false} WithoutIsKeep(bs: seq<Block>, k: nat, ks: set<nat>)
    requires DistinctStarts(bs)
    ensures Keep(Without(bs, k), ks) == Keep(bs, ks + {k})
  {
    if bs != [] {
      DistinctTail(bs);
      WithoutIsKeep(bs[1..], k, ks);
      if bs[0].start == k {
        KeepWithoutAbsent(bs[1..], k, ks);
      }
    }
  }

  lemma {:induction false} KeepWithoutAbsent(bs: seq<Block>, k: nat, ks: set<nat>)
    requires forall t :: t in bs ==> t.start != k
    ensures Keep(bs, ks) == Keep(bs, ks + {k})
  {
    if bs != [] { KeepWithoutAbsent(bs[1..], k, ks); }
  }

  lemma TakenStartsDiffer(h: Heap)
    requires WellFormed(h)
    ensures DistinctStarts(h.taken)
  {
  }

  function Elements(ks: seq<nat>): set<nat> { set k | k in ks }

  lemma {:induction false} ReleasedSet(hs: seq<Heap>, ks: seq<nat>)
    requires ReleasesAll(hs, ks) && WellFormed(hs[0])
    ensures var h := hs[|ks|]; WellFormed(h) && h.total == hs[0].total && h.taken == Keep(hs[0].taken, Elements(ks))
  {
    if ks == [] {
      KeepAll(hs[0].taken, {});
      assert Elements(ks) == {};
    } else {
      assert Releases(hs[0], ks[0], hs[1]);
      ReleasedSet(hs[1..], ks[1..]);
      TakenStartsDiffer(hs[0]);
      WithoutIsKeep(hs[0].taken, ks[0], Elements(ks[1..]));
      assert Elements(ks) == Elements(ks[1..]) + {ks[0]};
    }
  }

  /** Releasing the same set of live blocks in any two orders ends in the same
      heap, free list and taken list alike. */
  lemma ReleaseOrderIsIrrelevant(hs: seq<Heap>, ks: seq<nat>, hs': seq<Heap>, ks': seq<nat>)
    requires ReleasesAll(hs, ks) && ReleasesAll(hs', ks')
    requires hs[0] == hs'[0] && WellFormed(hs[0]) && Elements(ks) == Elements(ks')
    ensures hs[|ks|] == hs'[|ks'|]
  {
    ReleasedSet(hs, ks);
    ReleasedSet(hs', ks');
    FreeListIsCanonical(hs[|ks|], hs'[|ks'|]);
  }

  /** Releasing every live block restores the single initial free block. */
  lemma ReleaseEverything(hs: seq<Heap>, ks: seq<nat>)
    requires ReleasesAll(hs, ks) && WellFormed(hs[0]) && hs[0].total > 0
    requires forall t :: t in hs[0].taken ==> t.start in ks
    ensures hs[|ks|] == Initial(hs[0].total)
  {
    ReleasedSet(hs, ks);
    KeepNone(hs[0].taken, Elements(ks));
    NothingTakenOneBlock(hs[|ks|]);
  }

  lemma {:induction false} KeepNone(bs: seq<Block>, ks: set<nat>)
    requires forall t :: t in bs ==> t.start in ks
    ensures Keep(bs, ks) == []
  {
    if bs != [] { KeepNone(bs[1..], ks); }
  }

  // ----------------------------------------------------------------- allocation

  /** `n` contiguous free cells from `k` on. */
  ghost predicate FreeRun(h: Heap, k: int, n: nat) {
    forall c :: k <= c < k + n ==> Covered(h.free, c)
  }

  ghost predicate LowestRun(h: Heap, k: int, n: nat) {
    FreeRun(h, k, n) && forall j :: FreeRun(h, j, n) ==> k <= j
  }

  /** What a successful allocation of `n` cells at `k` means. */
  ghost predicate Allocates(h: Heap, n: nat, k: nat, h': Heap) {
    && WellFormed(h) && WellFormed(h') && h'.total == h.total
    && n > 0 && LowestRun(h, k, n)
    && h'.taken == [Block(k, n)] + h.taken
  }

  /** A run of free cells never straddles two free blocks. */
  lemma RunInOneBlock(h: Heap, k: int, n: nat) returns (i: nat)
    requires Gapped(h.free) && n > 0 && FreeRun(h, k, n)
    ensures i < |h.free| && h.free[i].start <= k && k + n <= h.free[i].End()
  {
    assert Covered(h.free, k);
    i :| 0 <= i < |h.free| && h.free[i].Has(k);
    forall j | 0 <= j < |h.free| ensures !h.free[j].Has(h.free[i].End()) {
      assert i < j ==> h.free[i].End() < h.free[j].start;
      assert j < i ==> h.free[j].End() < h.free[i].start;
    }
    assert !Covered(h.free, h.free[i].End());
  }

  /** First fit finds the lowest-addressed run, and finds one whenever there is one. */
  lemma FirstFitIsLowest(h: Heap, n: nat, i: nat)
    requires Gapped(h.free) && n > 0 && i <= |h.free|
    requires forall j :: 0 <= j < i ==> h.free[j].len < n
    requires i < |h.free| ==> n <= h.free[i].len
    ensures i == |h.free| ==> forall k :: !FreeRun(h, k, n)
    ensures i < |h.free| ==> LowestRun(h, h.free[i].start, n)
  {
    forall k | FreeRun(h, k, n) ensures i < |h.free| && h.free[i].start <= k {
      var m := RunInOneBlock(h, k, n);
      assert i < m ==> h.free[i].End() < h.free[m].start;
    }
    if i < |h.free| {
      var b := h.free[i];
      forall c | b.start <= c < b.start + n ensures Covered(h.free, c) { assert b.Has(c); }
    }
  }

  /** An allocation followed at once by its release changes nothing. */
  lemma AllocateThenRelease(h: Heap, n: nat, k: nat, h': Heap, h'': Heap)
    requires Allocates(h, n, k, h') && Releases(h', k, h'')
    ensures h'' == h
  {
    assert h''.taken == h.taken;
    FreeListIsCanonical(h, h'');
  }

  // ---------------------------------------------------- splicing the free list

  function Splice(bs: seq<Block>, p: nat, c: Block, q: nat): seq<Block>
    requires p <= q <= |bs|
  {
    bs[..p] + [c] + bs[q..]
  }

  lemma SpliceAt(bs: seq<Block>, p: nat, c: Block, q: nat)
    requires p <= q <= |bs|
    ensures var r := Splice(bs, p, c, q);
            && |r| == p + 1 + |bs| - q
            && forall i :: 0 <= i < |r| ==> r[i] == if i < p then bs[i] else if i == p then c else bs[q + i - p - 1]
  {
  }

  /** Replacing blocks `p..q` by `c` where `c` covers those and the new cells `b`. */
  lemma SpliceCovers(bs: seq<Block>, p: nat, c: Block, q: nat, k: int)
    requires p <= q <= |bs|
    ensures Covered(Splice(bs, p, c, q), k) <==>
              c.Has(k) || (exists i :: 0 <= i < |bs| && (i < p || q <= i) && bs[i].Has(k))
  {
    var r := Splice(bs, p, c, q);
    SpliceAt(bs, p, c, q);
    if Covered(r, k) {
      var i :| 0 <= i < |r| && r[i].Has(k);
      if i < p { assert bs[i].Has(k); }
      if i > p { assert bs[q + i - p - 1].Has(k); }
    }
    if c.Has(k) { assert r[p].Has(k); }
    if i :| 0 <= i < |bs| && (i < p || q <= i) && bs[i].Has(k) {
      if i < p { assert r[i].Has(k); } else { assert r[i - q + p + 1].Has(k); }
    }
  }

  /** The free list with block `i` gone. */
  function Drop(bs: seq<Block>, i: nat): seq<Block>
    requires i < |bs|
  {
    bs[..i] + bs[i + 1..]
  }

  lemma DropAt(bs: seq<Block>, i: nat)
    requires i < |bs|
    ensures var r := Drop(bs, i);
            |r| == |bs| - 1 && forall j :: 0 <= j < |r| ==> r[j] == if j < i then bs[j] else bs[j + 1]
  {
  }

  lemma DropCovers(bs: seq<Block>, i: nat, k: int)
    requires i < |bs|
    ensures Covered(Drop(bs, i), k) <==> exists m :: 0 <= m < |bs| && m != i && bs[m].Has(k)
  {
    var r := Drop(bs, i);
    assert forall j :: 0 <= j < |r| ==> r[j] == bs[if j < i then j else j + 1];
    if m :| 0 <= m < |bs| && m != i && bs[m].Has(k) { assert r[if m < i then m else m - 1].Has(k); }
  }

  /** Cells of `b` move from free to taken. */
  lemma MoveToTaken(h: Heap, b: Block, free: seq<Block>)
    requires WellFormed(h) && b.len > 0 && forall k :: b.Has(k) ==> Covered(h.free, k)
    requires Gapped(free) && forall k :: Covered(free, k) <==> Covered(h.free, k) && !b.Has(k)
    ensures WellFormed(Heap(h.total, free, [b] + h.taken))
  {
    var h' := Heap(h.total, free, [b] + h.taken);
    forall k ensures Covered(h'.taken, k) <==> b.Has(k) || Covered(h.taken, k) {
      if b.Has(k) { assert h'.taken[0].Has(k); }
      if i :| 0 <= i < |h.taken| && h.taken[i].Has(k) { assert h'.taken[i + 1].Has(k); }
    }
    forall k | 0 <= k < h.total ensures Covered(h'.free, k) != Covered(h'.taken, k) {}
    WithinFromCover(free, h.free, h.total);
    assert b.Has(b.End() - 1);
    CoveredWithin(h.free, h.total, b.End() - 1);
    forall i | 0 <= i < |h.taken| ensures b.End() <= h.taken[i].start || h.taken[i].End() <= b.start {
      var k := if b.start < h.taken[i].start then h.taken[i].start else b.start;
      if h.taken[i].start < b.End() && b.start < h.taken[i].End() {
        assert b.Has(k) && h.taken[i].Has(k);
        assert Covered(h.taken, k);
        CoveredWithin(h.taken, h.total, k);
        assert false;
      }
    }
    assert Disjoint(h'.taken) by {
      assert forall i :: 0 < i < |h'.taken| ==> h'.taken[i] == h.taken[i - 1];
    }
  }

  lemma WithinFromCover(f: seq<Block>, g: seq<Block>, total: nat)
    requires Gapped(f) && Within(g, total) && forall k :: Covered(f, k) ==> Covered(g, k)
    ensures Within(f, total)
  {
    forall i | 0 <= i < |f| ensures f[i].End() <= total {
      assert f[i].Has(f[i].End() - 1);
      CoveredWithin(g, total, f[i].End() - 1);
    }
  }

  lemma SpliceGapped(bs: seq<Block>, p: nat, c: Block, q: nat)
    requires Gapped(bs) && p <= q <= |bs| && c.len > 0
    requires forall j :: 0 <= j < p ==> bs[j].End() < c.start
    requires forall j :: q <= j < |bs| ==> c.End() < bs[j].start
    ensures Gapped(Splice(bs, p, c, q))
  {
    SpliceAt(bs, p, c, q);
  }

  /** What first fit leaves free of block `i`. */
  function Carved(bs: seq<Block>, i: nat, n: nat): seq<Block>
    requires i < |bs| && n <= bs[i].len
  {
    if n == bs[i].len then Drop(bs, i) else Splice(bs, i, Block(bs[i].start + n, bs[i].len - n), i + 1)
  }

  lemma CarvedIsGapped(bs: seq<Block>, i: nat, n: nat)
    requires Gapped(bs) && i < |bs| && 0 < n <= bs[i].len
    ensures Gapped(Carved(bs, i, n))
  {
    if n == bs[i].len {
      var r := Drop(bs, i);
      assert forall j :: 0 <= j < |r| ==> r[j] == bs[if j < i then j else j + 1];
    } else {
      SpliceGapped(bs, i, Block(bs[i].start + n, bs[i].len - n), i + 1);
    }
  }

  lemma CarvedCovers(bs: seq<Block>, i: nat, n: nat, k: int)
    requires Gapped(bs) && i < |bs| && 0 < n <= bs[i].len
    ensures Covered(Carved(bs, i, n), k) <==> Covered(bs, k) && !Block(bs[i].start, n).Has(k)
  {
    var b := bs[i];
    var rest := Block(b.start + n, b.len - n);
    var elsewhere := exists m :: 0 <= m < |bs| && m != i && bs[m].Has(k);
    if m :| 0 <= m < |bs| && m != i && bs[m].Has(k) {
      assert m < i ==> bs[m].End() < b.start;
      assert i < m ==> b.End() < bs[m].start;
    }
    assert elsewhere ==> !b.Has(k);
    assert Covered(bs, k) <==> b.Has(k) || elsewhere;
    assert Covered(Carved(bs, i, n), k) <==> (n != b.len && rest.Has(k)) || elsewhere by {
      hide Gapped, Drop, Splice, Covered;
      if n == b.len { DropCovers(bs, i, k); } else { SpliceCovers(bs, i, rest, i + 1, k); }
    }
  }

  /** First fit takes the whole block when it fits exactly and its front part,
      leaving the rest free, when it does not. */
  lemma CarveKeepsTiling(h: Heap, i: nat, n: nat)
    requires WellFormed(h) && i < |h.free| && 0 < n <= h.free[i].len
    ensures WellFormed(Heap(h.total, Carved(h.free, i, n), [Block(h.free[i].start, n)] + h.taken))
  {
    var t := Block(h.free[i].start, n);
    forall k | t.Has(k) ensures Covered(h.free, k) { assert h.free[i].Has(k); }
    CarvedIsGapped(h.free, i, n);
    forall k ensures Covered(Carved(h.free, i, n), k) <==> Covered(h.free, k) && !t.Has(k) {
      CarvedCovers(h.free, i, n, k);
    }
    hide Carved, Covered;
    MoveToTaken(h, t, Carved(h.free, i, n));
  }

  // ------------------------------------------------------------------ coalescing

  /** Where a free block starting at `k` belongs: the number of free blocks before it. */
  ghost predicate Slot(bs: seq<Block>, k: nat, i: nat) {
    && i <= |bs|
    && (forall j :: 0 <= j < i ==> bs[j].start < k)
    && (forall j :: i <= j < |bs| ==> k <= bs[j].start)
  }

  predicate JoinsPrev(bs: seq<Block>, b: Block, i: nat) { 0 < i <= |bs| && bs[i - 1].End() == b.start }
  predicate JoinsNext(bs: seq<Block>, b: Block, i: nat) { i < |bs| && b.End() == bs[i].start }

  /** `b` grown over the neighbours it touches. */
  function Joined(bs: seq<Block>, b: Block, i: nat): Block {
    var lo := if JoinsPrev(bs, b, i) then bs[i - 1].start else b.start;
    var hi := if JoinsNext(bs, b, i) then bs[i].End() else b.End();
    Block(lo, if lo <= hi then hi - lo else 0)
  }

  function JoinFrom(bs: seq<Block>, b: Block, i: nat): nat { if JoinsPrev(bs, b, i) then i - 1 else i }
  function JoinTo(bs: seq<Block>, b: Block, i: nat): nat { if JoinsNext(bs, b, i) then i + 1 else i }

  /** `b` put in slot `i` and joined with the neighbours it touches. */
  function Coalesced(bs: seq<Block>, b: Block, i: nat): seq<Block>
    requires i <= |bs|
  {
    Splice(bs, JoinFrom(bs, b, i), Joined(bs, b, i), JoinTo(bs, b, i))
  }

  /** A block whose cells are not free lies between the free blocks of its slot. */
  lemma SlotSeparates(bs: seq<Block>, b: Block, i: nat)
    requires Gapped(bs) && b.len > 0 && Slot(bs, b.start, i) && forall k :: b.Has(k) ==> !Covered(bs, k)
    ensures forall j :: 0 <= j < i ==> bs[j].End() <= b.start
    ensures forall j :: i <= j < |bs| ==> b.End() <= bs[j].start
  {
    forall j | 0 <= j < i ensures bs[j].End() <= b.start {
      if b.start < bs[j].End() { assert bs[j].Has(b.start); assert b.Has(b.start); }
    }
    forall j | i <= j < |bs| ensures b.End() <= bs[j].start {
      if bs[j].start < b.End() { assert bs[j].Has(bs[j].start); assert b.Has(bs[j].start); }
    }
  }

  lemma JoinedExtent(bs: seq<Block>, b: Block, i: nat)
    requires Gapped(bs) && b.len > 0 && i <= |bs|
    requires forall j :: 0 <= j < i ==> bs[j].End() <= b.start
    requires forall j :: i <= j < |bs| ==> b.End() <= bs[j].start
    ensures var c := Joined(bs, b, i); c.start <= b.start && b.End() <= c.End()
    ensures forall j :: 0 <= j < JoinFrom(bs, b, i) ==> bs[j].End() < Joined(bs, b, i).start
    ensures forall j :: JoinTo(bs, b, i) <= j < |bs| ==> Joined(bs, b, i).End() < bs[j].start
  {
    var c := Joined(bs, b, i);
    assert c.End() == if JoinsNext(bs, b, i) then bs[i].End() else b.End();
    forall j | 0 <= j < JoinFrom(bs, b, i) ensures bs[j].End() < c.start {
      if j < i - 1 { assert bs[j].End() < bs[i - 1].start; }
    }
    forall j | JoinTo(bs, b, i) <= j < |bs| ensures c.End() < bs[j].start {
      if i < j { assert bs[i].End() < bs[j].start; }
    }
  }

  lemma CoalescedIsGapped(bs: seq<Block>, b: Block, i: nat)
    requires Gapped(bs) && b.len > 0 && i <= |bs|
    requires forall j :: 0 <= j < i ==> bs[j].End() <= b.start
    requires forall j :: i <= j < |bs| ==> b.End() <= bs[j].start
    ensures Gapped(Coalesced(bs, b, i))
  {
    JoinedExtent(bs, b, i);
    hide Gapped, Joined, Splice;
    SpliceGapped(bs, JoinFrom(bs, b, i), Joined(bs, b, i), JoinTo(bs, b, i));
  }

  lemma CoalescedCovers(bs: seq<Block>, b: Block, i: nat, k: int)
    requires b.len > 0 && i <= |bs|
    ensures Covered(Coalesced(bs, b, i), k) <==> Covered(bs, k) || b.Has(k)
  {
    SpliceCovers(bs, JoinFrom(bs, b, i), Joined(bs, b, i), JoinTo(bs, b, i), k);
    hide Splice;
    assert Joined(bs, b, i).Has(k) <==>
             b.Has(k) || (JoinsPrev(bs, b, i) && bs[i - 1].Has(k)) || (JoinsNext(bs, b, i) && bs[i].Has(k));
  }

  lemma {:induction false} WithoutIsDrop(bs: seq<Block>, j: nat)
    requires DistinctStarts(bs) && j < |bs|
    ensures Without(bs, bs[j].start) == Drop(bs, j)
  {
    if j > 0 {
      assert DistinctStarts(bs[1..]) by { assert forall i :: 0 <= i < |bs| - 1 ==> bs[1..][i] == bs[i + 1]; }
      WithoutIsDrop(bs[1..], j - 1);
      assert bs[1..][j - 1] == bs[j];
      assert Drop(bs, j) == [bs[0]] + Drop(bs[1..], j - 1);
    }
  }

  /** Cells of a taken block are not free, and the block's cells are no other
      taken block's. */
  lemma TakenNotFree(h: Heap, j: nat, k: int)
    requires WellFormed(h) && j < |h.taken| && h.taken[j].Has(k)
    ensures 0 <= k < h.total && !Covered(h.free, k)
    ensures forall m :: 0 <= m < |h.taken| && m != j ==> !h.taken[m].Has(k)
  {
    assert Covered(h.taken, k);
  }

  lemma DropIsDisjoint(bs: seq<Block>, j: nat, total: nat)
    requires Disjoint(bs) && Within(bs, total) && j < |bs|
    ensures Disjoint(Drop(bs, j)) && Within(Drop(bs, j), total)
  {
    var r := Drop(bs, j);
    assert forall m :: 0 <= m < |r| ==> r[m] == bs[if m < j then m else m + 1];
  }

  lemma WithinUnion(f: seq<Block>, g: seq<Block>, b: Block, total: nat)
    requires Gapped(f) && Within(g, total) && forall k :: b.Has(k) ==> k < total
    requires forall k :: Covered(f, k) ==> Covered(g, k) || b.Has(k)
    ensures Within(f, total)
  {
    forall m | 0 <= m < |f| ensures f[m].End() <= total {
      var k := f[m].End() - 1;
      assert f[m].Has(k);
      if Covered(g, k) { CoveredWithin(g, total, k); }
    }
  }

  /** Taking block `j` off the taken list and coalescing it into its slot is a
      release. */
  lemma ReleaseKeepsTiling(h: Heap, j: nat, i: nat)
    requires WellFormed(h) && j < |h.taken| && Slot(h.free, h.taken[j].start, i)
    ensures Releases(h, h.taken[j].start, Heap(h.total, Coalesced(h.free, h.taken[j], i), Drop(h.taken, j)))
  {
    var b := h.taken[j];
    var h' := Heap(h.total, Coalesced(h.free, b, i), Drop(h.taken, j));
    forall k | b.Has(k) ensures 0 <= k < h.total && !Covered(h.free, k) { TakenNotFree(h, j, k); }
    SlotSeparates(h.free, b, i);
    CoalescedIsGapped(h.free, b, i);
    forall k ensures Covered(h'.free, k) <==> Covered(h.free, k) || b.Has(k) { CoalescedCovers(h.free, b, i, k); }
    TakenStartsDiffer(h);
    WithoutIsDrop(h.taken, j);
    DropIsDisjoint(h.taken, j, h.total);
    hide Coalesced, Slot;
    forall k | 0 <= k < h.total ensures Covered(h'.free, k) != Covered(h'.taken, k) {
      DropCovers(h.taken, j, k);
      if b.Has(k) { TakenNotFree(h, j, k); }
    }
    WithinUnion(h'.free, h.free, b, h.total);
  }
}
