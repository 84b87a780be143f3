/** The first-fit allocator over raw memory words. Both of its lists live in the
    managed memory: word 0 of a block's first cell is the address of the next
    block in its list, word 1 its length in cells. */
module MemoryAllocator {
  import opened HeapModel

  const WORD_RANGE: int := 0x1_0000_0000_0000_0000
  const MEM_BLOCK_SIZE := 64
  const SIZE_HEADER := 16

  type Word = x: int | 0 <= x < WORD_RANGE

  /** The heap's words. That each fits 64 bits is kept apart, as the type of the
      array that stores them. */
  type Memory = seq<int>

  /** 64-bit addition of addresses. */
  function Plus(a: Word, d: int): Word { (a + d) % WORD_RANGE }

  lemma PlusInRange(a: Word, d: int)
    requires 0 <= a + d < WORD_RANGE
    ensures Plus(a, d) == a + d
  {
  }

  // ------------------------------------------------------------- header words

  predicate HasHeader(w: Memory, c: int) { 0 <= c && 8 * c + 1 < |w| }

  function Next(w: Memory, c: int): int requires HasHeader(w, c) { w[8 * c] }
  function Length(w: Memory, c: int): int requires HasHeader(w, c) { w[8 * c + 1] }

  function SetNext(w: Memory, c: int, v: int): (r: Memory)
    requires HasHeader(w, c)
    ensures |r| == |w| && (forall d :: HasHeader(w, d) ==> HasHeader(r, d))
    ensures forall d :: HasHeader(w, d) ==> Next(r, d) == (if d == c then v else Next(w, d)) && Length(r, d) == Length(w, d)
  {
    w[8 * c := v]
  }

  function SetLength(w: Memory, c: int, v: int): (r: Memory)
    requires HasHeader(w, c)
    ensures |r| == |w| && (forall d :: HasHeader(w, d) ==> HasHeader(r, d))
    ensures forall d :: HasHeader(w, d) ==> Next(r, d) == Next(w, d) && Length(r, d) == (if d == c then v else Length(w, d))
  {
    w[8 * c + 1 := v]
  }

  function SetHeader(w: Memory, c: int, next: int, len: int): (r: Memory)
    requires HasHeader(w, c)
    ensures |r| == |w| && (forall d :: HasHeader(w, d) ==> HasHeader(r, d))
    ensures forall d :: HasHeader(w, d) ==>
              Next(r, d) == (if d == c then next else Next(w, d)) && Length(r, d) == (if d == c then len else Length(w, d))
  {
    w[8 * c := next][8 * c + 1 := len]
  }

  lemma HeaderRewritten(w: Memory, c: int, next: int, len: int)
    requires HasHeader(w, c)
    ensures SetLength(SetNext(w, c, next), c, len) == SetHeader(w, c, next, len)
    ensures SetNext(SetNext(SetLength(w, c, len), c, 0), c, next) == SetHeader(w, c, next, len)
    ensures SetNext(SetLength(w, c, len), c, next) == SetHeader(w, c, next, len)
  {
  }

  /** Word `x` is payload of block `b`: in its cells, behind its header. */
  predicate Payload(b: Block, x: int) {
    8 * b.start + 2 <= x < 8 * b.End()
  }

  /** Every payload word of the blocks `bs` is the same in both memories. */
  ghost predicate PayloadKept(w: Memory, w': Memory, bs: seq<Block>) {
    |w| == |w'| && forall j, x :: 0 <= j < |bs| && Payload(bs[j], x) && 0 <= x < |w| ==> w'[x] == w[x]
  }

  /** A header at cell `c` overlaps no payload of `bs`. */
  ghost predicate ClearOf(c: int, bs: seq<Block>) {
    forall j :: 0 <= j < |bs| && bs[j].Has(c) ==> c == bs[j].start
  }

  lemma HeaderWriteKeepsPayload(w: Memory, w': Memory, c: int, v: int, u: int, bs: seq<Block>)
    requires PayloadKept(w, w', bs) && HasHeader(w', c) && ClearOf(c, bs)
    ensures PayloadKept(w, SetNext(w', c, v), bs) && PayloadKept(w, SetLength(w', c, u), bs)
    ensures PayloadKept(w, SetHeader(w', c, v, u), bs)
  {
    forall j, x | 0 <= j < |bs| && Payload(bs[j], x) && 0 <= x < |w| ensures x < 8 * c || 8 * c + 1 < x {
      var b := bs[j];
      assert b.Has(c) ==> c == b.start;
    }
  }

  // ------------------------------------------------------- lists in header words

  /** The address of the `i`-th block of a list whose cells start at `base`; the
      null address behind the last one. */
  function LinkTo(base: nat, bs: seq<Block>, i: nat): nat {
    if i < |bs| then CellAddress(base, bs[i].start) else 0
  }

  function CellAddress(base: nat, c: nat): nat { base + 64 * c }

  ghost predicate HeaderIs(w: Memory, c: nat, next: int, len: int) {
    HasHeader(w, c) && Next(w, c) == next && Length(w, c) == len
  }

  /** Walking the header words from `head` visits exactly the blocks `bs`, in
      order, and then meets the null address. */
  ghost predicate Threaded(w: Memory, base: nat, head: int, bs: seq<Block>) {
    && head == LinkTo(base, bs, 0)
    && forall i :: 0 <= i < |bs| ==> HeaderIs(w, bs[i].start, LinkTo(base, bs, i + 1), bs[i].len)
  }

  lemma ThreadedHead(w: Memory, base: nat, head: int, bs: seq<Block>)
    requires Threaded(w, base, head, bs)
    ensures head == LinkTo(base, bs, 0)
    ensures bs != [] ==> HeaderIs(w, bs[0].start, LinkTo(base, bs, 1), bs[0].len)
    ensures bs != [] ==> Threaded(w, base, LinkTo(base, bs, 1), bs[1..])
  {
    if bs != [] {
      forall i | 0 <= i < |bs[1..]|
        ensures HeaderIs(w, bs[1..][i].start, LinkTo(base, bs[1..], i + 1), bs[1..][i].len)
      {
        assert HeaderIs(w, bs[i + 1].start, LinkTo(base, bs, i + 2), bs[i + 1].len);
      }
    }
  }

  /** The words determine the walk: no two block lists fit the same headers. */
  lemma {:induction false} ThreadedUnique(w: Memory, base: nat, head: int, bs: seq<Block>, cs: seq<Block>)
    requires base > 0 && Threaded(w, base, head, bs) && Threaded(w, base, head, cs)
    ensures bs == cs
    decreases |bs|
  {
    hide Threaded, Next, Length, HasHeader;
    ThreadedHead(w, base, head, bs);
    ThreadedHead(w, base, head, cs);
    if bs != [] {
      ThreadedUnique(w, base, LinkTo(base, bs, 1), bs[1..], cs[1..]);
      assert bs == [bs[0]] + bs[1..] && cs == [cs[0]] + cs[1..];
    }
  }

  /** The pointer surgery that replaces blocks `p..q` of a list by `c`. */
  lemma ThreadSplice(w: Memory, w': Memory, base: nat, head: int, bs: seq<Block>, p: nat, c: Block, q: nat)
    requires Threaded(w, base, head, bs) && p <= q <= |bs|
    requires HeaderIs(w', c.start, LinkTo(base, bs, q), c.len)
    requires forall j :: 0 <= j < |bs| && (j < p || q <= j) ==>
               HeaderIs(w', bs[j].start, if j == p - 1 then CellAddress(base, c.start) else LinkTo(base, bs, j + 1), bs[j].len)
    ensures Threaded(w', base, if p == 0 then CellAddress(base, c.start) else head, Splice(bs, p, c, q))
  {
    SpliceAt(bs, p, c, q);
    var r := Splice(bs, p, c, q);
    hide HeaderIs, CellAddress, Splice;
    forall i | 0 <= i < |r| ensures HeaderIs(w', r[i].start, LinkTo(base, r, i + 1), r[i].len) {
      if i < p {
        assert HeaderIs(w', bs[i].start, if i == p - 1 then CellAddress(base, c.start) else LinkTo(base, bs, i + 1), bs[i].len);
      } else if i > p {
        var j := q + i - p - 1;
        assert HeaderIs(w', bs[j].start, if j == p - 1 then CellAddress(base, c.start) else LinkTo(base, bs, j + 1), bs[j].len);
      }
    }
  }

  /** The pointer surgery that bypasses block `i` of a list. */
  lemma ThreadDrop(w: Memory, w': Memory, base: nat, head: int, bs: seq<Block>, i: nat)
    requires Threaded(w, base, head, bs) && i < |bs|
    requires forall j :: 0 <= j < |bs| && j != i ==>
               HeaderIs(w', bs[j].start, if j == i - 1 then LinkTo(base, bs, i + 1) else LinkTo(base, bs, j + 1), bs[j].len)
    ensures Threaded(w', base, if i == 0 then LinkTo(base, bs, 1) else head, Drop(bs, i))
  {
    var r := Drop(bs, i);
    DropAt(bs, i);
    hide HeaderIs, CellAddress, Drop;
    forall k | 0 <= k < |r| ensures HeaderIs(w', r[k].start, LinkTo(base, r, k + 1), r[k].len) {
      var j := if k < i then k else k + 1;
      assert HeaderIs(w', bs[j].start, if j == i - 1 then LinkTo(base, bs, i + 1) else LinkTo(base, bs, j + 1), bs[j].len);
    }
  }

  /** No header lies inside another block. */
  lemma HeadersApart(h: Heap)
    requires WellFormed(h)
    ensures forall i, j :: 0 <= i < |h.free| && 0 <= j < |h.free| && i != j ==> !h.free[j].Has(h.free[i].start)
    ensures forall j :: 0 <= j < |h.taken| ==> ClearOf(h.taken[j].start, h.taken)
    ensures forall i, j :: 0 <= i < |h.taken| && 0 <= j < |h.taken| && i != j ==> h.taken[j].start != h.taken[i].start
    ensures forall i, k :: 0 <= i < |h.free| && h.free[i].Has(k) ==> forall j :: 0 <= j < |h.taken| ==> !h.taken[j].Has(k)
    ensures forall i :: 0 <= i < |h.free| ==> h.free[i].Has(h.free[i].start)
    ensures forall i :: 0 <= i < |h.taken| ==> h.taken[i].Has(h.taken[i].start)
  {
    forall i, j | 0 <= i < |h.free| && 0 <= j < |h.free| && i != j ensures !h.free[j].Has(h.free[i].start) {
      if i < j { assert h.free[i].End() < h.free[j].start; } else { assert h.free[j].End() < h.free[i].start; }
    }
    forall i, k | 0 <= i < |h.free| && h.free[i].Has(k) ensures forall j :: 0 <= j < |h.taken| ==> !h.taken[j].Has(k) {
      assert Covered(h.free, k);
      forall j | 0 <= j < |h.taken| ensures !h.taken[j].Has(k) {
        if h.taken[j].Has(k) { TakenNotFree(h, j, k); }
      }
    }
  }

  /** Memory `w` with these two list heads holds the heap `h`. */
  ghost predicate Holds(w: Memory, base: nat, headFree: int, headTaken: int, h: Heap) {
    && 0 < base && 0 < h.total && CellAddress(base, h.total) < WORD_RANGE && |w| == 8 * h.total
    && WellFormed(h)
    && Threaded(w, base, headFree, h.free)
    && Threaded(w, base, headTaken, h.taken)
  }

  /** The header of a linked block, its address and its extent. */
  lemma FreeHeader(w: Memory, base: nat, headFree: int, headTaken: int, h: Heap, i: nat)
    requires Holds(w, base, headFree, headTaken, h) && i < |h.free|
    ensures var b := h.free[i];
            && HeaderIs(w, b.start, LinkTo(base, h.free, i + 1), b.len) && b.len > 0 && b.End() <= h.total
            && 0 < LinkTo(base, h.free, i) == CellAddress(base, b.start) < CellAddress(base, b.End()) < WORD_RANGE
            && forall c :: b.Has(c) ==> HasHeader(w, c)
  {
  }

  lemma TakenHeader(w: Memory, base: nat, headFree: int, headTaken: int, h: Heap, j: nat)
    requires Holds(w, base, headFree, headTaken, h) && j < |h.taken|
    ensures var b := h.taken[j];
            && HeaderIs(w, b.start, LinkTo(base, h.taken, j + 1), b.len) && b.len > 0 && b.End() <= h.total
            && 0 < LinkTo(base, h.taken, j) == CellAddress(base, b.start) < CellAddress(base, b.End()) < WORD_RANGE
  {
  }

  // ----------------------------------------------------------------- allocation

  /** A write to `next` of cell `c` unless `c` is absent. */
  function MaybeNext(w: Memory, present: bool, c: int, v: int): (r: Memory)
    requires present ==> HasHeader(w, c)
    ensures |r| == |w| && (forall d :: HasHeader(w, d) ==> HasHeader(r, d))
    ensures forall d :: HasHeader(w, d) ==>
              Next(r, d) == (if present && d == c then v else Next(w, d)) && Length(r, d) == Length(w, d)
  {
    if present then SetNext(w, c, v) else w
  }

  function MaybeHeader(w: Memory, present: bool, c: int, next: int, len: int): (r: Memory)
    requires present ==> HasHeader(w, c)
    ensures |r| == |w| && (forall d :: HasHeader(w, d) ==> HasHeader(r, d))
    ensures forall d :: HasHeader(w, d) ==>
              Next(r, d) == (if present && d == c then next else Next(w, d)) &&
              Length(r, d) == (if present && d == c then len else Length(w, d))
  {
    if present then SetHeader(w, c, next, len) else w
  }

  lemma MaybeKeepsPayload(w: Memory, w': Memory, present: bool, c: int, v: int, u: int, bs: seq<Block>)
    requires PayloadKept(w, w', bs) && (present ==> HasHeader(w', c) && ClearOf(c, bs))
    ensures PayloadKept(w, MaybeNext(w', present, c, v), bs)
    ensures PayloadKept(w, MaybeHeader(w', present, c, v, u), bs)
  {
    if present { HeaderWriteKeepsPayload(w, w', c, v, u, bs); }
  }

  /** No two blocks start at the same cell, and no header is live payload. */
  lemma StartsApart(h: Heap)
    requires WellFormed(h)
    ensures forall i, m :: 0 <= i < |h.free| && 0 <= m < |h.free| && i != m ==> h.free[i].start != h.free[m].start
    ensures forall i, m :: 0 <= i < |h.taken| && 0 <= m < |h.taken| && i != m ==> h.taken[i].start != h.taken[m].start
    ensures forall i, m :: 0 <= i < |h.free| && 0 <= m < |h.taken| ==> h.free[i].start != h.taken[m].start
    ensures forall i :: 0 <= i < |h.free| ==> ClearOf(h.free[i].start, h.taken)
    ensures forall m :: 0 <= m < |h.taken| ==> ClearOf(h.taken[m].start, h.taken)
  {
    hide WellFormed;
    HeadersApart(h);
  }

  /** Payloads of live blocks never share a word. */
  lemma PayloadsDisjoint(h: Heap, i: nat, j: nat, x: int)
    requires WellFormed(h) && i < |h.taken| && j < |h.taken| && Payload(h.taken[i], x) && Payload(h.taken[j], x)
    ensures i == j
  {
    assert h.taken[i].Has(x / 8) && h.taken[j].Has(x / 8);
    TakenNotFree(h, i, x / 8);
  }

  lemma WriteKeepsThread(w: Memory, base: nat, head: int, bs: seq<Block>, taken: seq<Block>, j: nat, x: int, v: int)
    requires Threaded(w, base, head, bs) && j < |taken| && Payload(taken[j], x) && 0 <= x < |w|
    requires forall i :: 0 <= i < |bs| ==> ClearOf(bs[i].start, taken)
    ensures Threaded(w[x := v], base, head, bs)
  {
    hide ClearOf, Payload;
    forall i | 0 <= i < |bs| ensures HeaderIs(w[x := v], bs[i].start, LinkTo(base, bs, i + 1), bs[i].len) {
      assert HeaderIs(w, bs[i].start, LinkTo(base, bs, i + 1), bs[i].len);
      HeaderMissesPayload(bs[i].start, taken, j, x);
    }
  }

  /** Whatever a client stores in the payload of a live block, the allocator's
      lists stay intact. */
  lemma ClientWritesAreHarmless(w: Memory, base: nat, headFree: int, headTaken: int, h: Heap, j: nat, x: int, v: int)
    requires Holds(w, base, headFree, headTaken, h) && j < |h.taken| && Payload(h.taken[j], x)
    ensures 0 <= x < |w| && Holds(w[x := v], base, headFree, headTaken, h)
  {
    hide WellFormed;
    TakenHeader(w, base, headFree, headTaken, h, j);
    StartsApart(h);
    WriteKeepsThread(w, base, headFree, h.free, h.taken, j, x, v);
    WriteKeepsThread(w, base, headTaken, h.taken, h.taken, j, x, v);
  }

  lemma HeaderMissesPayload(c: int, bs: seq<Block>, j: nat, x: int)
    requires ClearOf(c, bs) && j < |bs| && Payload(bs[j], x)
    ensures x < 8 * c || 8 * c + 1 < x
  {
    var b := bs[j];
    assert b.Has(c) ==> c == b.start;
  }

  // ------------------------------------------------------------ requests in bytes

  /** The cells requested for `size` payload bytes, in 64-bit arithmetic. */
  function BlocksFor(size: Word): Word {
    Plus(Plus(Plus(SIZE_HEADER, size), MEM_BLOCK_SIZE), -1) / MEM_BLOCK_SIZE
  }

  /** The payload bytes of a block of `n` cells. */
  function PayloadBytes(n: int): int { MEM_BLOCK_SIZE * n - SIZE_HEADER }

  /** Sizes up to the last 79 ask for the smallest number of cells that is enough.
      Above, the sum overflows: the next 64 sizes ask for no cell at all and the
      last 15 for one, which is too small for them. */
  lemma RequestedCells(size: Word)
    ensures size + 79 < WORD_RANGE ==>
              BlocksFor(size) > 0 && PayloadBytes(BlocksFor(size) - 1) < size <= PayloadBytes(BlocksFor(size))
    ensures size + 15 < WORD_RANGE <= size + 79 ==> BlocksFor(size) == 0
    ensures WORD_RANGE <= size + 15 ==> BlocksFor(size) == 1 && PayloadBytes(1) < size
  {
  }

  // ----------------------------------------------------------------- allocation

  /** What the carving of `n` cells off free block `i` works with. */
  ghost predicate Carving(w: Memory, base: nat, headFree: int, headTaken: int, h: Heap, i: nat, n: int) {
    && Holds(w, base, headFree, headTaken, h) && i < |h.free| && 0 < n <= h.free[i].len
    && HasHeader(w, h.free[i].start) && (n < h.free[i].len ==> HasHeader(w, h.free[i].start + n))
    && (i > 0 ==> HasHeader(w, h.free[i - 1].start))
  }

  /** The address that takes the place of block `i` in the free list. */
  ghost function Successor(base: nat, h: Heap, i: nat, n: int): nat
    requires i < |h.free| && n > 0
  {
    if n < h.free[i].len then CellAddress(base, h.free[i].start + n) else LinkTo(base, h.free, i + 1)
  }

  /** Memory after carving `n` cells off free block `i` and pushing them on the
      taken list. */
  ghost function TakeWords(w: Memory, base: nat, headFree: int, headTaken: int, h: Heap, i: nat, n: int): Memory
    requires Carving(w, base, headFree, headTaken, h, i, n)
  {
    var b := h.free[i];
    var w1 := MaybeHeader(w, n < b.len, b.start + n, LinkTo(base, h.free, i + 1), b.len - n);
    var w2 := MaybeNext(w1, i > 0, if i > 0 then h.free[i - 1].start else 0, Successor(base, h, i, n));
    SetHeader(w2, b.start, headTaken, n)
  }

  lemma CarvingReady(w: Memory, base: nat, headFree: int, headTaken: int, h: Heap, i: nat, n: int)
    requires Holds(w, base, headFree, headTaken, h) && i < |h.free| && 0 < n <= h.free[i].len
    ensures Carving(w, base, headFree, headTaken, h, i, n)
  {
    FreeHeader(w, base, headFree, headTaken, h, i);
    assert h.free[i].Has(h.free[i].start) && (n < h.free[i].len ==> h.free[i].Has(h.free[i].start + n));
    if i > 0 { FreeHeader(w, base, headFree, headTaken, h, i - 1); }
    if i + 1 < |h.free| { FreeHeader(w, base, headFree, headTaken, h, i + 1); }
  }

  /** The three headers a carving writes overlap no live payload and no other
      block's header. */
  lemma CarvingClear(w: Memory, base: nat, headFree: int, headTaken: int, h: Heap, i: nat, n: int)
    requires Carving(w, base, headFree, headTaken, h, i, n)
    ensures var b := h.free[i];
            && ClearOf(b.start, h.taken) && (n < b.len ==> ClearOf(b.start + n, h.taken))
            && (i > 0 ==> ClearOf(h.free[i - 1].start, h.taken))
            && (i > 0 ==> h.free[i - 1].start < b.start)
    ensures forall j :: 0 <= j < |h.free| && j != i ==> !h.free[i].Has(h.free[j].start)
    ensures forall j :: 0 <= j < |h.free| && j != i - 1 && i > 0 ==> h.free[j].start != h.free[i - 1].start
    ensures forall j :: 0 <= j < |h.taken| ==>
              !h.free[i].Has(h.taken[j].start) && (i > 0 ==> h.taken[j].start != h.free[i - 1].start)
  {
    var b := h.free[i];
    HeadersApart(h);
    assert b.Has(b.start) && (n < b.len ==> b.Has(b.start + n));
    assert i > 0 ==> h.free[i - 1].Has(h.free[i - 1].start);
    forall j | 0 <= j < |h.free| && j != i - 1 && i > 0 ensures h.free[j].start != h.free[i - 1].start {
      assert !h.free[j].Has(h.free[i - 1].start) && h.free[j].Has(h.free[j].start);
    }
    forall j | 0 <= j < |h.taken|
      ensures !b.Has(h.taken[j].start) && (i > 0 ==> h.taken[j].start != h.free[i - 1].start)
    {
      assert h.taken[j].Has(h.taken[j].start);
    }
  }

  lemma TakePayload(w: Memory, base: nat, headFree: int, headTaken: int, h: Heap, i: nat, n: int)
    requires Carving(w, base, headFree, headTaken, h, i, n)
    ensures PayloadKept(w, TakeWords(w, base, headFree, headTaken, h, i, n), h.taken)
  {
    hide Holds, WellFormed, PayloadKept, ClearOf, SetHeader, MaybeHeader, MaybeNext, HasHeader, LinkTo, Successor;
    var b := h.free[i];
    CarvingClear(w, base, headFree, headTaken, h, i, n);
    KeptByItself(w, h.taken);
    var w1 := MaybeHeader(w, n < b.len, b.start + n, LinkTo(base, h.free, i + 1), b.len - n);
    MaybeKeepsPayload(w, w, n < b.len, b.start + n, LinkTo(base, h.free, i + 1), b.len - n, h.taken);
    MaybeKeepsPayload(w, w1, i > 0, if i > 0 then h.free[i - 1].start else 0, Successor(base, h, i, n), 0, h.taken);
    var w2 := MaybeNext(w1, i > 0, if i > 0 then h.free[i - 1].start else 0, Successor(base, h, i, n));
    HeaderWriteKeepsPayload(w, w2, b.start, headTaken, n, h.taken);
  }

  lemma KeptByItself(w: Memory, bs: seq<Block>)
    ensures PayloadKept(w, w, bs)
  {
  }

  /** Header for header, the memory after a carving. */
  lemma CarvedHeader(w: Memory, base: nat, headFree: int, headTaken: int, h: Heap, i: nat, n: int, c: int)
    requires Carving(w, base, headFree, headTaken, h, i, n) && HasHeader(w, c)
    ensures var b, w' := h.free[i], TakeWords(w, base, headFree, headTaken, h, i, n);
            && HasHeader(w', c)
            && Next(w', c) == (if c == b.start then headTaken
                               else if i > 0 && c == h.free[i - 1].start then Successor(base, h, i, n)
                               else if n < b.len && c == b.start + n then LinkTo(base, h.free, i + 1)
                               else Next(w, c))
            && Length(w', c) == (if c == b.start then n else if n < b.len && c == b.start + n then b.len - n else Length(w, c))
  {
    hide Holds, SetHeader, MaybeHeader, MaybeNext, HasHeader, LinkTo, Successor, Next, Length;
  }

  /** The free list's headers after a carving, but for block `i`. */
  lemma CarvedNeighbours(w: Memory, base: nat, headFree: int, headTaken: int, h: Heap, i: nat, n: int)
    requires Carving(w, base, headFree, headTaken, h, i, n)
    ensures var w' := TakeWords(w, base, headFree, headTaken, h, i, n);
            forall j :: 0 <= j < |h.free| && j != i ==>
              HeaderIs(w', h.free[j].start, if j == i - 1 then Successor(base, h, i, n) else LinkTo(base, h.free, j + 1), h.free[j].len)
  {
    hide WellFormed, TakeWords, Next, Length, HasHeader, ClearOf, CellAddress, Successor;
    CarvingClear(w, base, headFree, headTaken, h, i, n);
    forall j | 0 <= j < |h.free| && j != i
      ensures HeaderIs(TakeWords(w, base, headFree, headTaken, h, i, n), h.free[j].start,
                       if j == i - 1 then Successor(base, h, i, n) else LinkTo(base, h.free, j + 1), h.free[j].len)
    {
      assert HeaderIs(w, h.free[j].start, LinkTo(base, h.free, j + 1), h.free[j].len);
      CarvedHeader(w, base, headFree, headTaken, h, i, n, h.free[j].start);
    }
  }

  lemma SplitFreeList(w: Memory, base: nat, headFree: int, headTaken: int, h: Heap, i: nat, n: int)
    requires Carving(w, base, headFree, headTaken, h, i, n) && n < h.free[i].len
    ensures Threaded(TakeWords(w, base, headFree, headTaken, h, i, n), base,
                     if i > 0 then headFree else Successor(base, h, i, n), Carved(h.free, i, n))
  {
    hide WellFormed, TakeWords, Next, Length, HasHeader, Threaded, Splice, ClearOf;
    var b := h.free[i];
    CarvingClear(w, base, headFree, headTaken, h, i, n);
    CarvedNeighbours(w, base, headFree, headTaken, h, i, n);
    CarvedHeader(w, base, headFree, headTaken, h, i, n, b.start + n);
    ThreadSplice(w, TakeWords(w, base, headFree, headTaken, h, i, n), base, headFree, h.free, i, Block(b.start + n, b.len - n), i + 1);
  }

  lemma ExactFreeList(w: Memory, base: nat, headFree: int, headTaken: int, h: Heap, i: nat, n: int)
    requires Carving(w, base, headFree, headTaken, h, i, n) && n == h.free[i].len
    ensures Threaded(TakeWords(w, base, headFree, headTaken, h, i, n), base,
                     if i > 0 then headFree else Successor(base, h, i, n), Carved(h.free, i, n))
  {
    hide WellFormed, TakeWords, Next, Length, HasHeader, Threaded, Drop, CellAddress;
    CarvedNeighbours(w, base, headFree, headTaken, h, i, n);
    ThreadDrop(w, TakeWords(w, base, headFree, headTaken, h, i, n), base, headFree, h.free, i);
  }

  lemma TakeFreeList(w: Memory, base: nat, headFree: int, headTaken: int, h: Heap, i: nat, n: int)
    requires Carving(w, base, headFree, headTaken, h, i, n)
    ensures Threaded(TakeWords(w, base, headFree, headTaken, h, i, n), base,
                     if i > 0 then headFree else Successor(base, h, i, n), Carved(h.free, i, n))
  {
    hide Holds, HasHeader, TakeWords, Threaded, Carved;
    if n < h.free[i].len {
      SplitFreeList(w, base, headFree, headTaken, h, i, n);
    } else {
      ExactFreeList(w, base, headFree, headTaken, h, i, n);
    }
  }

  lemma TakeTakenList(w: Memory, base: nat, headFree: int, headTaken: int, h: Heap, i: nat, n: int)
    requires Carving(w, base, headFree, headTaken, h, i, n)
    ensures Threaded(TakeWords(w, base, headFree, headTaken, h, i, n), base,
                     CellAddress(base, h.free[i].start), [Block(h.free[i].start, n)] + h.taken)
  {
    hide WellFormed, TakeWords, Next, Length, HasHeader, ClearOf, CellAddress, LinkTo, Successor;
    var b, w' := h.free[i], TakeWords(w, base, headFree, headTaken, h, i, n);
    CarvingClear(w, base, headFree, headTaken, h, i, n);
    forall j | 0 <= j < |h.taken| ensures HeaderIs(w', h.taken[j].start, LinkTo(base, h.taken, j + 1), h.taken[j].len) {
      assert HeaderIs(w, h.taken[j].start, LinkTo(base, h.taken, j + 1), h.taken[j].len);
      CarvedHeader(w, base, headFree, headTaken, h, i, n, h.taken[j].start);
    }
    CarvedHeader(w, base, headFree, headTaken, h, i, n, b.start);
    assert [Block(b.start, n)] + h.taken == Splice(h.taken, 0, Block(b.start, n), 0);
    ThreadSplice(w, w', base, headTaken, h.taken, 0, Block(b.start, n), 0);
  }

  /** Carving keeps the memory a faithful picture of the heap and writes no
      payload word of a live block. */
  lemma TakeRewires(w: Memory, base: nat, headFree: int, headTaken: int, h: Heap, i: nat, n: int)
    requires Holds(w, base, headFree, headTaken, h) && i < |h.free| && 0 < n <= h.free[i].len
    ensures Carving(w, base, headFree, headTaken, h, i, n)
    ensures var b, w' := h.free[i], TakeWords(w, base, headFree, headTaken, h, i, n);
            && Holds(w', base, if i > 0 then headFree else Successor(base, h, i, n), CellAddress(base, b.start),
                     Heap(h.total, Carved(h.free, i, n), [Block(b.start, n)] + h.taken))
            && PayloadKept(w, w', h.taken)
  {
    hide WellFormed, Threaded, HeaderIs, PayloadKept;
    CarvingReady(w, base, headFree, headTaken, h, i, n);
    TakePayload(w, base, headFree, headTaken, h, i, n);
    TakeFreeList(w, base, headFree, headTaken, h, i, n);
    TakeTakenList(w, base, headFree, headTaken, h, i, n);
    CarveKeepsTiling(h, i, n);
  }

  // -------------------------------------------------------------------- release

  /** What releasing taken block `j` into slot `i` of the free list works with. */
  ghost predicate Releasing(w: Memory, base: nat, headFree: int, headTaken: int, h: Heap, j: nat, i: nat) {
    && Holds(w, base, headFree, headTaken, h) && j < |h.taken| && i <= |h.free| && Slot(h.free, h.taken[j].start, i)
    && HeaderIs(w, h.taken[j].start, LinkTo(base, h.taken, j + 1), h.taken[j].len)
    && (j > 0 ==> HasHeader(w, h.taken[j - 1].start))
    && (i > 0 ==> HeaderIs(w, h.free[i - 1].start, LinkTo(base, h.free, i), h.free[i - 1].len))
    && (i < |h.free| ==> HeaderIs(w, h.free[i].start, LinkTo(base, h.free, i + 1), h.free[i].len))
  }

  /** The cell and length of the block once joined to the one before it. */
  function GrownCell(h: Heap, b: Block, i: nat): nat { if JoinsPrev(h.free, b, i) then h.free[i - 1].start else b.start }
  function GrownLength(h: Heap, b: Block, i: nat): nat { if JoinsPrev(h.free, b, i) then h.free[i - 1].len + b.len else b.len }

  /** Memory after taking block `j` off the taken list. */
  ghost function UnlinkWords(w: Memory, base: nat, h: Heap, j: nat): Memory
    requires j < |h.taken| && HasHeader(w, h.taken[j].start) && (j > 0 ==> HasHeader(w, h.taken[j - 1].start))
  {
    SetNext(MaybeNext(w, j > 0, if j > 0 then h.taken[j - 1].start else 0, LinkTo(base, h.taken, j + 1)), h.taken[j].start, 0)
  }

  /** ... and linking or joining it behind the block before its slot ... */
  ghost function JoinPrevWords(w: Memory, base: nat, h: Heap, b: Block, i: nat): Memory
    requires i <= |h.free| && HasHeader(w, b.start) && (i > 0 ==> HasHeader(w, h.free[i - 1].start))
  {
    if i == 0 then w
    else if JoinsPrev(h.free, b, i) then SetLength(w, h.free[i - 1].start, h.free[i - 1].len + b.len)
    else SetNext(SetNext(w, b.start, LinkTo(base, h.free, i)), h.free[i - 1].start, CellAddress(base, b.start))
  }

  /** ... and linking or joining the block behind it. */
  ghost function JoinNextWords(w: Memory, base: nat, h: Heap, b: Block, i: nat): Memory
    requires i <= |h.free| && HasHeader(w, GrownCell(h, b, i))
  {
    if i == |h.free| then w
    else if JoinsNext(h.free, b, i) then
      SetHeader(w, GrownCell(h, b, i), LinkTo(base, h.free, i + 1), GrownLength(h, b, i) + h.free[i].len)
    else SetNext(w, GrownCell(h, b, i), LinkTo(base, h.free, i))
  }

  ghost function ReleaseWords(w: Memory, base: nat, headFree: int, headTaken: int, h: Heap, j: nat, i: nat): Memory
    requires Releasing(w, base, headFree, headTaken, h, j, i)
  {
    var b := h.taken[j];
    JoinNextWords(JoinPrevWords(UnlinkWords(w, base, h, j), base, h, b, i), base, h, b, i)
  }

  lemma ReleasingReady(w: Memory, base: nat, headFree: int, headTaken: int, h: Heap, j: nat, i: nat)
    requires Holds(w, base, headFree, headTaken, h) && j < |h.taken| && Slot(h.free, h.taken[j].start, i)
    ensures Releasing(w, base, headFree, headTaken, h, j, i)
  {
    TakenHeader(w, base, headFree, headTaken, h, j);
    if j > 0 { TakenHeader(w, base, headFree, headTaken, h, j - 1); }
    if i > 0 { FreeHeader(w, base, headFree, headTaken, h, i - 1); }
    if i < |h.free| { FreeHeader(w, base, headFree, headTaken, h, i); }
  }

  lemma ClearOfFewer(c: int, bs: seq<Block>, j: nat)
    requires ClearOf(c, bs) && j < |bs|
    ensures ClearOf(c, Drop(bs, j))
  {
    DropAt(bs, j);
  }

  /** The headers a release writes overlap no payload that stays live and no
      other block's header. */
  lemma ReleasingClear(w: Memory, base: nat, headFree: int, headTaken: int, h: Heap, j: nat, i: nat)
    requires Releasing(w, base, headFree, headTaken, h, j, i)
    ensures var b, rest := h.taken[j], Drop(h.taken, j);
            && ClearOf(b.start, rest)
            && (i > 0 ==> ClearOf(h.free[i - 1].start, rest))
            && (j > 0 ==> ClearOf(h.taken[j - 1].start, rest))
    ensures forall m :: 0 <= m < |h.taken| && m != j ==> h.taken[m].start != h.taken[j].start
    ensures forall m :: 0 <= m < |h.taken| && m != j - 1 && j > 0 ==> h.taken[m].start != h.taken[j - 1].start
    ensures forall m :: 0 <= m < |h.taken| && i > 0 ==> h.taken[m].start != h.free[i - 1].start
    ensures forall m :: 0 <= m < |h.free| ==> h.free[m].start != h.taken[j].start && (j > 0 ==> h.free[m].start != h.taken[j - 1].start)
    ensures forall m :: 0 <= m < |h.free| && m != i - 1 && i > 0 ==> h.free[m].start != h.free[i - 1].start
  {
    hide WellFormed, Threaded, HeaderIs, ClearOf, Drop, Slot;
    StartsApart(h);
    ClearOfFewer(h.taken[j].start, h.taken, j);
    if i > 0 { ClearOfFewer(h.free[i - 1].start, h.taken, j); }
    if j > 0 { ClearOfFewer(h.taken[j - 1].start, h.taken, j); }
  }

  /** Header for header, the memory after a release. */
  lemma ReleasedHeader(w: Memory, base: nat, headFree: int, headTaken: int, h: Heap, j: nat, i: nat, d: int)
    requires Releasing(w, base, headFree, headTaken, h, j, i) && HasHeader(w, d)
    ensures var b, w' := h.taken[j], ReleaseWords(w, base, headFree, headTaken, h, j, i);
            var c, jp := Joined(h.free, b, i), JoinsPrev(h.free, b, i);
            && HasHeader(w', d)
            && (d == c.start ==> Next(w', d) == LinkTo(base, h.free, JoinTo(h.free, b, i)) && Length(w', d) == c.len)
            && (d != c.start ==> Length(w', d) == Length(w, d))
            && (d != c.start && i > 0 && !jp && d == h.free[i - 1].start ==> Next(w', d) == CellAddress(base, b.start))
            && (d != b.start && (i > 0 ==> d != h.free[i - 1].start) ==>
                  Next(w', d) == if j > 0 && d == h.taken[j - 1].start then LinkTo(base, h.taken, j + 1) else Next(w, d))
  {
    hide Holds, SetHeader, SetNext, SetLength, MaybeNext, HasHeader, Next, Length, CellAddress, ClearOf;
    ReleasingClear(w, base, headFree, headTaken, h, j, i);
  }

  lemma ReleasePayload(w: Memory, base: nat, headFree: int, headTaken: int, h: Heap, j: nat, i: nat)
    requires Releasing(w, base, headFree, headTaken, h, j, i)
    ensures PayloadKept(w, ReleaseWords(w, base, headFree, headTaken, h, j, i), Drop(h.taken, j))
  {
    hide Holds, WellFormed, PayloadKept, ClearOf, SetHeader, SetNext, SetLength, MaybeNext, HasHeader, LinkTo, CellAddress, Slot, Drop;
    var b, rest := h.taken[j], Drop(h.taken, j);
    ReleasingClear(w, base, headFree, headTaken, h, j, i);
    KeptByItself(w, rest);
    MaybeKeepsPayload(w, w, j > 0, if j > 0 then h.taken[j - 1].start else 0, LinkTo(base, h.taken, j + 1), 0, rest);
    var w1 := MaybeNext(w, j > 0, if j > 0 then h.taken[j - 1].start else 0, LinkTo(base, h.taken, j + 1));
    HeaderWriteKeepsPayload(w, w1, b.start, 0, 0, rest);
    var w2 := UnlinkWords(w, base, h, j);
    JoinPrevPayload(w, w2, base, h, b, i, rest);
    var w3 := JoinPrevWords(w2, base, h, b, i);
    HeaderWriteKeepsPayload(w, w3, GrownCell(h, b, i), LinkTo(base, h.free, i), 0, rest);
    if i < |h.free| {
      HeaderWriteKeepsPayload(w, w3, GrownCell(h, b, i), LinkTo(base, h.free, i + 1), GrownLength(h, b, i) + h.free[i].len, rest);
    }
  }

  lemma JoinPrevPayload(w: Memory, w': Memory, base: nat, h: Heap, b: Block, i: nat, rest: seq<Block>)
    requires PayloadKept(w, w', rest) && i <= |h.free| && HasHeader(w', b.start) && (i > 0 ==> HasHeader(w', h.free[i - 1].start))
    requires ClearOf(b.start, rest) && (i > 0 ==> ClearOf(h.free[i - 1].start, rest))
    ensures PayloadKept(w, JoinPrevWords(w', base, h, b, i), rest)
  {
    hide PayloadKept, ClearOf, SetNext, SetLength, HasHeader, LinkTo, CellAddress;
    if i > 0 {
      HeaderWriteKeepsPayload(w, w', h.free[i - 1].start, 0, h.free[i - 1].len + b.len, rest);
      HeaderWriteKeepsPayload(w, w', b.start, LinkTo(base, h.free, i), 0, rest);
      HeaderWriteKeepsPayload(w, SetNext(w', b.start, LinkTo(base, h.free, i)), h.free[i - 1].start, CellAddress(base, b.start), 0, rest);
    }
  }

  lemma ReleaseTakenList(w: Memory, base: nat, headFree: int, headTaken: int, h: Heap, j: nat, i: nat)
    requires Releasing(w, base, headFree, headTaken, h, j, i)
    ensures Threaded(ReleaseWords(w, base, headFree, headTaken, h, j, i), base,
                     if j == 0 then LinkTo(base, h.taken, 1) else headTaken, Drop(h.taken, j))
  {
    hide WellFormed, ReleaseWords, Next, Length, HasHeader, ClearOf, CellAddress, LinkTo, Drop, Slot;
    var w' := ReleaseWords(w, base, headFree, headTaken, h, j, i);
    ReleasingClear(w, base, headFree, headTaken, h, j, i);
    forall m | 0 <= m < |h.taken| && m != j
      ensures HeaderIs(w', h.taken[m].start, if m == j - 1 then LinkTo(base, h.taken, j + 1) else LinkTo(base, h.taken, m + 1), h.taken[m].len)
    {
      assert HeaderIs(w, h.taken[m].start, LinkTo(base, h.taken, m + 1), h.taken[m].len);
      ReleasedHeader(w, base, headFree, headTaken, h, j, i, h.taken[m].start);
    }
    ThreadDrop(w, w', base, headTaken, h.taken, j);
  }

  lemma ReleaseFreeList(w: Memory, base: nat, headFree: int, headTaken: int, h: Heap, j: nat, i: nat)
    requires Releasing(w, base, headFree, headTaken, h, j, i)
    ensures Threaded(ReleaseWords(w, base, headFree, headTaken, h, j, i), base,
                     if i == 0 then CellAddress(base, h.taken[j].start) else headFree, Coalesced(h.free, h.taken[j], i))
  {
    hide WellFormed, ReleaseWords, Next, Length, HasHeader, ClearOf, CellAddress, Splice, Slot;
    var b, w' := h.taken[j], ReleaseWords(w, base, headFree, headTaken, h, j, i);
    var p, c, q := JoinFrom(h.free, b, i), Joined(h.free, b, i), JoinTo(h.free, b, i);
    ReleasingClear(w, base, headFree, headTaken, h, j, i);
    SlotBounds(h, j, i);
    forall m: int | 0 <= m < |h.free| && (m < p || q <= m)
      ensures HeaderIs(w', h.free[m].start, if m + 1 == p then CellAddress(base, c.start) else LinkTo(base, h.free, m + 1), h.free[m].len)
    {
      assert HeaderIs(w, h.free[m].start, LinkTo(base, h.free, m + 1), h.free[m].len);
      ReleasedHeader(w, base, headFree, headTaken, h, j, i, h.free[m].start);
    }
    ReleasedHeader(w, base, headFree, headTaken, h, j, i, c.start);
    ThreadSplice(w, w', base, headFree, h.free, p, c, q);
  }

  lemma SlotBounds(h: Heap, j: nat, i: nat)
    requires j < |h.taken| && Slot(h.free, h.taken[j].start, i)
    ensures i <= |h.free| && JoinFrom(h.free, h.taken[j], i) <= JoinTo(h.free, h.taken[j], i) <= |h.free|
  {
  }

  /** Releasing keeps the memory a faithful picture of the heap and writes no
      payload word of a block that stays live. */
  lemma ReleaseRewires(w: Memory, base: nat, headFree: int, headTaken: int, h: Heap, j: nat, i: nat)
    requires Holds(w, base, headFree, headTaken, h) && j < |h.taken| && Slot(h.free, h.taken[j].start, i)
    ensures Releasing(w, base, headFree, headTaken, h, j, i)
    ensures var b, w' := h.taken[j], ReleaseWords(w, base, headFree, headTaken, h, j, i);
            var h' := Heap(h.total, Coalesced(h.free, b, i), Drop(h.taken, j));
            && Holds(w', base, if i == 0 then CellAddress(base, b.start) else headFree,
                     if j == 0 then LinkTo(base, h.taken, 1) else headTaken, h')
            && Releases(h, b.start, h')
            && PayloadKept(w, w', Drop(h.taken, j))
  {
    hide WellFormed, Threaded, HeaderIs, PayloadKept, Slot, Coalesced, Drop, CellAddress, LinkTo;
    ReleasingReady(w, base, headFree, headTaken, h, j, i);
    ReleasePayload(w, base, headFree, headTaken, h, j, i);
    ReleaseTakenList(w, base, headFree, headTaken, h, j, i);
    ReleaseFreeList(w, base, headFree, headTaken, h, j, i);
    ReleaseKeepsTiling(h, j, i);
  }

  class Allocator {
    const base: Word
    const total: nat
    const mem: array<Word>
    var initialized: bool
    var headFree: Word
    var headTaken: Word
    ghost var free: seq<Block>
    ghost var taken: seq<Block>

    ghost function View(): Heap
      reads this
    {
      Heap(total, free, taken)
    }

    ghost function Words(): Memory
      reads mem
    {
      mem[..]
    }

    ghost predicate Valid()
      reads this, mem
    {
      && 0 < base && 0 < total && CellAddress(base, total) < WORD_RANGE && mem.Length == 8 * total
      && (initialized ==> Holds(Words(), base, headFree, headTaken, View()))
      && (!initialized ==> headTaken == 0 && View() == Initial(total))
    }

    /** The pointer handed out for the block that starts at cell `k`. */
    function PointerTo(k: int): int { base + MEM_BLOCK_SIZE * k + SIZE_HEADER }

    /** The cell a handed-out pointer belongs to. */
    function CellOf(p: int): int { (p - SIZE_HEADER - base) / MEM_BLOCK_SIZE }

    lemma CellOfPointer(k: int)
      ensures CellOf(PointerTo(k)) == k
    {
    }

    /** The payload words of a block are the bytes from its pointer to its end. */
    lemma PointerIsToPayload(b: Block, x: int)
      requires b.len > 0
      ensures Payload(b, x) <==> PointerTo(b.start) <= base + 8 * x && base + 8 * (x + 1) <= PointerTo(b.start) + PayloadBytes(b.len)
    {
    }

    /** `p` was handed out and has not been released. */
    ghost predicate IsLive(p: int)
      reads this
    {
      exists j :: 0 <= j < |taken| && p == PointerTo(taken[j].start)
    }

    constructor (heapStart: Word, heapEnd: Word)
      requires 0 < heapStart && heapStart + MEM_BLOCK_SIZE <= heapEnd
      ensures Valid() && View() == Initial((heapEnd - heapStart) / MEM_BLOCK_SIZE) && fresh(mem)
    {
      var blocks := (heapEnd - heapStart) / MEM_BLOCK_SIZE;
      base, total := heapStart, blocks;
      mem := new Word[8 * blocks];
      initialized, headFree, headTaken := false, heapStart, 0;
      free, taken := [Block(0, blocks)], [];
    }

    // The words of the header at an address. The ghost argument names its cell.

    function LoadNext(address: Word, ghost c: nat): (v: Word)
      requires address == CellAddress(base, c) && HasHeader(Words(), c)
      reads mem
      ensures v == Next(Words(), c)
    {
      mem[(address - base) / 8]
    }

    function LoadLength(address: Word, ghost c: nat): (v: Word)
      requires address == CellAddress(base, c) && HasHeader(Words(), c)
      reads mem
      ensures v == Length(Words(), c)
    {
      mem[(address - base) / 8 + 1]
    }

    method StoreNext(address: Word, v: Word, ghost c: nat)
      requires address == CellAddress(base, c) && HasHeader(Words(), c)
      modifies mem
      ensures Words() == SetNext(old(Words()), c, v)
    {
      mem[(address - base) / 8] := v;
    }

    method StoreLength(address: Word, v: Word, ghost c: nat)
      requires address == CellAddress(base, c) && HasHeader(Words(), c)
      modifies mem
      ensures Words() == SetLength(old(Words()), c, v)
    {
      mem[(address - base) / 8 + 1] := v;
    }

    /** Lazy: the first allocation writes the header of the one free block. */
    method Init()
      requires Valid()
      modifies this, mem
      ensures Valid() && initialized && View() == old(View())
      ensures PayloadKept(old(Words()), Words(), taken)
      ensures old(initialized) ==> Words() == old(Words()) && headFree == old(headFree) && headTaken == old(headTaken)
    {
      if initialized {
        return;
      }
      headFree, headTaken := base, 0;
      StoreNext(headFree, 0, 0);
      StoreLength(headFree, total, 0);
      initialized := true;
      InitialTiles(total);
    }

    /** First fit: the first block of the free list that is long enough, with the
        block before it; the null address when there is none. */
    method FindFit(numOfBlocks: Word) returns (cur: Word, prev: Word, ghost i: nat)
      requires Valid() && initialized && numOfBlocks > 0
      ensures i <= |free| && cur == LinkTo(base, free, i)
      ensures prev == if i == 0 then 0 else LinkTo(base, free, i - 1)
      ensures forall j :: 0 <= j < i ==> free[j].len < numOfBlocks
      ensures i < |free| ==> numOfBlocks <= free[i].len
    {
      hide WellFormed, HasHeader, Next, Length, LoadNext, LoadLength, CellAddress;
      cur, prev, i := headFree, 0, 0;
      if 0 < |free| { FreeHeader(Words(), base, headFree, headTaken, View(), 0); }
      while cur != 0 && LoadLength(cur, free[i].start) < numOfBlocks
        invariant 0 <= i <= |free| && cur == LinkTo(base, free, i)
        invariant prev == if i == 0 then 0 else LinkTo(base, free, i - 1)
        invariant forall j :: 0 <= j < i ==> free[j].len < numOfBlocks
        invariant cur != 0 ==> i < |free| && HeaderIs(Words(), free[i].start, LinkTo(base, free, i + 1), free[i].len)
        invariant i < |free| ==> cur != 0
        decreases |free| - i
      {
        prev, cur := cur, LoadNext(cur, free[i].start);
        i := i + 1;
        if i < |free| { FreeHeader(Words(), base, headFree, headTaken, View(), i); }
      }
    }

    /** Carves `numOfBlocks` cells off the front of free block `i`, found behind
        `prev`, and pushes them on the taken list. */
    method Take(cur: Word, prev: Word, numOfBlocks: Word, ghost i: nat) returns (p: Word)
      requires Valid() && initialized && i < |free| && 0 < numOfBlocks <= free[i].len
      requires cur == LinkTo(base, free, i) && prev == if i == 0 then 0 else LinkTo(base, free, i - 1)
      modifies this, mem
      ensures Valid() && initialized && p == PointerTo(old(free)[i].start)
      ensures View() == Heap(total, Carved(old(free), i, numOfBlocks), [Block(old(free)[i].start, numOfBlocks)] + old(taken))
      ensures PayloadKept(old(Words()), Words(), old(taken))
    {
      hide Holds, WellFormed, HasHeader, Next, Length, SetNext, SetLength, SetHeader, LoadNext, LoadLength, CellAddress, Carved, Plus, PayloadKept;
      ghost var w, h, b, hf, ht := Words(), View(), free[i], headFree, headTaken;
      TakeRewires(w, base, hf, ht, h, i, numOfBlocks);
      TakeAddresses(cur, prev, numOfBlocks, i);
      var next := LoadNext(cur, b.start);
      var leftover := Plus(cur, Plus(0, MEM_BLOCK_SIZE * numOfBlocks));
      if numOfBlocks == LoadLength(cur, b.start) {
        if prev != 0 {
          StoreNext(prev, next, free[i - 1].start);
        } else {
          headFree := next;
        }
      } else {
        var left := LoadLength(cur, b.start) - numOfBlocks;
        StoreNext(leftover, next, b.start + numOfBlocks);
        StoreLength(leftover, left, b.start + numOfBlocks);
        HeaderRewritten(w, b.start + numOfBlocks, next, left);
        if prev != 0 {
          StoreNext(prev, leftover, free[i - 1].start);
        } else {
          headFree := leftover;
        }
      }
      HeaderRewritten(Words(), b.start, headTaken, numOfBlocks);
      StoreLength(cur, numOfBlocks, b.start);
      StoreNext(cur, 0, b.start);

      StoreNext(cur, headTaken, b.start);
      headTaken := cur;
      p := Plus(cur, SIZE_HEADER);

      assert Words() == TakeWords(w, base, hf, ht, h, i, numOfBlocks);
      free, taken := Carved(free, i, numOfBlocks), [Block(b.start, numOfBlocks)] + taken;
    }

    /** Every address computed while carving stays inside the chosen block: no
        addition wraps. */
    lemma TakeAddresses(cur: Word, prev: Word, n: Word, i: nat)
      requires Valid() && initialized && i < |free| && 0 < n <= free[i].len
      requires cur == LinkTo(base, free, i) && prev == if i == 0 then 0 else LinkTo(base, free, i - 1)
      ensures var b := free[i];
              && HeaderIs(Words(), b.start, LinkTo(base, free, i + 1), b.len)
              && 0 < cur == CellAddress(base, b.start) && LinkTo(base, free, i + 1) < WORD_RANGE
              && Plus(cur, Plus(0, MEM_BLOCK_SIZE * n)) == CellAddress(base, b.start + n) <= CellAddress(base, b.End())
              && Plus(cur, SIZE_HEADER) == PointerTo(b.start) > 0
              && (n < b.len ==> HasHeader(Words(), b.start + n))
              && (i > 0 ==> 0 < prev == CellAddress(base, free[i - 1].start) && HasHeader(Words(), free[i - 1].start))
    {
      hide Holds, Plus, Next, Length, HasHeader;
      FreeHeader(Words(), base, headFree, headTaken, View(), i);
      if i > 0 { FreeHeader(Words(), base, headFree, headTaken, View(), i - 1); }
      if i + 1 < |free| { FreeHeader(Words(), base, headFree, headTaken, View(), i + 1); }
      PlusInRange(0, MEM_BLOCK_SIZE * n);
      PlusInRange(cur, MEM_BLOCK_SIZE * n);
      PlusInRange(cur, SIZE_HEADER);
      assert n < free[i].len ==> free[i].Has(free[i].start + n);
    }

    /** Returns the payload pointer of the lowest-addressed run of `numOfBlocks`
        free cells, or null exactly when there is none. */
    method Kmalloc(numOfBlocks: Word) returns (p: Word)
      requires Valid()
      modifies this, mem
      ensures Valid()
      ensures p == 0 <==> numOfBlocks == 0 || forall k :: !FreeRun(old(View()), k, numOfBlocks)
      ensures p == 0 ==> View() == old(View())
      ensures p != 0 ==> p == PointerTo(CellOf(p)) && CellOf(p) >= 0 && Allocates(old(View()), numOfBlocks, CellOf(p), View())
      ensures PayloadKept(old(Words()), Words(), old(taken))
    {
      hide Holds, HasHeader, PayloadKept, Carved, FreeRun, CellAddress;
      Init();
      if numOfBlocks == 0 {
        return 0;
      }
      var cur, prev, i := FindFit(numOfBlocks);
      ghost var w := Words();
      FirstFit(numOfBlocks, i);
      if cur == 0 || headFree == 0 {
        return 0;
      }
      p := Take(cur, prev, numOfBlocks, i);
      ViewTiles();
      CellOfPointer(old(free)[i].start);
      KeptInTurn(old(Words()), w, Words(), old(taken));
    }

    /** A request in bytes. It is refused when there is no room and also, whatever
        the room, for the 64 sizes whose rounding overflows to no cell. A block that
        is handed out holds the bytes requested exactly when size + 15 fits 64 bits. */
    method MemAlloc(size: Word) returns (p: Word)
      requires Valid()
      modifies this, mem
      ensures Valid()
      ensures p == 0 <==> size + 15 < WORD_RANGE <= size + 79 || forall k :: !FreeRun(old(View()), k, BlocksFor(size))
      ensures p == 0 ==> View() == old(View())
      ensures p != 0 ==> p == PointerTo(CellOf(p)) && CellOf(p) >= 0 && Allocates(old(View()), BlocksFor(size), CellOf(p), View())
      ensures p != 0 ==> |taken| > 0 && CellOf(p) == taken[0].start && (size <= PayloadBytes(taken[0].len) <==> size + 15 < WORD_RANGE)
      ensures PayloadKept(old(Words()), Words(), old(taken))
    {
      hide Holds, WellFormed, HasHeader, PayloadKept, FreeRun, LowestRun, BlocksFor;
      RequestedCells(size);
      p := Kmalloc(BlocksFor(size));
    }

    lemma FirstFit(n: Word, i: nat)
      requires Valid() && initialized && n > 0 && i <= |free|
      requires forall j :: 0 <= j < i ==> free[j].len < n
      requires i < |free| ==> n <= free[i].len
      ensures i == |free| ==> forall k :: !FreeRun(View(), k, n)
      ensures i < |free| ==> LowestRun(View(), free[i].start, n) && WellFormed(View()) && headFree != 0 && LinkTo(base, free, i) != 0
    {
      FirstFitIsLowest(View(), n, i);
    }

    /** What the header words describe always tiles the heap. */
    lemma ViewTiles()
      requires Valid()
      ensures WellFormed(View())
    {
      InitialTiles(total);
    }

    /** Walks the taken list to the block at address `cur`. */
    method FindTaken(cur: Word) returns (next: Word, prev: Word, ghost j: nat)
      requires Valid()
      ensures j <= |taken| && next == LinkTo(base, taken, j)
      ensures prev == if j == 0 then 0 else LinkTo(base, taken, j - 1)
      ensures forall m :: 0 <= m < j ==> LinkTo(base, taken, m) != cur
      ensures next != 0 ==> j < |taken| && next == cur
      ensures next == 0 ==> j == |taken|
    {
      hide WellFormed, HasHeader, Next, Length, LoadNext, LoadLength, CellAddress;
      next, prev, j := headTaken, 0, 0;
      if 0 < |taken| { TakenHeader(Words(), base, headFree, headTaken, View(), 0); }
      while next != 0 && next != cur
        invariant 0 <= j <= |taken| && next == LinkTo(base, taken, j)
        invariant prev == if j == 0 then 0 else LinkTo(base, taken, j - 1)
        invariant forall m :: 0 <= m < j ==> LinkTo(base, taken, m) != cur
        invariant next != 0 ==> j < |taken| && HeaderIs(Words(), taken[j].start, LinkTo(base, taken, j + 1), taken[j].len)
        invariant j < |taken| ==> next != 0
        decreases |taken| - j
      {
        prev, next := next, LoadNext(next, taken[j].start);
        j := j + 1;
        if j < |taken| { TakenHeader(Words(), base, headFree, headTaken, View(), j); }
      }
    }

    /** Walks the free list to the slot of address `cur`. `w` is the memory the
        list was last described in; its links and lengths still stand. */
    method FindSlot(cur: Word, ghost c: nat, ghost w: Memory, ghost ht: int) returns (next: Word, prev: Word, ghost i: nat)
      requires Holds(w, base, headFree, ht, View()) && cur == CellAddress(base, c)
      requires forall m :: 0 <= m < |free| ==> HeaderIs(Words(), free[m].start, LinkTo(base, free, m + 1), free[m].len)
      ensures Slot(free, c, i) && i <= |free| && next == LinkTo(base, free, i)
      ensures prev == if i == 0 then 0 else LinkTo(base, free, i - 1)
      ensures (prev != 0 <==> i > 0) && (next != 0 <==> i < |free|)
    {
      hide HasHeader, Next, Length, LoadNext, LoadLength;
      next, prev, i := headFree, 0, 0;
      while next != 0 && next < cur
        invariant 0 <= i <= |free| && next == LinkTo(base, free, i)
        invariant prev == if i == 0 then 0 else LinkTo(base, free, i - 1)
        invariant forall m :: 0 <= m < i ==> free[m].start < c
        decreases |free| - i
      {
        assert HeaderIs(Words(), free[i].start, LinkTo(base, free, i + 1), free[i].len);
        prev, next := next, LoadNext(next, free[i].start);
        i := i + 1;
      }
      forall m | i <= m < |free| ensures c <= free[m].start {
        if i < m { assert free[i].End() < free[m].start; }
      }
    }

    /** Links the released block into the free list behind `prev`, or joins it to
        the block there; returns the block that now holds its cells. */
    method JoinPrev(cell: Word, prev: Word, ghost h: Heap, ghost b: Block, ghost i: nat) returns (cur: Word)
      requires 0 < base && i <= |h.free| && cell == CellAddress(base, b.start) && HasHeader(Words(), b.start)
      requires prev == if i == 0 then 0 else CellAddress(base, h.free[i - 1].start)
      requires Length(Words(), b.start) == b.len && CellAddress(base, b.start + b.len) < WORD_RANGE
      requires i > 0 ==> HeaderIs(Words(), h.free[i - 1].start, LinkTo(base, h.free, i), h.free[i - 1].len)
      requires i > 0 ==> h.free[i - 1].start != b.start && h.free[i - 1].End() <= b.start
      requires 0 <= LinkTo(base, h.free, i) < WORD_RANGE && Next(Words(), b.start) == 0
      modifies mem, this`headFree
      ensures Words() == JoinPrevWords(old(Words()), base, h, b, i)
      ensures cur == CellAddress(base, GrownCell(h, b, i))
      ensures headFree == if i == 0 then cell else old(headFree)
    {
      hide HasHeader, Next, Length, LoadNext, LoadLength, SetNext, SetLength, Plus;
      cur := cell;
      if prev == 0 {
        headFree := cur;
      } else {
        ghost var p := h.free[i - 1].start;
        PlusInRange(0, MEM_BLOCK_SIZE * h.free[i - 1].len);
        PlusInRange(prev, MEM_BLOCK_SIZE * h.free[i - 1].len);
        if Plus(prev, Plus(0, MEM_BLOCK_SIZE * LoadLength(prev, p))) == cur {
          PlusInRange(LoadLength(prev, p), LoadLength(cur, b.start));
          StoreLength(prev, Plus(LoadLength(prev, p), LoadLength(cur, b.start)), p);
          cur := prev;
        } else {
          StoreNext(cur, LoadNext(prev, p), b.start);
          StoreNext(prev, cur, p);
        }
      }
    }

    /** Links or joins the block behind the released cells. */
    method JoinNext(cur: Word, next: Word, ghost h: Heap, ghost b: Block, ghost i: nat)
      requires 0 < base && i <= |h.free| && cur == CellAddress(base, GrownCell(h, b, i)) && next == LinkTo(base, h.free, i)
      requires HasHeader(Words(), GrownCell(h, b, i)) && Length(Words(), GrownCell(h, b, i)) == GrownLength(h, b, i)
      requires GrownCell(h, b, i) + GrownLength(h, b, i) == b.End() && CellAddress(base, b.End()) < WORD_RANGE
      requires i < |h.free| ==> HeaderIs(Words(), h.free[i].start, LinkTo(base, h.free, i + 1), h.free[i].len)
      requires i < |h.free| ==> GrownCell(h, b, i) != h.free[i].start && b.End() <= h.free[i].start
      requires i < |h.free| ==> CellAddress(base, h.free[i].End()) < WORD_RANGE
      requires 0 <= LinkTo(base, h.free, i + 1) < WORD_RANGE
      modifies mem
      ensures Words() == JoinNextWords(old(Words()), base, h, b, i)
    {
      hide HasHeader, Next, Length, LoadNext, LoadLength, SetNext, SetLength, SetHeader, Plus, GrownCell, GrownLength;
      if next != 0 {
        ghost var c, n := GrownCell(h, b, i), h.free[i].start;
        PlusInRange(0, MEM_BLOCK_SIZE * GrownLength(h, b, i));
        PlusInRange(cur, MEM_BLOCK_SIZE * GrownLength(h, b, i));
        if Plus(cur, Plus(0, MEM_BLOCK_SIZE * LoadLength(cur, c))) == next {
          PlusInRange(LoadLength(cur, c), LoadLength(next, n));
          HeaderRewritten(Words(), c, LinkTo(base, h.free, i + 1), GrownLength(h, b, i) + h.free[i].len);
          StoreLength(cur, Plus(LoadLength(cur, c), LoadLength(next, n)), c);
          StoreNext(cur, LoadNext(next, n), c);
        } else {
          StoreNext(cur, next, c);
        }
      }
    }

    /** A pointer matches a live block exactly when its header address does. */
    lemma PointerMatches(p: Word, k: nat)
      requires 0 < base && CellAddress(base, k + 1) < WORD_RANGE
      ensures Plus(p, -SIZE_HEADER) == CellAddress(base, k) <==> p == PointerTo(k)
    {
    }

    lemma LiveMatches(p: Word, j: nat)
      requires Valid() && j <= |taken|
      requires forall m :: 0 <= m < j ==> LinkTo(base, taken, m) != Plus(p, -SIZE_HEADER)
      requires j < |taken| ==> LinkTo(base, taken, j) == Plus(p, -SIZE_HEADER)
      ensures IsLive(p) <==> j < |taken|
      ensures j < |taken| ==> initialized && p == PointerTo(taken[j].start) && CellOf(p) == taken[j].start
    {
      forall m | 0 <= m < |taken| ensures LinkTo(base, taken, m) == Plus(p, -SIZE_HEADER) <==> p == PointerTo(taken[m].start) {
        TakenHeader(Words(), base, headFree, headTaken, View(), m);
        PointerMatches(p, taken[m].start);
      }
    }

    /** Releases the block of a live pointer; refuses any other pointer. */
    method Kmfree(toBeFreed: Word) returns (r: int)
      requires Valid()
      modifies this, mem
      ensures Valid()
      ensures toBeFreed == 0 || !old(IsLive(toBeFreed)) ==> View() == old(View()) && Words() == old(Words())
      ensures r == if toBeFreed == 0 || old(IsLive(toBeFreed)) then 0 else -1
      ensures old(IsLive(toBeFreed)) ==> CellOf(toBeFreed) >= 0 && Releases(old(View()), CellOf(toBeFreed), View())
      ensures PayloadKept(old(Words()), Words(), taken)
    {
      hide Holds, HasHeader, PayloadKept, CellAddress, LinkTo, IsLive, Plus;
      KeptByItself(Words(), taken);
      if toBeFreed == 0 {
        NullIsNotLive();
        return 0;
      }
      var cur := Plus(toBeFreed, -SIZE_HEADER);
      var next, prev, j := FindTaken(cur);
      LiveMatches(toBeFreed, j);
      if next == 0 {
        return -1;
      }
      Release(cur, next, prev, j);
      return 0;
    }

    lemma NullIsNotLive()
      ensures !IsLive(0)
    {
    }

    /** Takes block `j` off the taken list and gives its cells back to the free list. */
    method Release(cell: Word, at: Word, before: Word, ghost j: nat)
      requires Valid() && initialized && j < |taken| && cell == at == LinkTo(base, taken, j)
      requires before == if j == 0 then 0 else LinkTo(base, taken, j - 1)
      modifies this, mem
      ensures Valid() && Releases(old(View()), old(taken)[j].start, View())
      ensures PayloadKept(old(Words()), Words(), taken)
    {
      hide Holds, WellFormed, HasHeader, Next, Length, SetNext, SetLength, SetHeader, LoadNext, LoadLength, CellAddress, PayloadKept, Coalesced, Drop, Slot, JoinPrevWords, JoinNextWords, HeaderIs;
      ghost var w, h, b, hf, ht := Words(), View(), taken[j], headFree, headTaken;
      var next, prev, cur := at, before, cell;
      UnlinkStage(w, base, hf, ht, h, j);
      next := LoadNext(next, b.start);
      if prev != 0 {
        StoreNext(prev, next, taken[j - 1].start);
      } else {
        headTaken := next;
      }
      StoreNext(cur, 0, b.start);
      assert Words() == UnlinkWords(w, base, h, j);
      ghost var i;
      next, prev, i := FindSlot(cur, b.start, w, ht);
      ReleaseRewires(w, base, hf, ht, h, j, i);
      InsertStage(w, base, hf, ht, h, j, i);
      cur := JoinPrev(cur, prev, h, b, i);
      JoinNext(cur, next, h, b, i);
      free, taken := Coalesced(h.free, b, i), Drop(h.taken, j);
    }
  }

  /** The memory between the two halves of a release: the block is off the taken
      list, its next link is null, and the free list is untouched. */
  lemma UnlinkStage(w: Memory, base: nat, headFree: int, headTaken: int, h: Heap, j: nat)
    requires Holds(w, base, headFree, headTaken, h) && j < |h.taken|
    ensures var b := h.taken[j];
            && HasHeader(w, b.start) && Next(w, b.start) == LinkTo(base, h.taken, j + 1) && 0 <= LinkTo(base, h.taken, j + 1) < WORD_RANGE
            && 0 < LinkTo(base, h.taken, j) == CellAddress(base, b.start)
            && (j > 0 ==> HasHeader(w, h.taken[j - 1].start) && 0 < LinkTo(base, h.taken, j - 1) == CellAddress(base, h.taken[j - 1].start))
    ensures var b, w' := h.taken[j], UnlinkWords(w, base, h, j);
            && HasHeader(w', b.start) && Next(w', b.start) == 0 && Length(w', b.start) == b.len
            && forall m :: 0 <= m < |h.free| ==> HeaderIs(w', h.free[m].start, LinkTo(base, h.free, m + 1), h.free[m].len)
  {
    hide WellFormed, SetNext, MaybeNext, Next, Length;
    TakenHeader(w, base, headFree, headTaken, h, j);
    if j > 0 { TakenHeader(w, base, headFree, headTaken, h, j - 1); }
    if j + 1 < |h.taken| { TakenHeader(w, base, headFree, headTaken, h, j + 1); }
    StartsApart(h);
    forall m | 0 <= m < |h.free|
      ensures HeaderIs(UnlinkWords(w, base, h, j), h.free[m].start, LinkTo(base, h.free, m + 1), h.free[m].len)
    {
      assert HeaderIs(w, h.free[m].start, LinkTo(base, h.free, m + 1), h.free[m].len);
    }
  }

  /** Where the released block lands and what its neighbours' headers hold before
      and after the first join; no address computed there wraps. */
  lemma InsertStage(w: Memory, base: nat, headFree: int, headTaken: int, h: Heap, j: nat, i: nat)
    requires Releasing(w, base, headFree, headTaken, h, j, i)
    ensures var b, w1 := h.taken[j], UnlinkWords(w, base, h, j);
            && HasHeader(w1, b.start) && CellAddress(base, b.End()) < WORD_RANGE
            && (i > 0 ==> HeaderIs(w1, h.free[i - 1].start, LinkTo(base, h.free, i), h.free[i - 1].len))
            && (i > 0 ==> h.free[i - 1].start != b.start && h.free[i - 1].End() <= b.start)
            && (i < |h.free| ==> b.End() <= h.free[i].start && CellAddress(base, h.free[i].End()) < WORD_RANGE)
            && (i > 0 ==> 0 < LinkTo(base, h.free, i - 1) == CellAddress(base, h.free[i - 1].start))
            && 0 <= LinkTo(base, h.free, i) < WORD_RANGE && 0 <= LinkTo(base, h.free, i + 1) < WORD_RANGE
    ensures var b, w1 := h.taken[j], UnlinkWords(w, base, h, j);
            var w2, c := JoinPrevWords(w1, base, h, b, i), GrownCell(h, b, i);
            && HasHeader(w2, c) && Length(w2, c) == GrownLength(h, b, i) && c + GrownLength(h, b, i) == b.End()
            && (i < |h.free| ==> c != h.free[i].start && HeaderIs(w2, h.free[i].start, LinkTo(base, h.free, i + 1), h.free[i].len))
  {
    hide WellFormed, SetNext, SetLength, MaybeNext, Next, Length, Threaded, UnlinkWords;
    UnlinkStage(w, base, headFree, headTaken, h, j);
    SlotNeighbours(w, base, headFree, headTaken, h, j, i);
    StartsApart(h);
  }

  lemma SlotNeighbours(w: Memory, base: nat, headFree: int, headTaken: int, h: Heap, j: nat, i: nat)
    requires Releasing(w, base, headFree, headTaken, h, j, i)
    ensures var b := h.taken[j];
            && CellAddress(base, b.End()) < WORD_RANGE
            && (i > 0 ==> h.free[i - 1].End() <= b.start && h.free[i - 1].len > 0)
            && (i > 0 ==> 0 < LinkTo(base, h.free, i - 1) == CellAddress(base, h.free[i - 1].start))
            && (i < |h.free| ==> b.End() <= h.free[i].start && CellAddress(base, h.free[i].End()) < WORD_RANGE)
            && 0 <= LinkTo(base, h.free, i) < WORD_RANGE && 0 <= LinkTo(base, h.free, i + 1) < WORD_RANGE
  {
    var b := h.taken[j];
    TakenHeader(w, base, headFree, headTaken, h, j);
    if i > 0 { FreeHeader(w, base, headFree, headTaken, h, i - 1); }
    if i < |h.free| { FreeHeader(w, base, headFree, headTaken, h, i); }
    if i + 1 < |h.free| { FreeHeader(w, base, headFree, headTaken, h, i + 1); }
    forall k | b.Has(k) ensures !Covered(h.free, k) { TakenNotFree(h, j, k); }
    SlotSeparates(h.free, b, i);
  }

  lemma KeptInTurn(w: Memory, w': Memory, w'': Memory, bs: seq<Block>)
    requires PayloadKept(w, w', bs) && PayloadKept(w', w'', bs)
    ensures PayloadKept(w, w'', bs)
  {
  }
}
