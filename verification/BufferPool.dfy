/** The frame buffer allocator (avs_core/core/BufferPool.cpp): aligned blocks with five header words in front of
    them, recycled by size. Addresses and sizes are numbers of bytes. */
module BufferPool {
  import opened Collections
  import opened Options

  type Addr = int
  type DescId = int

  const WORD := 8
  const HEADER := 5 * WORD

  /** A header word; `UserWord` is null for a block outside the pool. */
  datatype Word = GuardWord | UserWord(user: Option<DescId>) | SizeWord(size: int) | PtrWord(ptr: Addr)

  datatype BufferDesc = BufferDesc(ptr: Addr, size: nat, alignment: nat, inUse: bool)

  /** What an allocation stands for: `total` bytes from `orig` on, of which `size` are the caller's. */
  datatype Block = Block(orig: Addr, total: nat, size: nat, align: nat, user: Option<DescId>)

  predicate IsPower2(n: nat) {
    n == 1 || (n > 1 && n % 2 == 0 && IsPower2(n / 2))
  }

  function Effective(alignment: nat): (a: nat) {
    if alignment > WORD then alignment else WORD
  }

  /** Room for the header and for moving up to an aligned address. */
  function Overhead(alignment: nat): (n: nat) {
    HEADER + Effective(alignment) - 1
  }

  /** Masking off the low bits, for a power of two. */
  function AlignDown(a: Addr, alignment: nat): (r: Addr)
    requires alignment > 0
  {
    a - a % alignment
  }

  lemma {:induction false} Power2Divides(a: nat, b: nat, x: int)
    requires IsPower2(a) && IsPower2(b) && a <= b && x % b == 0
    ensures x % a == 0
    decreases b
  {
    if a > 1 {
      HalfDivides(x, b);
      Power2Divides(a / 2, b / 2, x / 2);
      DoubleDivides(x, a);
    }
  }

  lemma HalfDivides(x: int, b: nat)
    requires b > 1 && b % 2 == 0 && x % b == 0
    ensures x % 2 == 0 && x / 2 % (b / 2) == 0
  {
    var q := x / b;
    assert x == q * b && b == 2 * (b / 2);
    assert x == 2 * (q * (b / 2));
    MultipleHasNoRest(q, b / 2);
  }

  lemma DoubleDivides(x: int, a: nat)
    requires a > 1 && a % 2 == 0 && x % 2 == 0 && x / 2 % (a / 2) == 0
    ensures x % a == 0
  {
    var q := x / 2 / (a / 2);
    assert x / 2 == q * (a / 2);
    assert x == q * a;
    MultipleHasNoRest(q, a);
  }

  lemma SmallMultiple(d: int, b: nat, r: nat)
    requires d * b == r && r < b
    ensures r == 0
  {
    MultipleSize(d, b);
  }

  lemma MultipleSize(d: int, b: nat)
    ensures d >= 1 ==> d * b >= b
    ensures d <= -1 ==> d * b + b <= 0
  {
    if d >= 1 {
      assert (d - 1) * b >= 0;
      assert d * b == (d - 1) * b + b;
    } else if d <= -1 {
      assert (-d - 1) * b >= 0;
      assert d * b == -((-d - 1) * b) - b;
    }
  }

  lemma MultipleHasNoRest(q: int, b: nat)
    requires b > 0
    ensures q * b % b == 0
  {
    var x := q * b;
    assert x == x / b * b + x % b;
    assert (q - x / b) * b == q * b - x / b * b;
    SmallMultiple(q - x / b, b, x % b);
  }

  lemma AlignedDown(a: Addr, alignment: nat)
    requires alignment > 0
    ensures AlignDown(a, alignment) % alignment == 0 && a - alignment < AlignDown(a, alignment) <= a
  {
    assert AlignDown(a, alignment) == a / alignment * alignment;
    MultipleHasNoRest(a / alignment, alignment);
  }

  // ----- Who is served aligned -----

  /** Where the caller's bytes start in an allocation at `orig`. */
  function BlockAddress(orig: Addr, alignment: nat): (p: Addr) {
    AlignDown(orig + Overhead(alignment), Effective(alignment))
  }

  lemma TwiceTimes(c: nat, a: nat, r: nat)
    requires r < 2
    ensures (2 * c + r) * a == 2 * (c * a) + r * a
  {
  }

  lemma OddPart(a: nat, b: nat)
    requires a % 2 == 1 && b % 2 == 0 && b % a == 0
    ensures b / 2 % a == 0
  {
    var q := b / a;
    var c, r, x := q / 2, q % 2, q / 2 * a;
    assert b == q * a;
    TwiceTimes(c, a, r);
    assert b == 2 * x + r * a;
    assert r * a == if r == 0 then 0 else a;
    MultipleHasNoRest(c, a);
    assert b / 2 == x;
  }

  /** Only powers of two divide a power of two. */
  lemma {:induction false} DivisorOfPower2(a: nat, b: nat)
    requires IsPower2(b) && a > 0 && b % a == 0
    ensures IsPower2(a)
    decreases b
  {
    if b == 1 {
      assert a == 1;
    } else if a % 2 == 1 {
      OddPart(a, b);
      DivisorOfPower2(a, b / 2);
    } else {
      HalvesDivide(a, b);
      DivisorOfPower2(a / 2, b / 2);
    }
  }

  lemma HalvesDivide(a: nat, b: nat)
    requires a > 0 && a % 2 == 0 && b > 0 && b % 2 == 0 && b % a == 0
    ensures b / 2 % (a / 2) == 0
  {
    var q := b / a;
    assert b == q * a && a == 2 * (a / 2);
    assert b / 2 == q * (a / 2);
    MultipleHasNoRest(q, a / 2);
  }

  lemma {:induction false} Power2Above(n: nat) returns (b: nat)
    ensures IsPower2(b) && b >= n && b >= WORD
    decreases n
  {
    if n <= WORD {
      b := WORD;
      assert IsPower2(8) by { assert IsPower2(1) && IsPower2(2) && IsPower2(4); }
    } else {
      var half := Power2Above((n + 1) / 2);
      b := 2 * half;
    }
  }

  lemma MultipleOfMultiple(x: int, e: nat, a: nat)
    requires e > 0 && a > 0 && x % e == 0 && e % a == 0
    ensures x % a == 0
  {
    var q, k := x / e, e / a;
    assert x == q * e && e == k * a;
    assert x == (q * k) * a;
    MultipleHasNoRest(q * k, a);
  }

  lemma DifferenceDivides(x: int, y: int, a: nat)
    requires a > 0 && x % a == 0 && y % a == 0
    ensures (x - y) % a == 0
  {
    var q, k := x / a, y / a;
    assert x == q * a && y == k * a;
    assert x - y == (q - k) * a;
    MultipleHasNoRest(q - k, a);
  }

  lemma AddressAt(m: nat, alignment: nat)
    requires m >= HEADER
    ensures var orig := m * Effective(alignment) - Overhead(alignment);
      orig >= 0 && BlockAddress(orig, alignment) == m * Effective(alignment)
  {
    var e := Effective(alignment);
    assert m * e == (m - HEADER) * e + HEADER * e && (m - HEADER) * e >= 0;
    MultipleHasNoRest(m, e);
  }

  /** Blocks laid out for one alignment are aligned for another, whatever malloc answers, exactly when that one
      divides what the layout rounds to. */
  lemma LayoutAlignsExactly(wanted: nat, given: nat)
    requires wanted > 0
    ensures (forall orig: nat :: BlockAddress(orig, given) % wanted == 0) <==> Effective(given) % wanted == 0
  {
    var e := Effective(given);
    if e % wanted == 0 {
      forall orig: nat ensures BlockAddress(orig, given) % wanted == 0 {
        AlignedDown(orig + Overhead(given), e);
        MultipleOfMultiple(BlockAddress(orig, given), e, wanted);
      }
    } else {
      AddressAt(HEADER, given);
      AddressAt(HEADER + 1, given);
      assert (HEADER + 1) * e - HEADER * e == e;
      var low, high := HEADER * e - Overhead(given), (HEADER + 1) * e - Overhead(given);
      if BlockAddress(low, given) % wanted == 0 && BlockAddress(high, given) % wanted == 0 {
        DifferenceDivides((HEADER + 1) * e, HEADER * e, wanted);
      }
    }
  }

  /** The overhead is what a block may need: for some answers of malloc its bytes end with the allocation. */
  lemma OverheadNeeded(nBytes: nat, alignment: nat)
    ensures exists orig: nat :: BlockAddress(orig, alignment) + nBytes == orig + (nBytes + Overhead(alignment))
  {
    AddressAt(HEADER, alignment);
    var orig: nat := HEADER * Effective(alignment) - Overhead(alignment);
    assert BlockAddress(orig, alignment) == orig + Overhead(alignment);
  }

  /** A fresh block that the allocator grants is aligned for its request, whatever malloc answers, exactly when the
      alignment is a power of two. */
  lemma FreshAlignedExactly(alignment: nat)
    requires alignment > 0 && IsPower2(Effective(alignment))
    ensures (forall orig: nat :: BlockAddress(orig, alignment) % alignment == 0) <==> IsPower2(alignment)
  {
    LayoutAlignsExactly(alignment, alignment);
    if IsPower2(alignment) {
      MultipleHasNoRest(1, Effective(alignment));
      Power2Divides(alignment, Effective(alignment), Effective(alignment));
    } else if Effective(alignment) % alignment == 0 {
      DivisorOfPower2(alignment, Effective(alignment));
    }
  }

  /** Whatever idle block the pool may find for a request is aligned for it exactly when its alignment is a power of two. */
  lemma PoolAlignedExactly(alignment: nat)
    requires alignment > 0
    ensures (forall given: nat, orig: nat :: given >= alignment && IsPower2(Effective(given)) ==>
               BlockAddress(orig, given) % alignment == 0)
            <==> IsPower2(alignment)
  {
    if IsPower2(alignment) {
      forall given: nat, orig: nat | given >= alignment && IsPower2(Effective(given))
        ensures BlockAddress(orig, given) % alignment == 0
      {
        AlignedDown(orig + Overhead(given), Effective(given));
        Power2Divides(alignment, Effective(given), BlockAddress(orig, given));
      }
    } else {
      var given := Power2Above(alignment);
      if Effective(given) % alignment == 0 {
        DivisorOfPower2(alignment, given);
      }
      LayoutAlignsExactly(alignment, given);
      var orig: nat :| BlockAddress(orig, given) % alignment != 0;
    }
  }

  /** Alignment 3 is granted, as 8, and the first block is not aligned for it. */
  lemma AlignmentThree()
    ensures !IsPower2(3) && IsPower2(Effective(3)) && BlockAddress(0, 3) % 3 != 0
  {
    assert IsPower2(1) && IsPower2(2) && IsPower2(4);
  }

  /** Alignment 24 is refused, but an idle block for 32 fits it, at an address that is no multiple of 24. */
  lemma PooledForTwentyFour()
    ensures !IsPower2(Effective(24)) && IsPower2(Effective(32))
    ensures Fits(BufferDesc(BlockAddress(0, 32), 100, 32, false), 100, 24) && BlockAddress(0, 32) % 24 != 0
  {
    assert IsPower2(1) && IsPower2(2) && IsPower2(4) && IsPower2(8) && IsPower2(16);
    assert !IsPower2(3) && !IsPower2(6) && !IsPower2(12);
  }

  // ----- What every state satisfies -----

  ghost predicate Apart(a: Addr, n: nat, b: Addr, m: nat) {
    a + n <= b || b + m <= a
  }

  /** The caller's bytes lie behind the header, inside the allocation, at an aligned address. */
  ghost predicate Placed(p: Addr, b: Block) {
    b.orig + HEADER <= p && p + b.size <= b.orig + b.total && IsPower2(b.align) && p % b.align == 0
  }

  ghost predicate HeaderOk(memory: map<Addr, Word>, p: Addr, b: Block) {
    && p - 5 * WORD in memory && memory[p - 5 * WORD] == GuardWord
    && p - 4 * WORD in memory && memory[p - 4 * WORD] == UserWord(b.user)
    && p - 3 * WORD in memory && memory[p - 3 * WORD] == SizeWord(b.total)
    && p - 2 * WORD in memory && memory[p - 2 * WORD] == PtrWord(b.orig)
    && p - 1 * WORD in memory && memory[p - 1 * WORD] == GuardWord
  }

  ghost predicate BlocksOk(blocks: map<Addr, Block>, memory: map<Addr, Word>) {
    && (forall p :: p in blocks ==> Placed(p, blocks[p]) && HeaderOk(memory, p, blocks[p]))
    && (forall p, q :: p in blocks && q in blocks && p != q ==>
          Apart(blocks[p].orig, blocks[p].total, blocks[q].orig, blocks[q].total))
  }

  /** Descriptors and pooled blocks belong together, and a pooled block is out exactly while its descriptor says so. */
  ghost predicate DescsOk(descs: map<DescId, BufferDesc>, blocks: map<Addr, Block>, out: set<Addr>, next: DescId) {
    && (forall d :: d in descs ==>
          && d < next && descs[d].ptr in blocks && blocks[descs[d].ptr].user == Some(d)
          && blocks[descs[d].ptr].size == descs[d].size && blocks[descs[d].ptr].align == Effective(descs[d].alignment)
          && (descs[d].inUse <==> descs[d].ptr in out))
    && (forall p :: p in blocks ==>
          match blocks[p].user
          case None => p in out
          case Some(d) => d in descs && descs[d].ptr == p)
    && (forall p :: p in out ==> p in blocks)
  }

  ghost predicate Members(order: seq<DescId>, descs: map<DescId, BufferDesc>) {
    (forall i :: 0 <= i < |order| ==> order[i] in descs) && (forall d :: d in descs ==> d in order)
  }

  ghost predicate NoDuplicates(order: seq<DescId>) {
    forall i, j :: 0 <= i < j < |order| ==> order[i] != order[j]
  }

  function SizeOf(descs: map<DescId, BufferDesc>, d: DescId): (n: nat) {
    if d in descs then descs[d].size else 0
  }

  ghost predicate Sorted(order: seq<DescId>, descs: map<DescId, BufferDesc>) {
    forall i, j :: 0 <= i < j < |order| ==> SizeOf(descs, order[i]) <= SizeOf(descs, order[j])
  }

  /** The pool in the order of its multimap: by size. */
  ghost predicate OrderOk(order: seq<DescId>, descs: map<DescId, BufferDesc>) {
    Members(order, descs) && NoDuplicates(order) && Sorted(order, descs)
  }

  // ----- Accounting -----

  /** The bytes of all allocations together. */
  ghost function Allocated(blocks: map<Addr, Block>): (n: nat)
    decreases |blocks|
  {
    if blocks == map[] then 0
    else
      SomeInSet(blocks.Keys);
      var p :| p in blocks;
      FewerBlocks(blocks, p);
      blocks[p].total + Allocated(blocks - {p})
  }

  lemma FewerBlocks(blocks: map<Addr, Block>, p: Addr)
    requires p in blocks
    ensures |blocks - {p}| < |blocks|
  {
    assert blocks.Keys == (blocks - {p}).Keys + {p};
  }

  lemma {:induction false} AllocatedWithout(blocks: map<Addr, Block>, p: Addr)
    requires p in blocks
    ensures Allocated(blocks) == blocks[p].total + Allocated(blocks - {p})
    decreases |blocks|
  {
    var q :| q in blocks && Allocated(blocks) == blocks[q].total + Allocated(blocks - {q});
    if q != p {
      FewerBlocks(blocks, q);
      AllocatedWithout(blocks - {q}, p);
      FewerBlocks(blocks, p);
      AllocatedWithout(blocks - {p}, q);
      assert blocks - {q} - {p} == blocks - {p} - {q};
    }
  }

  lemma AllocatedWith(blocks: map<Addr, Block>, p: Addr, b: Block)
    requires p !in blocks
    ensures Allocated(blocks[p := b]) == Allocated(blocks) + b.total
  {
    AllocatedWithout(blocks[p := b], p);
    assert blocks[p := b] - {p} == blocks;
  }

  // ----- The allocator -----

  /** A new allocation overlaps no other: what malloc promises. */
  ghost predicate Unused(blocks: map<Addr, Block>, orig: Addr, total: nat) {
    forall p :: p in blocks ==> Apart(orig, total, blocks[p].orig, blocks[p].total)
  }

  /** A pooled descriptor that could serve a request. */
  predicate Fits(d: BufferDesc, nBytes: nat, alignment: nat) {
    !d.inUse && d.size >= nBytes && d.alignment >= alignment
  }

  function WithHeader(memory: map<Addr, Word>, p: Addr, total: nat, orig: Addr, user: Option<DescId>): (r: map<Addr, Word>) {
    memory[p - 5 * WORD := GuardWord][p - 4 * WORD := UserWord(user)][p - 3 * WORD := SizeWord(total)]
      [p - 2 * WORD := PtrWord(orig)][p - 1 * WORD := GuardWord]
  }

  lemma NewBlockPlaced(orig: Addr, nBytes: nat, alignment: nat, user: Option<DescId>)
    requires IsPower2(Effective(alignment))
    ensures var b := Block(orig, nBytes + Overhead(alignment), nBytes, Effective(alignment), user);
      Placed(BlockAddress(orig, alignment), b)
  {
    AlignedDown(orig + Overhead(alignment), Effective(alignment));
  }

  lemma HeaderUndisturbed(memory: map<Addr, Word>, p: Addr, b: Block, q: Addr, c: Block)
    requires HeaderOk(memory, q, c) && Placed(q, c) && Placed(p, b) && Apart(b.orig, b.total, c.orig, c.total)
    ensures HeaderOk(WithHeader(memory, p, b.total, b.orig, b.user), q, c)
  {
  }

  lemma ApartDiffer(p: Addr, b: Block, q: Addr, c: Block)
    requires Placed(p, b) && Placed(q, c) && Apart(b.orig, b.total, c.orig, c.total)
    ensures p != q
  {
  }

  lemma NewBlockApart(blocks: map<Addr, Block>, memory: map<Addr, Word>, p: Addr, b: Block)
    requires BlocksOk(blocks, memory) && Placed(p, b) && Unused(blocks, b.orig, b.total)
    ensures p !in blocks
    ensures BlocksOk(blocks[p := b], WithHeader(memory, p, b.total, b.orig, b.user))
  {
    forall q | q in blocks ensures p != q {
      ApartDiffer(p, b, q, blocks[q]);
    }
    forall q | q in blocks ensures HeaderOk(WithHeader(memory, p, b.total, b.orig, b.user), q, blocks[q]) {
      HeaderUndisturbed(memory, p, b, q, blocks[q]);
    }
    assert HeaderOk(WithHeader(memory, p, b.total, b.orig, b.user), p, b);
  }

  /** The blocks before, and one new one behind its own header. */
  ghost predicate NewBlock(before: map<Addr, Block>, after: map<Addr, Block>, p: Addr, nBytes: nat, alignment: nat) {
    && p !in before && p in after && after == before[p := after[p]]
    && after[p].size == nBytes && after[p].align == Effective(alignment) && after[p].total == nBytes + Overhead(alignment)
    && (IsPower2(alignment) ==> p % alignment == 0)
  }

  /** A block aligned for a larger power of two is aligned for a smaller one. */
  lemma AlignedFor(wanted: nat, given: nat, p: Addr, b: Block)
    requires Placed(p, b) && b.align == Effective(given) && wanted <= given
    ensures IsPower2(wanted) ==> p % wanted == 0
  {
    if IsPower2(wanted) {
      Power2Divides(wanted, b.align, p);
    }
  }

  lemma NewPooledOk(descs: map<DescId, BufferDesc>, blocks: map<Addr, Block>, out: set<Addr>, d: DescId, p: Addr, b: Block,
                    alignment: nat)
    requires DescsOk(descs, blocks, out, d) && p !in blocks && b.user == Some(d) && b.align == Effective(alignment)
    ensures d !in descs
    ensures DescsOk(descs[d := BufferDesc(p, b.size, alignment, true)], blocks[p := b], out + {p}, d + 1)
  {
  }

  lemma NewPlainOk(descs: map<DescId, BufferDesc>, blocks: map<Addr, Block>, out: set<Addr>, next: DescId, p: Addr, b: Block)
    requires DescsOk(descs, blocks, out, next) && p !in blocks && b.user == None
    ensures DescsOk(descs, blocks[p := b], out + {p}, next)
  {
  }

  /** A descriptor's mark follows its block in and out. */
  lemma MarkOk(descs: map<DescId, BufferDesc>, blocks: map<Addr, Block>, out: set<Addr>, next: DescId, d: DescId, inUse: bool)
    requires DescsOk(descs, blocks, out, next) && d in descs
    ensures var p := descs[d].ptr;
      DescsOk(descs[d := descs[d].(inUse := inUse)], blocks, if inUse then out + {p} else out - {p}, next)
  {
  }

  lemma MarkKeepsOrder(order: seq<DescId>, descs: map<DescId, BufferDesc>, d: DescId, inUse: bool)
    requires OrderOk(order, descs) && d in descs
    ensures OrderOk(order, descs[d := descs[d].(inUse := inUse)])
  {
  }

  class BufferPool {
    var memory: map<Addr, Word>             // the header words
    var descs: map<DescId, BufferDesc>
    var order: seq<DescId>                  // the multimap from sizes to descriptors
    var nextDesc: DescId
    var consumption: int                    // what the environment has been told
    ghost var blocks: map<Addr, Block>
    ghost var out: set<Addr>                // what callers hold

    ghost predicate Valid()
      reads this
    {
      && BlocksOk(blocks, memory) && DescsOk(descs, blocks, out, nextDesc) && OrderOk(order, descs)
      && consumption == Allocated(blocks)
    }

    constructor ()
      ensures Valid() && out == {} && blocks == map[] && consumption == 0
    {
      memory, descs, order, nextDesc, consumption, blocks, out := map[], map[], [], 0, 0, map[], {};
    }

    method WriteHeader(aligned: Addr, total: nat, orig: Addr, user: Option<DescId>)
      modifies `memory
      ensures memory == WithHeader(old(memory), aligned, total, orig, user)
    {
      memory := memory[aligned - 5 * WORD := GuardWord];
      memory := memory[aligned - 4 * WORD := UserWord(user)];
      memory := memory[aligned - 3 * WORD := SizeWord(total)];
      memory := memory[aligned - 2 * WORD := PtrWord(orig)];
      memory := memory[aligned - 1 * WORD := GuardWord];
    }

    /** An allocation with its header in front of an aligned block. `orig` is malloc's answer. */
    method PrivateAlloc(nBytes: nat, alignment: nat, user: Option<DescId>, orig: Option<Addr>) returns (p: Option<Addr>)
      requires BlocksOk(blocks, memory) && consumption == Allocated(blocks)
      requires orig.Some? ==> Unused(blocks, orig.value, nBytes + Overhead(alignment))
      modifies `memory, `consumption, `blocks
      ensures BlocksOk(blocks, memory) && consumption == Allocated(blocks)
      ensures p.Some? <==> IsPower2(Effective(alignment)) && orig.Some?
      ensures p.None? ==> blocks == old(blocks)
      ensures p.Some? ==> NewBlock(old(blocks), blocks, p.value, nBytes, alignment) && blocks[p.value].user == user
      ensures p.Some? ==> p.value == BlockAddress(orig.value, alignment)
    {
      var align := Effective(alignment);
      if !IsPower2(align) {
        return None;
      }
      if orig.None? {
        return None;
      }
      var total := nBytes + Overhead(alignment);
      var aligned := BlockAddress(orig.value, alignment);
      ghost var b := Block(orig.value, total, nBytes, align, user);
      NewBlockPlaced(orig.value, nBytes, alignment, user);
      AlignedFor(alignment, alignment, aligned, b);
      NewBlockApart(blocks, memory, aligned, b);
      AllocatedWith(blocks, aligned, b);
      WriteHeader(aligned, total, orig.value, user);
      consumption := consumption + total;
      blocks := blocks[aligned := b];
      return Some(aligned);
    }

    /** Gives back the memory that the header names. */
    method PrivateFree(p: Addr)
      requires BlocksOk(blocks, memory) && consumption == Allocated(blocks) && p in blocks
      modifies `consumption, `blocks
      ensures BlocksOk(blocks, memory) && consumption == Allocated(blocks)
      ensures blocks == old(blocks) - {p}
    {
      assert HeaderOk(memory, p, blocks[p]);
      AllocatedWithout(blocks, p);
      var realSize := memory[p - 3 * WORD];
      consumption := consumption - realSize.size;
      assert memory[p - 2 * WORD] == PtrWord(blocks[p].orig);
      blocks := blocks - {p};
    }

    /** The first descriptor in the order whose size is at least nBytes: `lower_bound`. */
    method LowerBound(nBytes: nat) returns (i: nat)
      requires OrderOk(order, descs)
      ensures i <= |order|
      ensures forall j :: 0 <= j < i ==> descs[order[j]].size < nBytes
      ensures i < |order| ==> descs[order[i]].size >= nBytes
    {
      i := 0;
      while i < |order| && descs[order[i]].size < nBytes
        invariant i <= |order| && forall j :: 0 <= j < i ==> descs[order[j]].size < nBytes
      {
        i := i + 1;
      }
    }

    /** The smallest idle block of the pool that is large and aligned enough, if there is one. */
    method FindIdle(nBytes: nat, alignment: nat) returns (d: Option<DescId>)
      requires OrderOk(order, descs)
      ensures d.Some? ==> d.value in descs && Fits(descs[d.value], nBytes, alignment)
      ensures d.Some? ==> forall e :: e in descs && Fits(descs[e], nBytes, alignment) ==> descs[d.value].size <= descs[e].size
      ensures d.None? ==> forall e :: e in descs ==> !Fits(descs[e], nBytes, alignment)
    {
      var i := LowerBound(nBytes);
      while i < |order|
        invariant i <= |order| && (i < |order| ==> descs[order[i]].size >= nBytes)
        invariant forall j :: 0 <= j < i ==> !Fits(descs[order[j]], nBytes, alignment)
      {
        if !descs[order[i]].inUse && descs[order[i]].alignment >= alignment {
          BestFit(order, descs, i, nBytes, alignment);
          return Some(order[i]);
        }
        i := i + 1;
      }
      return None;
    }

    /** `Map.emplace`: behind all descriptors of the same size. */
    method Emplace(d: DescId, size: nat)
      requires Members(order, descs - {d}) && NoDuplicates(order) && Sorted(order, descs)
      requires d in descs && descs[d].size == size && d !in order
      modifies `order
      ensures OrderOk(order, descs)
    {
      var i := 0;
      while i < |order| && descs[order[i]].size <= size
        invariant i <= |order| && forall j :: 0 <= j < i ==> SizeOf(descs, order[j]) <= size
      {
        i := i + 1;
      }
      InsertKeepsOrder(order, descs, d, i);
      order := order[..i] + [d] + order[i..];
    }

    /** A block of the pool goes out again. */
    method TakeIdle(d: DescId)
      requires Valid() && d in descs && !descs[d].inUse
      modifies `descs, `out
      ensures Valid()
      ensures d in descs && descs == old(descs)[d := old(descs)[d].(inUse := true)]
      ensures descs[d].ptr !in old(out) && out == old(out) + {descs[d].ptr}
    {
      MarkOk(descs, blocks, out, nextDesc, d, true);
      MarkKeepsOrder(order, descs, d, true);
      out := out + {descs[d].ptr};
      descs := descs[d := descs[d].(inUse := true)];
    }

    /** The block at p belongs to the pool and can serve such requests whenever it is idle. */
    ghost predicate Pooled(p: Addr, nBytes: nat, alignment: nat)
      reads this
    {
      exists d :: d in descs && descs[d].ptr == p && descs[d].size >= nBytes && descs[d].alignment >= alignment
    }

    method AllocatePooled(nBytes: nat, alignment: nat, orig: Option<Addr>) returns (p: Option<Addr>)
      requires Valid()
      requires orig.Some? ==> Unused(blocks, orig.value, nBytes + Overhead(alignment))
      modifies this
      ensures Valid()
      ensures p.None? ==> out == old(out) && blocks == old(blocks)
      ensures p.Some? <==> IsPower2(Effective(alignment)) && orig.Some?
      ensures p.Some? ==> p.value !in old(blocks) && out == old(out) + {p.value} && p.value == BlockAddress(orig.value, alignment)
      ensures p.Some? ==> NewBlock(old(blocks), blocks, p.value, nBytes, alignment)
      ensures p.Some? ==> blocks[p.value].user.Some? && Pooled(p.value, nBytes, alignment)
    {
      var d := nextDesc;
      p := PrivateAlloc(nBytes, alignment, Some(d), orig);
      if p.None? {
        return;
      }
      NewPooledOk(descs, old(blocks), out, d, p.value, blocks[p.value], alignment);
      OrderExtended(order, descs, d, BufferDesc(p.value, nBytes, alignment, true));
      nextDesc := nextDesc + 1;
      descs := descs[d := BufferDesc(p.value, nBytes, alignment, true)];
      out := out + {p.value};
      assert descs[d].ptr == p.value && descs[d].size >= nBytes && descs[d].alignment >= alignment;
      Emplace(d, nBytes);
    }

    method AllocatePlain(nBytes: nat, alignment: nat, orig: Option<Addr>) returns (p: Option<Addr>)
      requires Valid()
      requires orig.Some? ==> Unused(blocks, orig.value, nBytes + Overhead(alignment))
      modifies this
      ensures Valid()
      ensures p.None? ==> out == old(out) && blocks == old(blocks)
      ensures p.Some? <==> IsPower2(Effective(alignment)) && orig.Some?
      ensures p.Some? ==> p.value !in old(blocks) && out == old(out) + {p.value} && p.value == BlockAddress(orig.value, alignment)
      ensures p.Some? ==> NewBlock(old(blocks), blocks, p.value, nBytes, alignment) && blocks[p.value].user == None
    {
      p := PrivateAlloc(nBytes, alignment, None, orig);
      if p.Some? {
        NewPlainOk(descs, old(blocks), out, nextDesc, p.value, blocks[p.value]);
        out := out + {p.value};
      }
    }

    /** An idle block of the pool, if one fits; otherwise a new one, if the allocator takes the alignment and malloc
        has the memory. Nothing else decides. */
    method Allocate(nBytes: nat, alignment: nat, pool: bool, orig: Option<Addr>) returns (p: Option<Addr>)
      requires Valid()
      requires orig.Some? ==> Unused(blocks, orig.value, nBytes + Overhead(alignment))
      modifies this
      ensures Valid()
      ensures var idle := pool && exists d :: d in old(descs) && Fits(old(descs)[d], nBytes, alignment);
        && (p.Some? <==> idle || (IsPower2(Effective(alignment)) && orig.Some?))
        && (p.Some? && !idle ==> p.value == BlockAddress(orig.value, alignment))
      ensures p.None? ==> out == old(out) && blocks == old(blocks)
      ensures p.Some? ==> p.value !in old(out) && out == old(out) + {p.value}
      ensures p.Some? ==> p.value in blocks && blocks[p.value].size >= nBytes && Placed(p.value, blocks[p.value])
      ensures p.Some? && IsPower2(alignment) ==> p.value % alignment == 0
      ensures blocks == old(blocks) || (p.Some? && NewBlock(old(blocks), blocks, p.value, nBytes, alignment))
      ensures pool && (exists d :: d in old(descs) && Fits(old(descs)[d], nBytes, alignment)) ==> p.Some? && blocks == old(blocks)
      ensures p.Some? ==> (blocks[p.value].user.Some? <==> pool)
      ensures p.Some? && pool ==> Pooled(p.value, nBytes, alignment)
    {
      if pool {
        var idle := FindIdle(nBytes, alignment);
        if idle.Some? {
          var d := idle.value;
          p := Some(descs[d].ptr);
          AlignedFor(alignment, descs[d].alignment, descs[d].ptr, blocks[descs[d].ptr]);
          assert blocks[descs[d].ptr].user == Some(d);
          TakeIdle(d);
        } else {
          p := AllocatePooled(nBytes, alignment, orig);
        }
      } else {
        p := AllocatePlain(nBytes, alignment, orig);
      }
    }

    method MarkIdle(d: DescId)
      requires Valid() && d in descs && descs[d].inUse
      modifies `descs, `out
      ensures Valid() && out == old(out) - {old(descs)[d].ptr}
      ensures descs == old(descs)[d := old(descs)[d].(inUse := false)]
    {
      MarkOk(descs, blocks, out, nextDesc, d, false);
      MarkKeepsOrder(order, descs, d, false);
      out := out - {descs[d].ptr};
      descs := descs[d := descs[d].(inUse := false)];
    }

    method FreePlain(p: Addr)
      requires Valid() && p in blocks && blocks[p].user == None
      modifies `consumption, `blocks, `out
      ensures Valid() && out == old(out) - {p} && blocks == old(blocks) - {p}
    {
      PlainGoneOk(descs, blocks, out, nextDesc, p);
      PrivateFree(p);
      out := out - {p};
    }

    /** A null pointer is accepted; a pooled block stays allocated, any other is given back. */
    method Free(p: Option<Addr>)
      requires Valid() && (p.Some? ==> p.value in out)
      modifies this
      ensures Valid()
      ensures p.None? ==> out == old(out) && blocks == old(blocks)
      ensures p.Some? ==> out == old(out) - {p.value} && p.value in old(blocks)
      ensures p.Some? && p.value in old(blocks) ==>
                blocks == if old(blocks)[p.value].user.Some? then old(blocks) else old(blocks) - {p.value}
      ensures forall d :: d in descs <==> d in old(descs)
      ensures forall d :: d in descs ==>
                descs[d] == old(descs)[d].(inUse := old(descs)[d].inUse && Some(old(descs)[d].ptr) != p)
    {
      if p.None? {
        return;
      }
      assert HeaderOk(memory, p.value, blocks[p.value]);
      var data := memory[p.value - 4 * WORD].user;
      assert forall d :: d in descs && descs[d].ptr == p.value ==> data == Some(d);
      if data.Some? {
        MarkIdle(data.value);
      } else {
        FreePlain(p.value);
      }
    }

    /** The first i descriptors of the pool have lost their blocks. */
    ghost predicate DestroyedUpTo(i: nat, before: map<Addr, Block>)
      requires i <= |order|
      reads this
    {
      && (forall p :: p in blocks <==> p in before && Remains(order, descs, i, p))
      && (forall p :: p in blocks ==> blocks[p] == before[p])
    }

    method FreeNext(i: nat, ghost before: map<Addr, Block>)
      requires BlocksOk(blocks, memory) && consumption == Allocated(blocks)
      requires i < |order| && DestroyedUpTo(i, before)
      requires order[i] in descs && descs[order[i]].ptr in before && Remains(order, descs, i, descs[order[i]].ptr)
      modifies `consumption, `blocks
      ensures BlocksOk(blocks, memory) && consumption == Allocated(blocks)
      ensures DestroyedUpTo(i + 1, before)
    {
      RemainsStep(order, descs, i);
      PrivateFree(descs[order[i]].ptr);
    }

    /** The destructor gives back every block of the pool, in use or not. */
    method Destroy()
      requires Valid()
      modifies this
      ensures consumption == Allocated(blocks)
      ensures forall p :: p in blocks <==> p in old(blocks) && old(blocks)[p].user == None
      ensures forall p :: p in blocks ==> blocks[p] == old(blocks)[p]
    {
      StillThere(order, descs, blocks, out, nextDesc);
      AllPooledGone(order, descs, blocks, out, nextDesc);
      FreeAll(blocks);
    }

    method FreeAll(ghost before: map<Addr, Block>)
      requires BlocksOk(blocks, memory) && consumption == Allocated(blocks) && before == blocks
      requires forall i :: 0 <= i < |order| ==>
        order[i] in descs && descs[order[i]].ptr in before && Remains(order, descs, i, descs[order[i]].ptr)
      modifies `consumption, `blocks
      ensures consumption == Allocated(blocks) && DestroyedUpTo(|order|, before)
    {
      var i := 0;
      while i < |order|
        invariant i <= |order| && BlocksOk(blocks, memory) && consumption == Allocated(blocks)
        invariant DestroyedUpTo(i, before)
      {
        FreeNext(i, before);
        i := i + 1;
      }
    }
  }

  /** What the pool is for: a block that has been allocated from it and freed serves the next request that is no larger
      and no more strictly aligned, without malloc. */
  method UseAndReuse(pool: BufferPool, nBytes: nat, alignment: nat, orig: Option<Addr>, fewerBytes: nat, lessAlignment: nat)
    returns (first: Option<Addr>, second: Option<Addr>)
    requires pool.Valid() && fewerBytes <= nBytes && lessAlignment <= alignment
    requires orig.Some? ==> Unused(pool.blocks, orig.value, nBytes + Overhead(alignment))
    modifies pool
    ensures pool.Valid()
    ensures first.Some? ==> second.Some? && second.value !in old(pool.out) && pool.out == old(pool.out) + {second.value}
    ensures first.Some? ==> pool.blocks == old(pool.blocks) || NewBlock(old(pool.blocks), pool.blocks, first.value, nBytes, alignment)
    ensures first.Some? ==> second.value in pool.blocks && pool.blocks[second.value].user.Some?
  {
    second := None;
    ghost var out := pool.out;
    first := pool.Allocate(nBytes, alignment, true, orig);
    if first.Some? {
      OutAndIn(out, first.value);
      FreePooled(pool, first.value, nBytes, alignment, fewerBytes, lessAlignment);
      second := pool.Allocate(fewerBytes, lessAlignment, true, None);
    }
  }

  lemma OutAndIn(out: set<Addr>, p: Addr)
    requires p !in out
    ensures out + {p} - {p} == out
  {
  }

  /** A freed block of the pool is there to be found. */
  method FreePooled(pool: BufferPool, p: Addr, nBytes: nat, alignment: nat, fewerBytes: nat, lessAlignment: nat)
    requires pool.Valid() && p in pool.out && pool.Pooled(p, nBytes, alignment)
    requires fewerBytes <= nBytes && lessAlignment <= alignment
    modifies pool
    ensures pool.Valid() && pool.out == old(pool.out) - {p} && pool.blocks == old(pool.blocks)
    ensures exists d :: d in pool.descs && Fits(pool.descs[d], fewerBytes, lessAlignment)
  {
    ghost var d :| d in pool.descs && pool.descs[d].ptr == p && pool.descs[d].size >= nBytes && pool.descs[d].alignment >= alignment;
    assert pool.blocks[p].user == Some(d);
    pool.Free(Some(p));
    assert Fits(pool.descs[d], fewerBytes, lessAlignment);
  }

  /** From a pool without blocks of its own it is the same block. */
  method SameBlockAgain(pool: BufferPool, nBytes: nat, alignment: nat, orig: Option<Addr>) returns (first: Option<Addr>, second: Option<Addr>)
    requires pool.Valid() && (forall p :: p in pool.blocks ==> pool.blocks[p].user == None)
    requires orig.Some? ==> Unused(pool.blocks, orig.value, nBytes + Overhead(alignment))
    modifies pool
    ensures pool.Valid() && (first.Some? ==> second == first)
  {
    ghost var before := pool.blocks;
    assert forall p :: p in before ==> before[p].user == None;
    first, second := UseAndReuse(pool, nBytes, alignment, orig, nBytes, alignment);
  }

  lemma PlainGoneOk(descs: map<DescId, BufferDesc>, blocks: map<Addr, Block>, out: set<Addr>, next: DescId, p: Addr)
    requires DescsOk(descs, blocks, out, next) && p in blocks && blocks[p].user == None
    ensures DescsOk(descs, blocks - {p}, out - {p}, next)
  {
  }

  /** Not the block of one of the first i descriptors. */
  ghost predicate Remains(order: seq<DescId>, descs: map<DescId, BufferDesc>, i: nat, p: Addr)
    requires i <= |order|
  {
    forall j :: 0 <= j < i && order[j] in descs ==> descs[order[j]].ptr != p
  }

  lemma RemainsStep(order: seq<DescId>, descs: map<DescId, BufferDesc>, i: nat)
    requires i < |order| && order[i] in descs
    ensures forall p :: Remains(order, descs, i + 1, p) <==> Remains(order, descs, i, p) && p != descs[order[i]].ptr
  {
  }

  lemma StillThere(order: seq<DescId>, descs: map<DescId, BufferDesc>, blocks: map<Addr, Block>, out: set<Addr>, next: DescId)
    requires OrderOk(order, descs) && DescsOk(descs, blocks, out, next)
    ensures forall i :: 0 <= i < |order| ==>
      order[i] in descs && descs[order[i]].ptr in blocks && Remains(order, descs, i, descs[order[i]].ptr)
  {
    forall i, j | 0 <= j < i < |order| ensures descs[order[j]].ptr != descs[order[i]].ptr {
      assert order[j] in descs && order[i] in descs;
      assert blocks[descs[order[j]].ptr].user == Some(order[j]) && blocks[descs[order[i]].ptr].user == Some(order[i]);
    }
    forall i | 0 <= i < |order|
      ensures order[i] in descs && descs[order[i]].ptr in blocks && Remains(order, descs, i, descs[order[i]].ptr)
    {
      assert order[i] in descs;
      assert forall j :: 0 <= j < i && order[j] in descs ==> descs[order[j]].ptr != descs[order[i]].ptr;
    }
  }

  lemma AllPooledGone(order: seq<DescId>, descs: map<DescId, BufferDesc>, blocks: map<Addr, Block>, out: set<Addr>, next: DescId)
    requires OrderOk(order, descs) && DescsOk(descs, blocks, out, next)
    ensures forall p :: p in blocks ==> (Remains(order, descs, |order|, p) <==> blocks[p].user == None)
  {
    forall p | p in blocks ensures Remains(order, descs, |order|, p) <==> blocks[p].user == None {
      if blocks[p].user.Some? {
        var d := blocks[p].user.value;
        assert d in order;
        var j :| 0 <= j < |order| && order[j] == d;
        assert descs[order[j]].ptr == p;
      }
    }
  }

  lemma BestFit(order: seq<DescId>, descs: map<DescId, BufferDesc>, i: nat, nBytes: nat, alignment: nat)
    requires OrderOk(order, descs) && i < |order|
    requires forall j :: 0 <= j < i ==> !Fits(descs[order[j]], nBytes, alignment)
    ensures forall e :: e in descs && Fits(descs[e], nBytes, alignment) ==> descs[order[i]].size <= descs[e].size
  {
    forall e | e in descs && Fits(descs[e], nBytes, alignment) ensures descs[order[i]].size <= descs[e].size {
      assert e in order;
      var j :| 0 <= j < |order| && order[j] == e;
      assert j >= i;
      assert SizeOf(descs, order[i]) <= SizeOf(descs, order[j]);
    }
  }

  lemma InsertMembers(order: seq<DescId>, d: DescId, i: nat)
    requires i <= |order|
    ensures forall e :: e in order || e == d ==> e in order[..i] + [d] + order[i..]
  {
    var r := order[..i] + [d] + order[i..];
    forall e | e in order || e == d ensures e in r {
      if e == d {
        assert r[i] == d;
      } else {
        var j :| 0 <= j < |order| && order[j] == e;
        assert r[if j < i then j else j + 1] == e;
      }
    }
  }

  lemma InsertIndex(order: seq<DescId>, d: DescId, i: nat)
    requires i <= |order|
    ensures var r := order[..i] + [d] + order[i..];
      forall j :: 0 <= j < |r| ==> r[j] == if j < i then order[j] else if j == i then d else order[j - 1]
  {
  }

  lemma InsertSorted(order: seq<DescId>, descs: map<DescId, BufferDesc>, d: DescId, i: nat)
    requires i <= |order| && Sorted(order, descs)
    requires forall j :: 0 <= j < i ==> SizeOf(descs, order[j]) <= SizeOf(descs, d)
    requires i < |order| ==> SizeOf(descs, d) <= SizeOf(descs, order[i])
    ensures Sorted(order[..i] + [d] + order[i..], descs)
  {
    InsertIndex(order, d, i);
    assert forall j :: i <= j < |order| ==> SizeOf(descs, d) <= SizeOf(descs, order[j]);
  }

  lemma InsertNoDuplicates(order: seq<DescId>, d: DescId, i: nat)
    requires i <= |order| && NoDuplicates(order) && d !in order
    ensures NoDuplicates(order[..i] + [d] + order[i..])
  {
    InsertIndex(order, d, i);
  }

  lemma InsertKeepsOrder(order: seq<DescId>, descs: map<DescId, BufferDesc>, d: DescId, i: nat)
    requires Members(order, descs - {d}) && NoDuplicates(order) && Sorted(order, descs) && d in descs && d !in order && i <= |order|
    requires forall j :: 0 <= j < i ==> SizeOf(descs, order[j]) <= SizeOf(descs, d)
    requires i < |order| ==> SizeOf(descs, d) <= SizeOf(descs, order[i])
    ensures OrderOk(order[..i] + [d] + order[i..], descs)
  {
    InsertMembers(order, d, i);
    InsertIndex(order, d, i);
    InsertSorted(order, descs, d, i);
    InsertNoDuplicates(order, d, i);
    assert forall e :: e in descs && e != d ==> e in descs - {d};
  }

  /** A new descriptor does not disturb the order of the others. */
  lemma OrderExtended(order: seq<DescId>, descs: map<DescId, BufferDesc>, d: DescId, x: BufferDesc)
    requires OrderOk(order, descs) && d !in descs
    ensures d !in order && descs[d := x] - {d} == descs && Sorted(order, descs[d := x])
  {
    forall i | 0 <= i < |order| ensures SizeOf(descs[d := x], order[i]) == SizeOf(descs, order[i]) {
      assert order[i] in descs;
    }
  }
}
