/**
 The external memory allocator of kernel/kernel/externalMemory.cpp, on its
 list of blocks: first fit with splitting, and release with coalescing on both
 sides.  The list is a canonical function of the allocated blocks, which gives
 the algebra of malloc and free.
 */
module BlockList {
  import opened Common

  datatype Block = Block(base: nat, size: nat, used: bool)

  // ---------------------------------------------------------------------
  // The two operations
  // ---------------------------------------------------------------------

  predicate Fits(b: Block, n: nat) { !b.used && b.size >= n }

  /** Index of the first block that fits, or |bs|. */
  function FirstFit(bs: seq<Block>, n: nat): (i: nat)
    ensures i <= |bs|
    ensures forall j | 0 <= j < i :: !Fits(bs[j], n)
    ensures i < |bs| ==> Fits(bs[i], n)
  {
    if bs == [] || Fits(bs[0], n) then 0 else 1 + FirstFit(bs[1..], n)
  }

  /** The list after malloc(n), and the address handed out. */
  function Malloc(bs: seq<Block>, n: nat, blockSize: nat): (Option<nat>, seq<Block>) {
    var i := FirstFit(bs, n);
    if i == |bs| then (None, bs)
    else
      var b := bs[i];
      if b.size - n >= blockSize then
        (Some(b.base), bs[..i] + [Block(b.base, n, true), Block(b.base + n, b.size - n, false)] + bs[i + 1..])
      else (Some(b.base), bs[..i] + [b.(used := true)] + bs[i + 1..])
  }

  /** Index of the first block with the given base, or |bs|. */
  function IndexOf(bs: seq<Block>, base: nat): (i: nat)
    ensures i <= |bs|
    ensures forall j | 0 <= j < i :: bs[j].base != base
    ensures i < |bs| ==> bs[i].base == base
  {
    if bs == [] || bs[0].base == base then 0 else 1 + IndexOf(bs[1..], base)
  }

  predicate FreeAt(bs: seq<Block>, i: int) { 0 <= i < |bs| && !bs[i].used }

  /** The list after free(base): block i and its free neighbours become one. */
  function Free(bs: seq<Block>, base: nat): seq<Block> {
    var i := IndexOf(bs, base);
    if i == |bs| then bs else Coalesce(bs, i)
  }

  function Coalesce(bs: seq<Block>, i: nat): seq<Block>
    requires i < |bs|
  {
    var first := if FreeAt(bs, i - 1) then i - 1 else i;
    var rest := if FreeAt(bs, i + 1) then i + 2 else i + 1;
    bs[..first] + [Block(bs[first].base, SumSizes(bs[first..rest]), false)] + bs[rest..]
  }

  /** Block i takes over the bytes of block i+1. */
  function Absorb(bs: seq<Block>, i: nat): (r: seq<Block>)
    requires i + 1 < |bs|
    ensures |r| == |bs| - 1
    ensures forall j | 0 <= j < i :: r[j] == bs[j]
    ensures r[i] == bs[i].(size := bs[i].size + bs[i + 1].size)
    ensures forall j {:trigger r[j]} | i < j < |r| :: r[j] == bs[j + 1]
  {
    bs[..i] + [bs[i].(size := bs[i].size + bs[i + 1].size)] + bs[i + 2..]
  }

  /** Coalescing one neighbour at a time, the next one first. */
  lemma CoalesceSteps(bs: seq<Block>, i: nat)
    requires i < |bs|
    ensures var marked := bs[i := bs[i].(used := false)];
            var right := if FreeAt(marked, i + 1) then Absorb(marked, i) else marked;
            Coalesce(bs, i) == if FreeAt(right, i - 1) then Absorb(right, i - 1) else right
  {
    hide Absorb;
    var first := if FreeAt(bs, i - 1) then i - 1 else i;
    var rest := if FreeAt(bs, i + 1) then i + 2 else i + 1;
    SumOfFew(bs[first..rest]);
  }

  lemma SumOfFew(m: seq<Block>)
    requires 1 <= |m| <= 3
    ensures SumSizes(m) == m[0].size + (if |m| > 1 then m[1].size else 0) + (if |m| > 2 then m[2].size else 0)
  {
    assert |m| > 1 ==> m[1..][1..] == m[2..];
    assert |m| > 2 ==> m[2..][1..] == m[3..];
  }

  function SumSizes(bs: seq<Block>): nat {
    if bs == [] then 0 else bs[0].size + SumSizes(bs[1..])
  }

  // ---------------------------------------------------------------------
  // The invariant
  // ---------------------------------------------------------------------

  /** The blocks tile [lo, hi) in address order with positive sizes, and no
      two neighbours are both free (afterFree: a free block precedes). */
  ghost predicate Chain(bs: seq<Block>, lo: nat, hi: nat, afterFree: bool) {
    if bs == [] then lo == hi
    else
      && bs[0].base == lo && bs[0].size > 0
      && !(afterFree && !bs[0].used)
      && Chain(bs[1..], lo + bs[0].size, hi, !bs[0].used)
  }

  /** What the constructor builds. */
  function Initial(base: nat, size: nat): seq<Block> { [Block(base, size, false)] }

  lemma InitialChain(base: nat, size: nat)
    requires size > 0
    ensures Chain(Initial(base, size), base, base + size, false)
  {
    assert Initial(base, size)[1..] == [];
  }

  ghost function Live(bs: seq<Block>): set<Block> { set b | b in bs && b.used }

  function Start(bs: seq<Block>, i: nat, hi: nat): nat { if i < |bs| then bs[i].base else hi }

  lemma {:induction false} ChainSplit(bs: seq<Block>, lo: nat, hi: nat, f: bool, i: nat)
    requires Chain(bs, lo, hi, f) && i <= |bs|
    ensures lo <= Start(bs, i, hi) <= hi
    ensures Chain(bs[..i], lo, Start(bs, i, hi), f)
    ensures Chain(bs[i..], Start(bs, i, hi), hi, if i == 0 then f else !bs[i - 1].used)
  {
    if i > 0 {
      ChainSplit(bs[1..], lo + bs[0].size, hi, !bs[0].used, i - 1);
      assert bs[..i][1..] == bs[1..][..i - 1];
      assert bs[1..][i - 1..] == bs[i..];
    } else {
      assert bs[..0] == [] && bs[0..] == bs;
      if bs != [] { ChainSplit(bs[1..], lo + bs[0].size, hi, !bs[0].used, 0); }
    }
  }

  lemma {:induction false} ChainJoin(a: seq<Block>, b: seq<Block>, lo: nat, mid: nat, hi: nat, f: bool)
    requires Chain(a, lo, mid, f)
    requires Chain(b, mid, hi, if a == [] then f else !a[|a| - 1].used)
    ensures Chain(a + b, lo, hi, f)
  {
    if a == [] {
      assert a + b == b;
    } else {
      ChainJoin(a[1..], b, lo + a[0].size, mid, hi, !a[0].used);
      assert (a + b)[1..] == a[1..] + b;
    }
  }

  /** Blocks lie in [lo, hi), in order and apart. */
  lemma {:induction false} ChainBounds(bs: seq<Block>, lo: nat, hi: nat, f: bool)
    requires Chain(bs, lo, hi, f)
    ensures lo <= hi
    ensures forall j | 0 <= j < |bs| :: lo <= bs[j].base && bs[j].size > 0 && bs[j].base + bs[j].size <= hi
    ensures forall j, k | 0 <= j < k < |bs| :: bs[j].base + bs[j].size <= bs[k].base
    ensures forall j | 0 <= j < |bs| - 1 :: bs[j].base + bs[j].size == bs[j + 1].base && (bs[j].used || bs[j + 1].used)
    ensures SumSizes(bs) == hi - lo
  {
    if bs != [] {
      var t := bs[1..];
      ChainBounds(t, lo + bs[0].size, hi, !bs[0].used);
      assert forall j | 0 < j < |bs| :: bs[j] == t[j - 1];
    }
  }

  /** The list is determined by its allocated blocks. */
  lemma {:induction false} Canonical(a: seq<Block>, b: seq<Block>, lo: nat, hi: nat, f: bool)
    requires Chain(a, lo, hi, f) && Chain(b, lo, hi, f)
    requires Live(a) == Live(b)
    ensures a == b
  {
    ChainBounds(a, lo, hi, f);
    ChainBounds(b, lo, hi, f);
    if a == [] || b == [] {
      assert a == b;
    } else {
      SameHead(a, b, lo, hi, f);
      SameHead(b, a, lo, hi, f);
      LiveTail(a);
      LiveTail(b);
      Canonical(a[1..], b[1..], lo + a[0].size, hi, !a[0].used);
      assert a == [a[0]] + a[1..] && b == [b[0]] + b[1..];
    }
  }

  /** An allocated head is shared; a free head is at least as long. */
  lemma SameHead(a: seq<Block>, b: seq<Block>, lo: nat, hi: nat, f: bool)
    requires a != [] && b != [] && Chain(a, lo, hi, f) && Chain(b, lo, hi, f)
    requires Live(a) == Live(b)
    ensures a[0].used ==> a[0] == b[0]
    ensures !a[0].used && !b[0].used ==> b[0].size <= a[0].size
  {
    ChainBounds(a, lo, hi, f);
    ChainBounds(b, lo, hi, f);
    if a[0].used {
      assert a[0] in Live(b);
      var j :| 0 <= j < |b| && b[j] == a[0];
      assert j == 0;
    } else if !b[0].used {
      if |a| > 1 {
        assert a[1] in Live(b);
        var j :| 0 <= j < |b| && b[j] == a[1];
        assert j > 0;
      } else {
        assert a[1..] == [];
      }
    }
  }

  /** Blocks with positive sizes in order are distinct. */
  lemma LiveTail(a: seq<Block>)
    requires a != [] && forall j | 0 < j < |a| :: a[j] != a[0]
    ensures Live(a[1..]) == Live(a) - {a[0]}
  {
    assert forall b | b in a :: b == a[0] || b in a[1..];
    assert a[0] !in a[1..];
  }

  // ---------------------------------------------------------------------
  // free
  // ---------------------------------------------------------------------

  /** A free block in the middle, between lists that do not touch it with
      another free block. */
  lemma Splice(a: seq<Block>, m: seq<Block>, c: seq<Block>, lo: nat, p: nat, q: nat, hi: nat, f: bool)
    requires Chain(a, lo, p, f) && m != []
    requires Chain(m, p, q, if a == [] then f else !a[|a| - 1].used)
    requires Chain(c, q, hi, !m[|m| - 1].used)
    ensures Chain(a + m + c, lo, hi, f)
  {
    ChainJoin(a, m, lo, p, q, f);
    ChainJoin(a + m, c, lo, q, hi, f);
  }

  lemma SumSizesRange(bs: seq<Block>, lo: nat, hi: nat, f: bool, i: nat, j: nat)
    requires Chain(bs, lo, hi, f) && i <= j <= |bs|
    ensures Start(bs, i, hi) + SumSizes(bs[i..j]) == Start(bs, j, hi)
  {
    ChainSplit(bs, lo, hi, f, i);
    var t, g := bs[i..], if i == 0 then f else !bs[i - 1].used;
    ChainSplit(t, Start(bs, i, hi), hi, g, j - i);
    assert t[..j - i] == bs[i..j];
    hide Chain;
    ChainBounds(bs[i..j], Start(bs, i, hi), Start(bs, j, hi), g);
  }

  /** Releasing block i leaves a chain; its free neighbours are absorbed. */
  lemma CoalesceChain(bs: seq<Block>, lo: nat, hi: nat, i: nat)
    requires Chain(bs, lo, hi, false) && i < |bs|
    ensures Chain(Coalesce(bs, i), lo, hi, false)
  {
    ChainBounds(bs, lo, hi, false);
    var first := if FreeAt(bs, i - 1) then i - 1 else i;
    var rest := if FreeAt(bs, i + 1) then i + 2 else i + 1;
    assert first > 0 ==> bs[first - 1].used;
    assert rest < |bs| ==> bs[rest - 1].used || bs[rest].used;
    FuseChain(bs, lo, hi, first, rest);
  }

  /** Replacing the blocks first .. rest-1 by one free block. */
  lemma FuseChain(bs: seq<Block>, lo: nat, hi: nat, first: nat, rest: nat)
    requires Chain(bs, lo, hi, false) && first < rest <= |bs|
    requires first > 0 ==> bs[first - 1].used
    requires rest < |bs| ==> bs[rest].used
    ensures Chain(bs[..first] + [Block(bs[first].base, SumSizes(bs[first..rest]), false)] + bs[rest..], lo, hi, false)
  {
    ChainSplit(bs, lo, hi, false, first);
    ChainSplit(bs, lo, hi, false, rest);
    SumSizesRange(bs, lo, hi, false, first, rest);
    var m := [Block(bs[first].base, SumSizes(bs[first..rest]), false)];
    var p, q := Start(bs, first, hi), Start(bs, rest, hi);
    assert bs[first..rest][0] == bs[first];
    assert m[1..] == [];
    AllUsedOrFree(bs[rest..], q, hi);
    Splice(bs[..first], m, bs[rest..], lo, p, q, hi, false);
  }

  /** A list whose head is not free may follow a free block. */
  lemma AllUsedOrFree(bs: seq<Block>, lo: nat, hi: nat)
    requires bs != [] ==> bs[0].used
    ensures Chain(bs, lo, hi, false) == Chain(bs, lo, hi, true)
  {
  }

  lemma CoalesceLive(bs: seq<Block>, i: nat)
    requires i < |bs| && forall j, k | 0 <= j < k < |bs| :: bs[j].base < bs[k].base
    ensures Live(Coalesce(bs, i)) == set b | b in Live(bs) && b.base != bs[i].base
  {
    var c := Coalesce(bs, i);
    forall b | b in bs && b.used && b.base != bs[i].base ensures b in c {
      var j :| 0 <= j < |bs| && bs[j] == b;
    }
  }

  /** free(base) keeps the invariant and removes exactly the allocated block
      with that base, if there is one. */
  lemma FreeSpec(bs: seq<Block>, lo: nat, hi: nat, base: nat)
    requires Chain(bs, lo, hi, false)
    ensures Chain(Free(bs, base), lo, hi, false)
    ensures Live(Free(bs, base)) == set b | b in Live(bs) && b.base != base
  {
    ChainBounds(bs, lo, hi, false);
    var i := IndexOf(bs, base);
    if i < |bs| {
      CoalesceChain(bs, lo, hi, i);
      CoalesceLive(bs, i);
    }
  }

  /** The order of two releases does not matter. */
  lemma FreesCommute(bs: seq<Block>, lo: nat, hi: nat, a: nat, b: nat)
    requires Chain(bs, lo, hi, false)
    ensures Free(Free(bs, a), b) == Free(Free(bs, b), a)
  {
    FreeSpec(bs, lo, hi, a);
    FreeSpec(bs, lo, hi, b);
    FreeSpec(Free(bs, a), lo, hi, b);
    FreeSpec(Free(bs, b), lo, hi, a);
    Canonical(Free(Free(bs, a), b), Free(Free(bs, b), a), lo, hi, false);
  }

  /** A release that names no allocated block changes nothing: a second free,
      or an address that was never handed out. */
  lemma IdleFree(bs: seq<Block>, lo: nat, hi: nat, base: nat)
    requires Chain(bs, lo, hi, false)
    ensures Free(bs, base) == bs <==> forall b | b in Live(bs) :: b.base != base
  {
    FreeSpec(bs, lo, hi, base);
    if forall b | b in Live(bs) :: b.base != base {
      Canonical(Free(bs, base), bs, lo, hi, false);
    }
  }

  function FreeAll(bs: seq<Block>, bases: seq<nat>): seq<Block>
    decreases |bases|
  {
    if bases == [] then bs else FreeAll(Free(bs, bases[0]), bases[1..])
  }

  /** Releasing every live block, in any order and with any further
      addresses in between, leads back to the initial list. */
  lemma {:induction false} FreeAllRestores(bs: seq<Block>, lo: nat, hi: nat, bases: seq<nat>)
    requires Chain(bs, lo, hi, false) && lo < hi
    requires forall b | b in Live(bs) :: b.base in bases
    ensures FreeAll(bs, bases) == Initial(lo, hi - lo)
    decreases |bases|
  {
    if bases == [] {
      InitialChain(lo, hi - lo);
      Canonical(bs, Initial(lo, hi - lo), lo, hi, false);
    } else {
      FreeSpec(bs, lo, hi, bases[0]);
      FreeAllRestores(Free(bs, bases[0]), lo, hi, bases[1..]);
    }
  }

  // ---------------------------------------------------------------------
  // malloc
  // ---------------------------------------------------------------------

  /** What malloc does to the block it picks. */
  function Carve(b: Block, n: nat, blockSize: nat): seq<Block>
    requires b.size >= n
  {
    if b.size - n >= blockSize then [Block(b.base, n, true), Block(b.base + n, b.size - n, false)]
    else [b.(used := true)]
  }

  lemma MallocIsCarve(bs: seq<Block>, n: nat, blockSize: nat)
    ensures var i := FirstFit(bs, n);
            i < |bs| ==> Malloc(bs, n, blockSize) == (Some(bs[i].base), bs[..i] + Carve(bs[i], n, blockSize) + bs[i + 1..])
  {
  }

  /** malloc keeps the invariant exactly if it does not split a block at one
      of its ends: always for n >= 1 and blockSize >= 1. */
  lemma MallocChainIff(bs: seq<Block>, lo: nat, hi: nat, n: nat, blockSize: nat)
    requires Chain(bs, lo, hi, false)
    ensures var i := FirstFit(bs, n);
            Chain(Malloc(bs, n, blockSize).1, lo, hi, false) <==>
            (i < |bs| && bs[i].size - n >= blockSize ==> 0 < n < bs[i].size)
  {
    hide Malloc;
    var i := FirstFit(bs, n);
    MallocIsCarve(bs, n, blockSize);
    if i == |bs| {
      MallocFails(bs, n, blockSize);
    } else if bs[i].size - n >= blockSize ==> 0 < n < bs[i].size {
      CarveChain(bs, lo, hi, i, n, blockSize);
    } else {
      var c := Carve(bs[i], n, blockSize);
      var after := bs[..i] + c + bs[i + 1..];
      assert after[i] == c[0] && after[i + 1] == c[1];
      if Chain(after, lo, hi, false) { ChainBounds(after, lo, hi, false); }
    }
  }

  lemma MallocFails(bs: seq<Block>, n: nat, blockSize: nat)
    ensures Malloc(bs, n, blockSize).0 == None <==> FirstFit(bs, n) == |bs|
    ensures Malloc(bs, n, blockSize).0 == None ==> Malloc(bs, n, blockSize).1 == bs
  {
  }

  lemma CarveChain(bs: seq<Block>, lo: nat, hi: nat, i: nat, n: nat, blockSize: nat)
    requires Chain(bs, lo, hi, false) && i < |bs| && Fits(bs[i], n)
    requires bs[i].size - n >= blockSize ==> 0 < n < bs[i].size
    ensures Chain(bs[..i] + Carve(bs[i], n, blockSize) + bs[i + 1..], lo, hi, false)
  {
    ChainBounds(bs, lo, hi, false);
    var c := Carve(bs[i], n, blockSize);
    ChainSplit(bs, lo, hi, false, i);
    ChainSplit(bs, lo, hi, false, i + 1);
    assert c[1..] == if |c| == 2 then [c[1]] else [];
    assert |c| == 2 ==> c[1..][1..] == [];
    assert i + 1 < |bs| ==> bs[i + 1].used;
    var q := Start(bs, i + 1, hi);
    AllUsedOrFree(bs[i + 1..], q, hi);
    Splice(bs[..i], c, bs[i + 1..], lo, bs[i].base, q, hi, false);
  }

  /** The block handed out: it was free, starts at the returned address and
      has between n and n + blockSize - 1 bytes. */
  lemma MallocLive(bs: seq<Block>, lo: nat, hi: nat, n: nat, blockSize: nat) returns (size: nat)
    requires Chain(bs, lo, hi, false) && n >= 1 && blockSize >= 1
    ensures var (r, after) := Malloc(bs, n, blockSize);
            match r
            case None => after == bs
            case Some(addr) =>
              && n <= size < n + blockSize
              && Live(after) == Live(bs) + {Block(addr, size, true)}
              && (forall b | b in Live(bs) :: b.base + b.size <= addr || addr + size <= b.base)
              && Chain(after, lo, hi, false)
  {
    hide Malloc;
    size := 0;
    MallocChainIff(bs, lo, hi, n, blockSize);
    MallocIsCarve(bs, n, blockSize);
    MallocFails(bs, n, blockSize);
    var i := FirstFit(bs, n);
    if i < |bs| {
      size := Carve(bs[i], n, blockSize)[0].size;
      ChainBounds(bs, lo, hi, false);
      hide Chain;
      CarveLive(bs, i, n, blockSize);
      forall b | b in Live(bs) ensures b.base + b.size <= bs[i].base || bs[i].base + size <= b.base {
        var j :| 0 <= j < |bs| && bs[j] == b;
      }
    }
  }

  lemma CarveLive(bs: seq<Block>, i: nat, n: nat, blockSize: nat)
    requires i < |bs| && Fits(bs[i], n)
    ensures var c := Carve(bs[i], n, blockSize);
            Live(bs[..i] + c + bs[i + 1..]) == Live(bs) + {c[0]}
  {
    var c := Carve(bs[i], n, blockSize);
    var after := bs[..i] + c + bs[i + 1..];
    assert c[0] in after;
    forall b | b in Live(bs) ensures b in after {
      var j :| 0 <= j < |bs| && bs[j] == b;
      assert if j < i then b in bs[..i] else b in bs[i + 1..];
    }
    forall b | b in Live(after) ensures b in Live(bs) + {c[0]} {
      assert b in bs[..i] || b in c || b in bs[i + 1..];
    }
  }

  /** malloc followed by free of the result restores the identical list. */
  lemma MallocFreeRestores(bs: seq<Block>, lo: nat, hi: nat, n: nat, blockSize: nat)
    requires Chain(bs, lo, hi, false) && n >= 1 && blockSize >= 1
    ensures var (r, after) := Malloc(bs, n, blockSize);
            if r == None then after == bs else Free(after, r.value) == bs
  {
    hide Malloc, Free, Chain, Carve;
    var size := MallocLive(bs, lo, hi, n, blockSize);
    var (r, after) := Malloc(bs, n, blockSize);
    if r != None {
      FreeSpec(after, lo, hi, r.value);
      ChainBounds(bs, lo, hi, false);
      assert Live(Free(after, r.value)) == Live(bs);
      Canonical(Free(after, r.value), bs, lo, hi, false);
    }
  }

  // ---------------------------------------------------------------------
  // malloc is first fit over bytes
  // ---------------------------------------------------------------------

  /** n consecutive bytes from a, inside the range and in no allocated block. */
  ghost predicate FreeRun(bs: seq<Block>, lo: nat, hi: nat, a: nat, n: nat) {
    lo <= a && a + n <= hi &&
    forall b | b in Live(bs) :: b.base + b.size <= a || a + n <= b.base
  }

  /** Every free run lies inside one free block. */
  lemma RunInsideBlock(bs: seq<Block>, lo: nat, hi: nat, a: nat, n: nat) returns (i: nat)
    requires Chain(bs, lo, hi, false) && n >= 1 && FreeRun(bs, lo, hi, a, n)
    ensures i < |bs| && !bs[i].used && bs[i].base <= a && a + n <= bs[i].base + bs[i].size
  {
    ChainBounds(bs, lo, hi, false);
    i := BlockAt(bs, lo, hi, false, a);
    assert bs[i] in Live(bs) <==> bs[i].used;
    assert i + 1 < |bs| ==> (bs[i + 1] in Live(bs) <==> bs[i + 1].used);
    LastEnds(bs, lo, hi, false);
  }

  lemma {:induction false} BlockAt(bs: seq<Block>, lo: nat, hi: nat, f: bool, a: nat) returns (i: nat)
    requires Chain(bs, lo, hi, f) && lo <= a < hi
    ensures i < |bs| && bs[i].base <= a < bs[i].base + bs[i].size
  {
    if a < lo + bs[0].size {
      i := 0;
    } else {
      var j := BlockAt(bs[1..], lo + bs[0].size, hi, !bs[0].used, a);
      i := j + 1;
    }
  }

  lemma {:induction false} LastEnds(bs: seq<Block>, lo: nat, hi: nat, f: bool)
    requires Chain(bs, lo, hi, f) && bs != []
    ensures bs[|bs| - 1].base + bs[|bs| - 1].size == hi
  {
    if |bs| > 1 { LastEnds(bs[1..], lo + bs[0].size, hi, !bs[0].used); }
  }

  /** malloc fails exactly if no run of n free bytes exists, and otherwise
      returns the least address at which one starts. */
  lemma MallocIsLeastRun(bs: seq<Block>, lo: nat, hi: nat, n: nat, blockSize: nat)
    requires Chain(bs, lo, hi, false) && n >= 1
    ensures var r := Malloc(bs, n, blockSize).0;
            && (r == None <==> !exists a :: FreeRun(bs, lo, hi, a, n))
            && (r != None ==> FreeRun(bs, lo, hi, r.value, n))
            && forall a | FreeRun(bs, lo, hi, a, n) :: r != None && r.value <= a
  {
    ChainBounds(bs, lo, hi, false);
    var k := FirstFit(bs, n);
    if k < |bs| {
      forall b | b in Live(bs) ensures b.base + b.size <= bs[k].base || bs[k].base + n <= b.base {
        var j :| 0 <= j < |bs| && bs[j] == b;
      }
      assert FreeRun(bs, lo, hi, bs[k].base, n);
    }
    forall a | FreeRun(bs, lo, hi, a, n) ensures k < |bs| && bs[k].base <= a {
      var i := RunInsideBlock(bs, lo, hi, a, n);
      assert Fits(bs[i], n);
    }
  }

  // ---------------------------------------------------------------------
  // Whole runs
  // ---------------------------------------------------------------------

  datatype Op = Alloc(n: nat) | Release(base: nat)

  function Step(bs: seq<Block>, op: Op, blockSize: nat): seq<Block> {
    match op
    case Alloc(n) => Malloc(bs, n, blockSize).1
    case Release(base) => Free(bs, base)
  }

  function Run(bs: seq<Block>, ops: seq<Op>, blockSize: nat): seq<Block> {
    if ops == [] then bs else Step(Run(bs, ops[..|ops| - 1], blockSize), ops[|ops| - 1], blockSize)
  }

  /** After any run of malloc(n >= 1) and free (of any address): the list tiles
      the range exactly, no two neighbours are free, the sizes add up to the
      whole, distinct blocks are disjoint, and no address or size exceeds the
      end of the range, so that 32-bit sums do not wrap around. */
  lemma {:induction false} RunInvariant(lo: nat, size: nat, ops: seq<Op>, blockSize: nat)
    requires size > 0 && blockSize >= 1
    requires forall i | 0 <= i < |ops| :: ops[i].Alloc? ==> ops[i].n >= 1
    ensures var bs := Run(Initial(lo, size), ops, blockSize);
            && Chain(bs, lo, lo + size, false)
            && SumSizes(bs) == size
            && (forall j, k | 0 <= j < k < |bs| :: bs[j].base + bs[j].size <= bs[k].base)
            && (forall j | 0 <= j < |bs| :: bs[j].base + bs[j].size <= lo + size)
  {
    hide Malloc, Free, Initial;
    if ops == [] {
      InitialChain(lo, size);
    } else {
      var before := Run(Initial(lo, size), ops[..|ops| - 1], blockSize);
      RunInvariant(lo, size, ops[..|ops| - 1], blockSize);
      match ops[|ops| - 1]
      case Alloc(n) => MallocChainIff(before, lo, lo + size, n, blockSize);
      case Release(base) => FreeSpec(before, lo, lo + size, base);
    }
    ChainBounds(Run(Initial(lo, size), ops, blockSize), lo, lo + size, false);
  }
}
