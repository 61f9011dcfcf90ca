/**
 CExternalMemory as it is written: blocks in a doubly linked queue, changed in
 place.  The methods are proved against the list functions of BlockList.
 */
module ExternalMemory {
  import opened Common
  import opened BlockList

  class MemoryBlock {
    var base: nat
    var size: nat
    var used: bool
    var next: MemoryBlock?
    var prev: MemoryBlock?

    constructor (b: nat, s: nat)
      ensures base == b && size == s && !used && next == null && prev == null
    {
      base, size, used, next, prev := b, s, false, null, null;
    }
  }

  class CExternalMemory {
    const base: nat
    const size: nat
    const blockSize: nat
    var first: MemoryBlock?
    ghost var nodes: seq<MemoryBlock>

    /** The queue links exactly the nodes, in order. */
    ghost predicate Linked()
      reads `first, `nodes, nodes`next, nodes`prev
    {
      && Distinct(nodes)
      && first == Nth(nodes, 0)
      && (forall i {:trigger nodes[i].next} | 0 <= i < |nodes| :: nodes[i].next == Nth(nodes, i + 1))
      && (forall i {:trigger nodes[i].prev} | 0 <= i < |nodes| :: nodes[i].prev == Nth(nodes, i - 1))
    }

    static ghost predicate Distinct(ns: seq<MemoryBlock>) {
      forall i, j | 0 <= i < j < |ns| :: ns[i] != ns[j]
    }

    static ghost function Nth(ns: seq<MemoryBlock>, i: int): MemoryBlock? {
      if 0 <= i < |ns| then ns[i] else null
    }

    ghost function Repr(): set<MemoryBlock>
      reads `nodes
    {
      set x | x in nodes
    }

    ghost function Contents(): (r: seq<Block>)
      reads `nodes, nodes`base, nodes`size, nodes`used
    {
      Values(nodes)
    }

    static ghost function Values(ns: seq<MemoryBlock>): (r: seq<Block>)
      reads ns`base, ns`size, ns`used
      ensures |r| == |ns|
      ensures forall i | 0 <= i < |ns| :: r[i] == Block(ns[i].base, ns[i].size, ns[i].used)
    {
      if ns == [] then [] else [Block(ns[0].base, ns[0].size, ns[0].used)] + Values(ns[1..])
    }

    static ghost function Inserted(ns: seq<MemoryBlock>, i: nat, n: MemoryBlock): (r: seq<MemoryBlock>)
      requires i < |ns|
      ensures |r| == |ns| + 1
      ensures forall j | 0 <= j <= i :: r[j] == ns[j]
      ensures r[i + 1] == n
      ensures forall j {:trigger r[j]} | i + 1 < j < |r| :: r[j] == ns[j - 1]
      ensures Distinct(ns) && n !in ns ==> Distinct(r)
      ensures (set x | x in r) == (set x | x in ns) + {n}
    {
      ns[..i + 1] + [n] + ns[i + 1..]
    }

    static ghost function Removed(ns: seq<MemoryBlock>, i: nat): (r: seq<MemoryBlock>)
      requires i < |ns|
      ensures |r| == |ns| - 1
      ensures forall j | 0 <= j < i :: r[j] == ns[j]
      ensures forall j {:trigger r[j]} | i <= j < |r| :: r[j] == ns[j + 1]
      ensures Distinct(ns) ==> Distinct(r)
      ensures forall x | x in r :: x in ns
    {
      ns[..i] + ns[i + 1..]
    }

    constructor (b: nat, s: nat, bs: nat)
      ensures Linked() && fresh(nodes)
      ensures Contents() == Initial(b, s) && base == b && size == s && blockSize == bs
    {
      base, size, blockSize := b, s, bs;
      var n := new MemoryBlock(b, s);
      first := n;
      nodes := [n];
    }

    /** TAILQ_INSERT_AFTER: n becomes node i+1. */
    method InsertAfter(p: MemoryBlock, n: MemoryBlock, ghost i: nat)
      requires Linked() && i < |nodes| && nodes[i] == p && n !in nodes
      modifies `nodes, n`next, n`prev, nodes`next, nodes`prev
      ensures Linked() && nodes == Inserted(old(nodes), i, n) && Repr() == old(Repr()) + {n}
    {
      hide Inserted, Values;
      n.next := p.next;
      n.prev := p;
      if p.next != null { p.next.prev := n; }
      p.next := n;
      nodes := Inserted(nodes, i, n);
    }

    /** TAILQ_REMOVE of node i. */
    method Remove(p: MemoryBlock, ghost i: nat)
      requires Linked() && i < |nodes| && nodes[i] == p
      modifies `first, `nodes, nodes`next, nodes`prev
      ensures Linked() && nodes == Removed(old(nodes), i)
    {
      hide Removed;
      if p.next != null { p.next.prev := p.prev; }
      if p.prev != null { p.prev.next := p.next; } else { first := p.next; }
      nodes := Removed(nodes, i);
    }

    /** malloc: 0 stands for NULL. */
    method Malloc(n: nat) returns (r: nat)
      requires Linked()
      modifies this, Repr()
      ensures Linked() && fresh(Repr() - old(Repr()))
      ensures var (addr, after) := BlockList.Malloc(old(Contents()), n, blockSize);
              Contents() == after && r == if addr == None then 0 else addr.value
    {
      hide Values, Carve;
      MallocIsCarve(Contents(), n, blockSize);
      r := 0;
      var p := first;
      ghost var i := 0;
      while p != null
        invariant i <= |nodes| && p == Nth(nodes, i)
        invariant forall j | 0 <= j < i :: !Fits(Contents()[j], n)
        decreases |nodes| - i
      {
        if !p.used && p.size >= n {
          assert FirstFit(Contents(), n) == i;
          r := p.base;
          CarveInPlace(p, i, n);
          return;
        }
        p := p.next;
        i := i + 1;
      }
    }

    method CarveInPlace(p: MemoryBlock, ghost i: nat, n: nat)
      requires Linked() && i < |nodes| && nodes[i] == p && p.size >= n
      modifies this, Repr()
      ensures Linked() && fresh(Repr() - old(Repr()))
      ensures Contents() == old(Contents())[..i] + Carve(old(Contents()[i]), n, blockSize) + old(Contents())[i + 1..]
    {
      hide Linked, Values, Inserted, Carve;
      CarveMarked(Contents(), i, n, blockSize);
      SetUsed(p, i, true);
      if p.size - n >= blockSize {
        Detach(p, i, n);
      }
    }

    /** The bytes after the first n of p become a free block of their own. */
    method Detach(p: MemoryBlock, ghost i: nat, n: nat)
      requires Linked() && i < |nodes| && nodes[i] == p && p.size >= n
      modifies this, Repr()
      ensures Linked() && fresh(Repr() - old(Repr()))
      ensures var b := old(Contents()[i]);
              Contents() == old(Contents())[..i] + [b.(size := n), Block(b.base + n, b.size - n, false)] + old(Contents())[i + 1..]
    {
      hide Linked, Values, Inserted;
      var pNew := new MemoryBlock(p.base + n, p.size - n);
      Split(p, pNew, i);
    }

    static lemma CarveMarked(was: seq<Block>, i: nat, n: nat, blockSize: nat)
      requires i < |was| && was[i].size >= n
      ensures var b := was[i].(used := true);
              var marked := was[i := b];
              was[..i] + Carve(was[i], n, blockSize) + was[i + 1..] ==
              if b.size - n >= blockSize
              then marked[..i] + [b.(size := n), Block(b.base + n, b.size - n, false)] + marked[i + 1..]
              else marked
    {
    }

    method SetUsed(p: MemoryBlock, ghost i: nat, used: bool)
      requires Linked() && i < |nodes| && nodes[i] == p
      modifies p`used
      ensures Linked()
      ensures Contents() == old(Contents())[i := old(Contents()[i]).(used := used)]
    {
      assert Distinct(nodes);
      p.used := used;
    }

    /** The last bytes of p are now those of the new block pNew. */
    method Split(p: MemoryBlock, pNew: MemoryBlock, ghost i: nat)
      requires Linked() && i < |nodes| && nodes[i] == p && pNew !in nodes && p.size >= pNew.size
      modifies `nodes, pNew`next, pNew`prev, nodes`next, nodes`prev, p`size
      ensures Linked() && Repr() == old(Repr()) + {pNew}
      ensures var b := old(Contents()[i]);
              Contents() == old(Contents())[..i] +
                            [b.(size := b.size - pNew.size), Block(pNew.base, pNew.size, pNew.used)] +
                            old(Contents())[i + 1..]
    {
      hide Linked, Inserted, Values, Repr;
      ghost var was, ns := Contents(), nodes;
      InsertAfter(p, pNew, i);
      ValuesInserted(ns, i, pNew);
      SetSize(p, i, p.size - pNew.size);
      UpdatedSplice(was, i, was[i].(size := was[i].size - pNew.size), Block(pNew.base, pNew.size, pNew.used));
    }

    method SetSize(p: MemoryBlock, ghost i: nat, s: nat)
      requires Linked() && i < |nodes| && nodes[i] == p
      modifies p`size
      ensures Linked()
      ensures Contents() == old(Contents())[i := old(Contents()[i]).(size := s)]
    {
      assert Distinct(nodes);
      p.size := s;
    }

    static lemma ValuesInserted(ns: seq<MemoryBlock>, i: nat, n: MemoryBlock)
      requires i < |ns|
      ensures Values(Inserted(ns, i, n)) == Values(ns)[..i + 1] + [Block(n.base, n.size, n.used)] + Values(ns)[i + 1..]
    {
      hide Inserted, Values;
      var l, v := Values(Inserted(ns, i, n)), Values(ns);
      var r := v[..i + 1] + [Block(n.base, n.size, n.used)] + v[i + 1..];
      forall j | 0 <= j < |l| ensures l[j] == r[j] {
        if j <= i {
          assert r[j] == v[j];
        } else if j > i + 1 {
          assert r[j] == v[j - 1];
        }
      }
    }

    static lemma UpdatedSplice(was: seq<Block>, i: nat, x: Block, v: Block)
      requires i < |was|
      ensures (was[..i + 1] + [v] + was[i + 1..])[i := x] == was[..i] + [x, v] + was[i + 1..]
    {
    }

    /** free: does nothing for an address that is not the base of a block. */
    method Free(address: nat)
      requires Linked()
      modifies this, Repr()
      ensures Linked() && Repr() <= old(Repr())
      ensures Contents() == BlockList.Free(old(Contents()), address)
    {
      var p := first;
      ghost var i := 0;
      while p != null
        invariant i <= |nodes| && p == Nth(nodes, i)
        invariant forall j | 0 <= j < i :: Contents()[j].base != address
        decreases |nodes| - i
      {
        if p.base == address {
          assert IndexOf(Contents(), address) == i;
          Release(p, i);
          return;
        }
        p := p.next;
        i := i + 1;
      }
    }

    method Release(p: MemoryBlock, ghost i: nat)
      requires Linked() && i < |nodes| && nodes[i] == p
      modifies this, Repr()
      ensures Linked() && Repr() <= old(Repr())
      ensures Contents() == Coalesce(old(Contents()), i)
    {
      hide Coalesce, Absorb, Removed, Linked;
      ghost var was := Contents();
      CoalesceSteps(was, i);
      SetUsed(p, i, false);
      MergeNext(p, i);
      MergePrevious(p, i);
    }

    method MergeNext(p: MemoryBlock, ghost i: nat)
      requires Linked() && i < |nodes| && nodes[i] == p
      modifies this, Repr()
      ensures Linked() && i < |nodes| && nodes[i] == p && Repr() <= old(Repr())
      ensures Contents() == if FreeAt(old(Contents()), i + 1) then Absorb(old(Contents()), i) else old(Contents())
    {
      hide Absorb, Removed;
      var pTemp := p.next;
      if pTemp != null && !pTemp.used {
        AbsorbNext(p, pTemp, i);
      }
    }

    method MergePrevious(p: MemoryBlock, ghost i: nat)
      requires Linked() && i < |nodes| && nodes[i] == p
      modifies this, Repr()
      ensures Linked() && Repr() <= old(Repr())
      ensures Contents() == if FreeAt(old(Contents()), i - 1) then Absorb(old(Contents()), i - 1) else old(Contents())
    {
      hide Absorb, Removed;
      var pTemp := p.prev;
      if pTemp != null && !pTemp.used {
        AbsorbNext(pTemp, p, i - 1);
      }
    }

    /** t, the node after p, is merged into p and removed. */
    method AbsorbNext(p: MemoryBlock, t: MemoryBlock, ghost i: nat)
      requires Linked() && i + 1 < |nodes| && nodes[i] == p && nodes[i + 1] == t
      modifies this, Repr()
      ensures Linked() && nodes == Removed(old(nodes), i + 1)
      ensures Contents() == Absorb(old(Contents()), i)
    {
      assert Distinct(nodes);
      hide Linked, Absorb, Removed, Values;
      ghost var was := Contents();
      p.size := p.size + t.size;
      Remove(t, i + 1);
      assert Contents() == Absorb(was, i);
    }
  }
}
