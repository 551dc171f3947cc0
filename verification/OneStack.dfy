/** The collector and the interpreter share one operand array: what a collection does to it, as proved
    in Settled, is what Frames.Collected allows. */
module OneStack {
  import opened Words
  import opened Layout
  import opened ProcessState
  import opened Abstraction
  import opened Relocation
  import opened CompactPhase
  import opened Collector
  import opened Settled
  import Frames

  /** The place of the interpreter is the operand array of the process: `data` is ram[floor..bottom]. */
  ghost predicate SamePlace(g: Process, p: Frames.Place)
    reads g`bottom, g`ram
  {
    && p.Valid() && p.outside == g.outside && g.floor <= g.bottom <= g.ram.Length && p.size == g.bottom - g.floor
    && p.begin == g.stackBegin - g.floor
    && forall b: nat, n: nat, w: Word {:trigger Mappable(b, n, p.outside), p.heap(w)} ::
         Mappable(b, n, p.outside) && b <= w < b + 4 * n && w % 4 == 0 ==> p.heap(w)
  }

  /** Wherever the system has put the heap, its words are what the interpreter takes for the heap. */
  lemma HeapFound(g: Process, sh: Shape, p: Frames.Place, w: Word)
    requires IsSettled(g, sh) && SamePlace(g, p) && g.base <= w < g.base + 4 * g.mem.Length && w % 4 == 0
    ensures p.heap(w)
  {
    assert Mappable(g.base, g.mem.Length, p.outside);
  }

  /** A word that is stable for the interpreter denotes itself. */
  lemma StableDenoted(p: Frames.Place, base: nat, n: nat, sh: Shape, ids: seq<nat>, w: Word)
    requires sh.Valid() && |ids| == sh.N() && Mappable(base, n, p.outside) && sh.End() <= n && p.Stable(w)
    ensures ValOf(base, sh, ids, w) == Imm(w)
  {
    ValOfImm(base, sh, ids, w);
  }

  /** Slots of the C stack that hold stable words are as before a collection, whether roots or not. */
  lemma SlotStays(p: Frames.Place, c: Cycle, n: nat, ids: seq<nat>, r0: seq<Word>, r1: seq<Word>,
                   slots: set<nat>, a: nat)
    requires c.sh.Valid() && |c.mk| == c.sh.N() && |ids| == c.sh.N() && Mappable(c.ob, n, p.outside) && c.sh.End() <= n
    requires SameRoots(c, ids, r0, r1, slots) && a < |r0| && p.Stable(r0[a])
    ensures r1[a] == r0[a]
  {
    StableDenoted(p, c.ob, n, c.sh, ids, r0[a]);
    assert SameSlot(c, ids, r0[a], r1[a], a in slots);
  }

  /** What a collection does to the array. */
  lemma ArrayCollected(p: Frames.Place, c: Cycle, n: nat, ids: seq<nat>, r0: seq<Word>, r1: seq<Word>, slots: set<nat>,
                       floor: nat, bottom: nat)
    requires c.sh.Valid() && |c.mk| == c.sh.N() && |ids| == c.sh.N() && Mappable(c.ob, n, p.outside) && c.sh.End() <= n
    requires SameRoots(c, ids, r0, r1, slots) && floor <= bottom <= |r0|
    ensures Frames.Collected(p, r0[floor..bottom], r1[floor..bottom])
  {
    forall i | 0 <= i < bottom - floor && p.Stable(r0[floor..bottom][i])
      ensures r1[floor..bottom][i] == r0[floor..bottom][i]
    {
      SlotStays(p, c, n, ids, r0, r1, slots, floor + i);
    }
  }

  /** A collection while the interpreter runs: the contents of the array are among those that a step of the
      interpreter reckons with. */
  method CollectArray(g: Process, additional: nat, answer: Mremap, ghost sh: Shape, ghost ids: seq<nat>,
                      ghost store: seq<Obj>, ghost p: Frames.Place)
    returns (ok: bool, ghost c: Cycle)
    requires IsSettled(g, sh) && Represents(g.mem[..], g.base, sh, ids, store) && SamePlace(g, p)
    modifies g`base, g`mem, g`current, g.mem, g.ram
    ensures ok ==> SamePlace(g, p)
    ensures ok ==> c.Valid() && c.sh == sh && c.nb == g.base && c.m3 == g.mem[..]
    ensures ok ==> Frames.Collected(p, old(g.ram[g.floor..g.bottom]), g.ram[g.floor..g.bottom])
    ensures ok ==> IsSettled(g, c.NewShape()) && Represents(g.mem[..], g.base, c.NewShape(), c.NewIds(ids), store)
  {
    ghost var r0, n := g.ram[..], g.mem.Length;
    ok, c := Collect(g, additional, answer, sh, ids, store);
    if ok {
      ArrayCollected(p, c, n, ids, r0, g.ram[..], AllSlots(g.top, g.bottom, g.extra), g.floor, g.bottom);
      assert g.ram[..][g.floor..g.bottom] == g.ram[g.floor..g.bottom];
      assert r0[g.floor..g.bottom] == old(g.ram[g.floor..g.bottom]);
    }
  }
}
