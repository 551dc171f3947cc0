/** The heap invariant between two collections, and the theorem that a collection keeps it and is
    invisible in the store. */
module Settled {
  import opened Words
  import opened Layout
  import opened MarkQueue
  import opened ProcessState
  import opened Compaction
  import opened Abstraction
  import opened Relocation
  import opened MarkPhase
  import opened CompactPhase
  import opened Collector

  /** A word a Lama program may hold: a boxed integer, the content address of an object, or an even
      word that lies outside any heap. */
  ghost predicate Good(base: nat, sh: Shape, outside: Word -> bool, w: Word)
    requires sh.Valid()
  {
    Unboxed(w) || ContentPtr(base, sh, w) || outside(w)
  }

  ghost predicate FieldsGood(m: seq<Word>, base: nat, sh: Shape, outside: Word -> bool)
    requires sh.Valid()
  {
    forall i: nat, a: nat {:trigger IsField(sh, i, a)} :: a < |m| && IsField(sh, i, a) ==> Good(base, sh, outside, m[a])
  }

  ghost predicate RootsGood(g: Process, sh: Shape)
    requires sh.Valid() && g.RootsInRam()
    reads g`base, g`ram, g`top, g`bottom, g`extra, g.ram
  {
    && (forall p: nat :: g.top < p <= g.bottom ==> Good(g.base, sh, g.outside, g.ram[p]))
    && (forall k: nat :: k < |g.extra| ==> Good(g.base, sh, g.outside, g.ram[g.extra[k]]))
    && !ContentPtr(g.base, sh, g.ram[g.bottom])
  }

  /** The heap between two collections, apart from `heap.current`. */
  ghost predicate MemOk(g: Process, sh: Shape)
    reads g`base, g`mem, g.mem
  {
    && g.Laid(sh) && AllClear(BitsOf(g.mem[..], sh)) && Mappable(g.base, g.mem.Length, g.outside)
    && g.outside(0) && FieldsGood(g.mem[..], g.base, sh, g.outside)
  }

  /** Heap and roots between two collections, apart from `heap.current`. */
  ghost predicate HeapOk(g: Process, sh: Shape)
    reads g`base, g`mem, g`ram, g`top, g`bottom, g`extra, g.mem, g.ram
  {
    && MemOk(g, sh)
    && g.mem != g.ram && g.RootsInRam() && ExtraOk(g.top, g.bottom, g.extra) && RootsGood(g, sh)
  }

  /** The state between two collections. */
  ghost predicate IsSettled(g: Process, sh: Shape)
    reads g`base, g`mem, g`current, g`ram, g`top, g`bottom, g`extra, g.mem, g.ram
  {
    HeapOk(g, sh) && g.current == sh.End()
  }

  lemma GoodIsOk(base: nat, n: nat, sh: Shape, outside: Word -> bool, w: Word)
    requires sh.Valid() && Mappable(base, n, outside) && sh.End() <= n && Good(base, sh, outside, w)
    ensures WordOk(base, sh, w)
  {
  }

  /** A good word whose target, if it has one, is live is carried over and stays good. */
  lemma GoodCarried(c: Cycle, n: nat, n': nat, outside: Word -> bool, w: Word)
    requires c.sh.Valid() && |c.mk| == c.sh.N()
    requires Mappable(c.ob, n, outside) && Mappable(c.nb, n', outside) && c.sh.End() <= n && c.sh.End() <= n'
    requires Good(c.ob, c.sh, outside, w)
    requires forall j: nat :: j < c.sh.N() && w == Ptr(c.ob, c.sh.st[j]) ==> c.mk[j]
    ensures c.Carried(w) && 0 <= Moved(c.ob, c.nb, c.sh, c.mk, w) < 0x1_0000_0000
    ensures Good(c.nb, c.NewShape(), outside, Moved(c.ob, c.nb, c.sh, c.mk, w))
    ensures !ContentPtr(c.ob, c.sh, w) ==> Moved(c.ob, c.nb, c.sh, c.mk, w) == w && !ContentPtr(c.nb, c.NewShape(), w)
  {
    MovedFits(c.ob, c.nb, c.sh, c.mk, w);
    if ContentPtr(c.ob, c.sh, w) {
      var j :| 0 <= j < c.sh.N() && w == Ptr(c.ob, c.sh.st[j]);
      MovedPtr(c.ob, c.nb, c.sh, c.mk, w, j);
      RankOf(c.mk, j, c.sh.N());
      c.Placed(Rank(c.mk, j));
    } else {
      assert !InHeap(c.ob, c.sh.End(), w) && !InHeap(c.nb, c.sh.End(), w);
      NotMoved(c.ob, c.nb, c.sh, c.mk, w);
      MovesDown(c.sh, c.mk, c.sh.N());
      forall p | 0 <= p < c.NewShape().N() ensures w != Ptr(c.nb, c.NewShape().st[p]) {
        PtrUnique(c.nb, c.NewShape(), p, p);
      }
    }
  }

  /** The fields of live objects are carried over. */
  lemma FieldsAreCarried(c: Cycle, n: nat, n': nat, outside: Word -> bool)
    requires c.Valid() && TargetsLive(c.m1, c.ob, c.sh, c.mk) && FieldsGood(c.m0, c.ob, c.sh, outside)
    requires Mappable(c.ob, n, outside) && Mappable(c.nb, n', outside) && c.sh.End() <= n && c.sh.End() <= n'
    ensures c.FieldsCarried()
  {
    forall a: nat | a < c.sh.End() && LiveField(c.sh, c.mk, a) ensures c.Carried(c.m1[a]) {
      FieldIsCarried(c, n, n', outside, a);
    }
  }

  lemma FieldIsCarried(c: Cycle, n: nat, n': nat, outside: Word -> bool, a: nat)
    requires c.Valid() && TargetsLive(c.m1, c.ob, c.sh, c.mk) && FieldsGood(c.m0, c.ob, c.sh, outside)
    requires Mappable(c.ob, n, outside) && Mappable(c.nb, n', outside) && c.sh.End() <= n && c.sh.End() <= n'
    requires a < c.sh.End() && LiveField(c.sh, c.mk, a)
    ensures c.m1[a] == c.m0[a] && c.Carried(c.m1[a])
    ensures var w := Moved(c.ob, c.nb, c.sh, c.mk, c.m1[a]);
            0 <= w < 0x1_0000_0000 && Good(c.nb, c.NewShape(), outside, w)
  {
    var i: nat :| i < c.sh.N() && c.mk[i] && IsField(c.sh, i, a);
    FieldInside(c.sh, i, a);
    GoodCarried(c, n, n', outside, c.m1[a]);
  }

  /** The fields of the new heap are good. */
  lemma NewFieldsGood(c: Cycle, n: nat, n': nat, outside: Word -> bool)
    requires c.Valid() && TargetsLive(c.m1, c.ob, c.sh, c.mk) && FieldsGood(c.m0, c.ob, c.sh, outside)
    requires Mappable(c.ob, n, outside) && Mappable(c.nb, n', outside) && c.sh.End() <= n && c.sh.End() <= n'
    ensures FieldsGood(c.m3, c.nb, c.NewShape(), outside)
  {
    forall p: nat, b: nat | b < |c.m3| && IsField(c.NewShape(), p, b)
      ensures Good(c.nb, c.NewShape(), outside, c.m3[b])
    {
      NewFieldGood(c, n, n', outside, p, b);
    }
  }

  /** The field of the old heap that the field b of the new heap comes from. */
  lemma NewFieldSource(c: Cycle, p: nat, b: nat) returns (a: nat)
    requires c.Valid() && b < |c.m3| && IsField(c.NewShape(), p, b)
    ensures a < c.sh.End() && LiveField(c.sh, c.mk, a) && c.m1[a] == c.m0[a]
    ensures c.m3[b] == Moved(c.ob, c.nb, c.sh, c.mk, c.m1[a])
  {
    c.Placed(p);
    var i := c.Old(p);
    a := b - c.NewShape().st[p] + c.sh.st[i];
    c.NewFieldWord(p, a);
    assert IsField(c.sh, i, a);
  }

  lemma NewFieldGood(c: Cycle, n: nat, n': nat, outside: Word -> bool, p: nat, b: nat)
    requires c.Valid() && TargetsLive(c.m1, c.ob, c.sh, c.mk) && FieldsGood(c.m0, c.ob, c.sh, outside)
    requires Mappable(c.ob, n, outside) && Mappable(c.nb, n', outside) && c.sh.End() <= n && c.sh.End() <= n'
    requires b < |c.m3| && IsField(c.NewShape(), p, b)
    ensures Good(c.nb, c.NewShape(), outside, c.m3[b])
  {
    var a := NewFieldSource(c, p, b);
    FieldIsCarried(c, n, n', outside, a);
  }

  // ----- a whole collection ----------------------------------------------------------

  /** What settled memory gives the mark phase. */
  lemma ReadyToMark(g: Process, sh: Shape)
    requires IsSettled(g, sh)
    ensures FieldsOk(g.mem[..], g.base, sh)
    ensures AllOk(g.base, sh, g.ram[g.top + 1..g.bottom]) && AllOk(g.base, sh, Gather(g.ram[..], g.extra))
  {
    forall i: nat, a: nat | IsField(sh, i, a) && a < g.mem.Length ensures WordOk(g.base, sh, g.mem[a]) {
      GoodIsOk(g.base, g.mem.Length, sh, g.outside, g.mem[a]);
    }
    forall p: nat | g.top < p < g.bottom ensures WordOk(g.base, sh, g.ram[p]) {
      GoodIsOk(g.base, g.mem.Length, sh, g.outside, g.ram[p]);
    }
    forall k: nat | k < |g.extra| ensures WordOk(g.base, sh, g.ram[g.extra[k]]) {
      GoodIsOk(g.base, g.mem.Length, sh, g.outside, g.ram[g.extra[k]]);
    }
  }

  /** Objects that roots point to are live. */
  lemma RootsLive(m0: seq<Word>, base: nat, sh: Shape, mk: seq<bool>, ws: seq<Word>, k: nat, j: nat)
    requires sh.Valid() && Fits(m0, sh) && |mk| == sh.N() && j < sh.N() && k < |ws| && ws[k] == Ptr(base, sh.st[j])
    requires forall i :: 0 <= i < sh.N() ==> (mk[i] <==> ReachAny(m0, base, sh, ws, i))
    ensures mk[j]
  {
    ReachStart(m0, base, sh, ws[k], j);
    assert ReachAny(m0, base, sh, ws, j);
  }

  lemma ReadyToCompact(g: Process, m0: seq<Word>, sh: Shape, mk: seq<bool>)
    requires g.RootsInRam() && Mappable(g.base, g.mem.Length, g.outside)
    requires MarkedFrom(g, m0, sh, g.RootWords()) && RootsGood(g, sh) && mk == BitsOf(g.mem[..], sh).mk
    ensures MarkedHeap(g, m0, sh, mk) && RootsOk(g, g.base, sh, mk)
  {
    var ws := g.RootWords();
    forall p: nat | g.top < p <= g.bottom ensures RootOk(g.base, sh, mk, g.ram[p]) {
      GoodIsOk(g.base, g.mem.Length, sh, g.outside, g.ram[p]);
      forall j: nat | j < sh.N() && g.ram[p] == Ptr(g.base, sh.st[j]) ensures mk[j] {
        assert p != g.bottom by {
          assert ContentPtr(g.base, sh, g.ram[p]);
        }
        assert ws[p - g.top - 1] == g.ram[p];
        RootsLive(m0, g.base, sh, mk, ws, p - g.top - 1, j);
      }
    }
    forall k: nat | k < |g.extra| ensures RootOk(g.base, sh, mk, g.ram[g.extra[k]]) {
      GoodIsOk(g.base, g.mem.Length, sh, g.outside, g.ram[g.extra[k]]);
      forall j: nat | j < sh.N() && g.ram[g.extra[k]] == Ptr(g.base, sh.st[j]) ensures mk[j] {
        assert ws[g.bottom - g.top - 1 + k] == g.ram[g.extra[k]];
        RootsLive(m0, g.base, sh, mk, ws, g.bottom - g.top - 1 + k, j);
      }
    }
  }

  /** A slot of ram after the collection: same value, still good. */
  lemma SlotKept(c: Cycle, n: nat, n': nat, outside: Word -> bool, ids: seq<nat>, w: Word)
    requires c.sh.Valid() && |c.mk| == c.sh.N() && |ids| == c.sh.N()
    requires Mappable(c.ob, n, outside) && Mappable(c.nb, n', outside) && c.sh.End() <= n && c.sh.End() <= n'
    requires Good(c.ob, c.sh, outside, w) && RootOk(c.ob, c.sh, c.mk, w)
    ensures var w' := Moved(c.ob, c.nb, c.sh, c.mk, w);
            && 0 <= w' < 0x1_0000_0000 && Good(c.nb, c.NewShape(), outside, w')
            && ValOf(c.nb, c.NewShape(), c.NewIds(ids), w') == ValOf(c.ob, c.sh, ids, w)
  {
    GoodCarried(c, n, n', outside, w);
    c.CarriedVal(ids, w);
  }

  /** Every root slot denotes the same value as before; the rest of the C stack is untouched. */
  ghost predicate SameRoots(c: Cycle, ids: seq<nat>, r0: seq<Word>, r1: seq<Word>, slots: set<nat>)
    requires c.sh.Valid() && |c.mk| == c.sh.N() && |ids| == c.sh.N()
  {
    |r1| == |r0| && forall p: nat :: p < |r0| ==> SameSlot(c, ids, r0[p], r1[p], p in slots)
  }

  ghost predicate SameSlot(c: Cycle, ids: seq<nat>, w0: Word, w1: Word, root: bool)
    requires c.sh.Valid() && |c.mk| == c.sh.N() && |ids| == c.sh.N()
  {
    if root then ValOf(c.nb, c.NewShape(), c.NewIds(ids), w1) == ValOf(c.ob, c.sh, ids, w0) else w1 == w0
  }

  /** The roots after the collection. */
  lemma NewRoots(c: Cycle, n: nat, n': nat, outside: Word -> bool, ids: seq<nat>, r0: seq<Word>, r1: seq<Word>,
                 slots: set<nat>)
    requires c.sh.Valid() && |c.mk| == c.sh.N() && |ids| == c.sh.N()
    requires Mappable(c.ob, n, outside) && Mappable(c.nb, n', outside) && c.sh.End() <= n && c.sh.End() <= n'
    requires Fixed(r0, r1, c.ob, c.nb, c.sh, c.mk, slots)
    requires forall p: nat :: p < |r0| && p in slots ==>
               Good(c.ob, c.sh, outside, r0[p]) && RootOk(c.ob, c.sh, c.mk, r0[p])
    ensures SameRoots(c, ids, r0, r1, slots)
    ensures forall p: nat :: p < |r0| && p in slots ==> Good(c.nb, c.NewShape(), outside, r1[p])
    ensures forall p: nat :: p < |r0| && p in slots && !ContentPtr(c.ob, c.sh, r0[p]) ==>
              !ContentPtr(c.nb, c.NewShape(), r1[p])
  {
    forall p: nat | p < |r0|
      ensures SameSlot(c, ids, r0[p], r1[p], p in slots)
      ensures p in slots ==> Good(c.nb, c.NewShape(), outside, r1[p])
      ensures p in slots && !ContentPtr(c.ob, c.sh, r0[p]) ==> !ContentPtr(c.nb, c.NewShape(), r1[p])
    {
      if p in slots {
        SlotKept(c, n, n', outside, ids, r0[p]);
        GoodCarried(c, n, n', outside, r0[p]);
      }
    }
  }

  /** The roots of g are in the slots that update_references rewrites, and only those. */
  lemma SlotsOfRoots(top: nat, bottom: nat, extra: seq<nat>)
    ensures forall p: nat :: top < p <= bottom ==> p in AllSlots(top, bottom, extra)
    ensures forall k: nat :: k < |extra| ==> extra[k] in AllSlots(top, bottom, extra)
    ensures forall p: nat :: p in AllSlots(top, bottom, extra) ==>
              top < p <= bottom || exists k :: 0 <= k < |extra| && extra[k] == p
  {
    forall p: nat
      ensures p in AllSlots(top, bottom, extra) <==> top < p <= bottom || exists k :: 0 <= k < |extra| && extra[k] == p
    {
      InRootSlots(top, bottom, extra, |extra|, p);
    }
  }

  /** The objects marked are those reachable from the words ws. */
  ghost predicate MarkedExactly(m: seq<Word>, base: nat, sh: Shape, mk: seq<bool>, ws: seq<Word>)
    requires sh.Valid() && Fits(m, sh) && |mk| == sh.N()
  {
    forall i {:trigger ReachAny(m, base, sh, ws, i)} :: 0 <= i < sh.N() ==> (mk[i] <==> ReachAny(m, base, sh, ws, i))
  }

  /** mark_phase on a settled heap. */
  method MarkLive(g: Process, ghost sh: Shape) returns (ghost mk: seq<bool>)
    requires IsSettled(g, sh)
    modifies g.mem
    ensures MarkedHeap(g, old(g.mem[..]), sh, mk) && RootsOk(g, g.base, sh, mk)
    ensures MarkedExactly(old(g.mem[..]), g.base, sh, mk, g.RootWords())
  {
    ghost var m0 := g.mem[..];
    ReadyToMark(g, sh);
    MarkAll(g, sh);
    mk := BitsOf(g.mem[..], sh).mk;
    ReadyToCompact(g, m0, sh, mk);
  }

  /** The root slots held good words that lead to live objects only. */
  ghost predicate RootsCarried(ob: nat, sh: Shape, mk: seq<bool>, r0: seq<Word>, outside: Word -> bool,
                               slots: set<nat>, bottom: nat)
    requires sh.Valid() && |mk| == sh.N()
  {
    && (forall p: nat :: p < |r0| && p in slots ==> Good(ob, sh, outside, r0[p]) && RootOk(ob, sh, mk, r0[p]))
    && bottom < |r0| && !ContentPtr(ob, sh, r0[bottom])
  }

  lemma RootsCarriedBefore(g: Process, sh: Shape, mk: seq<bool>)
    requires sh.Valid() && |mk| == sh.N()
    requires g.RootsInRam() && RootsGood(g, sh) && RootsOk(g, g.base, sh, mk)
    ensures RootsCarried(g.base, sh, mk, g.ram[..], g.outside, AllSlots(g.top, g.bottom, g.extra), g.bottom)
  {
    SlotsOfRoots(g.top, g.bottom, g.extra);
  }

  lemma RootsAfter(g: Process, c: Cycle, n: nat, ids: seq<nat>, r0: seq<Word>)
    requires c.sh.Valid() && |c.mk| == c.sh.N() && |ids| == c.sh.N() && c.nb == g.base && g.RootsInRam()
    requires Mappable(c.ob, n, g.outside) && Mappable(c.nb, g.mem.Length, g.outside)
    requires c.sh.End() <= n && c.sh.End() <= g.mem.Length
    requires RootsCarried(c.ob, c.sh, c.mk, r0, g.outside, AllSlots(g.top, g.bottom, g.extra), g.bottom)
    requires Fixed(r0, g.ram[..], c.ob, c.nb, c.sh, c.mk, AllSlots(g.top, g.bottom, g.extra))
    ensures RootsGood(g, c.NewShape())
    ensures SameRoots(c, ids, r0, g.ram[..], AllSlots(g.top, g.bottom, g.extra))
  {
    SlotsOfRoots(g.top, g.bottom, g.extra);
    NewRoots(c, n, g.mem.Length, g.outside, ids, r0, g.ram[..], AllSlots(g.top, g.bottom, g.extra));
  }

  lemma HeapAfter(g: Process, c: Cycle, n: nat, ids: seq<nat>, store: seq<Obj>)
    requires c.Valid() && c.nb == g.base && c.m3 == g.mem[..] && TargetsLive(c.m1, c.ob, c.sh, c.mk)
    requires FieldsGood(c.m0, c.ob, c.sh, g.outside) && Represents(c.m0, c.ob, c.sh, ids, store)
    requires Mappable(c.ob, n, g.outside) && Mappable(c.nb, g.mem.Length, g.outside) && c.sh.End() <= n
    requires g.current == LiveBefore(c.sh, c.mk, c.sh.N())
    ensures g.Parsed(c.NewShape()) && AllClear(BitsOf(g.mem[..], c.NewShape()))
    ensures FieldsGood(g.mem[..], g.base, c.NewShape(), g.outside)
    ensures Represents(g.mem[..], g.base, c.NewShape(), c.NewIds(ids), store)
  {
    FieldsAreCarried(c, n, g.mem.Length, g.outside);
    NewFieldsGood(c, n, g.mem.Length, g.outside);
    c.NewRepresents(ids, store);
    c.NewBits();
  }

  /** compact_phase on a settled heap that has been marked. */
  method CompactLive(g: Process, additional: nat, answer: Mremap, ghost m0: seq<Word>, ghost sh: Shape,
                     ghost mk: seq<bool>,
                     ghost ids: seq<nat>, ghost store: seq<Obj>)
    returns (ok: bool, ghost c: Cycle)
    requires MarkedHeap(g, m0, sh, mk) && g.mem != g.ram && g.RootsInRam() && ExtraOk(g.top, g.bottom, g.extra)
    requires RootsOk(g, g.base, sh, mk) && Mappable(g.base, g.mem.Length, g.outside) && g.outside(0)
    requires RootsCarried(g.base, sh, mk, g.ram[..], g.outside, AllSlots(g.top, g.bottom, g.extra), g.bottom)
    requires FieldsGood(m0, g.base, sh, g.outside) && Represents(m0, g.base, sh, ids, store)
    modifies g`base, g`mem, g`current, g.mem, g.ram
    ensures c.mk == mk
    ensures (ok <==> Granted(answer, NextSize(LiveBefore(sh, mk, sh.N()), additional, old(g.mem.Length)), g.outside))
    ensures |c.mk| == sh.N()
    ensures ok <==> Granted(answer, NextSize(LiveBefore(sh, c.mk, sh.N()), additional, old(g.mem.Length)), g.outside)
    ensures ok ==> fresh(g.mem) && c.Valid() && c.sh == sh && c.m0 == m0 && c.ob == old(g.base) && c.nb == g.base
    ensures ok ==> c.m3 == g.mem[..]
    ensures ok ==> IsSettled(g, c.NewShape()) && Represents(g.mem[..], g.base, c.NewShape(), c.NewIds(ids), store)
    ensures ok ==> SameRoots(c, ids, old(g.ram[..]), g.ram[..], AllSlots(g.top, g.bottom, g.extra))
    ensures ok ==> g.mem.Length == NextSize(g.current, additional, old(g.mem.Length))
  {
    ghost var r0, n := g.ram[..], g.mem.Length;
    ok, c := CompactHeap(g, additional, answer, m0, sh, mk);
    if ok {
      HeapAfter(g, c, n, ids, store);
      RootsAfter(g, c, n, ids, r0);
    }
  }

  /** `gc_alloc` without its final allocation: mark_phase and compact_phase.  The heap is settled
      again, it represents the same store with the same identities, every root denotes what it
      denoted, exactly the reachable objects are left, and there is room for the request. */
  method Collect(g: Process, additional: nat, answer: Mremap, ghost sh: Shape, ghost ids: seq<nat>,
                 ghost store: seq<Obj>)
    returns (ok: bool, ghost c: Cycle)
    requires IsSettled(g, sh) && Represents(g.mem[..], g.base, sh, ids, store)
    modifies g`base, g`mem, g`current, g.mem, g.ram
    ensures |c.mk| == sh.N()
    ensures ok <==> Granted(answer, NextSize(LiveBefore(sh, c.mk, sh.N()), additional, old(g.mem.Length)), g.outside)
    ensures ok ==> fresh(g.mem) && c.Valid() && c.sh == sh && c.m0 == old(g.mem[..]) && c.ob == old(g.base)
    ensures ok ==> c.nb == g.base && c.m3 == g.mem[..]
    ensures ok ==> IsSettled(g, c.NewShape()) && Represents(g.mem[..], g.base, c.NewShape(), c.NewIds(ids), store)
    ensures ok ==> SameRoots(c, ids, old(g.ram[..]), g.ram[..], AllSlots(g.top, g.bottom, g.extra))
    ensures MarkedExactly(old(g.mem[..]), old(g.base), sh, c.mk, old(g.RootWords()))
    ensures ok ==> g.mem.Length == NextSize(g.current, additional, old(g.mem.Length))
  {
    ghost var m0 := g.mem[..];
    ghost var mk := MarkLive(g, sh);
    RootsCarriedBefore(g, sh, mk);
    ok, c := CompactLive(g, additional, answer, m0, sh, mk, ids, store);
  }
}
