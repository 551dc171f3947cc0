/** `compact_phase` and a whole collection. */
module Collector {
  import opened Words
  import opened Layout
  import opened MarkQueue
  import opened ProcessState
  import opened Compaction
  import opened Relocation
  import opened MarkPhase
  import opened CompactPhase

  const EXTRA_ROOM_HEAP_COEFFICIENT: nat := 2
  const MINIMUM_HEAP_CAPACITY: nat := 4

  function Max(x: nat, y: nat): nat { if x > y then x else y }

  /** The size that `compact_phase` asks for, in words. */
  function NextSize(live: nat, additional: nat, size: nat): nat {
    Max(Max(live * EXTRA_ROOM_HEAP_COEFFICIENT + additional, MINIMUM_HEAP_CAPACITY), size)
  }

  /** The memory of the enlarged heap, wherever it has been put. */
  ghost predicate Enlarged(m: seq<Word>, m': seq<Word>, n: nat) {
    |m'| == n >= |m| && m'[..|m|] == m
  }

  /** The answer gives the heap n words somewhere. */
  predicate Granted(answer: Mremap, n: nat, outside: Word -> bool) {
    answer.Mapped? && Mappable(answer.address, n, outside)
  }

  /** mremap with MREMAP_MAYMOVE: contents kept, base possibly new.  On failure the program exits. */
  method Remap(g: Process, n: nat, answer: Mremap) returns (ok: bool)
    requires n >= g.mem.Length
    modifies g`base, g`mem
    ensures ok <==> Granted(answer, n, g.outside)
    ensures ok ==> fresh(g.mem) && answer == Mapped(g.base) && Mappable(g.base, n, g.outside)
    ensures ok ==> Enlarged(old(g.mem[..]), g.mem[..], n)
  {
    if !Granted(answer, n, g.outside) {
      return false;
    }
    var before, len := g.mem, g.mem.Length;
    var enlarged := new Word[n](i requires 0 <= i < n reads before => if i < before.Length then before[i] else 0);
    g.base, g.mem := answer.address, enlarged;
    assert g.mem[..len] == before[..];
    ok := true;
  }

  /** Nothing the collector knows about the objects depends on the size of the array. */
  lemma EnlargedKeeps(m: seq<Word>, m': seq<Word>, n: nat, sh: Shape)
    requires sh.Valid() && Fits(m, sh) && Enlarged(m, m', n)
    ensures Fits(m', sh) && BitsOf(m', sh) == BitsOf(m, sh)
    ensures forall a :: 0 <= a < |m| ==> m'[a] == m[a]
  {
    forall a | 0 <= a < |m| ensures m'[a] == m[a] {
      assert m'[..|m|][a] == m'[a];
    }
    BitsFrame(m, m', sh, sh.N());
  }

  /** What is known when marking has finished: m0 is the memory before it, mk the marks. */
  ghost predicate MarkedHeap(g: Process, m0: seq<Word>, sh: Shape, mk: seq<bool>)
    reads g, g.mem
  {
    && g.Parsed(sh) && Fits(m0, sh) && SameData(m0, g.mem[..], sh) && FieldsOk(m0, g.base, sh)
    && QueueEmpty(BitsOf(g.mem[..], sh)) && Closed(BitsOf(g.mem[..], sh), m0, g.base, sh, -1)
    && BitsOf(g.mem[..], sh).mk == mk
  }

  /** The fields of live objects lead to live objects. */
  lemma ClosedTargets(b: Bits, m0: seq<Word>, m1: seq<Word>, base: nat, sh: Shape, mk: seq<bool>)
    requires sh.Valid() && Fits(m0, sh) && b.For(sh) && b.mk == mk && QueueEmpty(b) && Closed(b, m0, base, sh, -1)
    requires |m0| <= |m1|
    requires forall a {:trigger sh.ForwardSlot(a)} :: 0 <= a < sh.End() && !sh.ForwardSlot(a) ==> m1[a] == m0[a]
    ensures TargetsLive(m1, base, sh, mk)
  {
    forall a: nat, j: nat | a < |m1| && LiveField(sh, mk, a) && j < sh.N() && m1[a] == Ptr(base, sh.st[j])
      ensures mk[j]
    {
      var i: nat :| i < sh.N() && mk[i] && IsField(sh, i, a);
      FieldInside(sh, i, a);
      assert Scanned(b, m0, base, sh, i, |m0|);
      assert Met(b, j);
    }
  }

  ghost predicate RootsOk(g: Process, ob: nat, sh: Shape, mk: seq<bool>)
    requires sh.Valid() && |mk| == sh.N() && g.RootsInRam()
    reads g, g.ram
  {
    && (forall p: nat :: g.top < p <= g.bottom ==> RootOk(ob, sh, mk, g.ram[p]))
    && (forall k: nat :: k < |g.extra| ==> RootOk(ob, sh, mk, g.ram[g.extra[k]]))
  }

  /** The state between `compute_locations` and mremap. */
  ghost predicate Planned(m0: seq<Word>, m1: seq<Word>, ob: nat, sh: Shape, mk: seq<bool>) {
    && Traced(m0, m1, sh) && |mk| == sh.N() && ob % 4 == 0 && FieldsOk(m0, ob, sh)
    && Located(BitsOf(m1, sh), ob, sh, mk, sh.N()) && TargetsLive(m1, ob, sh, mk)
  }

  method Plan(g: Process, ghost m0: seq<Word>, ghost sh: Shape, ghost mk: seq<bool>) returns (live: nat)
    requires MarkedHeap(g, m0, sh, mk)
    modifies g.mem
    ensures live == LiveBefore(sh, mk, sh.N()) && Planned(m0, g.mem[..], g.base, sh, mk)
    ensures g.Parsed(sh)
  {
    ghost var m := g.mem[..];
    live := ComputeLocations(g, sh);
    SameDataTrans(m0, m, g.mem[..], sh);
    ClosedTargets(BitsOf(m, sh), m0, g.mem[..], g.base, sh, mk);
  }

  lemma PlannedEnlarged(m0: seq<Word>, m: seq<Word>, m1: seq<Word>, n: nat, ob: nat, sh: Shape, mk: seq<bool>)
    requires Planned(m0, m, ob, sh, mk) && Enlarged(m, m1, n)
    ensures Planned(m0, m1, ob, sh, mk)
    ensures FieldsOk(m1, ob, sh)
  {
    EnlargedKeeps(m, m1, n, sh);
    forall a: nat, j: nat | a < |m1| && LiveField(sh, mk, a) && j < sh.N() && m1[a] == Ptr(ob, sh.st[j])
      ensures mk[j]
    {
      var i: nat :| i < sh.N() && mk[i] && IsField(sh, i, a);
      FieldInside(sh, i, a);
    }
    forall i: nat, a: nat | IsField(sh, i, a) && a < |m1| ensures WordOk(ob, sh, m1[a]) {
      FieldInside(sh, i, a);
    }
  }

  /** m1 holds the data of m0 and the queue is empty in it. */
  ghost predicate Traced(m0: seq<Word>, m1: seq<Word>, sh: Shape) {
    && sh.Valid() && Fits(m0, sh) && Fits(m1, sh) && QueueEmpty(BitsOf(m1, sh))
    && forall a {:trigger sh.ForwardSlot(a)} :: 0 <= a < sh.End() && !sh.ForwardSlot(a) ==> m1[a] == m0[a]
  }

  /** The second half of `compact_phase`, in the heap that mremap returned. */
  method Rebuild(g: Process, ob: nat, live: nat, ghost m0: seq<Word>, ghost sh: Shape, ghost mk: seq<bool>)
    returns (ghost c: Cycle)
    requires Planned(m0, g.mem[..], ob, sh, mk) && FieldsOk(g.mem[..], ob, sh) && g.current == sh.End()
    requires live == LiveBefore(sh, mk, sh.N())
    requires Mappable(g.base, g.mem.Length, g.outside) && g.mem != g.ram
    requires g.RootsInRam() && ExtraOk(g.top, g.bottom, g.extra) && RootsOk(g, ob, sh, mk)
    modifies g`current, g.mem, g.ram
    ensures c.Valid() && c.sh == sh && c.mk == mk && c.m0 == m0 && c.ob == ob && c.nb == g.base && c.m3 == g.mem[..]
    ensures c.m1 == old(g.mem[..])
    ensures Fixed(old(g.ram[..]), g.ram[..], ob, g.base, sh, mk, AllSlots(g.top, g.bottom, g.extra))
    ensures g.current == live
  {
    ghost var m1 := g.mem[..];
    NothingRedirected(m1, ob, g.base, sh, mk);
    UpdateReferences(g, ob, m1, sh, mk);
    ghost var m2 := g.mem[..];
    RedirectedKeeps(m1, m2, ob, g.base, sh, mk, sh.End());
    PhysicallyRelocate(g, ob, m2, sh, mk);
    g.current := live;
    c := Cycle(ob, g.base, sh, mk, m0, m1, m2, g.mem[..]);
  }

  lemma NothingRedirected(m1: seq<Word>, ob: nat, nb: nat, sh: Shape, mk: seq<bool>)
    requires sh.Valid() && |mk| == sh.N()
    ensures Redirected(m1, m1, ob, nb, sh, mk, 0)
  {
  }

  /** `compact_phase` */
  method CompactHeap(g: Process, additional: nat, answer: Mremap, ghost m0: seq<Word>, ghost sh: Shape,
                     ghost mk: seq<bool>)
    returns (ok: bool, ghost c: Cycle)
    requires MarkedHeap(g, m0, sh, mk) && g.mem != g.ram
    requires g.RootsInRam() && ExtraOk(g.top, g.bottom, g.extra) && RootsOk(g, g.base, sh, mk)
    modifies g`base, g`mem, g`current, g.mem, g.ram
    ensures c.mk == mk
    ensures (ok <==> Granted(answer, NextSize(LiveBefore(sh, mk, sh.N()), additional, old(g.mem.Length)), g.outside))
    ensures ok ==> fresh(g.mem) && answer == Mapped(g.base) && Mappable(g.base, g.mem.Length, g.outside)
    ensures ok ==> c.Valid() && c.sh == sh && c.mk == mk && c.m0 == m0 && c.ob == old(g.base) && c.nb == g.base
    ensures ok ==> c.m3 == g.mem[..]
    ensures ok ==> TargetsLive(c.m1, c.ob, sh, mk)
    ensures ok ==> Fixed(old(g.ram[..]), g.ram[..], c.ob, g.base, sh, mk, AllSlots(g.top, g.bottom, g.extra))
    ensures ok ==> g.current == LiveBefore(sh, mk, sh.N())
    ensures ok ==> g.mem.Length == NextSize(g.current, additional, old(g.mem.Length))
  {
    var live := Plan(g, m0, sh, mk);
    var ob := g.base;
    ghost var m := g.mem[..];
    c := Cycle(0, 0, sh, mk, [], [], [], []);
    ok := Remap(g, NextSize(live, additional, g.mem.Length), answer);
    if ok {
      PlannedEnlarged(m0, m, g.mem[..], g.mem.Length, ob, sh, mk);
      c := Rebuild(g, ob, live, m0, sh, mk);
    }
  }
}
