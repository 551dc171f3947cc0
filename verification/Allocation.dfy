/** The bump allocator, `alloc`, and the four `alloc_*` functions. */
module Allocation {
  import opened Words
  import opened Layout
  import opened MarkQueue
  import opened Options
  import opened ProcessState
  import opened Compaction
  import opened Abstraction
  import opened Relocation
  import opened CompactPhase
  import opened Collector
  import opened Settled
  import opened Liveness

  // ----- growing the shape -----------------------------------------------------------

  /** The shape with one more object at the end. */
  ghost function Extend(sh: Shape, h: Word): (r: Shape)
    requires sh.Valid() && WellTagged(h)
    ensures r.Valid() && r.N() == sh.N() + 1 && r.End() == sh.End() + ObjWords(h)
    ensures r.st[..sh.N() + 1] == sh.st && r.hd == sh.hd + [h]
  {
    var r := Shape(sh.st + [sh.End() + ObjWords(h)], sh.lo + [sh.End() + FieldOffset(h)],
                   sh.whole + [ObjBytes(h) / 4], sh.tail + [ObjBytes(h) % 4], sh.hd + [h]);
    assert r.Valid() by {
      forall i | 0 <= i < |r.hd| ensures r.Tile(i) {
        if i < |sh.hd| {
          assert sh.Tile(i);
        }
      }
    }
    r
  }

  /** What is above the last object does not matter. */
  ghost predicate SameBelow(m: seq<Word>, m': seq<Word>, end: nat) {
    |m'| == |m| && forall a :: 0 <= a < end && a < |m| ==> m'[a] == m[a]
  }

  lemma SameObjects(m: seq<Word>, m': seq<Word>, base: nat, sh: Shape, ids: seq<nat>, store: seq<Obj>,
                    outside: Word -> bool)
    requires sh.Valid() && Fits(m, sh) && SameBelow(m, m', sh.End())
    requires Represents(m, base, sh, ids, store) && FieldsGood(m, base, sh, outside)
    ensures Fits(m', sh) && BitsOf(m', sh) == BitsOf(m, sh)
    ensures Represents(m', base, sh, ids, store) && FieldsGood(m', base, sh, outside)
  {
    sh.AllOrdered();
    BitsFrame(m, m', sh, sh.N());
    forall i: nat | i < sh.N() ensures ObjOf(m', base, sh, ids, i) == ObjOf(m, base, sh, ids, i) {
      SameObject(m, m', base, sh, ids, i);
    }
    forall i: nat, a: nat | a < |m'| && IsField(sh, i, a) ensures Good(base, sh, outside, m'[a]) {
      FieldInside(sh, i, a);
    }
  }

  lemma SameObject(m: seq<Word>, m': seq<Word>, base: nat, sh: Shape, ids: seq<nat>, i: nat)
    requires sh.Valid() && i < sh.N() && |ids| == sh.N() && sh.End() <= |m| && |m'| == |m|
    requires forall a :: sh.st[i] <= a < sh.st[i + 1] && a < |m| && a != sh.st[i] + 1 ==> m'[a] == m[a]
    ensures ObjOf(m', base, sh, ids, i) == ObjOf(m, base, sh, ids, i)
  {
    sh.Last(i + 1);
    sh.FieldsAreWords(i);
    if HasFirst(sh.hd[i]) {
      FirstInside(sh, i);
    }
    assert FieldWords(m', sh, i) == FieldWords(m, sh, i);
    assert StringBytes(m', sh, i) == StringBytes(m, sh, i) by {
      if Tag(sh.hd[i]) == STRING_TAG {
        forall j | 0 <= j <= Len(sh.hd[i]) ensures StringBytes(m', sh, i)[j] == StringBytes(m, sh, i)[j] {
          ByteInside(sh, i, j);
        }
      }
    }
  }

  // ----- the new object ----------------------------------------------------------------

  /** A freshly allocated object: every field is the word 0, every byte is 0. */
  ghost function ZeroObj(h: Word): Obj
    requires WellTagged(h)
  {
    Obj(h, 0, seq(FieldCount(h), i => Imm(0)), seq(if Tag(h) == STRING_TAG then Len(h) + 1 else 0, i => 0))
  }

  ghost function FieldCount(h: Word): nat {
    if FieldOffset(h) < ObjWords(h) then ObjWords(h) - FieldOffset(h) else 0
  }

  /** Growing the heap changes the meaning of no good word. */
  lemma GoodExtends(base: nat, n: nat, sh: Shape, ids: seq<nat>, outside: Word -> bool, h: Word, id: nat, w: Word)
    requires sh.Valid() && WellTagged(h) && |ids| == sh.N() && Mappable(base, n, outside) && Extend(sh, h).End() <= n
    requires Good(base, sh, outside, w)
    ensures Good(base, Extend(sh, h), outside, w)
    ensures ValOf(base, Extend(sh, h), ids + [id], w) == ValOf(base, sh, ids, w)
  {
    var r := Extend(sh, h);
    assert forall i :: 0 <= i < sh.N() ==> r.st[i] == sh.st[i];
    if i :| 0 <= i < sh.N() && w == Ptr(base, sh.st[i]) {
      ValOfPtr(base, sh, ids, w, i);
      ValOfPtr(base, r, ids + [id], w, i);
    } else {
      ValOfImm(base, sh, ids, w);
      ValOfImm(base, r, ids + [id], w);
    }
  }

  /** The objects that were there are the same objects in the grown heap. */
  lemma OldObject(m: seq<Word>, base: nat, n: nat, sh: Shape, ids: seq<nat>, outside: Word -> bool, h: Word, id: nat,
                  i: nat)
    requires sh.Valid() && WellTagged(h) && |ids| == sh.N() && Mappable(base, n, outside)
    requires Extend(sh, h).End() <= n == |m|
    requires i < sh.N() && FieldsGood(m, base, sh, outside)
    ensures ObjOf(m, base, Extend(sh, h), ids + [id], i) == ObjOf(m, base, sh, ids, i)
  {
    SameSpot(sh, h, i);
    OldFields(m, base, n, sh, ids, outside, h, id, i);
    assert StringBytes(m, Extend(sh, h), i) == StringBytes(m, sh, i);
  }

  lemma SameSpot(sh: Shape, h: Word, i: nat)
    requires sh.Valid() && WellTagged(h) && i < sh.N()
    ensures var r := Extend(sh, h);
            r.st[i] == sh.st[i] && r.st[i + 1] == sh.st[i + 1] <= sh.End() && r.lo[i] == sh.lo[i] && r.hd[i] == sh.hd[i]
  {
    sh.Last(i + 1);
  }

  lemma OldFields(m: seq<Word>, base: nat, n: nat, sh: Shape, ids: seq<nat>, outside: Word -> bool, h: Word, id: nat,
                  i: nat)
    requires sh.Valid() && WellTagged(h) && |ids| == sh.N() && Mappable(base, n, outside)
    requires Extend(sh, h).End() <= n == |m|
    requires i < sh.N() && FieldsGood(m, base, sh, outside)
    ensures ValsOf(base, Extend(sh, h), ids + [id], FieldWords(m, Extend(sh, h), i))
         == ValsOf(base, sh, ids, FieldWords(m, sh, i))
  {
    SameSpot(sh, h, i);
    var ws := FieldWords(m, sh, i);
    forall d: nat | d < |ws| ensures ValOf(base, Extend(sh, h), ids + [id], ws[d]) == ValOf(base, sh, ids, ws[d]) {
      FieldWordAt(m, sh, i, d);
      assert IsField(sh, i, sh.lo[i] + d);
      GoodExtends(base, n, sh, ids, outside, h, id, ws[d]);
    }
  }

  lemma NewObject(m: seq<Word>, base: nat, n: nat, sh: Shape, ids: seq<nat>, outside: Word -> bool, h: Word)
    requires sh.Valid() && WellTagged(h) && Mappable(base, n, outside) && Extend(sh, h).End() <= n == |m| && outside(0)
    requires |ids| == sh.N() + 1
    requires forall a :: sh.End() + 2 <= a < sh.End() + ObjWords(h) ==> m[a] == 0
    ensures ObjOf(m, base, Extend(sh, h), ids, sh.N()) == ZeroObj(h)
  {
    var r, i := Extend(sh, h), sh.N();
    assert r.st[i] == sh.End() && r.hd[i] == h && r.Tile(i);
    r.FieldsAreWords(i);
    ValOfImm(base, r, ids, 0);
    var ws := FieldWords(m, r, i);
    forall d: nat | d < |ws| ensures ws[d] == 0 {
      FieldWordAt(m, r, i, d);
    }
    if HasFirst(h) {
      FirstInside(r, i);
    }
    if Tag(h) == STRING_TAG {
      forall j | 0 <= j <= Len(h) ensures StringBytes(m, r, i)[j] == 0 {
        ByteInside(r, i, j);
        ZeroByte(j % 4);
      }
    }
    assert StringBytes(m, r, i) == ZeroObj(h).bytes;
  }

  lemma ZeroByte(k: nat)
    requires k < 4
    ensures ByteOf(0, k) == 0
  {
  }

  /** Turning a zeroed block above the last object into an object. */
  lemma GrownHeap(m: seq<Word>, m': seq<Word>, base: nat, sh: Shape, ids: seq<nat>, store: seq<Obj>,
                  outside: Word -> bool, h: Word)
    requires sh.Valid() && Fits(m, sh) && AllClear(BitsOf(m, sh))
    requires Represents(m, base, sh, ids, store) && FieldsGood(m, base, sh, outside)
    requires WellTagged(h) && Mappable(base, |m|, outside) && Extend(sh, h).End() <= |m| && outside(0)
    requires SameBelow(m, m', sh.End()) && m'[sh.End()] == h
    requires forall a :: sh.End() + 1 <= a < sh.End() + ObjWords(h) ==> m'[a] == 0
    ensures var r := Extend(sh, h);
            && Fits(m', r) && AllClear(BitsOf(m', r)) && FieldsGood(m', base, r, outside)
            && Represents(m', base, r, ids + [|store|], store + [ZeroObj(h)])
  {
    SameObjects(m, m', base, sh, ids, store, outside);
    GrownTiling(m', sh, h);
    GrownFields(m', base, sh, ids, outside, h);
    GrownStore(m', base, sh, ids, store, outside, h);
  }

  lemma GrownTiling(m: seq<Word>, sh: Shape, h: Word)
    requires sh.Valid() && Fits(m, sh) && AllClear(BitsOf(m, sh))
    requires WellTagged(h) && Extend(sh, h).End() <= |m| && m[sh.End()] == h && m[sh.End() + 1] == 0
    ensures Fits(m, Extend(sh, h)) && AllClear(BitsOf(m, Extend(sh, h)))
  {
    var r := Extend(sh, h);
    WholeWords(ObjBytes(h));
    assert Fits(m, r) by {
      forall i | 0 <= i < r.N() ensures r.st[i] + 1 < |m| && m[r.st[i]] == r.hd[i] {
        assert r.st[i] == if i < sh.N() then sh.st[i] else sh.End();
      }
    }
    forall i: nat | i < r.N() ensures !BitsOf(m, r).mk[i] && !BitsOf(m, r).en[i] {
      BitsAt(m, r, r.N(), i);
      if i < sh.N() {
        BitsAt(m, sh, sh.N(), i);
      }
    }
  }

  lemma GrownFields(m: seq<Word>, base: nat, sh: Shape, ids: seq<nat>, outside: Word -> bool, h: Word)
    requires sh.Valid() && |ids| == sh.N() && FieldsGood(m, base, sh, outside)
    requires WellTagged(h) && Mappable(base, |m|, outside) && Extend(sh, h).End() <= |m| && outside(0)
    requires forall a :: sh.End() + 1 <= a < sh.End() + ObjWords(h) ==> m[a] == 0
    ensures FieldsGood(m, base, Extend(sh, h), outside)
  {
    var r := Extend(sh, h);
    forall i: nat, a: nat | a < |m| && IsField(r, i, a) ensures Good(base, r, outside, m[a]) {
      r.FieldsAreWords(i);
      if i < sh.N() {
        assert r.st[i + 1] == sh.st[i + 1] && r.lo[i] == sh.lo[i];
        assert IsField(sh, i, a);
        GoodExtends(base, |m|, sh, ids, outside, h, 0, m[a]);
      } else {
        assert r.st[i] == sh.End();
      }
    }
  }

  lemma GrownEntry(m: seq<Word>, base: nat, sh: Shape, ids: seq<nat>, store: seq<Obj>, outside: Word -> bool,
                   h: Word, i: nat)
    requires sh.Valid() && Fits(m, sh) && Represents(m, base, sh, ids, store) && FieldsGood(m, base, sh, outside)
    requires WellTagged(h) && Mappable(base, |m|, outside) && Extend(sh, h).End() <= |m| && outside(0)
    requires forall a :: sh.End() + 1 <= a < sh.End() + ObjWords(h) ==> m[a] == 0
    requires i <= sh.N()
    ensures var ids', store' := ids + [|store|], store + [ZeroObj(h)];
            ids'[i] < |store'| && store'[ids'[i]] == ObjOf(m, base, Extend(sh, h), ids', i)
  {
    if i < sh.N() {
      OldObject(m, base, |m|, sh, ids, outside, h, |store|, i);
      assert store[ids[i]] == ObjOf(m, base, sh, ids, i);
    } else {
      NewObject(m, base, |m|, sh, ids + [|store|], outside, h);
    }
  }

  lemma GrownStore(m: seq<Word>, base: nat, sh: Shape, ids: seq<nat>, store: seq<Obj>, outside: Word -> bool, h: Word)
    requires sh.Valid() && Fits(m, sh) && Represents(m, base, sh, ids, store) && FieldsGood(m, base, sh, outside)
    requires WellTagged(h) && Mappable(base, |m|, outside) && Extend(sh, h).End() <= |m| && outside(0)
    requires Fits(m, Extend(sh, h))
    requires forall a :: sh.End() + 1 <= a < sh.End() + ObjWords(h) ==> m[a] == 0
    ensures Represents(m, base, Extend(sh, h), ids + [|store|], store + [ZeroObj(h)])
  {
    forall i: nat | i <= sh.N()
      ensures var ids', store' := ids + [|store|], store + [ZeroObj(h)];
              ids'[i] < |store'| && store'[ids'[i]] == ObjOf(m, base, Extend(sh, h), ids', i)
    {
      GrownEntry(m, base, sh, ids, store, outside, h, i);
    }
    IncreasingSnoc(ids, |store|);
  }

  lemma IncreasingSnoc(ids: seq<nat>, n: nat)
    requires Increasing(ids) && forall i :: 0 <= i < |ids| ==> ids[i] < n
    ensures Increasing(ids + [n])
  {
  }

  // ----- the allocator ---------------------------------------------------------------------

  /** The invariant that every operation of the run-time system keeps. */
  ghost predicate Ready(g: Process)
    reads g`base, g`mem, g`current, g`ram, g`top, g`bottom, g`extra, g`sh, g`ids, g`store, g.mem, g.ram
  {
    IsSettled(g, g.sh) && Represents(g.mem[..], g.base, g.sh, g.ids, g.store)
  }

  /** Between `alloc` and the writing of the header: a zeroed block of `size` words lies above the
      last object. */
  ghost predicate Pending(g: Process, size: nat)
    reads g, g.mem, g.ram
  {
    && HeapOk(g, g.sh) && Represents(g.mem[..], g.base, g.sh, g.ids, g.store)
    && g.current == g.sh.End() + size <= g.mem.Length
    && forall a :: g.sh.End() <= a < g.current ==> g.mem[a] == 0
  }

  /** What the words of the operand stack denote, oldest operand first. */
  ghost function StackOf(base: nat, sh: Shape, ids: seq<nat>, r: seq<Word>, top: nat, bottom: nat): (s: seq<Val>)
    requires sh.Valid() && |ids| == sh.N() && top < bottom < |r|
    ensures |s| == bottom - top - 1
    ensures forall k :: 0 <= k < |s| ==> s[k] == ValOf(base, sh, ids, r[bottom - 1 - k])
  {
    seq(bottom - top - 1, k requires 0 <= k < bottom - top - 1 => ValOf(base, sh, ids, r[bottom - 1 - k]))
  }

  ghost function Stack(g: Process): (s: seq<Val>)
    requires g.sh.Valid() && |g.ids| == g.sh.N() && g.RootsInRam()
    reads g, g.ram
  {
    StackOf(g.base, g.sh, g.ids, g.ram[..], g.top, g.bottom)
  }

  /** What the extra roots denote. */
  ghost function Extras(g: Process): (s: seq<Val>)
    requires g.sh.Valid() && |g.ids| == g.sh.N() && g.RootsInRam()
    reads g, g.ram
  {
    ValsOf(g.base, g.sh, g.ids, Gather(g.ram[..], g.extra))
  }

  /** The words of the objects that can be reached from the operand stack and the extra roots. */
  ghost function LiveOf(g: Process): nat
    requires g.sh.Valid() && |g.ids| == g.sh.N() && g.RootsInRam()
    reads g, g.ram
  {
    LiveWords(g.store, Stack(g) + Extras(g), |g.store|)
  }

  ghost predicate Among(us: seq<Val>, vs: seq<Val>) { forall v :: v in us ==> v in vs }

  /** The words that mark_phase starts from denote what is on the operand stack and in the extra roots. */
  lemma RootsAmong(g: Process)
    requires g.sh.Valid() && |g.ids| == g.sh.N() && g.RootsInRam()
    ensures Among(ValsOf(g.base, g.sh, g.ids, g.RootWords()), Stack(g) + Extras(g))
  {
    var n, ws, vs := g.bottom - g.top - 1, g.RootWords(), Stack(g) + Extras(g);
    forall k: nat | k < |ws| ensures ValsOf(g.base, g.sh, g.ids, ws)[k] in vs {
      if k < n {
        assert vs[n - 1 - k] == ValOf(g.base, g.sh, g.ids, g.ram[g.top + 1 + k]);
      } else {
        assert vs[k] == ValOf(g.base, g.sh, g.ids, Gather(g.ram[..], g.extra)[k - n]);
      }
    }
  }

  lemma LiveRooted(m: seq<Word>, base: nat, sh: Shape, mk: seq<bool>, ids: seq<nat>, store: seq<Obj>, ws: seq<Word>,
                   vs: seq<Val>)
    requires sh.Valid() && Fits(m, sh) && Represents(m, base, sh, ids, store) && |mk| == sh.N()
    requires MarkedExactly(m, base, sh, mk, ws) && Among(ValsOf(base, sh, ids, ws), vs)
    ensures LiveBefore(sh, mk, sh.N()) <= LiveWords(store, vs, |store|)
  {
    LiveKept(m, base, sh, mk, ids, store, ws);
    LiveWordsAmong(store, ValsOf(base, sh, ids, ws), vs, |store|);
  }

  /** `gc_alloc_on_existing_heap` */
  method AllocOnExistingHeap(g: Process, size: nat) returns (p: Option<nat>)
    requires Ready(g)
    modifies g`current, g.mem
    ensures p.Some? <==> old(g.current) + size <= g.mem.Length
    ensures p.Some? ==> Pending(g, size) && p.value == g.sh.End()
    ensures p.None? ==> Ready(g)
  {
    p := None;
    if g.current + size <= g.mem.Length {
      var c := g.current;
      ghost var m := g.mem[..];
      g.current := g.current + size;
      forall a | c <= a < c + size {
        g.mem[a] := 0;
      }
      SameObjects(m, g.mem[..], g.base, g.sh, g.ids, g.store, g.outside);
      p := Some(c);
    }
  }

  /** A collection leaves the operand stack and the extra roots with the values they had. */
  lemma SameView(c: Cycle, ids: seq<nat>, r0: seq<Word>, r1: seq<Word>, top: nat, bottom: nat, extra: seq<nat>, p: nat)
    requires c.sh.Valid() && |c.mk| == c.sh.N() && |ids| == c.sh.N()
    requires SameRoots(c, ids, r0, r1, AllSlots(top, bottom, extra)) && p < |r0|
    requires top < p <= bottom || exists k :: 0 <= k < |extra| && extra[k] == p
    ensures ValOf(c.nb, c.NewShape(), c.NewIds(ids), r1[p]) == ValOf(c.ob, c.sh, ids, r0[p])
  {
    InRootSlots(top, bottom, extra, |extra|, p);
    assert SameSlot(c, ids, r0[p], r1[p], p in AllSlots(top, bottom, extra));
  }

  lemma SameStack(c: Cycle, ids: seq<nat>, r0: seq<Word>, r1: seq<Word>, top: nat, bottom: nat, extra: seq<nat>)
    requires c.sh.Valid() && |c.mk| == c.sh.N() && |ids| == c.sh.N() && top < bottom < |r0| && InRange(extra, |r0|)
    requires SameRoots(c, ids, r0, r1, AllSlots(top, bottom, extra))
    ensures StackOf(c.nb, c.NewShape(), c.NewIds(ids), r1, top, bottom) == StackOf(c.ob, c.sh, ids, r0, top, bottom)
    ensures ValsOf(c.nb, c.NewShape(), c.NewIds(ids), Gather(r1, extra)) == ValsOf(c.ob, c.sh, ids, Gather(r0, extra))
  {
    forall p: nat | p < |r0| && (top < p <= bottom || exists k :: 0 <= k < |extra| && extra[k] == p)
      ensures ValOf(c.nb, c.NewShape(), c.NewIds(ids), r1[p]) == ValOf(c.ob, c.sh, ids, r0[p])
    {
      SameView(c, ids, r0, r1, top, bottom, extra, p);
    }
  }

  /** The heap asked for has room for the request, is at least twice as large as what is kept, and no larger than
      what is live demands. */
  lemma NextSizeBound(kept: nat, live: nat, additional: nat, size: nat)
    requires kept <= live
    ensures 2 * kept + additional <= NextSize(kept, additional, size)
    ensures size <= NextSize(kept, additional, size) <= NextSize(live, additional, size)
  {
  }

  /** The system refused the one mremap call that a heap of `size` words, of which `live` can be reached,
      makes for a request of `words`: it asked for no more than twice what is live and the request. */
  ghost predicate Refused(answer: Mremap, live: nat, words: nat, size: nat, outside: Word -> bool) {
    exists n :: size <= n <= NextSize(live, words, size) && !Granted(answer, n, outside)
  }

  /** The same when the request does not fit as the heap is, of which `current` words are used. */
  ghost predicate OutOfRoom(answer: Mremap, current: nat, live: nat, words: nat, size: nat, outside: Word -> bool) {
    size < current + words && Refused(answer, live, words, size, outside)
  }

  /** What a request of `words` does to the number of mremap calls and to the size of the heap. */
  predicate Stretched(calls: nat, live: nat, size: nat, words: nat, calls': nat, size': nat) {
    calls <= calls' <= calls + 1 && size <= size' <= NextSize(live, words, size)
  }

  /** The system has refused what a request for `words` needed. */
  twostate predicate Denied(g: Process, live: nat, words: nat) {
    OutOfRoom(g.answers(old(g.calls)), old(g.current), live, words, old(g.mem.Length), g.outside)
  }

  /** A request for `words` has been served: the memory is what it was or new. */
  twostate predicate Served(g: Process, live: nat, words: nat)
    reads g
  {
    && (g.mem == old(g.mem) || fresh(g.mem))
    && Stretched(old(g.calls), live, old(g.mem.Length), words, g.calls, g.mem.Length)
  }

  /** The roots denote what they denoted in a process with this stack and these extra roots, and there is room
      for a request. */
  ghost predicate Kept(g: Process, sh: Shape, ids: seq<nat>, stack: seq<Val>, extras: seq<Val>, additional: nat)
    requires sh.Valid() && |ids| == sh.N()
    reads g, g.mem, g.ram
  {
    && IsSettled(g, sh) && Represents(g.mem[..], g.base, sh, ids, g.store)
    && StackOf(g.base, sh, ids, g.ram[..], g.top, g.bottom) == stack
    && ValsOf(g.base, sh, ids, Gather(g.ram[..], g.extra)) == extras
    && 2 * g.current + additional <= g.mem.Length
  }

  /** The collection proper, before the ghost record follows. */
  method CollectStep(g: Process, additional: nat, answer: Mremap, ghost stack: seq<Val>, ghost extras: seq<Val>,
                     ghost live: nat)
    returns (ok: bool, ghost c: Cycle)
    requires Ready(g) && stack == Stack(g) && extras == Extras(g)
    requires live == LiveWords(g.store, stack + extras, |g.store|)
    modifies g`base, g`mem, g`current, g.mem, g.ram
    ensures !ok ==> Refused(answer, live, additional, old(g.mem.Length), g.outside)
    ensures ok ==> fresh(g.mem) && c.sh == g.sh && |c.mk| == c.sh.N() && c.sh.Valid() && |g.ids| == c.sh.N()
    ensures ok ==> Kept(g, c.NewShape(), c.NewIds(g.ids), stack, extras, additional)
    ensures ok ==> old(g.mem.Length) <= g.mem.Length <= NextSize(live, additional, old(g.mem.Length))
  {
    ghost var m0, b0, r0, n, ws := g.mem[..], g.base, g.ram[..], g.mem.Length, g.RootWords();
    RootsAmong(g);
    ok, c := Collect(g, additional, answer, g.sh, g.ids, g.store);
    if ok {
      SameStack(c, g.ids, r0, g.ram[..], g.top, g.bottom, g.extra);
    }
    LiveRooted(m0, b0, g.sh, c.mk, g.ids, g.store, ws, stack + extras);
    NextSizeBound(LiveBefore(g.sh, c.mk, g.sh.N()), live, additional, n);
  }

  /** The ghost record follows a collection. */
  method Follow(g: Process, ghost sh: Shape, ghost ids: seq<nat>, ghost stack: seq<Val>, ghost extras: seq<Val>,
                ghost additional: nat)
    requires sh.Valid() && |ids| == sh.N() && Kept(g, sh, ids, stack, extras, additional)
    modifies g`sh, g`ids, g`calls
    ensures g.calls == old(g.calls) + 1 && Ready(g) && Stack(g) == stack && Extras(g) == extras
  {
    g.sh, g.ids, g.calls := sh, ids, g.calls + 1;
  }

  /** A collection as the program sees it: nothing has happened, and there is room for the request.
      It fails only when mremap does. */
  method MakeRoom(g: Process, additional: nat) returns (ok: bool)
    requires Ready(g)
    modifies g`base, g`mem, g`current, g`calls, g`sh, g`ids, g.mem, g.ram
    ensures ok ==> Ready(g) && fresh(g.mem)
    ensures ok ==> Stack(g) == old(Stack(g)) && Extras(g) == old(Extras(g))
    ensures ok ==> 2 * g.current + additional <= g.mem.Length
    ensures ok ==> Stretched(old(g.calls), old(LiveOf(g)), old(g.mem.Length), additional, g.calls, g.mem.Length)
    ensures !ok ==> Refused(g.answers(old(g.calls)), old(LiveOf(g)), additional, old(g.mem.Length), g.outside)
  {
    ghost var c, stack, extras := *, Stack(g), Extras(g);
    ok, c := CollectStep(g, additional, g.answers(g.calls), stack, extras, LiveOf(g));
    if ok {
      Follow(g, c.NewShape(), c.NewIds(g.ids), stack, extras, additional);
    }
  }

  /** `alloc`: bump allocation, and a collection when the heap is full.  Only the system can make it
      fail. */
  method Alloc(g: Process, bytes: nat) returns (p: Option<nat>)
    requires Ready(g) && bytes > 0
    modifies g`base, g`mem, g`current, g`calls, g`sh, g`ids, g.mem, g.ram
    ensures p.Some? ==> Pending(g, BytesToWords(bytes)) && p.value == g.sh.End()
    ensures p.Some? ==> Served(g, old(LiveOf(g)), BytesToWords(bytes)) && Stack(g) == old(Stack(g))
    ensures p.Some? ==> Extras(g) == old(Extras(g))
    ensures p.None? ==> Denied(g, old(LiveOf(g)), BytesToWords(bytes))
  {
    var size := BytesToWords(bytes);
    p := AllocOnExistingHeap(g, size);
    if p.None? {
      var ok := MakeRoom(g, size);
      if ok {
        p := AllocOnExistingHeap(g, size);
      }
    }
  }

  /** Good slots keep their values when an object is added. */
  lemma StackGrows(g: Process, h: Word, id: nat)
    requires HeapOk(g, g.sh) && |g.ids| == g.sh.N() && WellTagged(h) && Extend(g.sh, h).End() <= g.mem.Length
    ensures StackOf(g.base, Extend(g.sh, h), g.ids + [id], g.ram[..], g.top, g.bottom) == Stack(g)
    ensures ValsOf(g.base, Extend(g.sh, h), g.ids + [id], Gather(g.ram[..], g.extra)) == Extras(g)
    ensures RootsGood(g, Extend(g.sh, h))
  {
    forall p: nat | p < g.ram.Length && Good(g.base, g.sh, g.outside, g.ram[p])
      ensures ValOf(g.base, Extend(g.sh, h), g.ids + [id], g.ram[p]) == ValOf(g.base, g.sh, g.ids, g.ram[p])
      ensures Good(g.base, Extend(g.sh, h), g.outside, g.ram[p])
    {
      GoodExtends(g.base, g.mem.Length, g.sh, g.ids, g.outside, h, id, g.ram[p]);
    }
    NotNewPtr(g, h);
  }

  lemma NotNewPtr(g: Process, h: Word)
    requires HeapOk(g, g.sh) && WellTagged(h) && Extend(g.sh, h).End() <= g.mem.Length
    ensures !ContentPtr(g.base, Extend(g.sh, h), g.ram[g.bottom])
  {
    var w := g.ram[g.bottom];
    assert Unboxed(w) || g.outside(w);
    forall i | 0 <= i < g.sh.N() + 1 ensures w != Ptr(g.base, Extend(g.sh, h).st[i]) {
      PtrUnique(g.base, Extend(g.sh, h), i, i);
      Aligned(g.base, Extend(g.sh, h).st[i] + 2);
    }
  }

  /** The stores to `data_header` and `forward_address` that complete an allocation. */
  method WriteHeader(g: Process, p: nat, h: Word)
    requires WellTagged(h) && Pending(g, ObjWords(h)) && p == g.sh.End() && RootsGood(g, Extend(g.sh, h))
    modifies g`sh, g`ids, g`store, g.mem
    ensures Ready(g) && g.sh == Extend(old(g.sh), h)
    ensures g.ids == old(g.ids) + [|old(g.store)|] && g.store == old(g.store) + [ZeroObj(h)]
  {
    ghost var m := g.mem[..];
    WholeWords(ObjBytes(h));
    g.mem[p] := h;
    g.mem[p + 1] := 0;
    GrownHeap(m, g.mem[..], g.base, g.sh, g.ids, g.store, g.outside, h);
    g.sh, g.ids, g.store := Extend(g.sh, h), g.ids + [|g.store|], g.store + [ZeroObj(h)];
  }

  /** From the zeroed block to the object; its content address is returned. */
  method Complete(g: Process, p: nat, h: Word) returns (r: Word)
    requires WellTagged(h) && Pending(g, ObjWords(h)) && p == g.sh.End()
    modifies g`sh, g`ids, g`store, g.mem
    ensures Ready(g) && Newest(g, r, h, |old(g.store)|) && g.store == old(g.store) + [ZeroObj(h)]
    ensures Stack(g) == old(Stack(g)) && Extras(g) == old(Extras(g))
  {
    StackGrows(g, h, |g.store|);
    assert (g.sh.st + [g.sh.End() + ObjWords(h)])[g.sh.N()] == p;
    WriteHeader(g, p, h);
    r := Ptr(g.base, p);
  }

  /** r is the content address of the last object of the heap, which has header h and identity id. */
  ghost predicate Newest(g: Process, r: Word, h: Word, id: nat)
    reads g`base, g`sh, g`ids
  {
    && g.sh.Valid() && g.sh.N() > 0 && |g.ids| == g.sh.N()
    && r == Ptr(g.base, g.sh.st[g.sh.N() - 1]) && g.sh.hd[g.sh.N() - 1] == h && g.ids[g.sh.N() - 1] == id
  }

  /** The common part of alloc_array, alloc_string, alloc_sexp and alloc_closure: a new object with
      header h whose contents are zero.  Its identity is the next number; every value on the
      operand stack and in the extra roots is what it was. */
  method AllocObject(g: Process, h: Word) returns (r: Option<Word>)
    requires Ready(g) && WellTagged(h)
    modifies g`base, g`mem, g`current, g`calls, g`sh, g`ids, g`store, g.mem, g.ram
    ensures r.Some? ==> Ready(g) && Served(g, old(LiveOf(g)), ObjWords(h)) && Newest(g, r.value, h, |old(g.store)|)
    ensures r.Some? ==> g.store == old(g.store) + [ZeroObj(h)] && Stack(g) == old(Stack(g))
    ensures r.Some? ==> Extras(g) == old(Extras(g))
    ensures r.None? ==> Denied(g, old(LiveOf(g)), ObjWords(h))
  {
    var p := Alloc(g, ObjBytes(h));
    if p.None? {
      return None;
    }
    var w := Complete(g, p.value, h);
    r := Some(w);
  }
}
