/** A collection leaves only reachable objects, so a second one moves nothing. */
module Idempotence {
  import opened Words
  import opened Layout
  import opened ProcessState
  import opened Compaction
  import opened Abstraction
  import opened Relocation
  import opened CompactPhase
  import opened Settled
  import opened Collector
  import opened Allocation

  // ----- the object graph survives ---------------------------------------------------------

  /** The field of the new heap that the field a of the old heap becomes. */
  lemma FieldGoes(c: Cycle, p: nat, a: nat) returns (b: nat)
    requires c.Valid() && p < c.NewShape().N() && IsField(c.sh, c.Old(p), a)
    ensures IsField(c.NewShape(), p, b) && b < |c.m3| && a < |c.m0|
    ensures c.m3[b] == Moved(c.ob, c.nb, c.sh, c.mk, c.m0[a])
  {
    c.Placed(p);
    c.NewFieldWord(p, a);
    b := a - c.sh.st[c.Old(p)] + c.NewShape().st[p];
  }

  lemma NewTarget(c: Cycle, w: Word, j: nat)
    requires c.sh.Valid() && |c.mk| == c.sh.N() && j < c.sh.N() && c.mk[j] && w == Ptr(c.ob, c.sh.st[j])
    ensures Rank(c.mk, j) < c.NewShape().N() && c.Old(Rank(c.mk, j)) == j
    ensures Moved(c.ob, c.nb, c.sh, c.mk, w) == Ptr(c.nb, c.NewShape().st[Rank(c.mk, j)])
  {
    RankOf(c.mk, j, c.sh.N());
    c.Placed(Rank(c.mk, j));
    MovedPtr(c.ob, c.nb, c.sh, c.mk, w, j);
  }

  /** An edge between live objects is an edge between their new places. */
  lemma EdgeCarried(c: Cycle, i: nat, j: nat)
    requires c.Valid() && Fits(c.m3, c.NewShape()) && i < c.sh.N() && c.mk[i]
    requires Edge(c.m0, c.ob, c.sh, i, j) && c.mk[j]
    ensures Edge(c.m3, c.nb, c.NewShape(), Rank(c.mk, i), Rank(c.mk, j))
  {
    var a: nat :| a < |c.m0| && IsField(c.sh, i, a) && c.m0[a] == Ptr(c.ob, c.sh.st[j]);
    RankOf(c.mk, i, c.sh.N());
    NewTarget(c, c.m0[a], j);
    var b := FieldGoes(c, Rank(c.mk, i), a);
  }

  /** Every object on a path from a root is reached. */
  lemma {:induction false} PathReaches(m: seq<Word>, base: nat, sh: Shape, p: seq<nat>, k: nat)
    requires sh.Valid() && Fits(m, sh) && Path(m, base, sh, p) && k < |p| && Ptr(base, sh.st[p[0]]) < 0x1_0000_0000
    ensures p[k] < sh.N() && Reach(m, base, sh, Ptr(base, sh.st[p[0]]), p[k])
  {
    if k == 0 {
      ReachStart(m, base, sh, Ptr(base, sh.st[p[0]]), p[0]);
    } else {
      PathReaches(m, base, sh, p, k - 1);
      assert Step(m, base, sh, p, k - 1);
      ReachStep(m, base, sh, Ptr(base, sh.st[p[0]]), p[k - 1], p[k]);
    }
  }

  ghost function Ranks(mk: seq<bool>, p: seq<nat>): (r: seq<nat>)
    requires forall k :: 0 <= k < |p| ==> p[k] < |mk|
    ensures |r| == |p| && forall k :: 0 <= k < |p| ==> r[k] == Rank(mk, p[k])
  {
    seq(|p|, k requires 0 <= k < |p| => Rank(mk, p[k]))
  }

  lemma PathCarried(c: Cycle, p: seq<nat>)
    requires c.Valid() && Fits(c.m3, c.NewShape()) && Path(c.m0, c.ob, c.sh, p)
    requires forall k :: 0 <= k < |p| ==> p[k] < c.sh.N() && c.mk[p[k]]
    ensures Path(c.m3, c.nb, c.NewShape(), Ranks(c.mk, p))
  {
    var r := Ranks(c.mk, p);
    RankOf(c.mk, p[0], c.sh.N());
    forall k | 0 <= k < |r| - 1 ensures Step(c.m3, c.nb, c.NewShape(), r, k) {
      assert Step(c.m0, c.ob, c.sh, p, k);
      EdgeCarried(c, p[k], p[k + 1]);
    }
  }

  /** Everything reachable from w is live. */
  ghost predicate LeadsToLive(c: Cycle, w: Word)
    requires c.sh.Valid() && |c.mk| == c.sh.N() && Fits(c.m0, c.sh)
  {
    forall j: nat {:trigger Reach(c.m0, c.ob, c.sh, w, j)} :: Reach(c.m0, c.ob, c.sh, w, j) ==> j < c.sh.N() && c.mk[j]
  }

  lemma PathLive(c: Cycle, w: Word, p: seq<nat>)
    requires c.sh.Valid() && |c.mk| == c.sh.N() && Fits(c.m0, c.sh) && LeadsToLive(c, w)
    requires Path(c.m0, c.ob, c.sh, p) && w == Ptr(c.ob, c.sh.st[p[0]])
    ensures forall k :: 0 <= k < |p| ==> p[k] < c.sh.N() && c.mk[p[k]]
  {
    forall k | 0 <= k < |p| ensures p[k] < c.sh.N() && c.mk[p[k]] {
      PathReaches(c.m0, c.ob, c.sh, p, k);
    }
  }

  /** A path from w becomes a path from the word that denotes the same object. */
  lemma PathToNew(c: Cycle, ids: seq<nat>, w: Word, w': Word, p: seq<nat>)
    requires c.sh.Valid() && |c.mk| == c.sh.N() == |ids| && Fits(c.m3, c.NewShape()) && Increasing(ids)
    requires forall k :: 0 <= k < |p| ==> p[k] < c.sh.N() && c.mk[p[k]]
    requires Path(c.m3, c.nb, c.NewShape(), Ranks(c.mk, p)) && w == Ptr(c.ob, c.sh.st[p[0]])
    requires ValOf(c.nb, c.NewShape(), c.NewIds(ids), w') == ValOf(c.ob, c.sh, ids, w)
    ensures Reach(c.m3, c.nb, c.NewShape(), w', Rank(c.mk, p[|p| - 1]))
  {
    SameTarget(c, ids, w, w', p[0]);
    ReachBy(c.m3, c.nb, c.NewShape(), w', Ranks(c.mk, p));
  }

  /** What was reachable from w is reachable from the word that denotes the same object. */
  lemma ReachCarried(c: Cycle, ids: seq<nat>, w: Word, w': Word, i: nat)
    requires c.Valid() && Fits(c.m3, c.NewShape()) && |ids| == c.sh.N() && Increasing(ids)
    requires LeadsToLive(c, w) && i < c.sh.N() && Reach(c.m0, c.ob, c.sh, w, i)
    requires ValOf(c.nb, c.NewShape(), c.NewIds(ids), w') == ValOf(c.ob, c.sh, ids, w)
    ensures Reach(c.m3, c.nb, c.NewShape(), w', Rank(c.mk, i))
  {
    var p := PathTo(c.m0, c.ob, c.sh, w, i);
    PathLive(c, w, p);
    PathCarried(c, p);
    PathToNew(c, ids, w, w', p);
  }

  lemma PathTo(m: seq<Word>, base: nat, sh: Shape, w: Word, i: nat) returns (p: seq<nat>)
    requires sh.Valid() && Fits(m, sh) && Reach(m, base, sh, w, i)
    ensures Path(m, base, sh, p) && w == Ptr(base, sh.st[p[0]]) && p[|p| - 1] == i
  {
    p :| Path(m, base, sh, p) && w == Ptr(base, sh.st[p[0]]) && p[|p| - 1] == i;
  }

  lemma ReachBy(m: seq<Word>, base: nat, sh: Shape, w: Word, p: seq<nat>)
    requires sh.Valid() && Fits(m, sh) && Path(m, base, sh, p) && w == Ptr(base, sh.st[p[0]])
    ensures Reach(m, base, sh, w, p[|p| - 1])
  {
  }

  /** The new word for an object is the content address of its new place. */
  lemma SameTarget(c: Cycle, ids: seq<nat>, w: Word, w': Word, i: nat)
    requires c.sh.Valid() && |c.mk| == c.sh.N() == |ids| && Increasing(ids)
    requires i < c.sh.N() && c.mk[i] && w == Ptr(c.ob, c.sh.st[i])
    requires ValOf(c.nb, c.NewShape(), c.NewIds(ids), w') == ValOf(c.ob, c.sh, ids, w)
    ensures Rank(c.mk, i) < c.NewShape().N() && w' == Ptr(c.nb, c.NewShape().st[Rank(c.mk, i)])
  {
    ValOfPtr(c.ob, c.sh, ids, w, i);
    RankOf(c.mk, i, c.sh.N());
    var q :| 0 <= q < c.NewShape().N() && w' == Ptr(c.nb, c.NewShape().st[q]);
    ValOfPtr(c.nb, c.NewShape(), c.NewIds(ids), w', q);
    assert ids[c.Old(q)] == ids[i];
    assert c.Old(q) == i;
    SurvivorsInjective(c.mk, c.sh.N(), q, Rank(c.mk, i));
  }

  lemma SurvivorsInjective(mk: seq<bool>, n: nat, p: nat, q: nat)
    requires n <= |mk| && p < Rank(mk, n) && q < Rank(mk, n) && Survivors(mk, n)[p] == Survivors(mk, n)[q]
    ensures p == q
  {
  }

  /** Root words that denote the same values, before and after. */
  ghost predicate SameWords(c: Cycle, ids: seq<nat>, ws: seq<Word>, ws': seq<Word>)
    requires c.sh.Valid() && |c.mk| == c.sh.N() == |ids|
  {
    && |ws'| == |ws|
    && forall k :: 0 <= k < |ws| ==> ValOf(c.nb, c.NewShape(), c.NewIds(ids), ws'[k]) == ValOf(c.ob, c.sh, ids, ws[k])
  }

  lemma RootLeadsToLive(c: Cycle, ws: seq<Word>, k: nat)
    requires c.sh.Valid() && |c.mk| == c.sh.N() && Fits(c.m0, c.sh)
    requires MarkedExactly(c.m0, c.ob, c.sh, c.mk, ws) && k < |ws|
    ensures LeadsToLive(c, ws[k])
  {
    forall j: nat | Reach(c.m0, c.ob, c.sh, ws[k], j) ensures j < c.sh.N() && c.mk[j] {
      var q :| Path(c.m0, c.ob, c.sh, q) && ws[k] == Ptr(c.ob, c.sh.st[q[0]]) && q[|q| - 1] == j;
      PathReaches(c.m0, c.ob, c.sh, q, |q| - 1);
      assert ReachAny(c.m0, c.ob, c.sh, ws, j);
    }
  }

  /** After a collection every object is reachable. */
  lemma NewReachable(c: Cycle, ids: seq<nat>, ws: seq<Word>, ws': seq<Word>, p: nat)
    requires c.Valid() && Fits(c.m3, c.NewShape()) && |ids| == c.sh.N() && Increasing(ids)
    requires MarkedExactly(c.m0, c.ob, c.sh, c.mk, ws) && SameWords(c, ids, ws, ws') && p < c.NewShape().N()
    ensures ReachAny(c.m3, c.nb, c.NewShape(), ws', p)
  {
    var i := c.Old(p);
    assert ReachAny(c.m0, c.ob, c.sh, ws, i);
    var k :| 0 <= k < |ws| && Reach(c.m0, c.ob, c.sh, ws[k], i);
    RootLeadsToLive(c, ws, k);
    ReachCarried(c, ids, ws[k], ws'[k], i);
    RankOf(c.mk, i, c.sh.N());
    SurvivorsInjective(c.mk, c.sh.N(), p, Rank(c.mk, i));
  }

  ghost predicate AllReachable(m: seq<Word>, base: nat, sh: Shape, ws: seq<Word>)
    requires sh.Valid() && Fits(m, sh)
  {
    forall p {:trigger ReachAny(m, base, sh, ws, p)} :: 0 <= p < sh.N() ==> ReachAny(m, base, sh, ws, p)
  }

  lemma OnlyReachableLeft(c: Cycle, ids: seq<nat>, ws: seq<Word>, ws': seq<Word>)
    requires c.Valid() && Fits(c.m3, c.NewShape()) && |ids| == c.sh.N() && Increasing(ids)
    requires MarkedExactly(c.m0, c.ob, c.sh, c.mk, ws) && SameWords(c, ids, ws, ws')
    ensures AllReachable(c.m3, c.nb, c.NewShape(), ws')
  {
    forall p: nat | p < c.NewShape().N() ensures ReachAny(c.m3, c.nb, c.NewShape(), ws', p) {
      NewReachable(c, ids, ws, ws', p);
    }
  }

  // ----- nothing moves ---------------------------------------------------------------------

  /** When every object is live, each stays where it is. */
  lemma {:induction false} AllLive(sh: Shape, mk: seq<bool>, n: nat)
    requires sh.Valid() && |mk| == sh.N() && n <= sh.N() && forall i :: 0 <= i < n ==> mk[i]
    ensures LiveBefore(sh, mk, n) == sh.st[n] && |Survivors(mk, n)| == n
    ensures forall i :: 0 <= i < n ==> Survivors(mk, n)[i] == i
  {
    if n > 0 {
      AllLive(sh, mk, n - 1);
    }
  }

  lemma SameTile(r: Shape, sh: Shape, p: nat)
    requires r.Valid() && sh.Valid() && p < sh.N() && r.hd == sh.hd && r.st == sh.st
    ensures r.lo[p] == sh.lo[p] && r.whole[p] == sh.whole[p] && r.tail[p] == sh.tail[p]
  {
    assert r.Tile(p) && sh.Tile(p);
  }

  /** Starts and headers determine a shape. */
  lemma SameShape(r: Shape, sh: Shape)
    requires r.Valid() && sh.Valid() && r.hd == sh.hd && r.st == sh.st
    ensures r == sh
  {
    forall p: nat | p < sh.N() ensures r.lo[p] == sh.lo[p] && r.whole[p] == sh.whole[p] && r.tail[p] == sh.tail[p] {
      SameTile(r, sh, p);
    }
    assert r.lo == sh.lo && r.whole == sh.whole && r.tail == sh.tail;
  }

  lemma LivePlace(sh: Shape, mk: seq<bool>, r: Shape, p: nat)
    requires sh.Valid() && |mk| == sh.N() && p < sh.N() && forall i :: 0 <= i < sh.N() ==> mk[i]
    requires r == Compacted(sh, mk, sh.N()) && r.N() == sh.N()
    ensures r.st[p] == sh.st[p] && r.hd[p] == sh.hd[p]
  {
    AllLive(sh, mk, sh.N());
    CompactedAt(sh, mk, sh.N(), p);
    AllLive(sh, mk, p);
  }

  lemma LivePlaces(sh: Shape, mk: seq<bool>, r: Shape)
    requires sh.Valid() && |mk| == sh.N() && forall i :: 0 <= i < sh.N() ==> mk[i]
    requires r == Compacted(sh, mk, sh.N()) && r.N() == sh.N()
    ensures forall p :: 0 <= p < sh.N() ==> r.st[p] == sh.st[p] && r.hd[p] == sh.hd[p]
  {
    forall p: nat | p < sh.N() ensures r.st[p] == sh.st[p] && r.hd[p] == sh.hd[p] {
      LivePlace(sh, mk, r, p);
    }
  }

  lemma SamePlaces(r: Shape, sh: Shape)
    requires r.Valid() && sh.Valid() && r.N() == sh.N() && r.End() == sh.End()
    requires forall p :: 0 <= p < sh.N() ==> r.st[p] == sh.st[p] && r.hd[p] == sh.hd[p]
    ensures r.st == sh.st && r.hd == sh.hd
  {
  }

  lemma AllLiveShape(sh: Shape, mk: seq<bool>)
    requires sh.Valid() && |mk| == sh.N() && forall i :: 0 <= i < sh.N() ==> mk[i]
    ensures Compacted(sh, mk, sh.N()) == sh
  {
    var r := Compacted(sh, mk, sh.N());
    AllLive(sh, mk, sh.N());
    LivePlaces(sh, mk, r);
    SamePlaces(r, sh);
    SameShape(r, sh);
  }

  /** A cycle that finds every object live keeps the shape and the identities. */
  lemma NothingMoves(c: Cycle, ids: seq<nat>)
    requires c.sh.Valid() && |c.mk| == c.sh.N() == |ids| && forall i :: 0 <= i < c.sh.N() ==> c.mk[i]
    ensures c.NewShape() == c.sh && c.NewIds(ids) == ids
  {
    AllLive(c.sh, c.mk, c.sh.N());
    AllLiveShape(c.sh, c.mk);
    assert c.NewIds(ids) == ids;
  }

  ghost function RootWordsOf(r: seq<Word>, top: nat, bottom: nat, extra: seq<nat>): seq<Word>
    requires top < bottom < |r| && InRange(extra, |r|)
  {
    r[top + 1..bottom] + Gather(r, extra)
  }

  /** The slot of ram that the k-th root word is read from. */
  ghost function RootSlot(n: nat, top: nat, bottom: nat, extra: seq<nat>, k: nat): (p: nat)
    requires top < bottom < n && InRange(extra, n) && k < bottom - top - 1 + |extra|
    ensures p < n && (top < p <= bottom || exists e :: 0 <= e < |extra| && extra[e] == p)
  {
    if k < bottom - top - 1 then top + 1 + k else extra[k - (bottom - top - 1)]
  }

  lemma RootWordAt(r: seq<Word>, top: nat, bottom: nat, extra: seq<nat>, k: nat)
    requires top < bottom < |r| && InRange(extra, |r|) && k < |RootWordsOf(r, top, bottom, extra)|
    ensures RootWordsOf(r, top, bottom, extra)[k] == r[RootSlot(|r|, top, bottom, extra, k)]
  {
  }

  lemma RootSame(c: Cycle, ids: seq<nat>, r0: seq<Word>, r1: seq<Word>, top: nat, bottom: nat, extra: seq<nat>, k: nat)
    requires c.sh.Valid() && |c.mk| == c.sh.N() == |ids| && top < bottom < |r0| == |r1| && InRange(extra, |r0|)
    requires SameRoots(c, ids, r0, r1, AllSlots(top, bottom, extra)) && k < |RootWordsOf(r0, top, bottom, extra)|
    ensures ValOf(c.nb, c.NewShape(), c.NewIds(ids), RootWordsOf(r1, top, bottom, extra)[k])
         == ValOf(c.ob, c.sh, ids, RootWordsOf(r0, top, bottom, extra)[k])
  {
    RootWordAt(r0, top, bottom, extra, k);
    RootWordAt(r1, top, bottom, extra, k);
    SameView(c, ids, r0, r1, top, bottom, extra, RootSlot(|r0|, top, bottom, extra, k));
  }

  lemma RootsSame(c: Cycle, ids: seq<nat>, r0: seq<Word>, r1: seq<Word>, top: nat, bottom: nat, extra: seq<nat>)
    requires c.sh.Valid() && |c.mk| == c.sh.N() == |ids| && top < bottom < |r0| && InRange(extra, |r0|)
    requires SameRoots(c, ids, r0, r1, AllSlots(top, bottom, extra))
    ensures SameWords(c, ids, RootWordsOf(r0, top, bottom, extra), RootWordsOf(r1, top, bottom, extra))
  {
    forall k | 0 <= k < |RootWordsOf(r0, top, bottom, extra)|
      ensures ValOf(c.nb, c.NewShape(), c.NewIds(ids), RootWordsOf(r1, top, bottom, extra)[k])
           == ValOf(c.ob, c.sh, ids, RootWordsOf(r0, top, bottom, extra)[k])
    {
      RootSame(c, ids, r0, r1, top, bottom, extra, k);
    }
  }

  lemma RootsReach(c: Cycle, ids: seq<nat>, r0: seq<Word>, r1: seq<Word>, top: nat, bottom: nat, extra: seq<nat>)
    requires c.Valid() && Fits(c.m3, c.NewShape()) && |ids| == c.sh.N() && Increasing(ids)
    requires top < bottom < |r0| && InRange(extra, |r0|) && SameRoots(c, ids, r0, r1, AllSlots(top, bottom, extra))
    requires MarkedExactly(c.m0, c.ob, c.sh, c.mk, RootWordsOf(r0, top, bottom, extra))
    ensures AllReachable(c.m3, c.nb, c.NewShape(), RootWordsOf(r1, top, bottom, extra))
  {
    RootsSame(c, ids, r0, r1, top, bottom, extra);
    OnlyReachableLeft(c, ids, RootWordsOf(r0, top, bottom, extra), RootWordsOf(r1, top, bottom, extra));
  }

  lemma RootWordsAre(g: Process)
    requires g.RootsInRam()
    ensures g.RootWords() == RootWordsOf(g.ram[..], g.top, g.bottom, g.extra)
  {
    assert g.ram[..][g.top + 1..g.bottom] == g.ram[g.top + 1..g.bottom];
  }

  /** A collection after which every object is reachable from the roots. */
  method CollectReachable(g: Process, additional: nat, answer: Mremap, ghost sh: Shape, ghost ids: seq<nat>,
                          ghost store: seq<Obj>)
    returns (ok: bool, ghost c: Cycle)
    requires IsSettled(g, sh) && Represents(g.mem[..], g.base, sh, ids, store)
    modifies g`base, g`mem, g`current, g.mem, g.ram
    ensures |c.mk| == sh.N() && (ok ==> fresh(g.mem) && c.sh == sh)
    ensures ok <==> Granted(answer, NextSize(LiveBefore(sh, c.mk, sh.N()), additional, old(g.mem.Length)), g.outside)
    ensures ok ==> g.mem.Length == NextSize(g.current, additional, old(g.mem.Length))
    ensures MarkedExactly(old(g.mem[..]), old(g.base), sh, c.mk, old(g.RootWords()))
    ensures ok ==> IsSettled(g, c.NewShape()) && Represents(g.mem[..], g.base, c.NewShape(), c.NewIds(ids), store)
    ensures ok ==> AllReachable(g.mem[..], g.base, c.NewShape(), g.RootWords())
  {
    ghost var r0 := g.ram[..];
    RootWordsAre(g);
    ok, c := Collect(g, additional, answer, sh, ids, store);
    if ok {
      RootsReach(c, ids, r0, g.ram[..], g.top, g.bottom, g.extra);
      RootWordsAre(g);
    }
  }

  lemma EverythingMarked(m: seq<Word>, base: nat, sh: Shape, mk: seq<bool>, ws: seq<Word>)
    requires sh.Valid() && Fits(m, sh) && |mk| == sh.N() && MarkedExactly(m, base, sh, mk, ws)
    requires AllReachable(m, base, sh, ws)
    ensures forall i :: 0 <= i < sh.N() ==> mk[i]
  {
    forall i | 0 <= i < sh.N() ensures mk[i] {
      assert ReachAny(m, base, sh, ws, i);
    }
  }

  /** A collection of a heap all of whose objects are reachable moves none of them, wherever mremap
      puts the heap. */
  method CollectNothing(g: Process, additional: nat, answer: Mremap, ghost sh: Shape, ghost ids: seq<nat>,
                        ghost store: seq<Obj>)
    returns (ok: bool)
    requires IsSettled(g, sh) && Represents(g.mem[..], g.base, sh, ids, store)
    requires AllReachable(g.mem[..], g.base, sh, g.RootWords())
    modifies g`base, g`mem, g`current, g.mem, g.ram
    ensures ok ==> IsSettled(g, sh) && Represents(g.mem[..], g.base, sh, ids, store)
    ensures ok ==> g.current == old(g.current)
    ensures ok <==> Granted(answer, NextSize(old(g.current), additional, old(g.mem.Length)), g.outside)
  {
    ghost var c;
    ghost var m0, b0, ws := g.mem[..], g.base, g.RootWords();
    ok, c := CollectReachable(g, additional, answer, sh, ids, store);
    EverythingMarked(m0, b0, sh, c.mk, ws);
    AllLive(sh, c.mk, sh.N());
    if ok {
      NothingMoves(c, ids);
    }
  }

  /** Two collections in a row: the second moves nothing. */
  method CollectTwice(g: Process, more: nat, answer: Mremap, again: nat, answer': Mremap)
    returns (ok: bool, ghost c: Cycle)
    requires Ready(g)
    modifies g`base, g`mem, g`current, g.mem, g.ram
    ensures |c.mk| == g.sh.N() && (ok ==> c.sh == g.sh)
    ensures var live := LiveBefore(g.sh, c.mk, g.sh.N());
            var n := NextSize(live, more, old(g.mem.Length));
            ok <==> Granted(answer, n, g.outside) && Granted(answer', NextSize(live, again, n), g.outside)
    ensures MarkedExactly(old(g.mem[..]), old(g.base), g.sh, c.mk, old(g.RootWords()))
    ensures ok ==> IsSettled(g, c.NewShape()) && Represents(g.mem[..], g.base, c.NewShape(), c.NewIds(g.ids), g.store)
  {
    ok, c := CollectReachable(g, more, answer, g.sh, g.ids, g.store);
    if ok {
      ok := CollectNothing(g, again, answer', c.NewShape(), c.NewIds(g.ids), g.store);
    }
  }
}
