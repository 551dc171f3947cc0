/** The collection theorem on memory contents: sliding the redirected live objects together gives a
    heap that represents the same store. */
module Relocation {
  import opened Words
  import opened Layout
  import opened MarkQueue
  import opened Compaction
  import opened Abstraction

  lemma SlidHeader(m1: seq<Word>, m2: seq<Word>, m3: seq<Word>, sh: Shape, mk: seq<bool>, i: nat)
    requires sh.Valid() && |mk| == sh.N() && i < sh.N() && Fits(m1, sh) && |m1| == |m2|
    requires Slid(m2, m3, sh, mk, sh.N()) && mk[i] && !BitsOf(m1, sh).en[i]
    requires m2[sh.st[i]] == sh.hd[i] && m2[sh.st[i] + 1] == m1[sh.st[i] + 1]
    ensures var t := LiveBefore(sh, mk, i);
            t + 1 < |m3| && m3[t] == sh.hd[i] && Clear(m3[t + 1])
  {
    assert SlidOne(m2, m3, sh, mk, i);
    BitsAt(m1, sh, sh.N(), i);
    ClearedWord(m1[sh.st[i] + 1]);
  }

  lemma ClearedWord(f: Word)
    requires !Enqueued(f)
    ensures Clear(WithoutMark(f))
  {
  }

  lemma ClearBits(f: Word)
    requires Clear(f)
    ensures !Marked(f) && !Enqueued(f)
  {
  }

  /** The memories of one collection: m0 before it, m1 after marking and computing locations (and
      after mremap), m2 after redirecting, m3 after sliding. */
  datatype Cycle = Cycle(ob: nat, nb: nat, sh: Shape, mk: seq<bool>, m0: seq<Word>, m1: seq<Word>,
                         m2: seq<Word>, m3: seq<Word>) {

    ghost predicate Valid() {
      && sh.Valid() && |mk| == sh.N() && Fits(m0, sh) && Fits(m1, sh) && |m1| == |m2| == |m3|
      && (forall a {:trigger sh.ForwardSlot(a)} :: 0 <= a < sh.End() && !sh.ForwardSlot(a) ==> m1[a] == m0[a])
      && QueueEmpty(BitsOf(m1, sh))
      && Redirected(m1, m2, ob, nb, sh, mk, sh.End())
      && Slid(m2, m3, sh, mk, sh.N())
      && ob % 4 == 0 && nb % 4 == 0 && nb + 4 * |m1| < 0x1_0000_0000
    }

    ghost function NewShape(): (r: Shape)
      requires sh.Valid() && |mk| == sh.N()
      ensures r.Valid()
    {
      Compacted(sh, mk, sh.N())
    }

    /** The p-th object of the new heap was object Old(p). */
    ghost function Old(p: nat): (i: nat)
      requires sh.Valid() && |mk| == sh.N() && p < NewShape().N()
      ensures i < sh.N() && mk[i]
    {
      Survivors(mk, sh.N())[p]
    }

    lemma Placed(p: nat)
      requires sh.Valid() && |mk| == sh.N() && p < NewShape().N()
      ensures var r, i := NewShape(), Old(p);
              && r.st[p] == LiveBefore(sh, mk, i) && r.hd[p] == sh.hd[i]
              && r.st[p] <= sh.st[i]
              && r.lo[p] + sh.st[i] == sh.lo[i] + r.st[p]
              && r.st[p + 1] + sh.st[i] == sh.st[i + 1] + r.st[p]
    {
      CompactedAt(sh, mk, sh.N(), p);
      MovesDown(sh, mk, Old(p));
      assert sh.Tile(Old(p));
      assert NewShape().Tile(p);
    }

    /** Header and forward-address word of a new object. */
    lemma NewHeader(p: nat)
      requires Valid() && p < NewShape().N()
      ensures var t := NewShape().st[p];
              t + 1 < |m3| && m3[t] == NewShape().hd[p] && Clear(m3[t + 1])
    {
      Placed(p);
      CopiedHeader(Old(p));
    }

    lemma CopiedHeader(i: nat)
      requires Valid() && i < sh.N() && mk[i]
      ensures var t := LiveBefore(sh, mk, i);
              t + 1 < |m3| && m3[t] == sh.hd[i] && Clear(m3[t + 1])
    {
      HeaderUntouched(i);
      SlidHeader(m1, m2, m3, sh, mk, i);
    }

    lemma HeaderUntouched(i: nat)
      requires Valid() && i < sh.N()
      ensures m2[sh.st[i]] == sh.hd[i] && m2[sh.st[i] + 1] == m1[sh.st[i] + 1]
    {
      sh.Ordered(i, i + 1);
      NotLiveField(sh, mk, i, sh.st[i]);
      NotLiveField(sh, mk, i, sh.st[i] + 1);
    }

    /** The new heap is tiled by the survivors. */
    lemma NewTiling()
      requires Valid()
      ensures Fits(m3, NewShape())
    {
      var r := NewShape();
      MovesDown(sh, mk, sh.N());
      forall p | 0 <= p < r.N() ensures r.st[p] + 1 < |m3| && m3[r.st[p]] == r.hd[p] {
        NewHeader(p);
      }
    }

    /** No mark or enqueued bit is set in the new heap. */
    lemma NewBits()
      requires Valid() && Fits(m3, NewShape())
      ensures AllClear(BitsOf(m3, NewShape()))
    {
      var r := NewShape();
      forall p: nat | p < r.N() ensures !BitsOf(m3, r).mk[p] && !BitsOf(m3, r).en[p] {
        NewHeader(p);
        BitsAt(m3, r, r.N(), p);
        ClearBits(m3[r.st[p] + 1]);
      }
    }

    // ----- values ----------------------------------------------------------------------

    ghost function NewIds(ids: seq<nat>): (r: seq<nat>)
      requires sh.Valid() && |mk| == sh.N() && |ids| == sh.N()
      ensures |r| == NewShape().N()
    {
      seq(NewShape().N(), p requires 0 <= p < NewShape().N() => ids[Old(p)])
    }

    lemma NewIdsIncreasing(ids: seq<nat>)
      requires sh.Valid() && |mk| == sh.N() && |ids| == sh.N() && Increasing(ids)
      ensures Increasing(NewIds(ids))
    {
      var r := NewIds(ids);
      forall p, q | 0 <= p < q < |r| ensures r[p] < r[q] {
        assert Old(p) < Old(q);
      }
    }

    /** A word the collection carries over: a pointer to a live object, or a word that points into
        neither the old nor the new heap. */
    ghost predicate Carried(w: Word)
      requires sh.Valid() && |mk| == sh.N()
    {
      || (exists j :: 0 <= j < sh.N() && mk[j] && w == Ptr(ob, sh.st[j]))
      || (!InHeap(ob, sh.End(), w) && !InHeap(nb, sh.End(), w))
    }

    /** Every field of a live object is carried over. */
    ghost predicate FieldsCarried()
      requires Valid()
    {
      forall a: nat :: a < sh.End() && LiveField(sh, mk, a) ==> Carried(m1[a])
    }

    /** Redirection keeps the meaning of a word. */
    lemma CarriedVal(ids: seq<nat>, w: Word)
      requires sh.Valid() && |mk| == sh.N() && ob % 4 == 0 && nb % 4 == 0 && nb + 4 * sh.End() < 0x1_0000_0000
      requires |ids| == sh.N() && Carried(w)
      ensures 0 <= Moved(ob, nb, sh, mk, w) < 0x1_0000_0000
      ensures ValOf(nb, NewShape(), NewIds(ids), Moved(ob, nb, sh, mk, w)) == ValOf(ob, sh, ids, w)
    {
      MovedFits(ob, nb, sh, mk, w);
      if j :| 0 <= j < sh.N() && mk[j] && w == Ptr(ob, sh.st[j]) {
        MovedPtr(ob, nb, sh, mk, w, j);
        ValOfPtr(ob, sh, ids, w, j);
        RankOf(mk, j, sh.N());
        var p := Rank(mk, j);
        Placed(p);
        ValOfPtr(nb, NewShape(), NewIds(ids), Moved(ob, nb, sh, mk, w), p);
      } else {
        NotMoved(ob, nb, sh, mk, w);
        ValOfImm(ob, sh, ids, w);
        MovesDown(sh, mk, sh.N());
        ValOfImm(nb, NewShape(), NewIds(ids), w);
      }
    }

    // ----- contents --------------------------------------------------------------------

    /** Whole words of a live object arrive unchanged from m2. */
    lemma NewWord(p: nat, d: nat)
      requires Valid() && p < NewShape().N() && 2 <= d < sh.whole[Old(p)]
      ensures var i := Old(p);
              sh.st[i] + d < |m2| && NewShape().st[p] + d < |m3| && m3[NewShape().st[p] + d] == m2[sh.st[i] + d]
    {
      Placed(p);
      SlidWord(m2, m3, sh, mk, Old(p), d);
    }

    /** A content word of object i that is no field is the same in m0 and m2; a field is redirected. */
    lemma OldWord(i: nat, a: nat)
      requires Valid() && i < sh.N() && mk[i] && sh.st[i] + 2 <= a < sh.st[i + 1]
      ensures a < sh.End() && m1[a] == m0[a]
      ensures m2[a] == if sh.lo[i] <= a then Moved(ob, nb, sh, mk, m0[a]) else m0[a]
    {
      sh.NotForwardSlot(i, a);
      sh.AllOrdered();
      if sh.lo[i] <= a {
        assert IsField(sh, i, a);
        assert LiveField(sh, mk, a);
      } else if LiveField(sh, mk, a) {
        var k: nat :| k < sh.N() && mk[k] && IsField(sh, k, a);
        FieldInside(sh, k, a);
        OwnerOf(sh, i, k, a);
      }
    }

    lemma NewFirst(p: nat)
      requires Valid() && p < NewShape().N() && NewShape().End() <= |m3|
      ensures First(m3, NewShape(), p) == First(m0, sh, Old(p))
    {
      Placed(p);
      var i := Old(p);
      if HasFirst(sh.hd[i]) {
        FirstInside(sh, i);
        NewWord(p, 2);
        OldWord(i, sh.st[i] + 2);
      }
    }

    lemma NewFieldWord(p: nat, a: nat)
      requires Valid() && p < NewShape().N()
      requires sh.lo[Old(p)] <= a < sh.st[Old(p) + 1]
      ensures var b := a - sh.st[Old(p)] + NewShape().st[p];
              a < sh.End() && 0 <= b < |m3| && m3[b] == Moved(ob, nb, sh, mk, m0[a]) && m1[a] == m0[a]
    {
      var i := Old(p);
      sh.FieldsAreWords(i);
      NewWord(p, a - sh.st[i]);
      OldWord(i, a);
    }

    lemma FieldCounts(p: nat)
      requires Valid() && p < NewShape().N() && NewShape().End() <= |m3|
      ensures |FieldWords(m3, NewShape(), p)| == |FieldWords(m0, sh, Old(p))|
    {
      Placed(p);
      sh.Last(Old(p) + 1);
    }

    /** Field a of object Old(p) and the word b that it becomes. */
    lemma NewFieldVal(p: nat, a: nat, b: nat, ids: seq<nat>)
      requires Valid() && FieldsCarried() && p < NewShape().N() && |ids| == sh.N()
      requires sh.lo[Old(p)] <= a < sh.st[Old(p) + 1] && b + sh.st[Old(p)] == a + NewShape().st[p]
      ensures a < sh.End() <= |m0| && b < |m3|
      ensures ValOf(nb, NewShape(), NewIds(ids), m3[b]) == ValOf(ob, sh, ids, m0[a])
    {
      NewFieldWord(p, a);
      FieldCarried(Old(p), a);
      CarriedVal(ids, m0[a]);
    }

    lemma FieldCarried(i: nat, a: nat)
      requires Valid() && FieldsCarried() && i < sh.N() && mk[i] && sh.lo[i] <= a < sh.st[i + 1] && a < sh.End()
      requires m1[a] == m0[a]
      ensures Carried(m0[a])
    {
      assert IsField(sh, i, a);
      assert LiveField(sh, mk, a);
    }

    lemma NewFieldAt(p: nat, d: nat, ids: seq<nat>)
      requires Valid() && FieldsCarried() && p < NewShape().N() && |ids| == sh.N() && NewShape().End() <= |m3|
      requires d < |FieldWords(m0, sh, Old(p))| == |FieldWords(m3, NewShape(), p)|
      ensures ValOf(nb, NewShape(), NewIds(ids), FieldWords(m3, NewShape(), p)[d])
           == ValOf(ob, sh, ids, FieldWords(m0, sh, Old(p))[d])
    {
      var a, b := FieldSpots(p, d);
      NewFieldVal(p, a, b, ids);
    }

    /** Field d of a new object and of the object it was. */
    lemma FieldSpots(p: nat, d: nat) returns (a: nat, b: nat)
      requires Valid() && p < NewShape().N() && NewShape().End() <= |m3|
      requires d < |FieldWords(m0, sh, Old(p))| == |FieldWords(m3, NewShape(), p)|
      ensures sh.lo[Old(p)] <= a < sh.st[Old(p) + 1] && b + sh.st[Old(p)] == a + NewShape().st[p] && a < |m0|
      ensures b < |m3|
      ensures FieldWords(m0, sh, Old(p))[d] == m0[a] && FieldWords(m3, NewShape(), p)[d] == m3[b]
    {
      Placed(p);
      FieldWordAt(m0, sh, Old(p), d);
      FieldWordAt(m3, NewShape(), p, d);
      a, b := sh.lo[Old(p)] + d, NewShape().lo[p] + d;
    }

    lemma NewFields(p: nat, ids: seq<nat>)
      requires Valid() && FieldsCarried() && p < NewShape().N() && |ids| == sh.N() && NewShape().End() <= |m3|
      ensures ValsOf(nb, NewShape(), NewIds(ids), FieldWords(m3, NewShape(), p))
           == ValsOf(ob, sh, ids, FieldWords(m0, sh, Old(p)))
    {
      FieldCounts(p);
      forall d: nat | d < |FieldWords(m0, sh, Old(p))|
        ensures ValOf(nb, NewShape(), NewIds(ids), FieldWords(m3, NewShape(), p)[d])
             == ValOf(ob, sh, ids, FieldWords(m0, sh, Old(p))[d])
      {
        NewFieldAt(p, d, ids);
      }
    }

    lemma NewStringBytes(p: nat)
      requires Valid() && p < NewShape().N() && NewShape().End() <= |m3|
      ensures StringBytes(m3, NewShape(), p) == StringBytes(m0, sh, Old(p))
    {
      var i, t := Old(p), NewShape().st[p];
      Placed(p);
      var h := sh.hd[i];
      assert sh.Tile(i) && NewShape().Tile(p);
      if Tag(h) == STRING_TAG {
        var b0, b3 := StringBytes(m0, sh, i), StringBytes(m3, NewShape(), p);
        forall j | 0 <= j <= Len(h) ensures b3[j] == b0[j] {
          NewByte(p, j);
        }
      }
    }

    lemma NewByte(p: nat, j: nat)
      requires Valid() && p < NewShape().N() && Tag(sh.hd[Old(p)]) == STRING_TAG && j <= Len(sh.hd[Old(p)])
      ensures var s, t := sh.st[Old(p)], NewShape().st[p];
              && s + 2 + j / 4 < |m0| && t + 2 + j / 4 < |m3|
              && StringByte(m3, t, j) == StringByte(m0, s, j)
    {
      var i := Old(p);
      Placed(p);
      ByteInside(sh, i, j);
      OldWord(i, sh.st[i] + 2 + j / 4);
      if 2 + j / 4 < sh.whole[i] {
        NewWord(p, 2 + j / 4);
      } else {
        SlidTail(m2, m3, sh, mk, i);
      }
    }

    /** The new heap represents the same store. */
    lemma NewRepresents(ids: seq<nat>, store: seq<Obj>)
      requires Valid() && FieldsCarried() && Represents(m0, ob, sh, ids, store)
      ensures Fits(m3, NewShape()) && Represents(m3, nb, NewShape(), NewIds(ids), store)
    {
      NewTiling();
      NewIdsIncreasing(ids);
      forall p | 0 <= p < NewShape().N()
        ensures NewIds(ids)[p] < |store| && store[NewIds(ids)[p]] == ObjOf(m3, nb, NewShape(), NewIds(ids), p)
      {
        assert store[ids[Old(p)]] == ObjOf(m0, ob, sh, ids, Old(p));
        Placed(p);
        NewFirst(p);
        NewFields(p, ids);
        NewStringBytes(p);
      }
    }
  }

  lemma FirstInside(sh: Shape, i: nat)
    requires sh.Valid() && i < sh.N() && HasFirst(sh.hd[i])
    ensures sh.whole[i] > 2 && sh.lo[i] == sh.st[i] + 3 && sh.st[i + 1] > sh.st[i] + 2
  {
    assert sh.Tile(i);
  }

  /** Where byte j of a string is: in a whole word or among the left-over bytes. */
  lemma ByteInside(sh: Shape, i: nat, j: nat)
    requires sh.Valid() && i < sh.N() && Tag(sh.hd[i]) == STRING_TAG && j <= Len(sh.hd[i])
    ensures sh.st[i] + 2 + j / 4 < sh.st[i + 1] == sh.lo[i]
    ensures 2 + j / 4 < sh.whole[i] || (2 + j / 4 == sh.whole[i] && j % 4 < sh.tail[i] < 4)
  {
    assert sh.Tile(i);
    StringInside(sh.hd[i], j);
  }
}
