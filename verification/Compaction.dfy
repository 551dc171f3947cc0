/** Where the live objects go: the prefix sums of `compute_locations`, the shape of the compacted
    heap, and what a word pointing into the old heap becomes. */
module Compaction {
  import opened Words
  import opened Layout

  /** Words of live objects among the first n: the new offset of object n. */
  ghost function LiveBefore(sh: Shape, mk: seq<bool>, n: nat): nat
    requires sh.Valid() && |mk| == sh.N() && n <= sh.N()
  {
    if n == 0 then 0
    else LiveBefore(sh, mk, n - 1) + if mk[n - 1] then sh.Size(n - 1) else 0
  }

  /** Objects only move towards the beginning of the heap. */
  lemma {:induction false} MovesDown(sh: Shape, mk: seq<bool>, n: nat)
    requires sh.Valid() && |mk| == sh.N() && n <= sh.N()
    ensures LiveBefore(sh, mk, n) <= sh.st[n]
  {
    if n > 0 {
      MovesDown(sh, mk, n - 1);
      assert sh.Tile(n - 1);
    }
  }

  /** New places do not overlap and keep the address order. */
  lemma {:induction false} PlacesDisjoint(sh: Shape, mk: seq<bool>, i: nat, j: nat)
    requires sh.Valid() && |mk| == sh.N() && i < j <= sh.N() && mk[i]
    ensures LiveBefore(sh, mk, i) + sh.Size(i) <= LiveBefore(sh, mk, j)
    decreases j
  {
    if i + 1 < j {
      PlacesDisjoint(sh, mk, i, j - 1);
    }
  }

  lemma {:induction false} LiveMonotone(sh: Shape, mk: seq<bool>, i: nat, j: nat)
    requires sh.Valid() && |mk| == sh.N() && i <= j <= sh.N()
    ensures LiveBefore(sh, mk, i) <= LiveBefore(sh, mk, j)
    decreases j
  {
    if i < j {
      LiveMonotone(sh, mk, i, j - 1);
    }
  }

  /** The live objects among the first n, in address order. */
  ghost function Survivors(mk: seq<bool>, n: nat): (r: seq<nat>)
    requires n <= |mk|
    ensures forall p :: 0 <= p < |r| ==> r[p] < n && mk[r[p]]
    ensures forall p, q :: 0 <= p < q < |r| ==> r[p] < r[q]
  {
    if n == 0 then [] else if mk[n - 1] then Survivors(mk, n - 1) + [n - 1] else Survivors(mk, n - 1)
  }

  /** The position of object i among the survivors. */
  ghost function Rank(mk: seq<bool>, i: nat): nat
    requires i <= |mk|
  {
    |Survivors(mk, i)|
  }

  lemma {:induction false} RankOf(mk: seq<bool>, i: nat, n: nat)
    requires i < n <= |mk| && mk[i]
    ensures Rank(mk, i) < Rank(mk, n) && Survivors(mk, n)[Rank(mk, i)] == i
  {
    if i < n - 1 {
      RankOf(mk, i, n - 1);
    }
  }

  /** The shape of the heap after the first n objects have been compacted. */
  ghost function Compacted(sh: Shape, mk: seq<bool>, n: nat): (r: Shape)
    requires sh.Valid() && |mk| == sh.N() && n <= sh.N()
    ensures r.Valid() && r.N() == Rank(mk, n) && r.End() == LiveBefore(sh, mk, n)
  {
    if n == 0 then Shape([0], [], [], [], [])
    else
      var r := Compacted(sh, mk, n - 1);
      if mk[n - 1] then
        assert sh.Tile(n - 1);
        var t := Shape(r.st + [r.End() + sh.Size(n - 1)], r.lo + [r.End() + (sh.lo[n - 1] - sh.st[n - 1])],
                       r.whole + [sh.whole[n - 1]], r.tail + [sh.tail[n - 1]], r.hd + [sh.hd[n - 1]]);
        assert t.Valid() by {
          forall i | 0 <= i < |t.hd| ensures t.Tile(i) {
            if i < |r.hd| {
              assert r.Tile(i);
            }
          }
        }
        t
      else r
  }

  lemma {:induction false} CompactedAt(sh: Shape, mk: seq<bool>, n: nat, p: nat)
    requires sh.Valid() && |mk| == sh.N() && n <= sh.N() && p < Rank(mk, n)
    ensures var r, i := Compacted(sh, mk, n), Survivors(mk, n)[p];
            r.st[p] == LiveBefore(sh, mk, i) && r.hd[p] == sh.hd[i]
  {
    if mk[n - 1] && p == Rank(mk, n) - 1 {
    } else {
      CompactedAt(sh, mk, n - 1, p);
    }
  }

  // ----- pointers ------------------------------------------------------------------

  /** What update_references makes of a word: the content address of a live object becomes its
      new content address, any other word stays. */
  ghost function Moved(ob: nat, nb: nat, sh: Shape, mk: seq<bool>, w: Word): int
    requires sh.Valid() && |mk| == sh.N()
  {
    if exists j :: 0 <= j < sh.N() && w == Ptr(ob, sh.st[j])
    then var j :| 0 <= j < sh.N() && w == Ptr(ob, sh.st[j]); Ptr(nb, LiveBefore(sh, mk, j))
    else w
  }

  lemma MovedPtr(ob: nat, nb: nat, sh: Shape, mk: seq<bool>, w: Word, j: nat)
    requires sh.Valid() && |mk| == sh.N() && j < sh.N() && w == Ptr(ob, sh.st[j])
    ensures Moved(ob, nb, sh, mk, w) == Ptr(nb, LiveBefore(sh, mk, j))
  {
    forall k | 0 <= k < sh.N() && w == Ptr(ob, sh.st[k]) ensures k == j {
      PtrUnique(ob, sh, k, j);
    }
  }

  /** A word that is not a pointer into the heap is not moved. */
  lemma NotMoved(ob: nat, nb: nat, sh: Shape, mk: seq<bool>, w: Word)
    requires sh.Valid() && |mk| == sh.N() && ob % 4 == 0 && !InHeap(ob, sh.End(), w)
    ensures Moved(ob, nb, sh, mk, w) == w
  {
    forall j | 0 <= j < sh.N() ensures w != Ptr(ob, sh.st[j]) {
      PtrUnique(ob, sh, j, j);
    }
  }

  /** Moved pointers still fit in a word when the new heap does. */
  lemma MovedFits(ob: nat, nb: nat, sh: Shape, mk: seq<bool>, w: Word)
    requires sh.Valid() && |mk| == sh.N() && nb + 4 * sh.End() < 0x1_0000_0000
    ensures 0 <= Moved(ob, nb, sh, mk, w) < 0x1_0000_0000
  {
    if j :| 0 <= j < sh.N() && w == Ptr(ob, sh.st[j]) {
      MovedPtr(ob, nb, sh, mk, w, j);
      MovesDown(sh, mk, j);
      assert sh.Tile(j);
      sh.AllOrdered();
    }
  }

  /** Offset a is a field of a live object. */
  ghost predicate LiveField(sh: Shape, mk: seq<bool>, a: int)
    requires sh.Valid() && |mk| == sh.N()
  {
    exists i: nat :: i < sh.N() && mk[i] && IsField(sh, i, a)
  }

  lemma NotLiveField(sh: Shape, mk: seq<bool>, i: nat, a: nat)
    requires sh.Valid() && |mk| == sh.N() && i < sh.N() && sh.st[i] <= a <= sh.st[i] + 1
    ensures !LiveField(sh, mk, a)
  {
    if LiveField(sh, mk, a) {
      var k: nat :| k < sh.N() && mk[k] && IsField(sh, k, a);
      FieldInside(sh, k, a);
      sh.AllOrdered();
    }
  }

  /** The fields below `upto` of live objects have been redirected, nothing else has changed. */
  ghost predicate Redirected(m: seq<Word>, m': seq<Word>, ob: nat, nb: nat, sh: Shape, mk: seq<bool>, upto: nat)
    requires sh.Valid() && |mk| == sh.N()
  {
    && |m'| == |m|
    && forall a {:trigger LiveField(sh, mk, a)} :: 0 <= a < |m| ==>
      m'[a] == if a < upto && LiveField(sh, mk, a) then Moved(ob, nb, sh, mk, m[a]) else m[a]
  }

  // ----- the copy -------------------------------------------------------------------

  /** An object of `whole` words and `tail` bytes at offset s of m has been copied to offset t of m',
      except for its forward-address word. */
  ghost predicate Copied(m: seq<Word>, s: nat, m': seq<Word>, t: nat, whole: nat, tail: nat)
    requires whole >= 2 && tail < 4
  {
    && s + whole <= |m| && t + whole <= |m'| && m'[t] == m[s]
    && (forall a {:trigger m'[a]} :: t + 2 <= a < t + whole ==> m'[a] == m[a - t + s])
    && (tail != 0 ==> s + whole < |m| && t + whole < |m'| && SameLowBytes(m'[t + whole], m[s + whole], tail))
  }

  predicate SameLowBytes(v: Word, w: Word, n: nat)
    requires n <= 4
  {
    forall j :: 0 <= j < n ==> ByteOf(v, j) == ByteOf(w, j)
  }

  /** A copy survives later writes elsewhere and to its forward-address word. */
  lemma CopiedKeeps(m: seq<Word>, s: nat, m': seq<Word>, m'': seq<Word>, t: nat, whole: nat, tail: nat)
    requires whole >= 2 && tail < 4 && Copied(m, s, m', t, whole, tail) && |m''| == |m'|
    requires forall a :: t <= a < t + whole + (if tail == 0 then 0 else 1) && a != t + 1 ==> m''[a] == m'[a]
    ensures Copied(m, s, m'', t, whole, tail)
  {
  }

  /** The first n objects have been slid to their new places and unmarked. */
  ghost predicate Slid(m: seq<Word>, m': seq<Word>, sh: Shape, mk: seq<bool>, n: nat)
    requires sh.Valid() && |mk| == sh.N() && n <= sh.N() && sh.End() <= |m|
  {
    forall i {:trigger SlidOne(m, m', sh, mk, i)} :: 0 <= i < n && mk[i] ==> SlidOne(m, m', sh, mk, i)
  }

  ghost predicate SlidOne(m: seq<Word>, m': seq<Word>, sh: Shape, mk: seq<bool>, i: nat)
    requires sh.Valid() && |mk| == sh.N() && i < sh.N() && sh.End() <= |m|
  {
    var t := LiveBefore(sh, mk, i);
    && sh.whole[i] >= 2 && sh.tail[i] < 4 && Copied(m, sh.st[i], m', t, sh.whole[i], sh.tail[i])
    && m'[t + 1] == WithoutMark(m[sh.st[i] + 1])
  }

  lemma SlidWord(m: seq<Word>, m': seq<Word>, sh: Shape, mk: seq<bool>, i: nat, d: nat)
    requires sh.Valid() && |mk| == sh.N() && i < sh.N() && mk[i] && sh.End() <= |m|
    requires Slid(m, m', sh, mk, sh.N()) && 2 <= d < sh.whole[i]
    ensures var t := LiveBefore(sh, mk, i); sh.st[i] + d < |m| && t + d < |m'| && m'[t + d] == m[sh.st[i] + d]
  {
    assert SlidOne(m, m', sh, mk, i);
  }

  lemma SlidTail(m: seq<Word>, m': seq<Word>, sh: Shape, mk: seq<bool>, i: nat)
    requires sh.Valid() && |mk| == sh.N() && i < sh.N() && mk[i] && sh.End() <= |m|
    requires Slid(m, m', sh, mk, sh.N()) && 0 < sh.tail[i] < 4
    ensures var t := LiveBefore(sh, mk, i);
            && sh.st[i] + sh.whole[i] < |m| && t + sh.whole[i] < |m'|
            && SameLowBytes(m'[t + sh.whole[i]], m[sh.st[i] + sh.whole[i]], sh.tail[i])
  {
    assert SlidOne(m, m', sh, mk, i);
  }
}
