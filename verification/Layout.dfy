/** The heap as a word array tiled by objects, and the object graph in it.  Offsets count words
    from `heap.begin`; `base` is the address of the first word. */
module Layout {
  import opened Words

  /** Where the objects start (one extra entry for the end), where the fields that the collector
      looks at start, how many whole words and left-over bytes each object has, and its header.  The
      iterators of the source recompute this from the headers; a shape is their ghost record. */
  datatype Shape = Shape(st: seq<nat>, lo: seq<nat>, whole: seq<nat>, tail: seq<nat>, hd: seq<Word>) {

    ghost predicate Valid() {
      && |st| == |hd| + 1 && |lo| == |whole| == |tail| == |hd| && st[0] == 0
      && forall i :: 0 <= i < |hd| ==> Tile(i)
    }

    ghost predicate Tile(i: nat)
      requires i < |hd| == |lo| == |whole| == |tail| && |st| == |hd| + 1
    {
      && WellTagged(hd[i]) && lo[i] == st[i] + FieldOffset(hd[i]) && st[i + 1] == st[i] + ObjWords(hd[i])
      && whole[i] == ObjBytes(hd[i]) / 4 && tail[i] == ObjBytes(hd[i]) % 4
    }

    lemma SizeInWords(i: nat)
      requires Valid() && i < N()
      ensures whole[i] >= 2 && tail[i] < 4 && st[i + 1] == st[i] + whole[i] + if tail[i] == 0 then 0 else 1
    {
      assert Tile(i);
      WholeWords(ObjBytes(hd[i]));
    }

    /** An object with fields is a whole number of words long. */
    lemma FieldsAreWords(i: nat)
      requires Valid() && i < N()
      ensures lo[i] >= st[i] + 2 && (lo[i] < st[i + 1] ==> st[i] + whole[i] == st[i + 1])
    {
      assert Tile(i);
    }

    /** Number of objects. */
    function N(): nat { |hd| }

    /** Offset just after the last object: `heap.current`. */
    ghost function End(): nat
      requires Valid()
    {
      st[|hd|]
    }

    /** Size of object i in words. */
    ghost function Size(i: nat): (n: nat)
      requires Valid() && i < N()
      ensures n >= 2
    {
      assert Tile(i);
      st[i + 1] - st[i]
    }

    /** Objects lie in order and each is at least a header and a forward-address word long. */
    lemma {:induction false} Ordered(i: nat, j: nat)
      requires Valid() && i < j <= N()
      ensures st[i] + 2 <= st[i + 1] <= st[j] <= End()
      decreases j
    {
      assert Tile(i);
      if i + 1 < j {
        assert Tile(j - 1);
        Ordered(i, j - 1);
      }
      Last(j);
    }

    lemma {:induction false} Last(j: nat)
      requires Valid() && j <= N()
      ensures st[j] <= End()
      decreases N() - j
    {
      if j < N() {
        assert Tile(j);
        Last(j + 1);
      }
    }

    lemma AllOrdered()
      requires Valid()
      ensures forall i, j :: 0 <= i < j <= N() ==> st[i] + 2 <= st[j]
      ensures forall j :: 0 <= j <= N() ==> st[j] <= End()
    {
      forall i, j | 0 <= i < j <= N() ensures st[i] + 2 <= st[j] {
        Ordered(i, j);
      }
      forall j | 0 <= j <= N() ensures st[j] <= End() {
        Last(j);
      }
    }

    /** Offset a holds some object's forward-address word. */
    ghost predicate ForwardSlot(a: int)
      requires Valid()
    {
      exists i :: 0 <= i < N() && a == st[i] + 1
    }

    /** Every other word of an object is not a forward-address word. */
    lemma NotForwardSlot(i: nat, a: nat)
      requires Valid() && i < N() && st[i] <= a < st[i + 1] && a != st[i] + 1
      ensures !ForwardSlot(a)
    {
      AllOrdered();
    }
  }

  /** The headers found in memory are those of the shape. */
  ghost predicate Fits(m: seq<Word>, sh: Shape)
    requires sh.Valid()
  {
    sh.End() <= |m| && forall i :: 0 <= i < sh.N() ==> sh.st[i] + 1 < |m| && m[sh.st[i]] == sh.hd[i]
  }

  /** Same memory except for forward-address words. */
  ghost predicate SameData(m: seq<Word>, m': seq<Word>, sh: Shape)
    requires sh.Valid()
  {
    |m| == |m'| && forall a {:trigger sh.ForwardSlot(a)} :: 0 <= a < |m| && !sh.ForwardSlot(a) ==> m'[a] == m[a]
  }

  lemma SameDataTrans(m0: seq<Word>, m1: seq<Word>, m2: seq<Word>, sh: Shape)
    requires sh.Valid() && SameData(m0, m1, sh) && SameData(m1, m2, sh)
    ensures SameData(m0, m2, sh)
  {
  }

  lemma SameDataSym(m0: seq<Word>, m1: seq<Word>, sh: Shape)
    requires sh.Valid() && SameData(m0, m1, sh)
    ensures SameData(m1, m0, sh)
  {
  }

  /** What the forward-address words say, in object order: mark bits, enqueued bits, addresses. */
  datatype Bits = Bits(mk: seq<bool>, en: seq<bool>, fw: seq<Word>) {
    ghost predicate For(sh: Shape) { |mk| == |en| == |fw| == sh.N() }
  }

  /** No mark and no enqueued bit is set: the state between two collections. */
  ghost predicate AllClear(b: Bits) {
    |b.mk| == |b.en| && forall i :: 0 <= i < |b.mk| ==> !b.mk[i] && !b.en[i]
  }

  ghost function BitsOf(m: seq<Word>, sh: Shape): (b: Bits)
    requires sh.Valid() && Fits(m, sh)
    ensures b.For(sh)
  {
    FirstBits(m, sh, sh.N())
  }

  /** The bits of the first n objects. */
  ghost function FirstBits(m: seq<Word>, sh: Shape, n: nat): (b: Bits)
    requires sh.Valid() && Fits(m, sh) && n <= sh.N()
    ensures |b.mk| == |b.en| == |b.fw| == n
  {
    if n == 0 then Bits([], [], [])
    else
      var b, f := FirstBits(m, sh, n - 1), m[sh.st[n - 1] + 1];
      Bits(b.mk + [Marked(f)], b.en + [Enqueued(f)], b.fw + [Forward(f)])
  }

  lemma {:induction false} BitsAt(m: seq<Word>, sh: Shape, n: nat, i: nat)
    requires sh.Valid() && Fits(m, sh) && i < n <= sh.N()
    ensures var b, f := FirstBits(m, sh, n), m[sh.st[i] + 1];
            b.mk[i] == Marked(f) && b.en[i] == Enqueued(f) && b.fw[i] == Forward(f)
  {
    if i < n - 1 {
      BitsAt(m, sh, n - 1, i);
    }
  }

  /** The bits depend on the forward-address words only. */
  lemma {:induction false} BitsFrame(m: seq<Word>, m': seq<Word>, sh: Shape, n: nat)
    requires sh.Valid() && Fits(m, sh) && Fits(m', sh) && n <= sh.N()
    requires forall i :: 0 <= i < n ==> m'[sh.st[i] + 1] == m[sh.st[i] + 1]
    ensures FirstBits(m', sh, n) == FirstBits(m, sh, n)
  {
    if n > 0 {
      BitsFrame(m, m', sh, n - 1);
    }
  }

  /** Writing the forward-address word of object i changes only what the bits say of object i. */
  lemma WriteBits(m: seq<Word>, sh: Shape, i: nat, f: Word)
    requires sh.Valid() && Fits(m, sh) && i < sh.N()
    ensures var m' := m[sh.st[i] + 1 := f];
            && Fits(m', sh) && SameData(m, m', sh)
            && var b := BitsOf(m, sh);
               BitsOf(m', sh) == Bits(b.mk[i := Marked(f)], b.en[i := Enqueued(f)], b.fw[i := Forward(f)])
  {
    sh.AllOrdered();
    assert sh.ForwardSlot(sh.st[i] + 1);
    var m' := m[sh.st[i] + 1 := f];
    WriteFirstBits(m, m', sh, i, f, sh.N());
  }

  lemma {:induction false} WriteFirstBits(m: seq<Word>, m': seq<Word>, sh: Shape, i: nat, f: Word, n: nat)
    requires sh.Valid() && Fits(m, sh) && Fits(m', sh) && i < n <= sh.N()
    requires forall j :: 0 <= j < sh.N() ==> m'[sh.st[j] + 1] == if j == i then f else m[sh.st[j] + 1]
    ensures var b := FirstBits(m, sh, n);
            FirstBits(m', sh, n) == Bits(b.mk[i := Marked(f)], b.en[i := Enqueued(f)], b.fw[i := Forward(f)])
  {
    var a, b := FirstBits(m, sh, n - 1), FirstBits(m', sh, n - 1);
    if i < n - 1 {
      WriteFirstBits(m, m', sh, i, f, n - 1);
      UpdateSnoc(a.mk, i, Marked(f), Marked(m[sh.st[n - 1] + 1]));
      UpdateSnoc(a.en, i, Enqueued(f), Enqueued(m[sh.st[n - 1] + 1]));
      UpdateSnoc(a.fw, i, Forward(f), Forward(m[sh.st[n - 1] + 1]));
    } else {
      BitsFrame(m, m', sh, n - 1);
      UpdateLast(a.mk, Marked(m[sh.st[i] + 1]), Marked(f));
      UpdateLast(a.en, Enqueued(m[sh.st[i] + 1]), Enqueued(f));
      UpdateLast(a.fw, Forward(m[sh.st[i] + 1]), Forward(f));
    }
  }

  lemma UpdateSnoc<T>(s: seq<T>, i: nat, x: T, y: T)
    requires i < |s|
    ensures (s + [y])[i := x] == s[i := x] + [y]
  {
  }

  lemma UpdateLast<T>(s: seq<T>, x: T, y: T)
    ensures (s + [x])[|s| := y] == s + [y]
  {
  }

  /** Address of the content of the object that starts at offset `off`. */
  function Ptr(base: nat, off: nat): nat { base + 4 * (off + HEADER_WORDS) }

  lemma Aligned(base: nat, off: nat)
    requires base % 4 == 0
    ensures (base + 4 * off) % 4 == 0
  {
  }

  /** `is_valid_heap_pointer`, with `heap.current` included on purpose: it is the content
      address of a zero-length array at the very end of the heap. */
  predicate InHeap(base: nat, cur: nat, w: Word) {
    !Unboxed(w) && base <= w <= base + 4 * cur
  }

  ghost predicate ContentPtr(base: nat, sh: Shape, w: Word)
    requires sh.Valid()
  {
    exists i :: 0 <= i < sh.N() && w == Ptr(base, sh.st[i])
  }

  /** A word the collector may meet: if it looks like a heap pointer, it is one. */
  ghost predicate WordOk(base: nat, sh: Shape, w: Word)
    requires sh.Valid()
  {
    InHeap(base, sh.End(), w) ==> ContentPtr(base, sh, w)
  }

  ghost predicate IsField(sh: Shape, i: nat, a: int)
    requires sh.Valid()
  {
    i < sh.N() && sh.lo[i] <= a < sh.st[i + 1]
  }

  ghost predicate FieldsOk(m: seq<Word>, base: nat, sh: Shape)
    requires sh.Valid() && Fits(m, sh)
  {
    forall i: nat, a: nat {:trigger IsField(sh, i, a)} :: IsField(sh, i, a) && a < |m| ==> WordOk(base, sh, m[a])
  }

  lemma FieldInside(sh: Shape, i: nat, a: nat)
    requires sh.Valid() && IsField(sh, i, a)
    ensures sh.st[i] + 2 <= a < sh.st[i + 1] <= sh.End()
    ensures !sh.ForwardSlot(a)
  {
    assert sh.Tile(i);
    sh.Last(i + 1);
    sh.NotForwardSlot(i, a);
  }

  lemma OwnerOf(sh: Shape, i: nat, k: nat, a: nat)
    requires sh.Valid() && i < sh.N() && k < sh.N()
    requires sh.st[i] <= a < sh.st[i + 1] && sh.st[k] <= a < sh.st[k + 1]
    ensures i == k
  {
    if i < k {
      sh.Ordered(i, k);
    } else if k < i {
      sh.Ordered(k, i);
    }
  }

  /** A heap pointer names exactly one object and lies in the range tested by `is_valid_heap_pointer`. */
  lemma PtrUnique(base: nat, sh: Shape, i: nat, j: nat)
    requires sh.Valid() && i < sh.N() && j < sh.N()
    ensures Ptr(base, sh.st[i]) == Ptr(base, sh.st[j]) <==> i == j
    ensures base <= Ptr(base, sh.st[i]) <= base + 4 * sh.End()
  {
    sh.AllOrdered();
    assert sh.Tile(i);
  }

  // ----- the object graph ---------------------------------------------------------

  /** Some field of object i points to object j. */
  ghost predicate Edge(m: seq<Word>, base: nat, sh: Shape, i: nat, j: nat)
    requires sh.Valid() && Fits(m, sh)
  {
    j < sh.N() && exists a: nat :: a < |m| && IsField(sh, i, a) && m[a] == Ptr(base, sh.st[j])
  }

  ghost predicate Path(m: seq<Word>, base: nat, sh: Shape, p: seq<nat>)
    requires sh.Valid() && Fits(m, sh)
  {
    |p| > 0 && p[0] < sh.N() && forall k :: 0 <= k < |p| - 1 ==> Step(m, base, sh, p, k)
  }

  ghost predicate Step(m: seq<Word>, base: nat, sh: Shape, p: seq<nat>, k: nat)
    requires sh.Valid() && Fits(m, sh) && k + 1 < |p|
  {
    Edge(m, base, sh, p[k], p[k + 1])
  }

  /** Object i can be reached from the word w by following pointer fields. */
  ghost predicate Reach(m: seq<Word>, base: nat, sh: Shape, w: Word, i: nat)
    requires sh.Valid() && Fits(m, sh)
  {
    exists p :: Path(m, base, sh, p) && w == Ptr(base, sh.st[p[0]]) && p[|p| - 1] == i
  }

  lemma ReachStart(m: seq<Word>, base: nat, sh: Shape, w: Word, i: nat)
    requires sh.Valid() && Fits(m, sh) && i < sh.N() && w == Ptr(base, sh.st[i])
    ensures Reach(m, base, sh, w, i)
  {
    assert Path(m, base, sh, [i]);
  }

  lemma ReachStep(m: seq<Word>, base: nat, sh: Shape, w: Word, i: nat, j: nat)
    requires sh.Valid() && Fits(m, sh) && Reach(m, base, sh, w, i) && Edge(m, base, sh, i, j)
    ensures Reach(m, base, sh, w, j)
  {
    var p :| Path(m, base, sh, p) && w == Ptr(base, sh.st[p[0]]) && p[|p| - 1] == i;
    var q := p + [j];
    forall k | 0 <= k < |q| - 1 ensures Step(m, base, sh, q, k) {
      if k < |p| - 1 {
        assert Step(m, base, sh, p, k);
      }
    }
    assert Path(m, base, sh, q);
  }

  /** A set of objects closed under edges that contains the start of a path contains its end. */
  lemma {:induction false} ClosedUnderPath(m: seq<Word>, base: nat, sh: Shape, s: set<nat>, p: seq<nat>)
    requires sh.Valid() && Fits(m, sh) && Path(m, base, sh, p) && p[0] in s
    requires forall i, j :: i in s && Edge(m, base, sh, i, j) ==> j in s
    ensures p[|p| - 1] in s
    decreases |p|
  {
    if |p| > 1 {
      var q := p[..|p| - 1];
      forall k | 0 <= k < |q| - 1 ensures Step(m, base, sh, q, k) {
        assert Step(m, base, sh, p, k);
      }
      ClosedUnderPath(m, base, sh, s, q);
      assert Step(m, base, sh, p, |p| - 2);
    }
  }

  /** The object graph is a matter of headers and fields only. */
  lemma SameGraph(m: seq<Word>, m': seq<Word>, base: nat, sh: Shape)
    requires sh.Valid() && Fits(m, sh) && Fits(m', sh) && SameData(m, m', sh)
    ensures FieldsOk(m, base, sh) ==> FieldsOk(m', base, sh)
    ensures forall w, i :: Reach(m, base, sh, w, i) ==> Reach(m', base, sh, w, i)
  {
    forall i: nat, a: nat | IsField(sh, i, a) && a < |m| ensures m'[a] == m[a] {
      FieldInside(sh, i, a);
    }
    forall w, i | Reach(m, base, sh, w, i) ensures Reach(m', base, sh, w, i) {
      var p :| Path(m, base, sh, p) && w == Ptr(base, sh.st[p[0]]) && p[|p| - 1] == i;
      forall k | 0 <= k < |p| - 1 ensures Step(m', base, sh, p, k) {
        assert Step(m, base, sh, p, k);
      }
      assert Path(m', base, sh, p);
    }
  }

  /** Object i is reachable from one of the words ws. */
  ghost predicate ReachAny(m: seq<Word>, base: nat, sh: Shape, ws: seq<Word>, i: nat)
    requires sh.Valid() && Fits(m, sh)
  {
    exists k :: 0 <= k < |ws| && Reach(m, base, sh, ws[k], i)
  }

  lemma ReachAnySnoc(m: seq<Word>, base: nat, sh: Shape, ws: seq<Word>, w: Word, i: nat)
    requires sh.Valid() && Fits(m, sh)
    ensures ReachAny(m, base, sh, ws + [w], i) <==> ReachAny(m, base, sh, ws, i) || Reach(m, base, sh, w, i)
  {
    var vs := ws + [w];
    if Reach(m, base, sh, w, i) {
      assert Reach(m, base, sh, vs[|ws|], i);
    } else if ReachAny(m, base, sh, ws, i) {
      var k :| 0 <= k < |ws| && Reach(m, base, sh, ws[k], i);
      assert Reach(m, base, sh, vs[k], i);
    }
  }
}
