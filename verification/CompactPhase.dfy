/** `compact_phase`: forwarding addresses, the move of the whole heap by mremap, the redirection
    of fields and roots, and the in-place slide. */
module CompactPhase {
  import opened Words
  import opened Layout
  import opened MarkQueue
  import opened ProcessState
  import opened Compaction

  /** The first n live objects know where they will go. */
  ghost predicate Located(b: Bits, base: nat, sh: Shape, mk: seq<bool>, n: nat)
    requires sh.Valid() && |mk| == sh.N() && n <= sh.N()
  {
    && b.For(sh) && b.mk == mk
    && forall i {:trigger b.fw[i]} :: 0 <= i < n && mk[i] ==> b.fw[i] == base + 4 * LiveBefore(sh, mk, i)
  }

  lemma EndReached(sh: Shape, i: nat)
    requires sh.Valid() && i <= sh.N() && sh.st[i] >= sh.End()
    ensures i == sh.N()
  {
    sh.AllOrdered();
  }

  /** The state of `compute_locations` at object i: m0 is the memory at the call, b the bits now. */
  ghost predicate Locating(g: Process, m0: seq<Word>, sh: Shape, mk: seq<bool>, b: Bits, i: nat)
    reads g, g.mem
  {
    && g.Parsed(sh) && |mk| == sh.N() && i <= sh.N()
    && Fits(m0, sh) && SameData(m0, g.mem[..], sh) && BitsOf(g.mem[..], sh) == b
    && b.en == BitsOf(m0, sh).en && Located(b, g.base, sh, mk, i)
  }

  method LocateOne(g: Process, free: nat, scan: nat, ghost m0: seq<Word>, ghost sh: Shape, ghost mk: seq<bool>,
                   ghost b: Bits, ghost i: nat)
    returns (free': nat, scan': nat, ghost b': Bits)
    requires Locating(g, m0, sh, mk, b, i) && i < sh.N() && scan == sh.st[i] && free == LiveBefore(sh, mk, i)
    modifies g.mem
    ensures Locating(g, m0, sh, mk, b', i + 1) && scan' == sh.st[i + 1] && free' == LiveBefore(sh, mk, i + 1)
  {
    PtrUnique(g.base, sh, i, i);
    PlaceFits(g.base, sh, mk, i);
    LocatedNext(b, g.base, sh, mk, i);
    assert sh.Tile(i);
    var content: Word := Ptr(g.base, scan);
    var live := IsMarked(g, content, sh, i);
    free', b' := free, b;
    if live {
      ghost var m1 := g.mem[..];
      var addr: Word := g.base + 4 * free;
      SetForwardAddress(g, content, addr, sh, i);
      SameDataTrans(m0, m1, g.mem[..], sh);
      b' := b.(fw := b.fw[i := addr]);
      free' := free + ObjWords(g.mem[scan]);
    }
    scan' := NextObject(g, scan, sh, i);
  }

  /** `compute_locations` */
  method ComputeLocations(g: Process, ghost sh: Shape) returns (live: nat)
    requires g.Parsed(sh)
    modifies g.mem
    ensures g.Parsed(sh) && SameData(old(g.mem[..]), g.mem[..], sh)
    ensures var mk := old(BitsOf(g.mem[..], sh)).mk;
            Located(BitsOf(g.mem[..], sh), g.base, sh, mk, sh.N()) && live == LiveBefore(sh, mk, sh.N())
    ensures BitsOf(g.mem[..], sh).en == old(BitsOf(g.mem[..], sh)).en
  {
    ghost var m0, b := g.mem[..], BitsOf(g.mem[..], sh);
    ghost var mk, i := b.mk, 0;
    var free, scan := 0, 0;
    while scan < g.current
      invariant Locating(g, m0, sh, mk, b, i)
      invariant scan == sh.st[i] && free == LiveBefore(sh, mk, i)
      decreases sh.N() - i
    {
      free, scan, b := LocateOne(g, free, scan, m0, sh, mk, b, i);
      i := i + 1;
    }
    EndReached(sh, i);
    live := free;
  }

  lemma PlaceFits(base: nat, sh: Shape, mk: seq<bool>, i: nat)
    requires sh.Valid() && |mk| == sh.N() && i < sh.N() && base % 4 == 0 && base + 4 * sh.End() < 0x1_0000_0000
    ensures base + 4 * LiveBefore(sh, mk, i) < 0x1_0000_0000 && (base + 4 * LiveBefore(sh, mk, i)) % 4 == 0
  {
    MovesDown(sh, mk, i);
    sh.Last(i);
    Aligned(base, LiveBefore(sh, mk, i));
  }

  lemma LocatedNext(b: Bits, base: nat, sh: Shape, mk: seq<bool>, i: nat)
    requires sh.Valid() && |mk| == sh.N() && i < sh.N() && Located(b, base, sh, mk, i)
    requires base + 4 * LiveBefore(sh, mk, i) < 0x1_0000_0000
    ensures LiveBefore(sh, mk, i + 1) == LiveBefore(sh, mk, i) + if mk[i] then sh.Size(i) else 0
    ensures var addr: Word := base + 4 * LiveBefore(sh, mk, i);
            Located(if mk[i] then b.(fw := b.fw[i := addr]) else b, base, sh, mk, i + 1)
  {
  }

  // ----- update_references ------------------------------------------------------------

  /** The state while references are being redirected: the heap has moved from ob to g.base; m1 is
      its contents before the first redirection. */
  ghost predicate Redirecting(g: Process, ob: nat, m1: seq<Word>, sh: Shape, mk: seq<bool>, upto: nat)
    reads g, g.mem
  {
    && g.Parsed(sh) && Fits(m1, sh) && FieldsOk(m1, ob, sh) && ob % 4 == 0 && |mk| == sh.N()
    && Located(BitsOf(m1, sh), ob, sh, mk, sh.N())
    && Redirected(m1, g.mem[..], ob, g.base, sh, mk, upto)
  }

  /** Redirecting fields leaves headers and forward-address words alone. */
  lemma RedirectedKeeps(m1: seq<Word>, m: seq<Word>, ob: nat, nb: nat, sh: Shape, mk: seq<bool>, upto: nat)
    requires sh.Valid() && |mk| == sh.N() && Fits(m1, sh)
    requires Redirected(m1, m, ob, nb, sh, mk, upto)
    ensures Fits(m, sh) && BitsOf(m, sh) == BitsOf(m1, sh)
  {
    forall i | 0 <= i < sh.N() ensures m[sh.st[i]] == m1[sh.st[i]] && m[sh.st[i] + 1] == m1[sh.st[i] + 1] {
      NotLiveField(sh, mk, i, sh.st[i]);
      NotLiveField(sh, mk, i, sh.st[i] + 1);
    }
    BitsFrame(m1, m, sh, sh.N());
  }

  /** The new value of a pointer into the old heap, read off the object's forward address: the
      address arithmetic shared by update_references and scan_and_fix_region. */
  method Redirect(g: Process, ob: nat, w: Word, ghost m1: seq<Word>, ghost sh: Shape, ghost mk: seq<bool>,
                  ghost upto: nat, ghost j: nat)
    returns (r: Word)
    requires Redirecting(g, ob, m1, sh, mk, upto)
    requires j < sh.N() && w == Ptr(ob, sh.st[j]) && mk[j]
    ensures r == Moved(ob, g.base, sh, mk, w)
  {
    RedirectedKeeps(m1, g.mem[..], ob, g.base, sh, mk, upto);
    MovedPtr(ob, g.base, sh, mk, w, j);
    PtrUnique(g.base, sh, j, j);
    MovesDown(sh, mk, j);
    assert sh.Tile(j);
    sh.AllOrdered();
    var obj: Word := g.base + (w - ob);
    var f := GetForwardAddress(g, obj, sh, j);
    r := g.base + (f - ob) + 4 * HEADER_WORDS;
  }

  /** A live object points only to live objects. */
  ghost predicate TargetsLive(m1: seq<Word>, ob: nat, sh: Shape, mk: seq<bool>)
    requires sh.Valid() && |mk| == sh.N()
  {
    forall a: nat, j: nat :: a < |m1| && LiveField(sh, mk, a) && j < sh.N() && m1[a] == Ptr(ob, sh.st[j]) ==> mk[j]
  }

  /** Between `upto` and `upto'` there is nothing to redirect. */
  lemma RedirectedFurther(m1: seq<Word>, m: seq<Word>, ob: nat, nb: nat, sh: Shape, mk: seq<bool>, upto: nat,
                          upto': nat)
    requires sh.Valid() && |mk| == sh.N() && Redirected(m1, m, ob, nb, sh, mk, upto) && upto <= upto'
    requires forall a :: upto <= a < upto' && a < |m1| && LiveField(sh, mk, a) ==> Moved(ob, nb, sh, mk, m1[a]) == m1[a]
    ensures Redirected(m1, m, ob, nb, sh, mk, upto')
  {
  }

  lemma RedirectedWrite(m1: seq<Word>, m: seq<Word>, ob: nat, nb: nat, sh: Shape, mk: seq<bool>, c: nat, r: Word)
    requires sh.Valid() && |mk| == sh.N() && Fits(m1, sh) && Redirected(m1, m, ob, nb, sh, mk, c)
    requires c < |m| && LiveField(sh, mk, c) && r == Moved(ob, nb, sh, mk, m1[c])
    ensures Redirected(m1, m[c := r], ob, nb, sh, mk, c + 1) && Fits(m[c := r], sh)
  {
    RedirectedKeeps(m1, m[c := r], ob, nb, sh, mk, c + 1);
  }

  lemma RedirectedSkip(m1: seq<Word>, m: seq<Word>, ob: nat, nb: nat, sh: Shape, mk: seq<bool>, c: nat)
    requires sh.Valid() && |mk| == sh.N() && ob % 4 == 0 && Redirected(m1, m, ob, nb, sh, mk, c)
    requires c < |m1| && !InHeap(ob, sh.End(), m1[c])
    ensures Redirected(m1, m, ob, nb, sh, mk, c + 1)
  {
    NotMoved(ob, nb, sh, mk, m1[c]);
    RedirectedFurther(m1, m, ob, nb, sh, mk, c, c + 1);
  }

  /** From the header or field c of object i to its next field that may be a pointer. */
  method NextToRedirect(g: Process, ob: nat, c: nat, end: nat, ghost m1: seq<Word>, ghost sh: Shape,
                        ghost mk: seq<bool>, ghost i: nat)
    returns (r: nat)
    requires Redirecting(g, ob, m1, sh, mk, c)
    requires i < sh.N() && sh.st[i] <= c && end == sh.st[i + 1]
    ensures c <= r && (c <= end ==> r <= end) && Redirecting(g, ob, m1, sh, mk, r)
    ensures r < end ==> !Unboxed(g.mem[r])
  {
    sh.Last(i + 1);
    r := SkipUnboxed(g, c, end);
    forall a | c <= a < r && a < |m1| && LiveField(sh, mk, a) ensures Moved(ob, g.base, sh, mk, m1[a]) == m1[a] {
      NotMoved(ob, g.base, sh, mk, m1[a]);
    }
    RedirectedFurther(m1, g.mem[..], ob, g.base, sh, mk, c, r);
  }

  /** One pointer field of a live object. */
  method RedirectField(g: Process, ob: nat, c: nat, ghost m1: seq<Word>, ghost sh: Shape, ghost mk: seq<bool>,
                       ghost i: nat)
    requires Redirecting(g, ob, m1, sh, mk, c) && TargetsLive(m1, ob, sh, mk)
    requires i < sh.N() && mk[i] && IsField(sh, i, c) && c < g.mem.Length
    modifies g.mem
    ensures Redirecting(g, ob, m1, sh, mk, c + 1)
  {
    FieldInside(sh, i, c);
    assert LiveField(sh, mk, c);
    var v := g.mem[c];
    assert v == m1[c] && WordOk(ob, sh, m1[c]);
    ghost var m := g.mem[..];
    if !Unboxed(v) && ob <= v <= ob + 4 * g.current {
      ghost var j: nat :| j < sh.N() && v == Ptr(ob, sh.st[j]);
      var r := Redirect(g, ob, v, m1, sh, mk, c, j);
      RedirectedWrite(m1, m, ob, g.base, sh, mk, c, r);
      g.mem[c] := r;
      assert g.mem[..] == m[c := r];
    } else {
      RedirectedSkip(m1, m, ob, g.base, sh, mk, c);
    }
  }

  /** Header, forward-address word, code offset or tag, and string contents are not fields. */
  lemma NoFieldBefore(m1: seq<Word>, m: seq<Word>, ob: nat, nb: nat, sh: Shape, mk: seq<bool>, i: nat)
    requires sh.Valid() && |mk| == sh.N() && i < sh.N() && Redirected(m1, m, ob, nb, sh, mk, sh.st[i])
    ensures Redirected(m1, m, ob, nb, sh, mk, if mk[i] && sh.lo[i] < sh.st[i + 1] then sh.lo[i] else sh.st[i + 1])
  {
    var upto := if mk[i] && sh.lo[i] < sh.st[i + 1] then sh.lo[i] else sh.st[i + 1];
    sh.AllOrdered();
    forall a | sh.st[i] <= a < upto ensures !LiveField(sh, mk, a) {
      if LiveField(sh, mk, a) {
        var k: nat :| k < sh.N() && mk[k] && IsField(sh, k, a);
        FieldInside(sh, k, a);
        OwnerOf(sh, i, k, a);
      }
    }
    assert sh.Tile(i);
    RedirectedFurther(m1, m, ob, nb, sh, mk, sh.st[i], upto);
  }

  /** The field loop of `update_references` for live object i. */
  method RedirectObject(g: Process, ob: nat, it: nat, ghost m1: seq<Word>, ghost sh: Shape, ghost mk: seq<bool>,
                        ghost i: nat)
    requires Redirecting(g, ob, m1, sh, mk, it) && TargetsLive(m1, ob, sh, mk)
    requires i < sh.N() && it == sh.st[i] && mk[i]
    modifies g.mem
    ensures Redirecting(g, ob, m1, sh, mk, sh.st[i + 1])
  {
    assert sh.Tile(i);
    sh.Last(i + 1);
    var end := it + ObjWords(g.mem[it]);
    var c := it + FieldOffset(g.mem[it]);
    NoFieldBefore(m1, g.mem[..], ob, g.base, sh, mk, i);
    if c < end {
      c := NextToRedirect(g, ob, c, end, m1, sh, mk, i);
      while c < end
        invariant sh.lo[i] <= c <= end && Redirecting(g, ob, m1, sh, mk, c)
      {
        RedirectField(g, ob, c, m1, sh, mk, i);
        c := NextToRedirect(g, ob, c + 1, end, m1, sh, mk, i);
      }
    }
  }

  /** The heap loop of `update_references`. */
  method RedirectFields(g: Process, ob: nat, ghost m1: seq<Word>, ghost sh: Shape, ghost mk: seq<bool>)
    requires Redirecting(g, ob, m1, sh, mk, 0) && TargetsLive(m1, ob, sh, mk)
    modifies g.mem
    ensures Redirecting(g, ob, m1, sh, mk, sh.End())
  {
    ghost var i := 0;
    var it := 0;
    while it < g.current
      invariant i <= sh.N() && it == sh.st[i]
      invariant Redirecting(g, ob, m1, sh, mk, it)
      decreases sh.N() - i
    {
      it := RedirectNext(g, ob, it, m1, sh, mk, i);
      i := i + 1;
    }
    EndReached(sh, i);
  }

  method RedirectNext(g: Process, ob: nat, it: nat, ghost m1: seq<Word>, ghost sh: Shape, ghost mk: seq<bool>,
                      ghost i: nat)
    returns (next: nat)
    requires Redirecting(g, ob, m1, sh, mk, it) && TargetsLive(m1, ob, sh, mk)
    requires i < sh.N() && it == sh.st[i]
    modifies g.mem
    ensures Redirecting(g, ob, m1, sh, mk, next) && next == sh.st[i + 1]
  {
    RedirectedKeeps(m1, g.mem[..], ob, g.base, sh, mk, it);
    PtrUnique(g.base, sh, i, i);
    var live := IsMarked(g, Ptr(g.base, it), sh, i);
    if live {
      RedirectObject(g, ob, it, m1, sh, mk, i);
    } else {
      NoFieldBefore(m1, g.mem[..], ob, g.base, sh, mk, i);
    }
    next := NextObject(g, it, sh, i);
  }

  // ----- roots ----------------------------------------------------------------------------

  /** A root word is a pointer to a live object or is not a heap pointer at all. */
  ghost predicate RootOk(ob: nat, sh: Shape, mk: seq<bool>, w: Word)
    requires sh.Valid() && |mk| == sh.N()
  {
    WordOk(ob, sh, w) && forall j: nat :: j < sh.N() && w == Ptr(ob, sh.st[j]) ==> mk[j]
  }

  /** The words in the slots s have been redirected, the others are as before. */
  ghost predicate Fixed(r0: seq<Word>, r: seq<Word>, ob: nat, nb: nat, sh: Shape, mk: seq<bool>, s: set<nat>)
    requires sh.Valid() && |mk| == sh.N()
  {
    |r| == |r0| && forall p: nat :: p < |r0| ==> r[p] == if p in s then Moved(ob, nb, sh, mk, r0[p]) else r0[p]
  }

  /** One slot, as in the loop bodies of `scan_and_fix_region` and `scan_and_fix_region_roots`. */
  method FixSlot(g: Process, ob: nat, p: nat, ghost m1: seq<Word>, ghost sh: Shape, ghost mk: seq<bool>,
                 ghost r0: seq<Word>, ghost s: set<nat>)
    requires sh.Valid() && Redirecting(g, ob, m1, sh, mk, sh.End()) && g.mem != g.ram
    requires p < g.ram.Length && p !in s && Fixed(r0, g.ram[..], ob, g.base, sh, mk, s)
    requires RootOk(ob, sh, mk, r0[p])
    modifies g.ram
    ensures Redirecting(g, ob, m1, sh, mk, sh.End())
    ensures Fixed(r0, g.ram[..], ob, g.base, sh, mk, s + {p})
  {
    var w: Word := g.ram[p];
    assert w == r0[p];
    ghost var r1 := g.ram[..];
    if !Unboxed(w) && ob <= w <= ob + 4 * g.current {
      ghost var j: nat :| j < sh.N() && w == Ptr(ob, sh.st[j]);
      var r := Redirect(g, ob, w, m1, sh, mk, sh.End(), j);
      FixedWrite(r0, r1, ob, g.base, sh, mk, s, p, r);
      g.ram[p] := r;
      assert g.ram[..] == r1[p := r];
    } else {
      NotMoved(ob, g.base, sh, mk, w);
      FixedWrite(r0, r1, ob, g.base, sh, mk, s, p, w);
      assert g.ram[..] == r1[p := w];
    }
  }

  lemma FixedWrite(r0: seq<Word>, r1: seq<Word>, ob: nat, nb: nat, sh: Shape, mk: seq<bool>, s: set<nat>, p: nat,
                   w: Word)
    requires sh.Valid() && |mk| == sh.N() && Fixed(r0, r1, ob, nb, sh, mk, s)
    requires p < |r0| && w == Moved(ob, nb, sh, mk, r0[p])
    ensures Fixed(r0, r1[p := w], ob, nb, sh, mk, s + {p})
  {
  }

  /** `scan_and_fix_region` on the slots from lo up to hi. */
  method FixRegion(g: Process, ob: nat, lo: nat, hi: nat, ghost m1: seq<Word>, ghost sh: Shape, ghost mk: seq<bool>,
                   ghost r0: seq<Word>)
    requires sh.Valid() && Redirecting(g, ob, m1, sh, mk, sh.End()) && g.mem != g.ram
    requires lo <= hi <= g.ram.Length && r0 == g.ram[..]
    requires forall p: nat :: lo <= p < hi ==> RootOk(ob, sh, mk, r0[p])
    modifies g.ram
    ensures Redirecting(g, ob, m1, sh, mk, sh.End())
    ensures Fixed(r0, g.ram[..], ob, g.base, sh, mk, Slots(lo, hi))
  {
    var p := lo;
    while p < hi
      invariant lo <= p <= hi
      invariant Redirecting(g, ob, m1, sh, mk, sh.End())
      invariant Fixed(r0, g.ram[..], ob, g.base, sh, mk, Slots(lo, p))
    {
      FixSlot(g, ob, p, m1, sh, mk, r0, Slots(lo, p));
      assert Slots(lo, p) + {p} == Slots(lo, p + 1);
      p := p + 1;
    }
  }

  /** The slots from lo to hi, without hi. */
  function Slots(lo: nat, hi: nat): (s: set<nat>)
    ensures forall p: nat :: p in s <==> lo <= p < hi
    decreases hi
  {
    if hi <= lo then {} else Slots(lo, hi - 1) + {hi - 1}
  }

  /** The slots that hold roots: the stack, with the one word past it that the source also
      rewrites, and the first n extra roots. */
  ghost function RootSlots(top: nat, bottom: nat, extra: seq<nat>, n: nat): set<nat>
    requires n <= |extra|
  {
    if n == 0 then Slots(top + 1, bottom + 1) else RootSlots(top, bottom, extra, n - 1) + {extra[n - 1]}
  }

  ghost function AllSlots(top: nat, bottom: nat, extra: seq<nat>): set<nat> {
    RootSlots(top, bottom, extra, |extra|)
  }

  lemma {:induction false} InRootSlots(top: nat, bottom: nat, extra: seq<nat>, n: nat, p: nat)
    requires n <= |extra|
    ensures p in RootSlots(top, bottom, extra, n) <==> top < p <= bottom || exists k :: 0 <= k < n && extra[k] == p
  {
    if n > 0 {
      InRootSlots(top, bottom, extra, n - 1, p);
    }
  }

  /** Extra roots are distinct, and neither the slot at the top of the stack (never scanned) nor
      the one at its bottom (rewritten with the stack) is one. */
  ghost predicate ExtraOk(top: nat, bottom: nat, extra: seq<nat>) {
    Distinct(extra) && forall k :: 0 <= k < |extra| ==> extra[k] != top && extra[k] != bottom
  }

  /** The fields, the stack and the first i extra roots have been redirected. */
  ghost predicate FixingExtra(g: Process, ob: nat, m1: seq<Word>, sh: Shape, mk: seq<bool>, r0: seq<Word>, i: nat)
    reads g, g.mem, g.ram
  {
    && sh.Valid() && Redirecting(g, ob, m1, sh, mk, sh.End()) && g.mem != g.ram
    && g.RootsInRam() && ExtraOk(g.top, g.bottom, g.extra) && |r0| == g.ram.Length && i <= |g.extra|
    && Fixed(r0, g.ram[..], ob, g.base, sh, mk, RootSlots(g.top, g.bottom, g.extra, i))
  }

  ghost predicate ExtraRootsOk(extra: seq<nat>, ob: nat, sh: Shape, mk: seq<bool>, r0: seq<Word>)
    requires sh.Valid() && |mk| == sh.N() && InRange(extra, |r0|)
  {
    forall k: nat {:trigger extra[k]} :: k < |extra| ==> RootOk(ob, sh, mk, r0[extra[k]])
  }

  method FixExtraRoot(g: Process, ob: nat, i: nat, ghost m1: seq<Word>, ghost sh: Shape, ghost mk: seq<bool>,
                      ghost r0: seq<Word>)
    requires FixingExtra(g, ob, m1, sh, mk, r0, i) && i < |g.extra| && ExtraRootsOk(g.extra, ob, sh, mk, r0)
    modifies g.ram
    ensures FixingExtra(g, ob, m1, sh, mk, r0, i + 1)
  {
    var p := g.extra[i];
    ghost var s := RootSlots(g.top, g.bottom, g.extra, i);
    InRootSlots(g.top, g.bottom, g.extra, i, p);
    if g.top <= p < g.bottom {
      assert s + {p} == s;
    } else {
      FixSlot(g, ob, p, m1, sh, mk, r0, s);
    }
  }

  /** `scan_and_fix_region_roots` */
  method FixExtraRoots(g: Process, ob: nat, ghost m1: seq<Word>, ghost sh: Shape, ghost mk: seq<bool>,
                       ghost r0: seq<Word>)
    requires FixingExtra(g, ob, m1, sh, mk, r0, 0)
    requires ExtraRootsOk(g.extra, ob, sh, mk, r0)
    modifies g.ram
    ensures FixingExtra(g, ob, m1, sh, mk, r0, |g.extra|)
  {
    var i := 0;
    while i < |g.extra|
      invariant FixingExtra(g, ob, m1, sh, mk, r0, i)
    {
      FixExtraRoot(g, ob, i, m1, sh, mk, r0);
      i := i + 1;
    }
  }

  /** `update_references` */
  method UpdateReferences(g: Process, ob: nat, ghost m1: seq<Word>, ghost sh: Shape, ghost mk: seq<bool>)
    requires Redirecting(g, ob, m1, sh, mk, 0) && TargetsLive(m1, ob, sh, mk) && g.mem != g.ram
    requires g.RootsInRam() && ExtraOk(g.top, g.bottom, g.extra)
    requires forall p: nat :: g.top < p <= g.bottom ==> RootOk(ob, sh, mk, g.ram[p])
    requires forall k: nat :: k < |g.extra| ==> RootOk(ob, sh, mk, g.ram[g.extra[k]])
    modifies g.mem, g.ram
    ensures Redirecting(g, ob, m1, sh, mk, sh.End())
    ensures Fixed(old(g.ram[..]), g.ram[..], ob, g.base, sh, mk, AllSlots(g.top, g.bottom, g.extra))
  {
    ghost var r0 := g.ram[..];
    RedirectFields(g, ob, m1, sh, mk);
    FixRegion(g, ob, g.top + 1, g.bottom + 1, m1, sh, mk, r0);
    FixExtraRoots(g, ob, m1, sh, mk, r0);
  }

  // ----- physically_relocate ----------------------------------------------------------------

  /** The first i objects have been slid down; from object i on the memory is as before the slide. */
  ghost predicate Sliding(g: Process, ob: nat, m2: seq<Word>, sh: Shape, mk: seq<bool>, i: nat)
    reads g, g.mem
  {
    && sh.Valid() && Fits(m2, sh) && |mk| == sh.N() && i <= sh.N() && g.current == sh.End()
    && Located(BitsOf(m2, sh), ob, sh, mk, sh.N()) && ob % 4 == 0
    && g.mem.Length == |m2| && (forall a :: sh.st[i] <= a < |m2| ==> g.mem[a] == m2[a])
    && Slid(m2, g.mem[..], sh, mk, i)
  }

  method MoveWords(g: Process, to: nat, from: nat, k: nat)
    requires to <= from && from + k <= g.mem.Length
    modifies g.mem
    ensures forall a {:trigger g.mem[a]} :: to <= a < to + k ==> g.mem[a] == old(g.mem[a - to + from])
    ensures forall a :: 0 <= a < g.mem.Length && (a < to || to + k <= a) ==> g.mem[a] == old(g.mem[a])
  {
    forall d | 0 <= d < k {
      g.mem[to + d] := g.mem[from + d];
    }
  }

  /** memmove of `bytes` bytes to a lower address: whole words, then the low bytes of the last one.
      Every word is read before any is written, as in the C library. */
  method MemMove(g: Process, to: nat, from: nat, bytes: nat)
    requires to <= from && bytes >= 8 && from + BytesToWords(bytes) <= g.mem.Length
    modifies g.mem
    ensures Copied(old(g.mem[..]), from, g.mem[..], to, bytes / 4, bytes % 4) && g.mem[to + 1] == old(g.mem[from + 1])
    ensures forall a :: 0 <= a < g.mem.Length && (a < to || to + BytesToWords(bytes) <= a) ==> g.mem[a] == old(g.mem[a])
  {
    var k, rem := bytes / 4, bytes % 4;
    ghost var m := g.mem[..];
    if rem != 0 {
      var src, dst := g.mem[from + k], g.mem[to + k];
      MoveWords(g, to, from, k);
      g.mem[to + k] := Splice(src, dst, rem);
      forall j | 0 <= j < rem ensures ByteOf(g.mem[to + k], j) == ByteOf(src, j) {
        SpliceBytes(src, dst, rem, j);
      }
    } else {
      MoveWords(g, to, from, k);
    }
  }

  /** Copying object i leaves the objects slid before it intact. */
  lemma SlidKeeps(m2: seq<Word>, m: seq<Word>, m': seq<Word>, sh: Shape, mk: seq<bool>, i: nat)
    requires sh.Valid() && Fits(m2, sh) && |mk| == sh.N() && i <= sh.N() && |m| == |m'| == |m2|
    requires Slid(m2, m, sh, mk, i)
    requires forall a :: 0 <= a < LiveBefore(sh, mk, i) && a < |m| ==> m'[a] == m[a]
    ensures Slid(m2, m', sh, mk, i)
  {
    forall k | 0 <= k < i && mk[k] ensures SlidOne(m2, m', sh, mk, k) {
      assert SlidOne(m2, m, sh, mk, k);
      PlacesDisjoint(sh, mk, k, i);
      sh.SizeInWords(k);
      CopiedKeeps(m2, sh.st[k], m, m', LiveBefore(sh, mk, k), sh.whole[k], sh.tail[k]);
    }
  }

  /** The move of live object i: `to` is where its forward address says. */
  method SlideObject(g: Process, from: nat, to: nat, ghost m2: seq<Word>, ghost sh: Shape, ghost mk: seq<bool>,
                     ghost i: nat)
    requires sh.Valid() && Fits(m2, sh) && |mk| == sh.N() && i < sh.N() && mk[i]
    requires from == sh.st[i] && to == LiveBefore(sh, mk, i) && g.mem.Length == |m2|
    requires forall a :: sh.st[i] <= a < |m2| ==> g.mem[a] == m2[a]
    modifies g.mem
    ensures SlidOne(m2, g.mem[..], sh, mk, i)
    ensures forall a :: 0 <= a < |m2| && (a < to || sh.st[i + 1] <= a) ==> g.mem[a] == old(g.mem[a])
  {
    MovesDown(sh, mk, i);
    assert sh.Tile(i);
    sh.Last(i + 1);
    ghost var m := g.mem[..];
    sh.SizeInWords(i);
    var bytes := ObjBytes(g.mem[from]);
    MemMove(g, to, from, bytes);
    ghost var m' := g.mem[..];
    CopiedFrom(m, m2, from, m', to, sh.whole[i], sh.tail[i]);
    g.mem[to + 1] := WithoutMark(g.mem[to + 1]);
    CopiedKeeps(m2, from, m', g.mem[..], to, sh.whole[i], sh.tail[i]);
  }

  lemma CopiedFrom(m: seq<Word>, m2: seq<Word>, s: nat, m': seq<Word>, t: nat, whole: nat, tail: nat)
    requires whole >= 2 && tail < 4 && Copied(m, s, m', t, whole, tail) && |m2| == |m|
    requires forall a :: s <= a < |m| ==> m2[a] == m[a]
    ensures Copied(m2, s, m', t, whole, tail)
  {
  }

  /** Whether object i is live and where it goes, read from its forward-address word. */
  method SlideTarget(g: Process, ob: nat, from: nat, ghost m2: seq<Word>, ghost sh: Shape, ghost mk: seq<bool>,
                     ghost i: nat)
    returns (live: bool, to: nat)
    requires Sliding(g, ob, m2, sh, mk, i) && i < sh.N() && from == sh.st[i]
    ensures live == mk[i] && (live ==> to == LiveBefore(sh, mk, i))
  {
    sh.AllOrdered();
    BitsAt(m2, sh, sh.N(), i);
    var f := g.mem[from + 1];
    live := Marked(f);
    to := 0;
    if live {
      assert Forward(f) == ob + 4 * LiveBefore(sh, mk, i);
      to := (Forward(f) - ob) / 4;
    }
  }

  /** One step of the slide. */
  method SlideNext(g: Process, ob: nat, from: nat, ghost m2: seq<Word>, ghost sh: Shape, ghost mk: seq<bool>,
                   ghost i: nat)
    returns (next: nat)
    requires Sliding(g, ob, m2, sh, mk, i) && i < sh.N() && from == sh.st[i]
    modifies g.mem
    ensures Sliding(g, ob, m2, sh, mk, i + 1) && next == sh.st[i + 1]
  {
    assert sh.Tile(i);
    sh.AllOrdered();
    next := from + ObjWords(g.mem[from]);
    var live, to := SlideTarget(g, ob, from, m2, sh, mk, i);
    ghost var m := g.mem[..];
    if live {
      SlideObject(g, from, to, m2, sh, mk, i);
    }
    SlidKeeps(m2, m, g.mem[..], sh, mk, i);
    SlidMore(m2, g.mem[..], sh, mk, i);
  }

  lemma SlidMore(m2: seq<Word>, m: seq<Word>, sh: Shape, mk: seq<bool>, i: nat)
    requires sh.Valid() && Fits(m2, sh) && |mk| == sh.N() && i < sh.N() && |m| == |m2|
    requires Slid(m2, m, sh, mk, i) && (mk[i] ==> SlidOne(m2, m, sh, mk, i))
    ensures Slid(m2, m, sh, mk, i + 1)
  {
  }

  /** `physically_relocate` */
  method PhysicallyRelocate(g: Process, ob: nat, ghost m2: seq<Word>, ghost sh: Shape, ghost mk: seq<bool>)
    requires Sliding(g, ob, m2, sh, mk, 0)
    modifies g.mem
    ensures Sliding(g, ob, m2, sh, mk, sh.N())
  {
    ghost var i := 0;
    var from := 0;
    while from < g.current
      invariant Sliding(g, ob, m2, sh, mk, i) && from == sh.st[i]
      decreases sh.N() - i
    {
      from := SlideNext(g, ob, from, m2, sh, mk, i);
      i := i + 1;
    }
    EndReached(sh, i);
  }
}
