/** `mark` and `mark_phase`. */
module MarkPhase {
  import opened Words
  import opened Layout
  import opened MarkQueue
  import opened ProcessState

  /** `queue_enqueue` */
  method Enqueue(g: Process, tail: nat, obj: Word, ghost sh: Shape, ghost t: nat, ghost x: nat) returns (next: nat)
    requires g.Parsed(sh) && t < sh.N() && tail == sh.st[t]
    requires x < sh.N() && obj == Ptr(g.base, sh.st[x])
    modifies g.mem
    ensures g.Parsed(sh) && next == sh.st[t + 1] && SameData(old(g.mem[..]), g.mem[..], sh)
    ensures BitsOf(g.mem[..], sh) == Enqueuing(old(BitsOf(g.mem[..], sh)), t, obj, x)
  {
    PtrUnique(g.base, sh, t, t);
    ghost var m0 := g.mem[..];
    SetForwardAddress(g, Ptr(g.base, tail), obj, sh, t);
    ghost var m1 := g.mem[..];
    SetEnqueued(g, obj, true, sh, x);
    SameDataTrans(m0, m1, g.mem[..], sh);
    next := NextObject(g, tail, sh, t);
  }

  /** `queue_dequeue` followed by `mark_object` on the dequeued object. */
  method DequeueAndMark(g: Process, head: nat, ghost sh: Shape, ghost h: nat, ghost x: nat)
    returns (obj: Word, next: nat)
    requires g.Parsed(sh) && h < sh.N() && head == sh.st[h] && x < sh.N()
    requires BitsOf(g.mem[..], sh).fw[h] == Ptr(g.base, sh.st[x])
    modifies g.mem
    ensures g.Parsed(sh) && next == sh.st[h + 1] && obj == Ptr(g.base, sh.st[x])
    ensures BitsOf(g.mem[..], sh) == DequeuingAndMarking(old(BitsOf(g.mem[..], sh)), x)
    ensures SameData(old(g.mem[..]), g.mem[..], sh)
  {
    PtrUnique(g.base, sh, h, h);
    ghost var m0 := g.mem[..];
    obj := GetForwardAddress(g, Ptr(g.base, head), sh, h);
    SetEnqueued(g, obj, false, sh, x);
    ghost var m1 := g.mem[..];
    next := NextObject(g, head, sh, h);
    MarkObject(g, obj, sh, x);
    SameDataTrans(m0, m1, g.mem[..], sh);
  }

  /** What holds between two queue operations of one call `mark(w)`: m0 is the memory at the call
      and b the bits now. */
  ghost predicate Marking(g: Process, m0: seq<Word>, w: Word, sh: Shape, b: Bits, u: Queue, hi: nat)
    reads g, g.mem
  {
    && g.Parsed(sh) && Fits(m0, sh) && SameData(m0, g.mem[..], sh) && BitsOf(g.mem[..], sh) == b
    && FieldsOk(m0, g.base, sh)
    && QueueInv(b, BitsOf(m0, sh).mk, g.base, sh, u, hi)
    && AllReached(m0, g.base, sh, w, u.order)
  }

  lemma AppendReached(m0: seq<Word>, base: nat, sh: Shape, w: Word, q: seq<nat>, j: nat)
    requires sh.Valid() && Fits(m0, sh) && AllReached(m0, base, sh, w, q) && Reach(m0, base, sh, w, j)
    ensures AllReached(m0, base, sh, w, q + [j])
  {
  }

  lemma EnqueuingGrows(b: Bits, sh: Shape, k: nat, v: Word, j: nat)
    requires sh.Valid() && b.For(sh) && k < sh.N() && j < sh.N()
    ensures var c := Enqueuing(b, k, v, j); c.For(sh) && Grows(b, c, sh) && c.mk == b.mk && Met(c, j)
  {
  }

  /** Enqueue object j, which is neither marked nor waiting. */
  method MeetNew(g: Process, v: Word, tail: nat, ghost m0: seq<Word>, ghost w: Word,
                 ghost sh: Shape, ghost b: Bits, ghost u: Queue, ghost hi: nat, ghost j: nat)
    returns (tail': nat)
    requires Marking(g, m0, w, sh, b, u, hi) && tail == sh.st[|u.order|]
    requires j < sh.N() && v == Ptr(g.base, sh.st[j]) && Reach(m0, g.base, sh, w, j) && !b.mk[j] && !b.en[j]
    modifies g.mem
    ensures |u.order| < sh.N() && Marking(g, m0, w, sh, Enqueuing(b, |u.order|, v, j), Append(u, j), hi)
    ensures tail' == sh.st[|u.order| + 1]
  {
    EnqueueKeeps(b, BitsOf(m0, sh).mk, g.base, sh, u, hi, j);
    ghost var m1 := g.mem[..];
    tail' := Enqueue(g, tail, v, sh, |u.order|, j);
    SameDataTrans(m0, m1, g.mem[..], sh);
    AppendReached(m0, g.base, sh, w, u.order, j);
  }

  /** Enqueue object j unless it is marked or waiting already. */
  method Meet(g: Process, v: Word, tail: nat, ghost m0: seq<Word>, ghost w: Word,
              ghost sh: Shape, ghost b: Bits, ghost u: Queue, ghost hi: nat, ghost j: nat)
    returns (tail': nat, ghost b': Bits, ghost u': Queue)
    requires Marking(g, m0, w, sh, b, u, hi) && tail == sh.st[|u.order|]
    requires j < sh.N() && v == Ptr(g.base, sh.st[j]) && Reach(m0, g.base, sh, w, j)
    modifies g.mem
    ensures Marking(g, m0, w, sh, b', u', hi) && tail' == sh.st[|u'.order|] && u.order <= u'.order
    ensures Grows(b, b', sh) && b'.mk == b.mk && Met(b', j)
  {
    var marked := IsMarked(g, v, sh, j);
    var waiting := IsEnqueued(g, v, sh, j);
    if !marked && !waiting {
      tail' := MeetNew(g, v, tail, m0, w, sh, b, u, hi, j);
      EnqueuingGrows(b, sh, |u.order|, v, j);
      b', u' := Enqueuing(b, |u.order|, v, j), Append(u, j);
    } else {
      tail', b', u' := tail, b, u;
    }
  }

  /** One field of object x. */
  method Visit(g: Process, c: nat, tail: nat, ghost m0: seq<Word>, ghost w: Word,
               ghost sh: Shape, ghost b: Bits, ghost u: Queue, ghost hi: nat, ghost x: nat)
    returns (tail': nat, ghost b': Bits, ghost u': Queue)
    requires Marking(g, m0, w, sh, b, u, hi) && tail == sh.st[|u.order|]
    requires IsField(sh, x, c) && c < g.mem.Length && Reach(m0, g.base, sh, w, x)
    requires Closed(b, m0, g.base, sh, x) && Scanned(b, m0, g.base, sh, x, c)
    modifies g.mem
    ensures Marking(g, m0, w, sh, b', u', hi) && tail' == sh.st[|u'.order|] && u.order <= u'.order
    ensures Closed(b', m0, g.base, sh, x) && Scanned(b', m0, g.base, sh, x, c + 1)
  {
    FieldInside(sh, x, c);
    var v := g.mem[c];
    assert WordOk(g.base, sh, m0[c]) && v == m0[c];
    if InHeap(g.base, g.current, v) {
      ghost var j: nat :| j < sh.N() && v == Ptr(g.base, sh.st[j]);
      assert Edge(m0, g.base, sh, x, j);
      ReachStep(m0, g.base, sh, w, x, j);
      tail', b', u' := Meet(g, v, tail, m0, w, sh, b, u, hi, j);
      ClosedStays(b, b', m0, g.base, sh, x);
      PointsOnlyTo(b', g.base, sh, v, j);
    } else {
      tail', b', u' := tail, b, u;
      PointsNowhere(g.base, sh, v);
      assert TargetMet(b', g.base, sh, v);
    }
    ScannedNext(b, b', m0, g.base, sh, x, c);
  }

  lemma PointsOnlyTo(b: Bits, base: nat, sh: Shape, v: Word, j: nat)
    requires sh.Valid() && b.For(sh) && j < sh.N() && v == Ptr(base, sh.st[j]) && Met(b, j)
    ensures TargetMet(b, base, sh, v)
  {
    forall i | 0 <= i < sh.N() && v == Ptr(base, sh.st[i]) ensures Met(b, i) {
      PtrUnique(base, sh, i, j);
    }
  }

  lemma PointsNowhere(base: nat, sh: Shape, v: Word)
    requires sh.Valid() && base % 4 == 0 && !InHeap(base, sh.End(), v)
    ensures forall i :: 0 <= i < sh.N() ==> v != Ptr(base, sh.st[i])
  {
    forall i | 0 <= i < sh.N() ensures v != Ptr(base, sh.st[i]) {
      PtrUnique(base, sh, i, i);
    }
  }

  /** `ptr_field_begin_iterator` / `obj_next_ptr_field_iterator` on an object being scanned. */
  method NextPointerField(g: Process, c: nat, end: nat, ghost m0: seq<Word>, ghost sh: Shape, ghost b: Bits,
                          ghost x: nat)
    returns (r: nat)
    requires g.Parsed(sh) && Fits(m0, sh) && SameData(m0, g.mem[..], sh) && b.For(sh)
    requires x < sh.N() && sh.lo[x] <= c && end == sh.st[x + 1]
    requires Scanned(b, m0, g.base, sh, x, c)
    ensures c <= r && Scanned(b, m0, g.base, sh, x, r)
  {
    sh.Last(x + 1);
    r := SkipUnboxed(g, c, end);
    forall a: nat, j: nat | IsField(sh, x, a) && a < r && a < |m0| && j < sh.N() && m0[a] == Ptr(g.base, sh.st[j])
      ensures Met(b, j)
    {
      FieldInside(sh, x, a);
      assert m0[a] == g.mem[a];
      assert a < c;
    }
  }

  /** The inner loop of `mark`: enqueue every unmet object that object x points to. */
  method ScanFields(g: Process, header: nat, tail: nat, ghost m0: seq<Word>, ghost w: Word,
                    ghost sh: Shape, ghost b: Bits, ghost u: Queue, ghost hi: nat, ghost x: nat)
    returns (tail': nat, ghost b': Bits, ghost u': Queue)
    requires Marking(g, m0, w, sh, b, u, hi) && tail == sh.st[|u.order|]
    requires x < sh.N() && header == sh.st[x] && Reach(m0, g.base, sh, w, x)
    requires Closed(b, m0, g.base, sh, x)
    modifies g.mem
    ensures Marking(g, m0, w, sh, b', u', hi) && tail' == sh.st[|u'.order|] && u.order <= u'.order
    ensures Closed(b', m0, g.base, sh, -1)
  {
    tail', b', u' := tail, b, u;
    assert sh.Tile(x);
    sh.Last(x + 1);
    var end := header + ObjWords(g.mem[header]);
    var c := header + FieldOffset(g.mem[header]);
    c := NextPointerField(g, c, end, m0, sh, b, x);
    while c < end
      invariant Marking(g, m0, w, sh, b', u', hi) && tail' == sh.st[|u'.order|] && u.order <= u'.order
      invariant sh.lo[x] <= c
      invariant Closed(b', m0, g.base, sh, x) && Scanned(b', m0, g.base, sh, x, c)
      decreases end - c
    {
      tail', b', u' := Visit(g, c, tail', m0, w, sh, b', u', hi, x);
      c := NextPointerField(g, c + 1, end, m0, sh, b', x);
    }
    ScannedAll(b', m0, g.base, sh, x, c);
  }

  /** Two iterators over the heap are equal only at the same object. */
  lemma StartsDiffer(sh: Shape, i: nat, j: nat)
    requires sh.Valid() && i <= sh.N() && j <= sh.N() && sh.st[i] == sh.st[j]
    ensures i == j
  {
    sh.AllOrdered();
  }

  /** `get_obj_header_ptr` */
  method HeaderOf(g: Process, obj: Word, ghost off: nat) returns (header: nat)
    requires obj == Ptr(g.base, off)
    ensures header == off
  {
    HeaderAtPtr(g.base, off, obj);
    header := HeaderAt(g.base, obj);
  }

  /** The first half of an iteration of the queue loop: take an object off the queue and mark it. */
  method TakeNext(g: Process, head: nat, ghost m0: seq<Word>, ghost w: Word, ghost sh: Shape, ghost b: Bits,
                  ghost u: Queue, ghost hi: nat)
    returns (header: nat, head': nat, ghost b': Bits)
    requires Marking(g, m0, w, sh, b, u, hi) && hi < |u.order| && head == sh.st[hi]
    requires Closed(b, m0, g.base, sh, -1)
    modifies g.mem
    ensures Marking(g, m0, w, sh, b', u, hi + 1) && head' == sh.st[hi + 1]
    ensures u.order[hi] < sh.N() && header == sh.st[u.order[hi]] && Reach(m0, g.base, sh, w, u.order[hi])
    ensures Closed(b', m0, g.base, sh, u.order[hi])
  {
    DequeueKeeps(b, BitsOf(m0, sh).mk, g.base, sh, u, hi);
    DequeueCloses(b, m0, g.base, sh, u.order[hi]);
    ghost var m1 := g.mem[..];
    var cur;
    cur, head' := DequeueAndMark(g, head, sh, hi, u.order[hi]);
    SameDataTrans(m0, m1, g.mem[..], sh);
    b' := DequeuingAndMarking(b, u.order[hi]);
    header := HeaderOf(g, cur, sh.st[u.order[hi]]);
  }

  /** One iteration of the queue loop of `mark`. */
  method Round(g: Process, head: nat, tail: nat, ghost m0: seq<Word>, ghost w: Word,
               ghost sh: Shape, ghost b: Bits, ghost u: Queue, ghost hi: nat)
    returns (head': nat, tail': nat, ghost b': Bits, ghost u': Queue)
    requires Marking(g, m0, w, sh, b, u, hi) && hi < |u.order| && head == sh.st[hi] && tail == sh.st[|u.order|]
    requires Closed(b, m0, g.base, sh, -1)
    modifies g.mem
    ensures Marking(g, m0, w, sh, b', u', hi + 1) && head' == sh.st[hi + 1] && tail' == sh.st[|u'.order|]
    ensures u.order <= u'.order
    ensures Closed(b', m0, g.base, sh, -1)
  {
    var header;
    header, head', b' := TakeNext(g, head, m0, w, sh, b, u, hi);
    tail', b', u' := ScanFields(g, header, tail, m0, w, sh, b', u, hi + 1, u.order[hi]);
  }

  /** The queue at the start of `mark`, holding object x only. */
  method StartQueue(g: Process, w: Word, ghost sh: Shape, ghost x: nat)
    returns (tail: nat, ghost b: Bits, ghost u: Queue)
    requires g.Parsed(sh) && FieldsOk(g.mem[..], g.base, sh)
    requires x < sh.N() && w == Ptr(g.base, sh.st[x]) && !BitsOf(g.mem[..], sh).mk[x]
    requires QueueEmpty(BitsOf(g.mem[..], sh))
    requires Closed(BitsOf(g.mem[..], sh), g.mem[..], g.base, sh, -1)
    modifies g.mem
    ensures Marking(g, old(g.mem[..]), w, sh, b, u, 0) && u.order == [x] && tail == sh.st[1]
    ensures Closed(b, old(g.mem[..]), g.base, sh, -1)
  {
    ghost var b0 := BitsOf(g.mem[..], sh);
    PtrUnique(g.base, sh, x, x);
    StartKeeps(b0, g.mem[..], g.base, sh, w, x);
    tail := Enqueue(g, 0, w, sh, 0, x);
    b, u := Enqueuing(b0, 0, w, x), StartOf(sh.N(), x);
  }

  /** The queue loop of `mark`. */
  method DrainQueue(g: Process, tail0: nat, ghost m0: seq<Word>, ghost w: Word, ghost sh: Shape, ghost b0: Bits,
                    ghost u0: Queue, ghost x: nat)
    returns (ghost b: Bits)
    requires Marking(g, m0, w, sh, b0, u0, 0) && u0.order == [x] && tail0 == sh.st[1]
    requires x < sh.N() && w == Ptr(g.base, sh.st[x])
    requires Closed(b0, m0, g.base, sh, -1)
    modifies g.mem
    ensures g.Parsed(sh) && SameData(m0, g.mem[..], sh) && BitsOf(g.mem[..], sh) == b
    ensures QueueEmpty(b) && Closed(b, m0, g.base, sh, -1)
    ensures forall i :: 0 <= i < sh.N() ==> (b.mk[i] <==> BitsOf(m0, sh).mk[i] || Reach(m0, g.base, sh, w, i))
  {
    var head, tail := 0, tail0;
    ghost var u, hi := u0, 0;
    b := b0;
    while head != tail
      invariant Marking(g, m0, w, sh, b, u, hi)
      invariant head == sh.st[hi] && tail == sh.st[|u.order|] && [x] <= u.order
      invariant Closed(b, m0, g.base, sh, -1)
      decreases sh.N() - hi
    {
      head, tail, b, u := Round(g, head, tail, m0, w, sh, b, u, hi);
      hi := hi + 1;
    }
    StartsDiffer(sh, hi, |u.order|);
    assert u.order[0] == x;
    QueueDone(b, BitsOf(m0, sh).mk, m0, g.base, sh, w, x, u);
  }

  /** `mark`: everything reachable from w is marked, nothing else is, and no bit of the queue is
      left behind.  The early return is right because the marked set is closed under edges. */
  method Mark(g: Process, w: Word, ghost sh: Shape)
    requires g.Parsed(sh) && FieldsOk(g.mem[..], g.base, sh) && WordOk(g.base, sh, w)
    requires QueueEmpty(BitsOf(g.mem[..], sh))
    requires Closed(BitsOf(g.mem[..], sh), g.mem[..], g.base, sh, -1)
    modifies g.mem
    ensures g.Parsed(sh) && SameData(old(g.mem[..]), g.mem[..], sh)
    ensures QueueEmpty(BitsOf(g.mem[..], sh))
    ensures Closed(BitsOf(g.mem[..], sh), old(g.mem[..]), g.base, sh, -1)
    ensures forall i :: 0 <= i < sh.N() ==>
      (BitsOf(g.mem[..], sh).mk[i] <==>
       old(BitsOf(g.mem[..], sh)).mk[i] || Reach(old(g.mem[..]), g.base, sh, w, i))
  {
    ghost var m0 := g.mem[..];
    ghost var b0 := BitsOf(m0, sh);
    if !InHeap(g.base, g.current, w) {
      PointsNowhere(g.base, sh, w);
      return;
    }
    ghost var x: nat :| x < sh.N() && w == Ptr(g.base, sh.st[x]);
    var marked := IsMarked(g, w, sh, x);
    if marked {
      ReachedAreMarked(b0, m0, g.base, sh, w, x);
      return;
    }
    var tail;
    ghost var b, u;
    tail, b, u := StartQueue(g, w, sh, x);
    b := DrainQueue(g, tail, m0, w, sh, b, u, x);
  }

  /** Some of the roots have been scanned: exactly what they reach is marked. */
  ghost predicate MarkedFrom(g: Process, m0: seq<Word>, sh: Shape, ws: seq<Word>)
    reads g, g.mem
  {
    && g.Parsed(sh) && Fits(m0, sh) && SameData(m0, g.mem[..], sh) && FieldsOk(m0, g.base, sh)
    && QueueEmpty(BitsOf(g.mem[..], sh)) && Closed(BitsOf(g.mem[..], sh), m0, g.base, sh, -1)
    && forall i :: 0 <= i < sh.N() ==> (BitsOf(g.mem[..], sh).mk[i] <==> ReachAny(m0, g.base, sh, ws, i))
  }

  /** `gc_test_and_mark_root` */
  method MarkRoot(g: Process, w: Word, ghost m0: seq<Word>, ghost sh: Shape, ghost ws: seq<Word>)
    requires MarkedFrom(g, m0, sh, ws) && WordOk(g.base, sh, w)
    modifies g.mem
    ensures MarkedFrom(g, m0, sh, ws + [w])
  {
    ghost var m1 := g.mem[..];
    SameDataSym(m0, m1, sh);
    SameGraph(m0, m1, g.base, sh);
    SameGraph(m1, m0, g.base, sh);
    ClosedFrame(BitsOf(m1, sh), m0, m1, g.base, sh);
    Mark(g, w, sh);
    SameDataTrans(m0, m1, g.mem[..], sh);
    ClosedFrame(BitsOf(g.mem[..], sh), m1, m0, g.base, sh);
    forall i: nat | i < sh.N() ensures BitsOf(g.mem[..], sh).mk[i] <==> ReachAny(m0, g.base, sh, ws + [w], i) {
      ReachAnySnoc(m0, g.base, sh, ws, w, i);
    }
  }

  ghost predicate AllOk(base: nat, sh: Shape, ws: seq<Word>)
    requires sh.Valid()
  {
    forall k :: 0 <= k < |ws| ==> WordOk(base, sh, ws[k])
  }

  /** `gc_root_scan_stack` */
  method ScanStack(g: Process, ghost m0: seq<Word>, ghost sh: Shape)
    requires g.RootsInRam() && g.mem != g.ram && MarkedFrom(g, m0, sh, [])
    requires AllOk(g.base, sh, g.ram[g.top + 1..g.bottom])
    modifies g.mem
    ensures MarkedFrom(g, m0, sh, g.ram[g.top + 1..g.bottom])
  {
    ghost var ws, done, k := g.ram[g.top + 1..g.bottom], [], 0;
    var p := g.top + 1;
    while p < g.bottom
      invariant p == g.top + 1 + k <= g.bottom
      invariant done == ws[..k] && MarkedFrom(g, m0, sh, done)
    {
      var w := g.ram[p];
      assert w == ws[k] && WordOk(g.base, sh, ws[k]);
      MarkRoot(g, w, m0, sh, done);
      done := done + [w];
      k := k + 1;
      p := p + 1;
    }
    assert done == ws;
  }

  /** `scan_extra_roots` */
  method ScanExtraRoots(g: Process, ghost m0: seq<Word>, ghost sh: Shape, ghost vs: seq<Word>)
    requires g.RootsInRam() && g.mem != g.ram && MarkedFrom(g, m0, sh, vs)
    requires AllOk(g.base, sh, Gather(g.ram[..], g.extra))
    modifies g.mem
    ensures MarkedFrom(g, m0, sh, vs + Gather(g.ram[..], g.extra))
  {
    ghost var ws, done := Gather(g.ram[..], g.extra), vs;
    var k := 0;
    while k < |g.extra|
      invariant 0 <= k <= |g.extra|
      invariant done == vs + ws[..k] && MarkedFrom(g, m0, sh, done)
    {
      var w := g.ram[g.extra[k]];
      assert w == ws[k] && WordOk(g.base, sh, ws[k]);
      MarkRoot(g, w, m0, sh, done);
      done := done + [w];
      k := k + 1;
    }
    assert ws[..k] == ws;
  }

  /** `mark_phase`: after the stack and the extra roots have been scanned, an object is marked if
      and only if it is reachable from them; nothing but forward-address words has changed. */
  method MarkAll(g: Process, ghost sh: Shape)
    requires g.Parsed(sh) && g.RootsInRam() && FieldsOk(g.mem[..], g.base, sh) && g.mem != g.ram
    requires AllOk(g.base, sh, g.ram[g.top + 1..g.bottom]) && AllOk(g.base, sh, Gather(g.ram[..], g.extra))
    requires AllClear(BitsOf(g.mem[..], sh))
    modifies g.mem
    ensures MarkedFrom(g, old(g.mem[..]), sh, g.RootWords())
  {
    ghost var m0 := g.mem[..];
    NothingMarked(g, sh);
    ScanStack(g, m0, sh);
    ScanExtraRoots(g, m0, sh, g.ram[g.top + 1..g.bottom]);
  }

  lemma NothingMarked(g: Process, sh: Shape)
    requires g.Parsed(sh) && FieldsOk(g.mem[..], g.base, sh) && AllClear(BitsOf(g.mem[..], sh))
    ensures MarkedFrom(g, g.mem[..], sh, [])
  {
  }
}
