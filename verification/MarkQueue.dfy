/** The breadth-first queue of `mark`, which lives in the forward-address words of the heap: slot
    k of the queue is the forward-address word of the k-th object in address order, whether that
    object is dead or alive, while the two low bits of the same word belong to the object itself. */
module MarkQueue {
  import opened Words
  import opened Layout

  ghost predicate Distinct(q: seq<nat>) {
    forall i, j :: 0 <= i < j < |q| ==> q[i] != q[j]
  }

  /** The objects enqueued by this call to `mark`, in order, and for every object of the heap its
      place in that order (-1 when it was not enqueued). */
  datatype Queue = Queue(order: seq<nat>, place: seq<int>)

  ghost predicate Placed(u: Queue, n: nat) {
    && |u.place| == n
    && (forall k :: 0 <= k < |u.order| ==> u.order[k] < n && u.place[u.order[k]] == k)
    && (forall i :: 0 <= i < n ==> u.place[i] == -1 || (0 <= u.place[i] < |u.order| && u.order[u.place[i]] == i))
  }

  /** The first `hi` objects of the queue have been dequeued and marked, the others wait in it.
      `mk0` are the marks at the call, `b` the bits now. */
  ghost predicate QueueInv(b: Bits, mk0: seq<bool>, base: nat, sh: Shape, u: Queue, hi: nat)
    requires sh.Valid()
  {
    && b.For(sh) && |mk0| == sh.N() && hi <= |u.order| <= sh.N() && Placed(u, sh.N())
    && (forall i :: 0 <= i < sh.N() ==> b.en[i] == (hi <= u.place[i]))
    && (forall i :: 0 <= i < sh.N() ==> b.mk[i] == (mk0[i] || 0 <= u.place[i] < hi))
    && (forall i :: 0 <= i < sh.N() && mk0[i] ==> u.place[i] == -1)
    && (forall k :: hi <= k < |u.order| ==> b.fw[k] == Ptr(base, sh.st[u.order[k]]))
  }

  lemma EmptyQueue(b: Bits, base: nat, sh: Shape)
    requires sh.Valid() && b.For(sh) && forall i :: 0 <= i < sh.N() ==> !b.en[i]
    ensures QueueInv(b, b.mk, base, sh, Queue([], seq(sh.N(), i => -1)), 0)
  {
  }

  function Append(u: Queue, x: nat): Queue
    requires x < |u.place|
  {
    Queue(u.order + [x], u.place[x := |u.order|])
  }

  lemma {:induction false} Pigeonhole(q: seq<nat>, n: nat)
    requires Distinct(q) && forall k :: 0 <= k < |q| ==> q[k] < n
    ensures |q| <= n
    decreases n
  {
    if |q| == 0 {
    } else if n > 0 && exists k :: 0 <= k < |q| && q[k] == n - 1 {
      var k :| 0 <= k < |q| && q[k] == n - 1;
      Pigeonhole(q[..k] + q[k + 1..], n - 1);
    } else {
      assert q[0] < n;
      Pigeonhole(q, n - 1);
    }
  }

  /** What each update of a forward-address word keeps. */
  lemma WithForwardKeepsBits(f: Word, addr: Word)
    requires addr % 4 == 0
    ensures var g := WithForward(f, addr); Marked(g) == Marked(f) && Enqueued(g) == Enqueued(f) && Forward(g) == addr
  {
  }

  lemma MarkBitSet(f: Word)
    ensures var g := WithMark(f); Marked(g) && Enqueued(g) == Enqueued(f) && Forward(g) == Forward(f)
  {
  }

  lemma EnqueuedBitAlone(f: Word)
    ensures var g := WithEnqueued(f); Enqueued(g) && Marked(g) == Marked(f) && Forward(g) == Forward(f)
    ensures var g := WithoutEnqueued(f); !Enqueued(g) && Marked(g) == Marked(f) && Forward(g) == Forward(f)
  {
  }

  /** The effect of `queue_enqueue` of object x at queue slot `slot`. */
  function Enqueuing(b: Bits, slot: nat, addr: Word, x: nat): Bits
    requires slot < |b.fw| && x < |b.en|
  {
    b.(en := b.en[x := true], fw := b.fw[slot := addr])
  }

  /** The effect of `queue_dequeue` and `mark_object` on object x. */
  function DequeuingAndMarking(b: Bits, x: nat): Bits
    requires x < |b.mk| && x < |b.en|
  {
    b.(mk := b.mk[x := true], en := b.en[x := false])
  }

  /** An object that is neither marked nor waiting was never enqueued in this call, so the queue
      still has a free slot below `heap.current`. */
  lemma RoomInQueue(b: Bits, mk0: seq<bool>, base: nat, sh: Shape, u: Queue, hi: nat, x: nat)
    requires sh.Valid() && QueueInv(b, mk0, base, sh, u, hi)
    requires x < sh.N() && !b.mk[x] && !b.en[x]
    ensures |u.order| < sh.N() && u.place[x] == -1
  {
    Pigeonhole(u.order + [x], sh.N());
  }

  /** `queue_enqueue` keeps the queue: no waiting entry is overwritten. */
  lemma EnqueueKeeps(b: Bits, mk0: seq<bool>, base: nat, sh: Shape, u: Queue, hi: nat, x: nat)
    requires sh.Valid() && QueueInv(b, mk0, base, sh, u, hi)
    requires x < sh.N() && !b.mk[x] && !b.en[x]
    requires Ptr(base, sh.st[x]) < 0x1_0000_0000
    ensures |u.order| < sh.N()
    ensures QueueInv(Enqueuing(b, |u.order|, Ptr(base, sh.st[x]), x), mk0, base, sh, Append(u, x), hi)
  {
    RoomInQueue(b, mk0, base, sh, u, hi, x);
  }

  lemma DequeueKeeps(b: Bits, mk0: seq<bool>, base: nat, sh: Shape, u: Queue, hi: nat)
    requires sh.Valid() && QueueInv(b, mk0, base, sh, u, hi) && hi < |u.order|
    ensures u.order[hi] < sh.N() && b.fw[hi] == Ptr(base, sh.st[u.order[hi]])
    ensures QueueInv(DequeuingAndMarking(b, u.order[hi]), mk0, base, sh, u, hi + 1)
  {
  }

  // ----- closure of the marked set --------------------------------------------------

  /** Object j has been met in this or an earlier call. */
  predicate Met(b: Bits, j: nat)
    requires j < |b.mk| == |b.en|
  {
    b.mk[j] || b.en[j]
  }

  /** From b to c no mark is lost and no object met is forgotten. */
  ghost predicate Grows(b: Bits, c: Bits, sh: Shape)
    requires b.For(sh) && c.For(sh)
  {
    forall i :: 0 <= i < sh.N() ==> (b.mk[i] ==> c.mk[i]) && (Met(b, i) ==> Met(c, i))
  }

  /** The fields of object i before offset c lead to objects already met. */
  ghost predicate Scanned(b: Bits, m: seq<Word>, base: nat, sh: Shape, i: nat, c: nat)
    requires sh.Valid() && Fits(m, sh) && b.For(sh)
  {
    forall a: nat, j: nat ::
      IsField(sh, i, a) && a < c && a < |m| && j < sh.N() && m[a] == Ptr(base, sh.st[j]) ==> Met(b, j)
  }

  /** Every marked object other than `skip` leads only to objects already met. */
  ghost predicate Closed(b: Bits, m: seq<Word>, base: nat, sh: Shape, skip: int)
    requires sh.Valid() && Fits(m, sh) && b.For(sh)
  {
    forall i :: 0 <= i < sh.N() && i != skip && b.mk[i] ==> Scanned(b, m, base, sh, i, |m|)
  }

  /** Meeting more objects keeps the closure of those scanned before. */
  lemma ClosedGrows(b: Bits, c: Bits, m: seq<Word>, base: nat, sh: Shape, skip: int, skip': int)
    requires sh.Valid() && Fits(m, sh) && b.For(sh) && c.For(sh)
    requires Closed(b, m, base, sh, skip) && Grows(b, c, sh)
    requires forall i :: 0 <= i < sh.N() && i != skip' && c.mk[i] ==> i != skip && b.mk[i]
    ensures Closed(c, m, base, sh, skip')
  {
    forall i | 0 <= i < sh.N() && i != skip' && c.mk[i] ensures Scanned(c, m, base, sh, i, |m|) {
      assert Scanned(b, m, base, sh, i, |m|);
    }
  }

  /** Once dequeued, object x is the only marked object whose fields may lead to objects not met. */
  lemma DequeueCloses(b: Bits, m: seq<Word>, base: nat, sh: Shape, x: nat)
    requires sh.Valid() && Fits(m, sh) && b.For(sh) && x < sh.N() && Closed(b, m, base, sh, -1)
    ensures Closed(DequeuingAndMarking(b, x), m, base, sh, x)
  {
    ClosedGrows(b, DequeuingAndMarking(b, x), m, base, sh, -1, x);
  }

  /** The same when no object is marked. */
  lemma ClosedStays(b: Bits, c: Bits, m: seq<Word>, base: nat, sh: Shape, skip: int)
    requires sh.Valid() && Fits(m, sh) && b.For(sh) && c.For(sh)
    requires Closed(b, m, base, sh, skip) && Grows(b, c, sh) && c.mk == b.mk
    ensures Closed(c, m, base, sh, skip)
  {
    ClosedGrows(b, c, m, base, sh, skip, skip);
  }

  /** Whatever the word v points to has been met. */
  ghost predicate TargetMet(b: Bits, base: nat, sh: Shape, v: Word)
    requires sh.Valid() && b.For(sh)
  {
    forall j :: 0 <= j < sh.N() && v == Ptr(base, sh.st[j]) ==> Met(b, j)
  }

  lemma ScannedNext(b: Bits, c: Bits, m: seq<Word>, base: nat, sh: Shape, x: nat, a: nat)
    requires sh.Valid() && Fits(m, sh) && b.For(sh) && c.For(sh) && x < sh.N() && a < |m|
    requires Scanned(b, m, base, sh, x, a) && Grows(b, c, sh)
    requires TargetMet(c, base, sh, m[a])
    ensures Scanned(c, m, base, sh, x, a + 1)
  {
  }

  lemma ScannedAll(b: Bits, m: seq<Word>, base: nat, sh: Shape, x: nat, a: nat)
    requires sh.Valid() && Fits(m, sh) && b.For(sh) && x < sh.N() && sh.st[x + 1] <= a
    requires Closed(b, m, base, sh, x) && Scanned(b, m, base, sh, x, a)
    ensures Closed(b, m, base, sh, -1)
  {
  }

  // ----- a marked set closed under edges contains all that it reaches -----------------

  ghost predicate QueueEmpty(b: Bits) { forall k :: 0 <= k < |b.en| ==> !b.en[k] }

  lemma ReachedAreMarked(b: Bits, m: seq<Word>, base: nat, sh: Shape, w: Word, x: nat)
    requires sh.Valid() && Fits(m, sh) && b.For(sh) && x < sh.N() && w == Ptr(base, sh.st[x])
    requires Closed(b, m, base, sh, -1) && QueueEmpty(b) && b.mk[x]
    ensures forall i :: 0 <= i < sh.N() && Reach(m, base, sh, w, i) ==> b.mk[i]
  {
    forall i | 0 <= i < sh.N() && Reach(m, base, sh, w, i) ensures b.mk[i] {
      var p :| Path(m, base, sh, p) && w == Ptr(base, sh.st[p[0]]) && p[|p| - 1] == i;
      PtrUnique(base, sh, x, p[0]);
      var s := set k | 0 <= k < sh.N() && b.mk[k];
      forall k, j | k in s && Edge(m, base, sh, k, j) ensures j in s {
        assert Scanned(b, m, base, sh, k, |m|);
      }
      ClosedUnderPath(m, base, sh, s, p);
    }
  }

  /** Everything enqueued so far can be reached from the argument of `mark`. */
  ghost predicate AllReached(m0: seq<Word>, base: nat, sh: Shape, w: Word, q: seq<nat>)
    requires sh.Valid() && Fits(m0, sh)
  {
    forall k :: 0 <= k < |q| ==> Reach(m0, base, sh, w, q[k])
  }

  /** When the queue has run empty, exactly the objects reachable from w have gained a mark. */
  lemma QueueDone(b: Bits, mk0: seq<bool>, m: seq<Word>, base: nat, sh: Shape, w: Word, x: nat, u: Queue)
    requires sh.Valid() && Fits(m, sh) && QueueInv(b, mk0, base, sh, u, |u.order|) && Closed(b, m, base, sh, -1)
    requires AllReached(m, base, sh, w, u.order)
    requires x < sh.N() && w == Ptr(base, sh.st[x]) && u.place[x] == 0
    ensures QueueEmpty(b)
    ensures forall i :: 0 <= i < sh.N() ==> (b.mk[i] <==> mk0[i] || Reach(m, base, sh, w, i))
  {
    ReachedAreMarked(b, m, base, sh, w, x);
  }

  /** The queue that `mark` starts with, holding object x alone. */
  function StartOf(n: nat, x: nat): Queue
    requires x < n
  {
    Append(Queue([], seq(n, i => -1)), x)
  }

  lemma StartKeeps(b: Bits, m: seq<Word>, base: nat, sh: Shape, w: Word, x: nat)
    requires sh.Valid() && Fits(m, sh) && b.For(sh) && QueueEmpty(b) && Closed(b, m, base, sh, -1)
    requires x < sh.N() && !b.mk[x] && w == Ptr(base, sh.st[x])
    ensures var u, c := StartOf(sh.N(), x), Enqueuing(b, 0, w, x);
            && u.order == [x] && QueueInv(c, b.mk, base, sh, u, 0) && Closed(c, m, base, sh, -1)
            && AllReached(m, base, sh, w, u.order)
  {
    EmptyQueue(b, base, sh);
    EnqueueKeeps(b, b.mk, base, sh, Queue([], seq(sh.N(), i => -1)), 0, x);
    ReachStart(m, base, sh, w, x);
    ClosedGrows(b, Enqueuing(b, 0, w, x), m, base, sh, -1, -1);
  }

  lemma ClosedFrame(b: Bits, m: seq<Word>, m': seq<Word>, base: nat, sh: Shape)
    requires sh.Valid() && Fits(m, sh) && Fits(m', sh) && SameData(m, m', sh) && b.For(sh)
    requires Closed(b, m, base, sh, -1)
    ensures Closed(b, m', base, sh, -1)
  {
    forall i | 0 <= i < sh.N() && b.mk[i] ensures Scanned(b, m', base, sh, i, |m|) {
      assert Scanned(b, m, base, sh, i, |m|);
      forall a: nat | IsField(sh, i, a) && a < |m| ensures m'[a] == m[a] {
        FieldInside(sh, i, a);
      }
    }
  }
}
