/** The global state of src/runtime/gc.c and the accessors of its "Utility functions" section. */
module ProcessState {
  import opened Words
  import opened Layout
  import opened MarkQueue
  import opened Abstraction
  import opened Options

  /** What mremap answers: the address of the heap, the same or another, or MAP_FAILED. */
  datatype Mremap = Mapped(address: nat) | Failed

  /** `heap` is [base, base + 4 * mem.Length), bump-allocated up to `current` (a word offset).
      `ram` is the memory of the C stack: the operand stack is the part of it strictly above
      `top` (`__gc_stack_top`) and below `bottom` (`__gc_stack_bottom`), and the slots of
      `extra` (`extra_roots`) are elsewhere in it. */
  class Process {
    var base: nat
    var mem: array<Word>
    var current: nat
    var ram: array<Word>
    var top: nat
    var bottom: nat
    var extra: seq<nat>
    /** Even words a program may hold that are not heap pointers: addresses of code, of the C stack
        and of static data, and 0.  The system never maps the heap over any of them. */
    const outside: Word -> bool
    /** Where the operand array of the interpreter begins, and where its global area ends and the
        operands begin (`data.data()` and `stack_begin`). */
    const floor: nat
    const stackBegin: nat
    /** The slot of the C stack, below the operand array, that holds the parameter of `Bstring`. */
    const local: nat
    /** What the system answers to the k-th call of mremap, and the number of calls so far. */
    const answers: nat -> Mremap
    var calls: nat
    /** Ghost record of the heap: its shape, the identities of its objects in address order, and
        every object ever allocated, indexed by identity, as the program sees it. */
    ghost var sh: Shape
    ghost var ids: seq<nat>
    ghost var store: seq<Obj>

    /** The heap starts with objects that have the starts and headers of `sh`. */
    ghost predicate Laid(sh: Shape)
      reads `base, `mem, mem
    {
      && sh.Valid() && Fits(mem[..], sh)
      && base % 4 == 0 && 0 < base && base + 4 * mem.Length < 0x1_0000_0000
    }

    /** The heap is tiled by them: they end at `heap.current`. */
    ghost predicate Parsed(sh: Shape)
      reads `base, `mem, `current, mem
    {
      Laid(sh) && sh.End() == current
    }

    ghost predicate RootsInRam()
      reads `ram, `top, `bottom, `extra
    {
      top < bottom < ram.Length && InRange(extra, ram.Length)
    }

    /** The words that `mark_phase` starts from: the operand stack and the registered extra roots. */
    ghost function RootWords(): seq<Word>
      requires RootsInRam()
      reads `ram, `top, `bottom, `extra, ram
    {
      ram[top + 1..bottom] + Gather(ram[..], extra)
    }

    constructor (b: nat, h: array<Word>, r: array<Word>, slot: nat, lo: nat, t: nat, bot: nat, out: Word -> bool,
                 ans: nat -> Mremap)
      ensures base == b && mem == h && current == 0 && ram == r && top == t && bottom == bot && extra == []
      ensures local == slot && floor == lo && stackBegin == t && outside == out && answers == ans && calls == 0
      ensures sh == Shape([0], [], [], [], []) && ids == [] && store == []
    {
      base, mem, current, ram, top, bottom, extra, outside := b, h, 0, r, t, bot, [], out;
      local, floor, stackBegin, answers, calls := slot, lo, t, ans, 0;
      sh, ids, store := Shape([0], [], [], [], []), [], [];
    }
  }

  /** A place where the system may put a heap of n words. */
  predicate Mappable(base: nat, n: nat, outside: Word -> bool) {
    && base % 4 == 0 && 0 < base && base + 4 * n < 0x1_0000_0000
    && forall w: Word {:trigger outside(w)} :: base <= w <= base + 4 * n && !Unboxed(w) ==> !outside(w)
  }

  ghost predicate InRange(e: seq<nat>, n: nat) { forall k :: 0 <= k < |e| ==> e[k] < n }

  /** The words of r in the slots e. */
  ghost function Gather(r: seq<Word>, e: seq<nat>): (ws: seq<Word>)
    requires InRange(e, |r|)
    ensures |ws| == |e| && forall k :: 0 <= k < |e| ==> ws[k] == r[e[k]]
  {
    seq(|e|, k requires 0 <= k < |e| => r[e[k]])
  }

  /** Offset of the header of the object with content address w: `TO_DATA`, `get_obj_header_ptr`. */
  function HeaderAt(base: nat, w: Word): int { (w - base) / 4 - HEADER_WORDS }

  lemma HeaderAtPtr(base: nat, off: nat, w: Word)
    requires w == Ptr(base, off)
    ensures HeaderAt(base, w) == off
  {
  }

  /** The forward-address word of the object with content address w. */
  function ForwardWord(g: Process, w: Word, ghost sh: Shape, ghost i: nat): (f: Word)
    requires g.Parsed(sh) && i < sh.N() && w == Ptr(g.base, sh.st[i])
    reads g, g.mem
    ensures var b := BitsOf(g.mem[..], sh); b.mk[i] == Marked(f) && b.en[i] == Enqueued(f) && b.fw[i] == Forward(f)
  {
    BitsAt(g.mem[..], sh, sh.N(), i);
    g.mem[HeaderAt(g.base, w) + 1]
  }

  /** `is_marked` */
  method IsMarked(g: Process, obj: Word, ghost sh: Shape, ghost i: nat) returns (r: bool)
    requires g.Parsed(sh) && i < sh.N() && obj == Ptr(g.base, sh.st[i])
    ensures r == BitsOf(g.mem[..], sh).mk[i]
  {
    r := Marked(ForwardWord(g, obj, sh, i));
  }

  /** `is_enqueued` */
  method IsEnqueued(g: Process, obj: Word, ghost sh: Shape, ghost i: nat) returns (r: bool)
    requires g.Parsed(sh) && i < sh.N() && obj == Ptr(g.base, sh.st[i])
    ensures r == BitsOf(g.mem[..], sh).en[i]
  {
    r := Enqueued(ForwardWord(g, obj, sh, i));
  }

  /** `get_forward_address` */
  method GetForwardAddress(g: Process, obj: Word, ghost sh: Shape, ghost i: nat) returns (r: Word)
    requires g.Parsed(sh) && i < sh.N() && obj == Ptr(g.base, sh.st[i])
    ensures r == BitsOf(g.mem[..], sh).fw[i]
  {
    r := Forward(ForwardWord(g, obj, sh, i));
  }

  method WriteForwardWord(g: Process, w: Word, f: Word, ghost sh: Shape, ghost i: nat)
    requires g.Parsed(sh) && i < sh.N() && w == Ptr(g.base, sh.st[i])
    modifies g.mem
    ensures g.Parsed(sh) && SameData(old(g.mem[..]), g.mem[..], sh)
    ensures var b := old(BitsOf(g.mem[..], sh));
            BitsOf(g.mem[..], sh) == Bits(b.mk[i := Marked(f)], b.en[i := Enqueued(f)], b.fw[i := Forward(f)])
  {
    WriteBits(g.mem[..], sh, i, f);
    ghost var m0 := g.mem[..];
    g.mem[HeaderAt(g.base, w) + 1] := f;
    assert g.mem[..] == m0[sh.st[i] + 1 := f];
  }

  /** `set_forward_address` */
  method SetForwardAddress(g: Process, obj: Word, addr: Word, ghost sh: Shape, ghost i: nat)
    requires g.Parsed(sh) && i < sh.N() && obj == Ptr(g.base, sh.st[i]) && addr % 4 == 0
    modifies g.mem
    ensures g.Parsed(sh) && SameData(old(g.mem[..]), g.mem[..], sh)
    ensures var b := old(BitsOf(g.mem[..], sh)); BitsOf(g.mem[..], sh) == b.(fw := b.fw[i := addr])
  {
    var f := ForwardWord(g, obj, sh, i);
    WithForwardKeepsBits(f, addr);
    WriteForwardWord(g, obj, WithForward(f, addr), sh, i);
  }

  /** `mark_object` */
  method MarkObject(g: Process, obj: Word, ghost sh: Shape, ghost i: nat)
    requires g.Parsed(sh) && i < sh.N() && obj == Ptr(g.base, sh.st[i])
    modifies g.mem
    ensures g.Parsed(sh) && SameData(old(g.mem[..]), g.mem[..], sh)
    ensures var b := old(BitsOf(g.mem[..], sh)); BitsOf(g.mem[..], sh) == b.(mk := b.mk[i := true])
  {
    var f := ForwardWord(g, obj, sh, i);
    MarkBitSet(f);
    WriteForwardWord(g, obj, WithMark(f), sh, i);
  }

  /** `make_enqueued` and `make_dequeued` */
  method SetEnqueued(g: Process, obj: Word, on: bool, ghost sh: Shape, ghost i: nat)
    requires g.Parsed(sh) && i < sh.N() && obj == Ptr(g.base, sh.st[i])
    modifies g.mem
    ensures g.Parsed(sh) && SameData(old(g.mem[..]), g.mem[..], sh)
    ensures var b := old(BitsOf(g.mem[..], sh)); BitsOf(g.mem[..], sh) == b.(en := b.en[i := on])
  {
    var f := ForwardWord(g, obj, sh, i);
    EnqueuedBitAlone(f);
    WriteForwardWord(g, obj, if on then WithEnqueued(f) else WithoutEnqueued(f), sh, i);
  }

  /** `heap_next_obj_iterator` */
  method NextObject(g: Process, it: nat, ghost sh: Shape, ghost i: nat) returns (next: nat)
    requires g.Parsed(sh) && i < sh.N() && it == sh.st[i]
    ensures next == sh.st[i + 1]
  {
    assert sh.Tile(i);
    next := it + ObjWords(g.mem[it]);
  }

  /** `ptr_field_begin_iterator` and `obj_next_ptr_field_iterator`: the first offset from c on that
      is past the object or holds an even word. */
  method SkipUnboxed(g: Process, c: nat, end: nat) returns (r: nat)
    requires c < end ==> end <= g.mem.Length
    ensures c <= r && (c <= end ==> r <= end) && (end < c ==> r == c) && (r < end ==> !Unboxed(g.mem[r]))
    ensures forall a :: c <= a < r && a < end ==> Unboxed(g.mem[a])
  {
    r := c;
    while r < end && Unboxed(g.mem[r])
      invariant c <= r && (c <= end ==> r <= end) && (end < c ==> r == c)
      invariant forall a :: c <= a < r && a < end ==> Unboxed(g.mem[a])
    {
      r := r + 1;
    }
  }
}
