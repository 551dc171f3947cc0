/** The frames that calls leave on the operand stack of src/executing-visitor.h. */
module Frames {
  import opened Words

  const N_GLOBAL := 1000

  /** Where things are: `data.data()` is at dataBase, `stack_begin` is data[begin], the code is at
      codeBase; `outside` are the even words that no collection changes, `heap` the words that the heap may
      occupy, and recorded(e) is the maximum in the BEGIN of the function at e. */
  datatype Place = Place(begin: int, size: int, dataBase: int, codeBase: int, codeSize: int, outside: Word -> bool,
                         heap: Word -> bool, recorded: int -> nat) {

    ghost predicate Valid() {
      && 0 < begin && begin + N_GLOBAL <= size
      && 0 <= dataBase && dataBase + 4 * (size + 3) < 0x1_0000_0000 && dataBase % 4 == 0
      && 0 <= codeBase && codeBase + codeSize < 0x1_0000_0000 && 0 <= codeSize
      && (forall i {:trigger Address(i)} :: 0 <= i < size ==> outside(Address(i)))
      && (forall ip {:trigger CodeAddress(ip)} :: 0 <= ip <= codeSize ==> Stable(CodeAddress(ip)))
      && HeapElsewhere()
    }

    /** The heap holds neither the array nor the fields of the visitor around it (`bf` and `in_closure` in front,
        `stack_begin`, `base_pointer` and `n_args` behind), nor code. */
    ghost predicate HeapElsewhere() {
      && (forall i {:trigger heap(Address(i))} :: -3 <= i < size + 3 ==> !heap(Address(i)))
      && (forall ip {:trigger heap(CodeWord(ip))} :: 0 <= ip < codeSize ==> !heap(CodeWord(ip)))
    }

    /** The word that holds the byte of the code at ip. */
    function CodeWord(ip: int): Word { CodeAddress(ip) - CodeAddress(ip) % 4 }

    function Address(i: int): Word { (dataBase + 4 * i) % 0x1_0000_0000 }

    function IndexOf(w: Word): int { (w - dataBase) / 4 }

    function CodeAddress(ip: int): Word { (codeBase + ip) % 0x1_0000_0000 }

    function Offset(w: Word): int { w - codeBase }

    /** A word that a collection leaves alone: a boxed integer, or an address outside the heap. */
    predicate Stable(w: Word) { Unboxed(w) || outside(w) }

    lemma AddressIndex(i: int)
      requires Valid() && 0 <= i < size
      ensures IndexOf(Address(i)) == i && Stable(Address(i))
    {
      assert 0 <= dataBase + 4 * i < 0x1_0000_0000;
    }

    lemma CodeOffset(ip: int)
      requires Valid() && 0 <= ip <= codeSize
      ensures Offset(CodeAddress(ip)) == ip && Stable(CodeAddress(ip))
    {
    }
  }

  /** An activation: the function at `begin` with its base pointer; the address to return to, the
      depth of the caller's operand stack after the return, and all words as they were at the call. */
  datatype Frame = Frame(begin: int, bp: int, nArgs: int, nLocals: int, ret: int, resume: int, saved: seq<Word>) {

    /** The operands are below this slot. */
    function Limit(): int { bp - 1 - nLocals }

    /** The slot of the last argument but i, and of local variable i. */
    function ArgSlot(i: int): int { bp + 2 + nArgs - i }

    function LocalSlot(i: int): int { bp - 1 - i }

    /** The first slot above the arguments. */
    function Top(): int { bp + 3 + nArgs }
  }

  /** Frame k lies below frame k - 1, and its three control words lead back there. */
  ghost predicate Linked(p: Place, fs: seq<Frame>, k: nat, d: seq<Word>)
    requires 0 < k < |fs| && |d| == p.size
  {
    var f, c := fs[k], fs[k - 1];
    && 0 <= f.bp && f.bp + 2 < p.size && f.Top() + f.resume - 1 == c.Limit() && 1 <= f.resume && c.bp < p.begin
    && d[f.bp] == p.Address(c.bp) && d[f.bp + 1] == Box(c.nArgs) && d[f.bp + 2] == p.CodeAddress(f.ret)
    && 0 <= f.ret <= p.codeSize
  }

  /** Since frame k was entered, nothing above its arguments has changed, except by collections. */
  ghost predicate Intact(p: Place, f: Frame, d: seq<Word>)
    requires |d| == p.size
  {
    && |f.saved| == p.size && 0 <= f.Top() && p.begin < p.size
    && forall i :: f.Top() <= i <= p.begin && p.Stable(f.saved[i]) ==> d[i] == f.saved[i]
  }

  ghost predicate Sized(f: Frame) { 0 <= f.nArgs < 0x1_0000 && 0 <= f.nLocals && 0 <= f.bp }

  ghost predicate Chain(p: Place, fs: seq<Frame>, d: seq<Word>) {
    && p.Valid() && |d| == p.size && |fs| > 0 && fs[0].bp == p.begin - 1
    && (forall k {:trigger fs[k]} :: 0 <= k < |fs| ==> Sized(fs[k]))
    && (forall k: nat {:trigger Linked(p, fs, k, d)} :: 0 < k < |fs| ==> Linked(p, fs, k, d))
    && (forall k: nat {:trigger Intact(p, fs[k], d)} :: 0 < k < |fs| ==> Intact(p, fs[k], d))
  }

  /** Later frames lie lower. */
  lemma {:induction false} Lower(p: Place, fs: seq<Frame>, d: seq<Word>, k: nat, j: nat)
    requires Chain(p, fs, d) && k < j < |fs|
    ensures fs[j].Top() <= fs[k].Limit() && fs[j].bp + 4 <= fs[k].bp <= p.begin - 1
    decreases j
  {
    assert Linked(p, fs, j, d);
    if k < j - 1 {
      Lower(p, fs, d, k, j - 1);
    } else if k > 0 {
      Lower(p, fs, d, 0, k);
    }
  }

  /** The slots that the current function may write: operands and local variables, its own
      arguments, and the global area. */
  ghost predicate Own(p: Place, fs: seq<Frame>, i: int)
    requires |fs| > 0
  {
    var f := fs[|fs| - 1];
    0 <= i < p.size && (i < f.bp || (|fs| > 1 && f.bp + 3 <= i < f.Top()) || p.begin < i)
  }

  /** Writing there harms no frame. */
  lemma OwnWrite(p: Place, fs: seq<Frame>, d: seq<Word>, i: int, w: Word)
    requires Chain(p, fs, d) && Own(p, fs, i)
    ensures Chain(p, fs, d[i := w])
  {
    var e, last := d[i := w], |fs| - 1;
    forall k: nat | 0 < k < |fs| ensures Linked(p, fs, k, e) && Intact(p, fs[k], e) {
      assert Linked(p, fs, k, d) && Intact(p, fs[k], d);
      Lower(p, fs, d, k - 1, k);
      if k < last {
        Lower(p, fs, d, k, last);
      }
    }
  }

  /** A collection changes only words that are not stable. */
  predicate Collected(p: Place, d: seq<Word>, e: seq<Word>) {
    |e| == |d| && forall i :: 0 <= i < |d| && p.Stable(d[i]) ==> e[i] == d[i]
  }

  /** A collection harms no frame. */
  lemma CollectedChain(p: Place, fs: seq<Frame>, d: seq<Word>, e: seq<Word>)
    requires Chain(p, fs, d) && Collected(p, d, e)
    ensures Chain(p, fs, e)
  {
    forall k: nat | 0 < k < |fs| ensures Linked(p, fs, k, e) && Intact(p, fs[k], e) {
      assert Linked(p, fs, k, d) && Intact(p, fs[k], d);
      Lower(p, fs, d, k - 1, k);
      var f, c := fs[k], fs[k - 1];
      p.AddressIndex(c.bp);
      p.CodeOffset(f.ret);
      BoxIsUnboxed(c.nArgs);
    }
  }

  // ----- call and return -------------------------------------------------------------------

  /** What CALL and BEGIN have written: the control words of f, and anything below them. */
  ghost predicate Opened(p: Place, c: Frame, f: Frame, d: seq<Word>, e: seq<Word>) {
    && |d| == |e| == p.size && Sized(f) && f.bp + 2 < p.size
    && (forall i :: f.bp + 2 < i < p.size ==> e[i] == d[i])
    && e[f.bp] == p.Address(c.bp) && e[f.bp + 1] == Box(c.nArgs) && e[f.bp + 2] == p.CodeAddress(f.ret)
    && f.Top() + f.resume - 1 == c.Limit() && 1 <= f.resume && 0 <= f.ret <= p.codeSize && f.saved == d
  }

  /** The frames that were there lie above what has been written. */
  lemma CallKeeps(p: Place, fs: seq<Frame>, d: seq<Word>, e: seq<Word>, f: Frame, k: nat)
    requires Chain(p, fs, d) && Opened(p, fs[|fs| - 1], f, d, e) && 0 < k < |fs|
    ensures Linked(p, fs + [f], k, e) && Intact(p, fs[k], e)
  {
    assert Linked(p, fs, k, d) && Intact(p, fs[k], d);
    if k < |fs| - 1 {
      Lower(p, fs, d, k, |fs| - 1);
    }
  }

  lemma CallLinks(p: Place, fs: seq<Frame>, d: seq<Word>, e: seq<Word>, f: Frame)
    requires Chain(p, fs, d) && Opened(p, fs[|fs| - 1], f, d, e)
    ensures Linked(p, fs + [f], |fs|, e) && Intact(p, f, e)
  {
    if |fs| > 1 {
      Lower(p, fs, d, 0, |fs| - 1);
    }
  }

  /** A call adds a frame. */
  lemma CallAdds(p: Place, fs: seq<Frame>, d: seq<Word>, e: seq<Word>, f: Frame)
    requires Chain(p, fs, d) && Opened(p, fs[|fs| - 1], f, d, e)
    ensures Chain(p, fs + [f], e)
  {
    var gs := fs + [f];
    forall k: nat | 0 < k < |gs| ensures Linked(p, gs, k, e) && Intact(p, gs[k], e) {
      if k < |fs| {
        CallKeeps(p, fs, d, e, f, k);
      } else {
        CallLinks(p, fs, d, e, f);
      }
    }
  }

  /** The frames of the callers do not depend on the frame on top. */
  lemma {:induction false} CallersKept(p: Place, fs: seq<Frame>, d: seq<Word>)
    requires Chain(p, fs, d) && |fs| > 1
    ensures Chain(p, fs[..|fs| - 1], d)
  {
    var gs := fs[..|fs| - 1];
    forall k: nat | 0 < k < |gs| ensures Linked(p, gs, k, d) && Intact(p, gs[k], d) {
      assert Linked(p, fs, k, d) && Intact(p, fs[k], d);
    }
  }

  /** A return removes the frame, takes the arguments off the stack and puts the result in the place
      of the first; everything above is as it was at the call. */
  lemma ReturnRemoves(p: Place, fs: seq<Frame>, d: seq<Word>, result: Word)
    requires Chain(p, fs, d) && |fs| > 1
    ensures var f, c := fs[|fs| - 1], fs[|fs| - 2];
            && 0 <= f.Top() - 1 < p.size && Chain(p, fs[..|fs| - 1], d[f.Top() - 1 := result])
            && Intact(p, f, d[f.Top() - 1 := result])
            && p.IndexOf(d[f.bp]) == c.bp && Unbox(d[f.bp + 1]) == c.nArgs && p.Offset(d[f.bp + 2]) == f.ret
            && c.Limit() - 1 - (f.Top() - 2) == f.resume
  {
    var n := |fs|;
    var f, c := fs[n - 1], fs[n - 2];
    assert Linked(p, fs, n - 1, d) && Intact(p, f, d);
    Lower(p, fs, d, n - 2, n - 1);
    CallersKept(p, fs, d);
    OwnWrite(p, fs[..n - 1], d, f.Top() - 1, result);
    p.AddressIndex(c.bp);
    p.CodeOffset(f.ret);
    UnboxBox(c.nArgs);
  }

  // ----- variables -------------------------------------------------------------------------

  /** The slots of the arguments and local variables of a called function lie in its own frame: they
      are the operands that the caller pushed, the first argument first, and the words between its
      base pointer and its operands. */
  lemma OwnFrame(p: Place, fs: seq<Frame>, d: seq<Word>, i: int)
    requires Chain(p, fs, d)
    ensures var f := fs[|fs| - 1];
            && (0 <= i < f.nLocals && f.Limit() >= 0 ==>
                  Own(p, fs, f.LocalSlot(i)) && f.Limit() < f.LocalSlot(i) < f.bp)
            && (|fs| > 1 && 0 <= i < f.nArgs ==>
                  && Own(p, fs, f.ArgSlot(i)) && f.bp + 3 <= f.ArgSlot(i) < f.Top()
                  && f.ArgSlot(i) == fs[|fs| - 2].Limit() - 1 - (f.resume - 1 + i))
  {
    var n := |fs|;
    var f := fs[n - 1];
    if n > 1 {
      assert Linked(p, fs, n - 1, d);
      Lower(p, fs, d, n - 2, n - 1);
      Lower(p, fs, d, 0, n - 1);
    }
  }
}
