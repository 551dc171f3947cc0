/** `CheckingExecutingVisitor<false>`: the interpreter without its checks, run on verified code. */
module Interpreter {
  import opened Words
  import opened Bytecode
  import opened DepthTable
  import opened DepthPaths
  import opened BeginPatch
  import opened Frames
  import opened DirectCalls
  import opened Effects
  import opened Runs

  /** The members of the visitor that executing code touches.  `data` is the operand array; a pointer
      into it is an index, and `top` is -1 when all of it is in use.  There is no closure call, so
      `in_closure` stays false. */
  class Vm {
    const p: Place
    const code: seq<Byte>
    const data: array<Word>
    var top: int
    var bp: int
    var nArgs: int

    constructor (place: Place, code0: seq<Byte>, cells: array<Word>)
      ensures p == place && code == code0 && data == cells && top == place.begin && bp == place.begin && nArgs == 2
    {
      p, code, data, top, bp, nArgs := place, code0, cells, place.begin, place.begin, 2;
    }

    /** `push` without its check: it fails when there is no room left in the array. */
    method Push(w: Word) returns (ok: bool)
      requires top < data.Length
      modifies `top, data
      ensures ok <==> 0 <= old(top)
      ensures ok ==> top == old(top) - 1 && data[..] == old(data[..])[old(top) := w]
      ensures !ok ==> top == old(top) && data[..] == old(data[..])
    {
      ok := 0 <= top;
      if ok {
        data[top] := w;
        top := top - 1;
      }
    }

    /** `pop` without its check: that the stack is not empty must be known. */
    method Pop() returns (w: Word)
      requires top != p.begin && -1 <= top < data.Length - 1
      modifies `top
      ensures top == old(top) + 1 && w == data[top]
    {
      top := top + 1;
      w := data[top];
    }

    /** The stores of `visit_begin`; the word below the base pointer, local variable 0, is not zeroed. */
    method OpenFrame(args: int, nLocals: nat)
      requires nLocals + 4 <= top < data.Length
      modifies this, data
      ensures bp == old(top) - 1 && nArgs == args && top == old(top) - 3 - nLocals
      ensures FrameOpened(p, old(data[..]), data[..], old(top), nLocals, old(nArgs), old(bp))
    {
      var _ := Push(Box(nArgs));
      var _ := Push(p.Address(bp));
      nArgs, bp, top := args, top + 1, top - (nLocals + 1);
      forall i | top <= i < top + nLocals + 1 {
        data[i] := 0;
      }
    }

    /** The loads and stores of `visit_end_ret` in a called function. */
    method CloseFrame() returns (ip: int)
      requires -1 <= top < p.begin < data.Length && 0 <= bp && bp + 2 < p.begin && 0 <= nArgs
      requires bp + 2 + nArgs < data.Length
      modifies this, data
      ensures bp == p.IndexOf(old(data[bp])) && nArgs == Unbox(old(data[bp + 1]))
      ensures ip == p.Offset(old(data[bp + 2])) && top == old(bp) + 1 + old(nArgs)
      ensures data[..] == old(data[..])[old(bp) + 2 + old(nArgs) := old(data[top + 1])]
    {
      var result := Pop();
      var n := nArgs;
      top := bp - 1;
      var w := Pop();
      bp := p.IndexOf(w);
      w := Pop();
      nArgs := Unbox(w);
      w := Pop();
      ip := p.Offset(w);
      top := top + n;
      var _ := Push(result);
    }

    /** The slot of a variable: `create_reference`. */
    function Slot(kind: int, index: int): int
      reads `bp, `nArgs
    {
      SlotOf(p, bp, nArgs, kind, index)
    }
  }

  // ----- the invariant of a run ------------------------------------------------------------

  ghost predicate FrameOf(code: seq<Byte>, publics: seq<int>, f: Frame) {
    && f.begin in publics && IsFunction(code, f.begin)
    && f.nArgs == ArgsOf(code, f.begin) && f.nLocals == LocalsOf(code, f.begin)
  }

  /** The caller of frame k waits at a point that the verifier knows. */
  ghost predicate Waits(code: seq<Byte>, publics: seq<int>, fs: seq<Frame>, k: nat)
    requires 0 < k < |fs|
  {
    Within(code, publics, fs[k - 1].begin, At(fs[k].ret, fs[k].resume)) && !AtBegin(code, fs[k].ret)
  }

  ghost predicate FramesOf(code: seq<Byte>, publics: seq<int>, fs: seq<Frame>) {
    && (forall k {:trigger fs[k]} :: 0 <= k < |fs| ==> FrameOf(code, publics, fs[k])) && (fs != [] ==> fs[0].begin == 0)
    && forall k: nat {:trigger Waits(code, publics, fs, k)} :: 0 < k < |fs| ==> Waits(code, publics, fs, k)
  }

  /** How many operands a frame has room for, from what its BEGIN has checked. */
  function Room(p: Place, f: Frame): int { f.nArgs + p.recorded(f.begin) + 1 }

  ghost predicate HasRoom(p: Place, fs: seq<Frame>, k: nat)
    requires k < |fs|
  {
    Room(p, fs[k]) < fs[k].Limit()
  }

  ghost predicate Spacious(p: Place, fs: seq<Frame>) {
    forall k: nat {:trigger HasRoom(p, fs, k)} :: k < |fs| ==> HasRoom(p, fs, k)
  }

  /** The frames, and the registers of the current one. */
  ghost predicate Framed(vm: Vm, code: seq<Byte>, publics: seq<int>, fs: seq<Frame>)
    reads vm, vm.data
  {
    && Chain(vm.p, fs, vm.data[..]) && vm.p.codeSize == |code| && FramesOf(code, publics, fs) && Spacious(vm.p, fs)
    && vm.bp == fs[|fs| - 1].bp && vm.nArgs == fs[|fs| - 1].nArgs && -1 <= vm.top < fs[|fs| - 1].Limit()
  }

  /** Operands of the current function: the words between its local variables and the top. */
  ghost function Depth(vm: Vm, fs: seq<Frame>): int
    requires |fs| > 0
    reads vm`top
  {
    fs[|fs| - 1].Limit() - 1 - vm.top
  }

  /** Inside a function: the number of operands is a depth that the verifier found for this address. */
  ghost predicate InBody(vm: Vm, code: seq<Byte>, publics: seq<int>, fs: seq<Frame>, ip: int)
    reads vm, vm.data
  {
    && Framed(vm, code, publics, fs) && !AtBegin(code, ip)
    && Within(code, publics, fs[|fs| - 1].begin, At(ip, Depth(vm, fs)))
  }

  /** At BEGIN: the arguments and the return address are on the stack of the caller. */
  ghost predicate AtEntry(vm: Vm, code: seq<Byte>, publics: seq<int>, fs: seq<Frame>, ret: int, ip: int)
    reads vm, vm.data
  {
    && ip in publics && IsFunction(code, ip)
    && if fs == [] then
         && ip == 0 && vm.p.Valid() && vm.data.Length == vm.p.size && vm.p.codeSize == |code|
         && vm.top == vm.p.begin && vm.bp == vm.p.begin && vm.nArgs == 2
       else
         && Framed(vm, code, publics, fs) && 0 <= ret <= |code| && !AtBegin(code, ret)
         && 0 < Depth(vm, fs) && vm.top + 1 < vm.data.Length && vm.data[vm.top + 1] == vm.p.CodeAddress(ret)
         && ArgsOf(code, ip) <= Depth(vm, fs) - 1
         && Within(code, publics, fs[|fs| - 1].begin, At(ret, Depth(vm, fs) - ArgsOf(code, ip)))
  }

  ghost predicate Consistent(vm: Vm, code: seq<Byte>, publics: seq<int>, s: Where, ip: int)
    reads vm, vm.data
  {
    match s
    case Body(fs) => InBody(vm, code, publics, fs, ip)
    case Entry(fs, ret) => AtEntry(vm, code, publics, fs, ret, ip)
  }

  // ----- calls -----------------------------------------------------------------------------

  lemma FrameAdded(code: seq<Byte>, publics: seq<int>, fs: seq<Frame>, f: Frame)
    requires FramesOf(code, publics, fs) && FrameOf(code, publics, f)
    requires |fs| > 0 ==> Within(code, publics, fs[|fs| - 1].begin, At(f.ret, f.resume)) && !AtBegin(code, f.ret)
    requires fs == [] ==> f.begin == 0
    ensures FramesOf(code, publics, fs + [f])
  {
    var gs := fs + [f];
    forall k: nat | 0 < k < |gs| ensures Waits(code, publics, gs, k) {
      if k < |fs| {
        assert Waits(code, publics, fs, k);
      }
    }
  }

  lemma FrameRemoved(code: seq<Byte>, publics: seq<int>, fs: seq<Frame>)
    requires FramesOf(code, publics, fs) && |fs| > 1
    ensures FramesOf(code, publics, fs[..|fs| - 1]) && Waits(code, publics, fs, |fs| - 1)
  {
    var gs := fs[..|fs| - 1];
    forall k: nat | 0 < k < |gs| ensures Waits(code, publics, gs, k) {
      assert Waits(code, publics, fs, k);
    }
  }

  /** What BEGIN finds: nothing in main, and in a called function the return address on the stack of the caller. */
  ghost predicate Opening(p: Place, code: seq<Byte>, fs: seq<Frame>, ret: int, ip: int, t: int, d: seq<Word>,
                          nArgs: int, bp: int) {
    && IsFunction(code, ip) && -1 <= t < |d|
    && if fs == [] then p.Valid() && |d| == p.size && t == bp == p.begin && nArgs == 2
       else
         && Chain(p, fs, d) && t + 1 < |d| && 0 <= ret <= p.codeSize && d[t + 1] == p.CodeAddress(ret)
         && ArgsOf(code, ip) <= fs[|fs| - 1].Limit() - 1 - t - 1
         && nArgs == fs[|fs| - 1].nArgs && bp == fs[|fs| - 1].bp
  }

  /** The frame is added to those of the callers. */
  lemma FrameEntered(p: Place, code: seq<Byte>, fs: seq<Frame>, ret: int, ip: int, t: int, d: seq<Word>, e: seq<Word>,
                     nArgs: int, bp: int)
    requires Opening(p, code, fs, ret, ip, t, d, nArgs, bp)
    requires FrameOpened(p, d, e, t, LocalsOf(code, ip), nArgs, bp)
    ensures Chain(p, fs + [NewFrame(code, fs, ret, ip, t, d)], e)
  {
    var f := NewFrame(code, fs, ret, ip, t, d);
    if fs != [] {
      assert Opened(p, fs[|fs| - 1], f, d, e);
      CallAdds(p, fs, d, e, f);
    } else {
      assert fs + [f] == [f];
    }
  }

  lemma RoomAdded(p: Place, fs: seq<Frame>, f: Frame)
    requires Spacious(p, fs) && Room(p, f) < f.Limit()
    ensures Spacious(p, fs + [f])
  {
    var gs := fs + [f];
    forall k: nat | k < |gs| ensures HasRoom(p, gs, k) {
      assert k < |fs| ==> HasRoom(p, fs, k);
    }
  }

  lemma EntryOpening(vm: Vm, code: seq<Byte>, publics: seq<int>, fs: seq<Frame>, ret: int, ip: int, f: Frame)
    requires AtEntry(vm, code, publics, fs, ret, ip) && f == NewFrame(code, fs, ret, ip, vm.top, vm.data[..])
    requires ArgsOf(code, ip) + LocalsOf(code, ip) + 4 + vm.p.recorded(ip) <= vm.top
    ensures Opening(vm.p, code, fs, ret, ip, vm.top, vm.data[..], vm.nArgs, vm.bp)
    ensures FramesOf(code, publics, fs + [f]) && Spacious(vm.p, fs + [f]) && vm.p.codeSize == |code|
  {
    FrameAdded(code, publics, fs, f);
    RoomAdded(vm.p, fs, f);
  }

  /** What BEGIN leads to. */
  lemma AfterBegin(code: seq<Byte>, publics: seq<int>, targets: set<int>, ip: int)
    requires Verified(code, publics, targets) && ip in publics
    ensures IsFunction(code, ip) && var next := Fetch(code, ip).next;
            Within(code, publics, ip, At(next, 0)) && !AtBegin(code, next)
  {
    WithinStart(code, publics, ip);
    PointKnown(code, publics, targets, ip, At(ip, 0));
    var next := Fetch(code, ip).next;
    assert FallMoves(code, At(ip, 0), At(next, 0));
    WithinNext(code, publics, targets, ip, At(ip, 0), At(next, 0));
  }

  lemma OnTop(vm: Vm, code: seq<Byte>, publics: seq<int>, gs: seq<Frame>, f: Frame)
    requires Chain(vm.p, gs, vm.data[..]) && FramesOf(code, publics, gs)
    requires Spacious(vm.p, gs) && vm.p.codeSize == |code|
    requires |gs| > 0 && gs[|gs| - 1] == f && vm.bp == f.bp && vm.nArgs == f.nArgs && -1 <= vm.top == f.Limit() - 1
    ensures Framed(vm, code, publics, gs) && Depth(vm, gs) == 0
  {
  }

  /** `visit_begin` when there is room. */
  method EnterFunction(vm: Vm, args: nat, nLocals: nat, ghost ip: int, ghost code: seq<Byte>, ghost publics: seq<int>,
                  ghost fs: seq<Frame>, ghost ret: int)
    requires AtEntry(vm, code, publics, fs, ret, ip) && args == ArgsOf(code, ip) && nLocals == LocalsOf(code, ip)
    requires args + nLocals + 4 + vm.p.recorded(ip) <= vm.top
    modifies vm, vm.data
    ensures var gs := fs + [NewFrame(code, fs, ret, ip, old(vm.top), old(vm.data[..]))];
            Framed(vm, code, publics, gs) && Depth(vm, gs) == 0
    ensures vm.bp == old(vm.top) - 1 && vm.nArgs == args && vm.top == old(vm.top) - 3 - nLocals
    ensures FrameOpened(vm.p, old(vm.data[..]), vm.data[..], old(vm.top), nLocals, old(vm.nArgs), old(vm.bp))
  {
    ghost var d, t, n, b := vm.data[..], vm.top, vm.nArgs, vm.bp;
    ghost var f := NewFrame(code, fs, ret, ip, t, d);
    EntryOpening(vm, code, publics, fs, ret, ip, f);
    assert (fs + [f])[|fs|] == f;
    vm.OpenFrame(args, nLocals);
    FrameEntered(vm.p, code, fs, ret, ip, t, d, vm.data[..], n, b);
    OnTop(vm, code, publics, fs + [f], f);
  }

  /** `visit_begin` */
  method VisitBegin(vm: Vm, i: Instr, next: int, ip: int, ghost code: seq<Byte>, ghost publics: seq<int>,
                  ghost targets: set<int>, ghost s: Where)
    returns (st: Status, ip': int, ghost s': Where)
    requires Verified(code, publics, targets) && s.Entry? && Consistent(vm, code, publics, s, ip)
    requires SameBegin(Fetch(code, ip).i, i) && next == Fetch(code, ip).next && vm.p.recorded(ip) == Recorded(i.nArgs)
    modifies vm, vm.data
    ensures st == if Crowded(i, old(vm.top)) then Overflow else Going
    ensures st.Going? ==> s'.Body? && Consistent(vm, code, publics, s', ip') && ip' == next && Depth(vm, s'.fs) == 0
    ensures st.Going? ==> EntryStep(vm.p, code, s.fs, s.ret, old(Now(vm, s, ip)), Now(vm, s', ip'))
    ensures st.Overflow? ==> vm.data[..] == old(vm.data[..])
  {
    s', ip' := s, next;
    var args, recorded := RealArgs(i.nArgs), Recorded(i.nArgs);
    st := if vm.top < args + i.nLocals + 4 + recorded then Overflow else Going;
    if st.Overflow? {
      return;
    }
    AfterBegin(code, publics, targets, ip);
    ghost var f := NewFrame(code, s.fs, s.ret, ip, vm.top, vm.data[..]);
    EnterFunction(vm, args, i.nLocals, ip, code, publics, s.fs, s.ret);
    assert (s.fs + [f])[|s.fs|] == f;
    s' := Body(s.fs + [f]);
  }

  // ----- operands --------------------------------------------------------------------------

  lemma FrameBounds(vm: Vm, code: seq<Byte>, publics: seq<int>, fs: seq<Frame>)
    requires Framed(vm, code, publics, fs)
    ensures var f := fs[|fs| - 1];
            vm.top + 1 <= f.Limit() < f.bp < vm.p.begin < vm.data.Length && (|fs| > 1 <==> f.bp != vm.p.begin - 1)
  {
    if |fs| > 1 {
      Lower(vm.p, fs, vm.data[..], 0, |fs| - 1);
    }
  }

  /** A push has failed with d operands on the stack: the array is full, and d is more than what BEGIN has
      made sure of. */
  ghost predicate Full(vm: Vm, fs: seq<Frame>, d: int)
    requires |fs| > 0
    reads vm`top
  {
    vm.top < 0 && Room(vm.p, fs[|fs| - 1]) < d
  }

  method PushOperand(vm: Vm, w: Word, ghost code: seq<Byte>, ghost publics: seq<int>, ghost fs: seq<Frame>)
    returns (ok: bool)
    requires Framed(vm, code, publics, fs)
    modifies vm`top, vm.data
    ensures (ok <==> 0 <= old(vm.top)) && (!ok ==> Full(vm, fs, old(Depth(vm, fs))))
    ensures ok ==> Framed(vm, code, publics, fs) && Depth(vm, fs) == old(Depth(vm, fs)) + 1
    ensures ok ==> Pushed(old(vm.data[..]), old(vm.top), w, vm.data[..], vm.top)
  {
    FrameBounds(vm, code, publics, fs);
    if 0 <= vm.top {
      OwnWrite(vm.p, fs, vm.data[..], vm.top, w);
    }
    assert HasRoom(vm.p, fs, |fs| - 1);
    ok := vm.Push(w);
  }

  /** A pop finds an operand of the current function, above the local variables of none. */
  method PopOperand(vm: Vm, ghost code: seq<Byte>, ghost publics: seq<int>, ghost fs: seq<Frame>) returns (w: Word)
    requires Framed(vm, code, publics, fs) && 0 < Depth(vm, fs)
    modifies vm`top
    ensures Framed(vm, code, publics, fs) && Depth(vm, fs) == old(Depth(vm, fs)) - 1
    ensures vm.top == old(vm.top) + 1 && 0 <= vm.top < vm.data.Length && w == vm.data[vm.top]
  {
    FrameBounds(vm, code, publics, fs);
    w := vm.Pop();
  }

  /** The function at e, with so many operands, may call `target` and go on at `next`. */
  ghost predicate Callable(code: seq<Byte>, publics: seq<int>, e: int, depth: int, target: int, next: int) {
    && target in publics && IsFunction(code, target) && ArgsOf(code, target) <= depth
    && 0 <= next <= |code| && !AtBegin(code, next)
    && Within(code, publics, e, At(next, depth + 1 - ArgsOf(code, target)))
  }

  /** What a call leads to, and where the caller goes on. */
  lemma CallPoint(code: seq<Byte>, publics: seq<int>, targets: set<int>, e: int, a: At, target: int, next: int)
    requires Verified(code, publics, targets) && Within(code, publics, e, a)
    requires Fetch(code, a.ip).Got? && Fetch(code, a.ip).i.Call? && Fetch(code, a.ip).i.target == target
    requires Fetch(code, a.ip).next == next
    ensures Callable(code, publics, e, a.depth, target, next)
  {
    PointKnown(code, publics, targets, e, a);
    var b := At(next, After(code, a));
    CallFalls(code, a, b);
    WithinNext(code, publics, targets, e, a, b);
  }

  lemma CallFalls(code: seq<Byte>, a: At, b: At)
    requires Fetch(code, a.ip).Got? && Fetch(code, a.ip).i.Call? && b == At(Fetch(code, a.ip).next, After(code, a))
    ensures Moves(code, a, b)
  {
    KindOf(Fetch(code, a.ip).i);
  }

  method PushReturn(vm: Vm, next: int, ghost target: int, ghost code: seq<Byte>, ghost publics: seq<int>,
                  ghost fs: seq<Frame>) returns (ok: bool)
    requires Framed(vm, code, publics, fs)
    requires Callable(code, publics, fs[|fs| - 1].begin, Depth(vm, fs), target, next)
    modifies vm`top, vm.data
    ensures (ok <==> 0 <= old(vm.top)) && (!ok ==> Full(vm, fs, old(Depth(vm, fs))))
    ensures ok ==> Consistent(vm, code, publics, Entry(fs, next), target)
    ensures ok ==> CallStored(vm.p, old(vm.data[..]), old(vm.top), next, vm.data[..], vm.top)
  {
    ok := PushOperand(vm, vm.p.CodeAddress(next), code, publics, fs);
  }

  /** `visit_call` */
  method VisitCall(vm: Vm, target: int, next: int, ip: int, ghost code: seq<Byte>, ghost publics: seq<int>,
                  ghost targets: set<int>, ghost fs: seq<Frame>)
    returns (st: Status, ip': int, ghost s': Where)
    requires Verified(code, publics, targets) && InBody(vm, code, publics, fs, ip)
    requires Fetch(code, ip).Got? && Fetch(code, ip).i.Call? && Fetch(code, ip).i.target == target
    requires next == Fetch(code, ip).next
    modifies vm`top, vm.data
    ensures if 0 <= old(vm.top) then st.Going? else st.Overrun? && Full(vm, fs, old(Depth(vm, fs)))
    ensures st.Going? ==> s' == Entry(fs, next) && ip' == target && Consistent(vm, code, publics, s', ip')
    ensures st.Going? ==> CallStored(vm.p, old(vm.data[..]), old(vm.top), next, vm.data[..], vm.top)
  {
    CallPoint(code, publics, targets, fs[|fs| - 1].begin, At(ip, Depth(vm, fs)), target, next);
    var ok := PushReturn(vm, next, target, code, publics, fs);
    st, ip', s' := if ok then Going else Overrun, target, Entry(fs, next);
  }

  /** What a return finds in memory, with f the frame on top and c that of the caller. */
  ghost predicate ControlWords(vm: Vm, c: Frame, f: Frame)
    reads vm, vm.data
  {
    && -1 <= vm.top < vm.p.begin - 1 < vm.data.Length && vm.bp == f.bp && 0 <= f.bp && f.bp + 2 < vm.p.begin
    && vm.nArgs == f.nArgs && 0 <= f.nArgs && f.Top() - 1 < vm.data.Length
    && vm.p.IndexOf(vm.data[f.bp]) == c.bp && Unbox(vm.data[f.bp + 1]) == c.nArgs
    && vm.p.Offset(vm.data[f.bp + 2]) == f.ret
    && -1 <= f.Top() - 2 < c.Limit() && c.Limit() - 1 - (f.Top() - 2) == f.resume
  }

  lemma ControlFound(vm: Vm, code: seq<Byte>, publics: seq<int>, fs: seq<Frame>)
    requires Framed(vm, code, publics, fs) && 0 < Depth(vm, fs) && |fs| > 1
    ensures ControlWords(vm, fs[|fs| - 2], fs[|fs| - 1])
  {
    var d := vm.data[..];
    FrameBounds(vm, code, publics, fs);
    ReturnRemoves(vm.p, fs, d, 0);
    assert Linked(vm.p, fs, |fs| - 1, d);
    Lower(vm.p, fs, d, |fs| - 2, |fs| - 1);
  }

  /** The callers wait for the function of frame f to return. */
  ghost predicate Waiting(p: Place, code: seq<Byte>, publics: seq<int>, gs: seq<Frame>, f: Frame)
    requires |gs| > 0
  {
    && FramesOf(code, publics, gs) && Spacious(p, gs) && p.codeSize == |code|
    && Within(code, publics, gs[|gs| - 1].begin, At(f.ret, f.resume)) && !AtBegin(code, f.ret)
  }

  lemma CallersWait(p: Place, code: seq<Byte>, publics: seq<int>, fs: seq<Frame>)
    requires FramesOf(code, publics, fs) && Spacious(p, fs) && p.codeSize == |code| && |fs| > 1
    ensures Waiting(p, code, publics, fs[..|fs| - 1], fs[|fs| - 1])
  {
    var gs := fs[..|fs| - 1];
    forall k: nat | k < |gs| ensures HasRoom(p, gs, k) {
      assert HasRoom(p, fs, k);
    }
    FrameRemoved(code, publics, fs);
  }

  /** The memory e after the return, and the frames of the callers in it. */
  lemma CallersLeft(p: Place, fs: seq<Frame>, d: seq<Word>, t: int, e: seq<Word>)
    requires Chain(p, fs, d) && |fs| > 1 && 0 <= t + 1 < |d| && 0 <= fs[|fs| - 1].Top() - 1 < |d|
    requires e == d[fs[|fs| - 1].Top() - 1 := d[t + 1]]
    ensures Chain(p, fs[..|fs| - 1], e) && Returned(p, fs[|fs| - 1], d, t, e)
  {
    ReturnRemoves(p, fs, d, d[t + 1]);
  }

  lemma BackInCaller(vm: Vm, code: seq<Byte>, publics: seq<int>, gs: seq<Frame>, f: Frame, d: seq<Word>)
    requires |gs| > 0 && Chain(vm.p, gs, d) && vm.data[..] == d && Waiting(vm.p, code, publics, gs, f)
    requires vm.bp == gs[|gs| - 1].bp && vm.nArgs == gs[|gs| - 1].nArgs
    requires vm.top == f.Top() - 2 && -1 <= vm.top < gs[|gs| - 1].Limit()
    requires gs[|gs| - 1].Limit() - 1 - vm.top == f.resume
    ensures InBody(vm, code, publics, gs, f.ret) && Depth(vm, gs) == f.resume
  {
  }

  /** A return: the caller's frame is on top again. */
  method LeaveFunction(vm: Vm, ghost ip: int, ghost code: seq<Byte>, ghost publics: seq<int>, ghost fs: seq<Frame>)
    returns (ip': int)
    requires Framed(vm, code, publics, fs) && 0 < Depth(vm, fs) && |fs| > 1
    modifies vm, vm.data
    ensures var gs, f := fs[..|fs| - 1], fs[|fs| - 1];
            InBody(vm, code, publics, gs, ip') && Depth(vm, gs) == f.resume
    ensures LeftFrame(vm.p, fs[|fs| - 1], old(Now(vm, Body(fs), ip)), Now(vm, Body(fs[..|fs| - 1]), ip'))
  {
    ghost var gs, f := fs[..|fs| - 1], fs[|fs| - 1];
    ControlFound(vm, code, publics, fs);
    ghost var e := vm.data[..][f.Top() - 1 := vm.data[vm.top + 1]];
    CallersWait(vm.p, code, publics, fs);
    CallersLeft(vm.p, fs, vm.data[..], vm.top, e);
    ip' := vm.CloseFrame();
    BackInCaller(vm, code, publics, gs, f, e);
  }

  lemma EndPoint(code: seq<Byte>, publics: seq<int>, targets: set<int>, e: int, a: At)
    requires Verified(code, publics, targets) && Within(code, publics, e, a)
    requires Fetch(code, a.ip).Got? && Fetch(code, a.ip).i.End?
    ensures 1 <= a.depth
  {
    PointKnown(code, publics, targets, e, a);
  }

  /** `visit_end_ret`: the frame of the caller is back, with the result in the place of the arguments. */
  method VisitEnd(vm: Vm, ip: int, ghost code: seq<Byte>, ghost publics: seq<int>, ghost targets: set<int>,
                  ghost fs: seq<Frame>)
    returns (st: Status, ip': int, ghost s': Where)
    requires Verified(code, publics, targets) && InBody(vm, code, publics, fs, ip)
    requires Fetch(code, ip).Got? && Fetch(code, ip).i.End?
    modifies vm, vm.data
    ensures st == if |fs| > 1 then Going else Halted
    ensures st.Going? ==> s' == Body(fs[..|fs| - 1]) && Consistent(vm, code, publics, s', ip')
    ensures st.Going? ==> Depth(vm, s'.fs) == fs[|fs| - 1].resume
    ensures st.Going? ==> LeftFrame(vm.p, fs[|fs| - 1], old(Now(vm, Body(fs), ip)), Now(vm, s', ip'))
    ensures st.Halted? ==> vm.data[..] == old(vm.data[..])
  {
    EndPoint(code, publics, targets, fs[|fs| - 1].begin, At(ip, Depth(vm, fs)));
    FrameBounds(vm, code, publics, fs);
    s' := Body(fs);
    if vm.bp == vm.p.begin - 1 {
      return Halted, ip, s';
    }
    ip' := LeaveFunction(vm, ip, code, publics, fs);
    s' := Body(fs[..|fs| - 1]);
    st := Going;
  }

  // ----- instructions on data --------------------------------------------------------------

  /** Execution goes on at b in the same function when the operands have been dealt with. */
  lemma Onward(vm: Vm, code: seq<Byte>, publics: seq<int>, targets: set<int>, fs: seq<Frame>, a: At, b: At)
    requires Verified(code, publics, targets) && Framed(vm, code, publics, fs)
    requires Within(code, publics, fs[|fs| - 1].begin, a)
    requires Moves(code, a, b) && b.depth == Depth(vm, fs)
    ensures InBody(vm, code, publics, fs, b.ip)
  {
    WithinNext(code, publics, targets, fs[|fs| - 1].begin, a, b);
  }

  method PopOperands(vm: Vm, pops: nat, ghost code: seq<Byte>, ghost publics: seq<int>, ghost fs: seq<Frame>)
    requires Framed(vm, code, publics, fs) && pops <= Depth(vm, fs)
    modifies vm`top
    ensures Framed(vm, code, publics, fs) && Depth(vm, fs) == old(Depth(vm, fs)) - pops && vm.top == old(vm.top) + pops
  {
    var i := 0;
    while i < pops
      invariant 0 <= i <= pops && Framed(vm, code, publics, fs) && vm.top == old(vm.top) + i
    {
      var _ := PopOperand(vm, code, publics, fs);
      i := i + 1;
    }
  }

  /** The values that a closure captures. */
  method PushCopies(vm: Vm, n: nat, w: Word, ghost code: seq<Byte>, ghost publics: seq<int>, ghost fs: seq<Frame>)
    returns (ok: bool)
    requires Framed(vm, code, publics, fs)
    modifies vm`top, vm.data
    ensures ok <==> n <= old(vm.top) + 1
    ensures ok ==> Framed(vm, code, publics, fs) && Depth(vm, fs) == old(Depth(vm, fs)) + n && vm.top == old(vm.top) - n
    ensures ok ==> vm.data[..] == Filled(old(vm.data[..]), old(vm.top), n, w)
    ensures !ok ==> Full(vm, fs, old(Depth(vm, fs)) + n - 1)
  {
    FrameBounds(vm, code, publics, fs);
    ok := true;
    var i := 0;
    assert vm.data[..] == Filled(old(vm.data[..]), old(vm.top), 0, w);
    while i < n
      invariant 0 <= i <= n && Framed(vm, code, publics, fs) && vm.top == old(vm.top) - i && ok
      invariant vm.data[..] == Filled(old(vm.data[..]), old(vm.top), i, w)
    {
      FilledMore(old(vm.data[..]), old(vm.top), i, w);
      ok := PushOperand(vm, w, code, publics, fs);
      if !ok {
        return;
      }
      i := i + 1;
    }
  }

  lemma FilledMore(d: seq<Word>, t: int, n: nat, w: Word)
    ensures 0 <= t - n < |d| ==> Filled(d, t, n, w)[t - n := w] == Filled(d, t, n + 1, w)
  {
  }

  /** A collection while operands are on the stack; `heap` is what it makes of the array. */
  method Collect(vm: Vm, heap: seq<Word>, ghost code: seq<Byte>, ghost publics: seq<int>, ghost fs: seq<Frame>)
    requires Framed(vm, code, publics, fs)
    modifies vm.data
    ensures Framed(vm, code, publics, fs) && Depth(vm, fs) == old(Depth(vm, fs))
    ensures vm.data[..] == if Frames.Collected(vm.p, old(vm.data[..]), heap) then heap else old(vm.data[..])
  {
    if Frames.Collected(vm.p, vm.data[..], heap) {
      CollectedChain(vm.p, fs, vm.data[..], heap);
      forall i | 0 <= i < vm.data.Length {
        vm.data[i] := heap[i];
      }
      assert vm.data[..] == heap;
    }
  }

  /** The slots of the variables are those of the frame on top, and of the global area. */
  lemma SlotsOfFrame(vm: Vm, code: seq<Byte>, publics: seq<int>, fs: seq<Frame>, i: int)
    requires Framed(vm, code, publics, fs)
    ensures var f := fs[|fs| - 1];
            && vm.Slot(ARG, i) == f.ArgSlot(i) && vm.Slot(LOCAL, i) == f.LocalSlot(i)
            && vm.Slot(GLOBAL, i) == vm.p.begin + 1 + i
  {
  }

  /** The slot of a variable is inside the array, and the function may write it. */
  lemma VariableSlot(vm: Vm, code: seq<Byte>, publics: seq<int>, fs: seq<Frame>, kind: int, index: int)
    requires Framed(vm, code, publics, fs) && IsFunction(code, 0) && ArgsOf(code, 0) < N_GLOBAL - 1
    requires KnownVariable(code, fs[|fs| - 1].begin, kind, index)
    ensures 0 <= vm.Slot(kind, index) < vm.data.Length && Own(vm.p, fs, vm.Slot(kind, index))
  {
    FrameBounds(vm, code, publics, fs);
    OwnFrame(vm.p, fs, vm.data[..], index);
    assert FrameOf(code, publics, fs[|fs| - 1]);
  }

  /** The point after an instruction that neither jumps nor ends the function. */
  lemma NextPoint(code: seq<Byte>, publics: seq<int>, targets: set<int>, e: int, a: At, i: Instr, next: int)
    requires Verified(code, publics, targets) && Within(code, publics, e, a) && Fetch(code, a.ip) == Got(i, next)
    requires !i.Jmp? && !i.End? && !i.Fail?
    ensures 0 <= Pops(i) <= a.depth && Moves(code, a, At(next, a.depth + Pushes(i) - Pops(i)))
  {
    PointKnown(code, publics, targets, e, a);
    KindOf(i);
    assert FallMoves(code, a, At(next, After(code, a)));
  }

  lemma JumpPoint(code: seq<Byte>, publics: seq<int>, targets: set<int>, e: int, a: At, i: Instr, next: int)
    requires Verified(code, publics, targets) && Within(code, publics, e, a) && Fetch(code, a.ip) == Got(i, next)
    requires i.Jmp? || i.Cjmp?
    ensures 0 <= Pops(i) <= a.depth && Moves(code, a, At(i.target, a.depth - Pops(i)))
  {
    PointKnown(code, publics, targets, e, a);
    KindOf(i);
    assert JumpMoves(code, a, At(i.target, After(code, a)));
  }

  /** `visit_jmp` and `visit_cjmp` */
  method VisitJump(vm: Vm, i: Instr, next: int, ip: int, ghost code: seq<Byte>, ghost publics: seq<int>,
                  ghost targets: set<int>, ghost fs: seq<Frame>)
    returns (ip': int)
    requires Verified(code, publics, targets) && InBody(vm, code, publics, fs, ip) && Fetch(code, ip) == Got(i, next)
    requires (i.Jmp? || i.Cjmp?)
    modifies vm`top
    ensures InBody(vm, code, publics, fs, ip')
    ensures i.Jmp? ==> ip' == i.target && vm.top == old(vm.top)
    ensures i.Cjmp? ==> Branched(i.negated, i.target, next, vm.data[..], old(vm.top), vm.data[..], vm.top, ip')
  {
    ghost var a := At(ip, Depth(vm, fs));
    FrameBounds(vm, code, publics, fs);
    JumpPoint(code, publics, targets, fs[|fs| - 1].begin, a, i, next);
    ip' := i.target;
    if i.Cjmp? {
      NextPoint(code, publics, targets, fs[|fs| - 1].begin, a, i, next);
      var w := PopOperand(vm, code, publics, fs);
      if (Unbox(w) == 0) == i.negated {
        ip' := next;
      }
    }
    Onward(vm, code, publics, targets, fs, a, At(ip', Depth(vm, fs)));
  }

  /** `visit_ld`: the value of the variable. */
  method VisitLd(vm: Vm, kind: int, index: int, ghost code: seq<Byte>, ghost publics: seq<int>,
                 ghost fs: seq<Frame>) returns (ok: bool)
    requires Framed(vm, code, publics, fs)
    requires IsFunction(code, 0) && ArgsOf(code, 0) < N_GLOBAL - 1
    requires KnownVariable(code, fs[|fs| - 1].begin, kind, index)
    modifies vm`top, vm.data
    ensures (ok <==> 0 <= old(vm.top)) && (!ok ==> Full(vm, fs, old(Depth(vm, fs))))
    ensures ok ==> Framed(vm, code, publics, fs) && Depth(vm, fs) == old(Depth(vm, fs)) + 1
    ensures 0 <= vm.Slot(kind, index) < vm.data.Length
    ensures ok ==> Pushed(old(vm.data[..]), old(vm.top), old(vm.data[vm.Slot(kind, index)]), vm.data[..], vm.top)
  {
    VariableSlot(vm, code, publics, fs, kind, index);
    ok := PushOperand(vm, vm.data[vm.Slot(kind, index)], code, publics, fs);
  }

  /** `visit_lda`: the address of the variable, twice. */
  method VisitLda(vm: Vm, kind: int, index: int, ghost code: seq<Byte>, ghost publics: seq<int>,
                  ghost fs: seq<Frame>) returns (ok: bool)
    requires Framed(vm, code, publics, fs)
    requires IsFunction(code, 0) && ArgsOf(code, 0) < N_GLOBAL - 1
    requires KnownVariable(code, fs[|fs| - 1].begin, kind, index)
    modifies vm`top, vm.data
    ensures (ok <==> 1 <= old(vm.top)) && (!ok ==> Full(vm, fs, old(Depth(vm, fs)) + 1))
    ensures ok ==> Framed(vm, code, publics, fs) && Depth(vm, fs) == old(Depth(vm, fs)) + 2
    ensures ok ==> vm.top == old(vm.top) - 2 && 1 <= old(vm.top) < vm.data.Length
    ensures ok ==> var w, t := vm.p.Address(vm.Slot(kind, index)), old(vm.top);
                   vm.data[..] == old(vm.data[..])[t := w][t - 1 := w]
  {
    VariableSlot(vm, code, publics, fs, kind, index);
    var ref := vm.p.Address(vm.Slot(kind, index));
    ok := PushOperand(vm, ref, code, publics, fs);
    if ok {
      ok := PushOperand(vm, ref, code, publics, fs);
    }
  }

  /** `visit_dup` */
  method VisitDup(vm: Vm, ghost code: seq<Byte>, ghost publics: seq<int>, ghost fs: seq<Frame>) returns (ok: bool)
    requires Framed(vm, code, publics, fs) && 1 <= Depth(vm, fs)
    modifies vm`top, vm.data
    ensures (ok <==> 0 <= old(vm.top)) && (!ok ==> Full(vm, fs, old(Depth(vm, fs))))
    ensures ok ==> Framed(vm, code, publics, fs) && Depth(vm, fs) == old(Depth(vm, fs)) + 1
    ensures 0 <= old(vm.top) + 1 < vm.data.Length
    ensures ok ==> Pushed(old(vm.data[..]), old(vm.top), old(vm.data[vm.top + 1]), vm.data[..], vm.top)
  {
    FrameBounds(vm, code, publics, fs);
    ok := PushOperand(vm, vm.data[vm.top + 1], code, publics, fs);
  }

  /** `visit_swap` */
  method VisitSwap(vm: Vm, ghost code: seq<Byte>, ghost publics: seq<int>, ghost fs: seq<Frame>)
    requires Framed(vm, code, publics, fs) && 2 <= Depth(vm, fs)
    modifies vm`top, vm.data
    ensures Framed(vm, code, publics, fs) && Depth(vm, fs) == old(Depth(vm, fs))
    ensures vm.top == old(vm.top) && 0 <= vm.top + 1 && vm.top + 2 < vm.data.Length
    ensures var d, t := old(vm.data[..]), vm.top; vm.data[..] == d[t + 1 := d[t + 2]][t + 2 := d[t + 1]]
  {
    FrameBounds(vm, code, publics, fs);
    var x := PopOperand(vm, code, publics, fs);
    var y := PopOperand(vm, code, publics, fs);
    PushBack(vm, x, code, publics, fs);
    PushBack(vm, y, code, publics, fs);
  }

  /** A store to a slot that the function owns. */
  method StoreOwn(vm: Vm, slot: int, w: Word, ghost code: seq<Byte>, ghost publics: seq<int>, ghost fs: seq<Frame>)
    requires Framed(vm, code, publics, fs) && 0 <= slot < vm.data.Length && Own(vm.p, fs, slot)
    modifies vm.data
    ensures Framed(vm, code, publics, fs) && Depth(vm, fs) == old(Depth(vm, fs))
    ensures vm.data[..] == old(vm.data[..])[slot := w]
  {
    OwnWrite(vm.p, fs, vm.data[..], slot, w);
    ghost var d := vm.data[..];
    vm.data[slot] := w;
    assert vm.data[..] == d[slot := w];
  }

  /** `visit_st`: the newest operand goes into the variable and stays. */
  method VisitSt(vm: Vm, kind: int, index: int, ghost code: seq<Byte>, ghost publics: seq<int>, ghost fs: seq<Frame>)
    requires Framed(vm, code, publics, fs) && 1 <= Depth(vm, fs)
    requires IsFunction(code, 0) && ArgsOf(code, 0) < N_GLOBAL - 1
    requires KnownVariable(code, fs[|fs| - 1].begin, kind, index)
    modifies vm.data
    ensures Framed(vm, code, publics, fs) && Depth(vm, fs) == old(Depth(vm, fs))
    ensures 0 <= vm.Slot(kind, index) < vm.data.Length && 0 <= vm.top + 1 < vm.data.Length
    ensures vm.data[..] == old(vm.data[..])[vm.Slot(kind, index) := old(vm.data[vm.top + 1])]
  {
    FrameBounds(vm, code, publics, fs);
    VariableSlot(vm, code, publics, fs, kind, index);
    StoreOwn(vm, vm.Slot(kind, index), vm.data[vm.top + 1], code, publics, fs);
  }

  // ----- stores through references ---------------------------------------------------------

  /** A store: it is made if it is harmless. */
  method Perform(vm: Vm, s: Store, ghost code: seq<Byte>, ghost publics: seq<int>, ghost fs: seq<Frame>)
    returns (st: Status)
    requires Framed(vm, code, publics, fs)
    modifies vm.data
    ensures st == if Harmless(vm.p, vm.bp, vm.nArgs, s) then Going else BadStore
    ensures st.Going? ==> Framed(vm, code, publics, fs) && Depth(vm, fs) == old(Depth(vm, fs))
    ensures vm.data[..] == if st.Going? then Written(vm.p, old(vm.data[..]), s) else old(vm.data[..])
  {
    if OwnAddress(vm.p, vm.bp, vm.nArgs, Hit(s)) {
      FrameBounds(vm, code, publics, fs);
      var k := vm.p.IndexOf(Hit(s));
      StoreOwn(vm, k, NewWord(vm.data[k], s), code, publics, fs);
      return Going;
    }
    if HeapWord(vm.p, Hit(s)) {
      HeapApart(vm.p, vm.data[..], s);
      return Going;
    }
    st := BadStore;
  }

  /** `visit_sti`: the value goes to the reference below it and takes its place. */
  method VisitSti(vm: Vm, ghost code: seq<Byte>, ghost publics: seq<int>, ghost fs: seq<Frame>) returns (st: Status)
    requires Framed(vm, code, publics, fs) && 2 <= Depth(vm, fs)
    modifies vm`top, vm.data
    ensures st == if Foreign(vm.p, old(vm.data[..]), old(vm.top), vm.bp, vm.nArgs, Sti, 0) then BadStore else Going
    ensures st.Going? ==> Framed(vm, code, publics, fs) && Depth(vm, fs) == old(Depth(vm, fs)) - 1
    ensures 0 <= old(vm.top) + 1 && old(vm.top) + 3 < vm.data.Length
    ensures var d, t := old(vm.data[..]), old(vm.top);
            if st.Going?
            then vm.data[..] == Written(vm.p, d, StoreAt(vm.p, Sti, d, t, 0))[t + 2 := d[t + 1]] && vm.top == t + 1
            else vm.data[..] == d
  {
    FrameBounds(vm, code, publics, fs);
    ghost var d, t := vm.data[..], vm.top;
    var value := PopOperand(vm, code, publics, fs);
    var reference := PopOperand(vm, code, publics, fs);
    assert vm.data[..] == d && vm.top == t + 2 && value == d[t + 1] && reference == d[t + 2];
    st := Perform(vm, WordStore(reference, value), code, publics, fs);
    if st.Going? {
      PushBack(vm, value, code, publics, fs);
    }
  }

  /** A push into the slot of an operand that has just been popped. */
  method PushBack(vm: Vm, w: Word, ghost code: seq<Byte>, ghost publics: seq<int>, ghost fs: seq<Frame>)
    requires Framed(vm, code, publics, fs) && 0 <= vm.top
    modifies vm`top, vm.data
    ensures Framed(vm, code, publics, fs) && Depth(vm, fs) == old(Depth(vm, fs)) + 1
    ensures Pushed(old(vm.data[..]), old(vm.top), w, vm.data[..], vm.top)
  {
    var _ := PushOperand(vm, w, code, publics, fs);
  }

  /** `visit_sta` and `Bsta`: into an element of an object, or through a reference; `other` is the header
      if the target is not in the operand array. */
  method VisitSta(vm: Vm, other: Word, ghost code: seq<Byte>, ghost publics: seq<int>, ghost fs: seq<Frame>)
    returns (st: Status)
    requires Framed(vm, code, publics, fs) && 3 <= Depth(vm, fs)
    modifies vm`top, vm.data
    ensures st == if old(Fails(Sta, vm.data[..], vm.top)) then Halted
                  else if Foreign(vm.p, old(vm.data[..]), old(vm.top), vm.bp, vm.nArgs, Sta, other) then BadStore
                  else Going
    ensures st.Going? ==> Framed(vm, code, publics, fs) && Depth(vm, fs) == old(Depth(vm, fs)) - 2
    ensures 0 <= old(vm.top) + 1 && old(vm.top) + 3 < vm.data.Length
    ensures var d, t := old(vm.data[..]), old(vm.top);
            if st.Going?
            then vm.data[..] == Written(vm.p, d, StoreAt(vm.p, Sta, d, t, other))[t + 3 := d[t + 1]] && vm.top == t + 2
            else vm.data[..] == d
  {
    FrameBounds(vm, code, publics, fs);
    ghost var d, t := vm.data[..], vm.top;
    var value := PopOperand(vm, code, publics, fs);
    var index := PopOperand(vm, code, publics, fs);
    var target := PopOperand(vm, code, publics, fs);
    assert vm.data[..] == d && vm.top == t + 3 && value == d[t + 1] && index == d[t + 2] && target == d[t + 3];
    if Unboxed(index) && Unboxed(target) {
      return Halted;
    }
    var s := StaStore(value, index, target, HeaderBefore(vm.p, vm.data[..], target, other));
    st := Perform(vm, s, code, publics, fs);
    if st.Going? {
      PushBack(vm, value, code, publics, fs);
    }
  }

  // ----- one step --------------------------------------------------------------------------

  lemma ResultCount(i: Instr)
    requires Computes(i)
    ensures 0 <= Pushes(i) <= 1
  {
  }

  /** A closure pushes the values that it captures, and an allocating operation collects while its operands are on
      the stack. */
  method Prepare(vm: Vm, i: Instr, choice: Choice, ghost code: seq<Byte>, ghost publics: seq<int>,
                 ghost fs: seq<Frame>) returns (ok: bool)
    requires Framed(vm, code, publics, fs)
    modifies vm`top, vm.data
    ensures ok <==> Captured(i) <= old(vm.top) + 1
    ensures ok ==> Framed(vm, code, publics, fs) && Depth(vm, fs) == old(Depth(vm, fs)) + Captured(i)
    ensures ok ==> vm.data[..] == Gone(vm.p, i, old(vm.data[..]), old(vm.top), choice)
    ensures !ok ==> Full(vm, fs, old(Depth(vm, fs)) + Captured(i) - 1)
  {
    ok := PushCopies(vm, Captured(i), choice.word, code, publics, fs);
    if ok && Allocates(i) {
      Collect(vm, choice.heap, code, publics, fs);
    }
  }

  lemma RoomNeeded(i: Instr, t: int)
    requires Computes(i) && 0 <= Pops(i) && -1 <= t
    ensures Overruns(i, t) <==> t + 1 < Captured(i) || (Pushes(i) == 1 && t + Pops(i) < 0)
    ensures t + 1 < Captured(i) ==> Extra(i) == Captured(i) - 1
    ensures t + Pops(i) < 0 && Captured(i) <= t + 1 ==> Extra(i) == 0 && Pops(i) == 0
  {
  }

  /** An operation that does not fail. */
  method Operate(vm: Vm, i: Instr, choice: Choice, ghost code: seq<Byte>, ghost publics: seq<int>,
                 ghost fs: seq<Frame>) returns (ok: bool)
    requires Framed(vm, code, publics, fs) && Computes(i) && 0 <= Pops(i) <= Depth(vm, fs) && 0 <= CountOf(i)
    modifies vm`top, vm.data
    ensures ok <==> !Overruns(i, old(vm.top))
    ensures ok ==> Framed(vm, code, publics, fs) && Depth(vm, fs) == old(Depth(vm, fs)) + Pushes(i) - Pops(i)
    ensures ok ==> Exchanged(vm.p, i, old(vm.data[..]), old(vm.top), choice, vm.data[..], vm.top)
    ensures !ok ==> Full(vm, fs, old(Depth(vm, fs)) + Extra(i))
  {
    ResultCount(i);
    FrameBounds(vm, code, publics, fs);
    RoomNeeded(i, vm.top);
    var w := Result(i, vm.data[..], vm.top, choice.word);
    ok := Prepare(vm, i, choice, code, publics, fs);
    if ok {
      ok := Replace(vm, Captured(i) + Pops(i), Pushes(i), w, code, publics, fs);
    }
  }

  /** Operands are popped and the result, if there is one, is pushed. */
  method Replace(vm: Vm, pops: nat, pushes: nat, w: Word, ghost code: seq<Byte>, ghost publics: seq<int>,
                 ghost fs: seq<Frame>) returns (ok: bool)
    requires Framed(vm, code, publics, fs) && pops <= Depth(vm, fs) && pushes <= 1
    modifies vm`top, vm.data
    ensures ok <==> pushes == 0 || 0 <= old(vm.top) + pops
    ensures ok ==> Framed(vm, code, publics, fs) && Depth(vm, fs) == old(Depth(vm, fs)) - pops + pushes
    ensures ok && pushes == 0 ==> vm.data[..] == old(vm.data[..]) && vm.top == old(vm.top) + pops
    ensures ok && pushes == 1 ==> Pushed(old(vm.data[..]), old(vm.top) + pops, w, vm.data[..], vm.top)
    ensures !ok ==> Full(vm, fs, old(Depth(vm, fs)) - pops)
  {
    PopOperands(vm, pops, code, publics, fs);
    ok := true;
    if pushes == 1 {
      ok := PushOperand(vm, w, code, publics, fs);
    }
  }

  /** An operation may end the program. */
  method VisitOther(vm: Vm, i: Instr, choice: Choice, ghost code: seq<Byte>, ghost publics: seq<int>,
                    ghost fs: seq<Frame>) returns (st: Status)
    requires Framed(vm, code, publics, fs) && Computes(i) && 0 <= Pops(i) <= Depth(vm, fs) && 0 <= CountOf(i)
    modifies vm`top, vm.data
    ensures st == if Fails(i, old(vm.data[..]), old(vm.top)) || (MayFail(i) && choice.fails) then Halted
                  else if Overruns(i, old(vm.top)) then Overrun else Going
    ensures st.Going? ==> Framed(vm, code, publics, fs) && Depth(vm, fs) == old(Depth(vm, fs)) + Pushes(i) - Pops(i)
    ensures st.Going? ==> Exchanged(vm.p, i, old(vm.data[..]), old(vm.top), choice, vm.data[..], vm.top)
    ensures st.Overrun? ==> Full(vm, fs, old(Depth(vm, fs)) + Extra(i))
    ensures st.Halted? ==> vm.data[..] == old(vm.data[..])
  {
    if Fails(i, vm.data[..], vm.top) || (MayFail(i) && choice.fails) {
      return Halted;
    }
    var ok := Operate(vm, i, choice, code, publics, fs);
    st := if ok then Going else Overrun;
  }

  /** The instructions on variables and operands that store nothing through a reference. */
  method VisitVariable(vm: Vm, i: Instr, ghost choice: Choice, ghost code: seq<Byte>, ghost publics: seq<int>,
                       ghost fs: seq<Frame>) returns (ok: bool)
    requires Framed(vm, code, publics, fs) && 0 <= Pops(i) <= Depth(vm, fs)
    requires IsFunction(code, 0) && ArgsOf(code, 0) < N_GLOBAL - 1
    requires i.Ld? || i.Lda? || i.Dup? || i.Swap? || i.St?
    requires i.Ld? || i.Lda? || i.St? ==> KnownVariable(code, fs[|fs| - 1].begin, i.kind, i.index)
    modifies vm`top, vm.data
    ensures ok <==> !Overruns(i, old(vm.top))
    ensures ok ==> Framed(vm, code, publics, fs) && Depth(vm, fs) == old(Depth(vm, fs)) + Pushes(i) - Pops(i)
    ensures ok ==> Applied(vm.p, i, old(vm.data[..]), old(vm.top), vm.bp, vm.nArgs, choice, vm.data[..], vm.top)
    ensures !ok ==> Full(vm, fs, old(Depth(vm, fs)) + Extra(i))
  {
    ok := true;
    match i
    case Ld(kind, index) => ok := VisitLd(vm, kind, index, code, publics, fs);
    case Lda(kind, index) => ok := VisitLda(vm, kind, index, code, publics, fs);
    case St(kind, index) => VisitSt(vm, kind, index, code, publics, fs);
    case Dup => ok := VisitDup(vm, code, publics, fs);
    case Swap => VisitSwap(vm, code, publics, fs);
  }

  /** How an instruction that stays in its function ends, and what it does. */
  ghost predicate PlainDone(p: Place, i: Instr, d: seq<Word>, t: int, bp: int, nArgs: int, choice: Choice, st: Status,
                            e: seq<Word>, u: int) {
    && st == PlainStatus(p, i, d, t, bp, nArgs, choice)
    && (st.Going? ==> Applied(p, i, d, t, bp, nArgs, choice, e, u))
    && (st.Halted? || st.BadStore? ==> e == d)
  }

  lemma StiDone(p: Place, d: seq<Word>, t: int, bp: int, nArgs: int, choice: Choice, st: Status, e: seq<Word>, u: int)
    requires 0 <= t + 1 && t + 3 < |d| && st == (if Foreign(p, d, t, bp, nArgs, Sti, 0) then BadStore else Going)
    requires if st.Going? then e == Written(p, d, StoreAt(p, Sti, d, t, 0))[t + 2 := d[t + 1]] && u == t + 1 else e == d
    ensures PlainDone(p, Sti, d, t, bp, nArgs, choice, st, e, u)
  {
  }

  lemma StaDone(p: Place, d: seq<Word>, t: int, bp: int, nArgs: int, choice: Choice, st: Status, e: seq<Word>, u: int)
    requires 0 <= t + 1 && t + 3 < |d|
    requires st == (if Fails(Sta, d, t) then Halted
                    else if Foreign(p, d, t, bp, nArgs, Sta, choice.word) then BadStore else Going)
    requires var w := choice.word;
             if st.Going? then e == Written(p, d, StoreAt(p, Sta, d, t, w))[t + 3 := d[t + 1]] && u == t + 2 else e == d
    ensures PlainDone(p, Sta, d, t, bp, nArgs, choice, st, e, u)
  {
  }

  lemma OtherDone(p: Place, i: Instr, d: seq<Word>, t: int, bp: int, nArgs: int, choice: Choice, st: Status,
                  e: seq<Word>, u: int)
    requires Computes(i)
    requires st == (if Fails(i, d, t) || (MayFail(i) && choice.fails) then Halted
                    else if Overruns(i, t) then Overrun else Going)
    requires (st.Going? ==> Exchanged(p, i, d, t, choice, e, u)) && (st.Halted? ==> e == d)
    ensures PlainDone(p, i, d, t, bp, nArgs, choice, st, e, u)
  {
  }

  lemma VariableDone(p: Place, i: Instr, d: seq<Word>, t: int, bp: int, nArgs: int, choice: Choice, ok: bool,
                     e: seq<Word>, u: int)
    requires (i.Ld? || i.Lda? || i.Dup? || i.Swap? || i.St?) && (ok <==> !Overruns(i, t))
    requires ok ==> Applied(p, i, d, t, bp, nArgs, choice, e, u)
    ensures PlainDone(p, i, d, t, bp, nArgs, choice, if ok then Going else Overrun, e, u)
  {
  }

  /** The instructions that neither jump nor call nor return. */
  method VisitPlain(vm: Vm, i: Instr, choice: Choice, ghost code: seq<Byte>, ghost publics: seq<int>,
                    ghost fs: seq<Frame>) returns (st: Status)
    requires Framed(vm, code, publics, fs) && 0 <= Pops(i) <= Depth(vm, fs) && 0 <= CountOf(i)
    requires IsFunction(code, 0) && ArgsOf(code, 0) < N_GLOBAL - 1
    requires Computes(i) || i.Ld? || i.Lda? || i.Dup? || i.Swap? || i.St? || i.Sti? || i.Sta?
    requires i.Ld? || i.Lda? || i.St? ==> KnownVariable(code, fs[|fs| - 1].begin, i.kind, i.index)
    modifies vm`top, vm.data
    ensures PlainDone(vm.p, i, old(vm.data[..]), old(vm.top), vm.bp, vm.nArgs, choice, st, vm.data[..], vm.top)
    ensures st.Going? ==> Framed(vm, code, publics, fs) && Depth(vm, fs) == old(Depth(vm, fs)) + Pushes(i) - Pops(i)
    ensures st.Overrun? ==> Full(vm, fs, old(Depth(vm, fs)) + Extra(i))
  {
    ghost var d, t := vm.data[..], vm.top;
    if i.Sti? {
      st := VisitSti(vm, code, publics, fs);
      StiDone(vm.p, d, t, vm.bp, vm.nArgs, choice, st, vm.data[..], vm.top);
    } else if i.Sta? {
      st := VisitSta(vm, choice.word, code, publics, fs);
      StaDone(vm.p, d, t, vm.bp, vm.nArgs, choice, st, vm.data[..], vm.top);
    } else if Computes(i) {
      st := VisitOther(vm, i, choice, code, publics, fs);
      OtherDone(vm.p, i, d, t, vm.bp, vm.nArgs, choice, st, vm.data[..], vm.top);
    } else {
      var ok := VisitVariable(vm, i, choice, code, publics, fs);
      st := if ok then Going else Overrun;
      VariableDone(vm.p, i, d, t, vm.bp, vm.nArgs, choice, ok, vm.data[..], vm.top);
    }
  }

  lemma PlainInstr(code: seq<Byte>, publics: seq<int>, targets: set<int>, e: int, a: At, i: Instr, next: int)
    requires Verified(code, publics, targets) && Within(code, publics, e, a) && Fetch(code, a.ip) == Got(i, next)
    requires !i.Begin? && !i.Jmp? && !i.Cjmp? && !i.Call? && !i.End? && !i.Fail?
    ensures 0 <= Pops(i) <= a.depth && 0 <= CountOf(i) && IsFunction(code, 0) && ArgsOf(code, 0) < N_GLOBAL - 1
    ensures IsFunction(code, e)
    ensures Computes(i) || i.Ld? || i.Lda? || i.Dup? || i.Swap? || i.St? || i.Sti? || i.Sta?
    ensures i.Ld? || i.Lda? || i.St? ==> KnownVariable(code, e, i.kind, i.index)
  {
    PointKnown(code, publics, targets, e, a);
  }

  // ----- room for operands -----------------------------------------------------------------

  /** At no point of any function are there more operands, those that an instruction pushes for a while
      included, than the check in its BEGIN has made room for. */
  ghost predicate Roomy(p: Place, code: seq<Byte>, publics: seq<int>) {
    forall e, a {:trigger Within(code, publics, e, a)} ::
      Within(code, publics, e, a) && IsFunction(code, e) && Fetch(code, a.ip).Got? ==>
        a.depth + Extra(Fetch(code, a.ip).i) <= ArgsOf(code, e) + p.recorded(e) + 1
  }

  lemma RoomHere(vm: Vm, code: seq<Byte>, publics: seq<int>, fs: seq<Frame>, ip: int)
    requires InBody(vm, code, publics, fs, ip) && Fetch(code, ip).Got?
    ensures Roomy(vm.p, code, publics) ==> Depth(vm, fs) + Extra(Fetch(code, ip).i) <= Room(vm.p, fs[|fs| - 1])
  {
    var f := fs[|fs| - 1];
    assert FrameOf(code, publics, f) && Within(code, publics, f.begin, At(ip, Depth(vm, fs)));
  }

  /** The recorded maximum of each function bounds the peaks of all its paths. */
  ghost predicate PeaksRecorded(p: Place, code: seq<Byte>, publics: seq<int>) {
    forall e, a, m {:trigger Leads(code, e, a, m)} :: e in publics && Leads(code, e, a, m) ==> m <= p.recorded(e)
  }

  /** No closure captures many more values than the function it is made in has arguments. */
  ghost predicate ClosuresSmall(code: seq<Byte>, publics: seq<int>) {
    forall e, a {:trigger Within(code, publics, e, a)} ::
      Within(code, publics, e, a) && IsFunction(code, e) && Fetch(code, a.ip).Got? && Fetch(code, a.ip).i.Closure? ==>
        Fetch(code, a.ip).i.n <= ArgsOf(code, e) + 3
  }

  /** There is room then. */
  lemma BoundedIsRoomy(p: Place, code: seq<Byte>, publics: seq<int>, targets: set<int>)
    requires Verified(code, publics, targets) && PeaksRecorded(p, code, publics) && ClosuresSmall(code, publics)
    ensures Roomy(p, code, publics)
  {
    forall e, a | Within(code, publics, e, a) && IsFunction(code, e) && Fetch(code, a.ip).Got?
      ensures a.depth + Extra(Fetch(code, a.ip).i) <= ArgsOf(code, e) + p.recorded(e) + 1
    {
      PointBounded(p, code, publics, targets, e, a);
    }
  }

  lemma PointBounded(p: Place, code: seq<Byte>, publics: seq<int>, targets: set<int>, e: int, a: At)
    requires Verified(code, publics, targets) && Within(code, publics, e, a)
    requires IsFunction(code, e) && Fetch(code, a.ip).Got?
    requires forall b, m {:trigger Leads(code, e, b, m)} :: Leads(code, e, b, m) ==> m <= p.recorded(e)
    requires Fetch(code, a.ip).i.Closure? ==> Fetch(code, a.ip).i.n <= ArgsOf(code, e) + 3
    ensures a.depth + Extra(Fetch(code, a.ip).i) <= ArgsOf(code, e) + p.recorded(e) + 1
  {
    var i, next := Fetch(code, a.ip).i, Fetch(code, a.ip).next;
    var m :| Leads(code, e, a, m);
    PeakBounds(code, e, a, m);
    if i.Lda? || i.Closure? {
      NextPoint(code, publics, targets, e, a, i, next);
      LeadsOn(code, e, a, m, At(next, a.depth + Pushes(i) - Pops(i)));
    }
  }

  /** A path ends no higher than its peak. */
  lemma PeakBounds(code: seq<Byte>, e: int, a: At, m: int)
    requires Leads(code, e, a, m)
    ensures a.depth <= m
  {
    var p :| PathFrom(code, e, p) && p[|p| - 1] == a && Peak(p) == m;
    assert |p| > 0;
  }

  // ----- steps -----------------------------------------------------------------------------

  lemma Placed(vm: Vm, code: seq<Byte>, publics: seq<int>, s: Where, ip: int)
    requires Consistent(vm, code, publics, s, ip)
    ensures AtFrame(Now(vm, s, ip))
  {
  }

  /** How a step inside a function ends, and what it does. */
  ghost predicate BodyDone(p: Place, i: Instr, next: int, fs: seq<Frame>, choice: Choice, st: Status, m: Moment,
                           m': Moment) {
    st == BodyStatus(p, i, fs, m, choice) && (st.Going? ==> BodyStep(p, i, next, fs, choice, m, m'))
  }

  lemma JumpDone(p: Place, i: Instr, next: int, fs: seq<Frame>, choice: Choice, m: Moment, m': Moment)
    requires (i.Jmp? || i.Cjmp?) && m.at == m'.at && m'.bp == m.bp && m'.nArgs == m.nArgs
    requires InsideStep(p, i, next, choice, m, m')
    ensures BodyDone(p, i, next, fs, choice, Going, m, m')
  {
  }

  lemma CallDone(p: Place, i: Instr, next: int, fs: seq<Frame>, choice: Choice, st: Status, m: Moment, m': Moment)
    requires i.Call? && st == (if m.top < 0 then Overrun else Going)
    requires st.Going? ==> m'.at == Entry(fs, next) && m'.ip == i.target
    requires st.Going? ==> CallStored(p, m.d, m.top, next, m'.d, m'.top)
    requires m'.bp == m.bp && m'.nArgs == m.nArgs
    ensures BodyDone(p, i, next, fs, choice, st, m, m')
  {
  }

  lemma EndDone(p: Place, i: Instr, next: int, fs: seq<Frame>, choice: Choice, st: Status, m: Moment, m': Moment)
    requires i.End? && fs != [] && st == (if |fs| > 1 then Going else Halted)
    requires st.Going? ==> m'.at == Body(fs[..|fs| - 1]) && LeftFrame(p, fs[|fs| - 1], m, m')
    ensures BodyDone(p, i, next, fs, choice, st, m, m')
  {
  }

  lemma InsideDone(p: Place, i: Instr, next: int, fs: seq<Frame>, choice: Choice, st: Status, m: Moment, m': Moment)
    requires !i.Begin? && !i.Jmp? && !i.Cjmp? && !i.Call? && !i.End? && !i.Fail?
    requires PlainDone(p, i, m.d, m.top, m.bp, m.nArgs, choice, st, m'.d, m'.top)
    requires m.at == m'.at && m'.bp == m.bp && m'.nArgs == m.nArgs && m'.ip == next
    ensures BodyDone(p, i, next, fs, choice, st, m, m')
  {
  }

  /** A step inside a function. */
  method StepBody(vm: Vm, i: Instr, next: int, ip: int, choice: Choice,
                  ghost code: seq<Byte>, ghost publics: seq<int>, ghost targets: set<int>, ghost fs: seq<Frame>)
    returns (st: Status, ip': int, ghost s': Where)
    requires Verified(code, publics, targets) && InBody(vm, code, publics, fs, ip) && Fetch(code, ip) == Got(i, next)
    modifies vm, vm.data
    ensures BodyDone(vm.p, i, next, fs, choice, st, old(Now(vm, Body(fs), ip)), Now(vm, s', ip'))
    ensures st.Going? ==> Consistent(vm, code, publics, s', ip')
    ensures st.Overrun? ==> !Roomy(vm.p, code, publics)
    ensures st.Halted? || st.BadStore? ==> vm.data[..] == old(vm.data[..])
  {
    ghost var m := Now(vm, Body(fs), ip);
    RoomHere(vm, code, publics, fs, ip);
    if i.Jmp? || i.Cjmp? || i.Call? || i.End? || i.Fail? {
      st, ip', s' := StepControl(vm, i, next, ip, choice, code, publics, targets, fs);
    } else {
      st := StepPlain(vm, i, next, ip, choice, code, publics, targets, fs);
      ip', s' := next, Body(fs);
      InsideDone(vm.p, i, next, fs, choice, st, m, Now(vm, s', ip'));
    }
  }

  /** Jumps, calls, returns and FAIL. */
  method StepControl(vm: Vm, i: Instr, next: int, ip: int, ghost choice: Choice,
                     ghost code: seq<Byte>, ghost publics: seq<int>, ghost targets: set<int>, ghost fs: seq<Frame>)
    returns (st: Status, ip': int, ghost s': Where)
    requires Verified(code, publics, targets) && InBody(vm, code, publics, fs, ip) && Fetch(code, ip) == Got(i, next)
    requires i.Jmp? || i.Cjmp? || i.Call? || i.End? || i.Fail?
    modifies vm, vm.data
    ensures BodyDone(vm.p, i, next, fs, choice, st, old(Now(vm, Body(fs), ip)), Now(vm, s', ip'))
    ensures st.Going? ==> Consistent(vm, code, publics, s', ip')
    ensures st.Overrun? ==> Full(vm, fs, old(Depth(vm, fs)) + Extra(i))
    ensures st.Halted? ==> vm.data[..] == old(vm.data[..])
  {
    ghost var m := Now(vm, Body(fs), ip);
    ip', s' := next, Body(fs);
    if i.Jmp? || i.Cjmp? {
      ip' := VisitJump(vm, i, next, ip, code, publics, targets, fs);
      st := Going;
      JumpDone(vm.p, i, next, fs, choice, m, Now(vm, s', ip'));
    } else if i.Call? {
      st, ip', s' := VisitCall(vm, i.target, next, ip, code, publics, targets, fs);
      CallDone(vm.p, i, next, fs, choice, st, m, Now(vm, s', ip'));
    } else if i.End? {
      st, ip', s' := VisitEnd(vm, ip, code, publics, targets, fs);
      EndDone(vm.p, i, next, fs, choice, st, m, Now(vm, s', ip'));
    } else {
      st := Halted;
    }
  }

  /** A step that stays in its function and goes on to the next instruction. */
  method StepPlain(vm: Vm, i: Instr, next: int, ip: int, choice: Choice,
                   ghost code: seq<Byte>, ghost publics: seq<int>, ghost targets: set<int>, ghost fs: seq<Frame>)
    returns (st: Status)
    requires Verified(code, publics, targets) && InBody(vm, code, publics, fs, ip) && Fetch(code, ip) == Got(i, next)
    requires !i.Begin? && !i.Jmp? && !i.Cjmp? && !i.Call? && !i.End? && !i.Fail?
    modifies vm`top, vm.data
    ensures PlainDone(vm.p, i, old(vm.data[..]), old(vm.top), vm.bp, vm.nArgs, choice, st, vm.data[..], vm.top)
    ensures st.Going? ==> InBody(vm, code, publics, fs, next)
    ensures st.Overrun? ==> Full(vm, fs, old(Depth(vm, fs)) + Extra(i))
  {
    ghost var a := At(ip, Depth(vm, fs));
    PlainInstr(code, publics, targets, fs[|fs| - 1].begin, a, i, next);
    NextPoint(code, publics, targets, fs[|fs| - 1].begin, a, i, next);
    st := VisitPlain(vm, i, choice, code, publics, fs);
    if st.Going? {
      Onward(vm, code, publics, targets, fs, a, At(next, Depth(vm, fs)));
    }
  }

  // ----- whole runs ------------------------------------------------------------------------

  ghost predicate SameProgram(code: seq<Byte>, code': seq<Byte>, publics: seq<int>) {
    forall a {:trigger AbsReach(code, publics, a)} :: AbsReach(code, publics, a) ==>
      SameFetch(Fetch(code, a.ip), Fetch(code', a.ip))
  }

  /** The program stores to its variables by name only. */
  ghost predicate NoReferences(code: seq<Byte>, publics: seq<int>) {
    forall a {:trigger AbsReach(code, publics, a)} :: AbsReach(code, publics, a) && Fetch(code, a.ip).Got? ==>
      !Fetch(code, a.ip).i.Sti? && !Fetch(code, a.ip).i.Sta?
  }

  /** The instruction at ip of the code that runs is the BEGIN of the verified code, but for the maximum. */
  ghost predicate BeginsAlike(code: seq<Byte>, code': seq<Byte>, ip: int, i: Instr, next: int) {
    && Fetch(code, ip).Got? && SameBegin(Fetch(code, ip).i, i) && Fetch(code, ip).next == next
    && Fetch(code', ip) == Got(i, next)
  }

  /** What is decoded at ip. */
  lemma Decodes(vm: Vm, code: seq<Byte>, publics: seq<int>, targets: set<int>, s: Where, ip: int)
    requires Verified(code, publics, targets) && SameProgram(code, vm.code, publics)
    requires Consistent(vm, code, publics, s, ip)
    ensures Fetch(code, ip).Got? && SameFetch(Fetch(code, ip), Fetch(vm.code, ip))
    ensures s.Body? ==> Fetch(vm.code, ip) == Fetch(code, ip)
    ensures s.Body? && NoReferences(code, publics) ==> !Fetch(code, ip).i.Sti? && !Fetch(code, ip).i.Sta?
    ensures s.Entry? ==> BeginsAlike(code, vm.code, ip, Fetch(vm.code, ip).i, Fetch(vm.code, ip).next)
  {
    match s
    case Body(fs) =>
      PointKnown(code, publics, targets, fs[|fs| - 1].begin, At(ip, Depth(vm, fs)));
    case Entry(_, _) =>
      WithinStart(code, publics, ip);
      PointKnown(code, publics, targets, ip, At(ip, 0));
  }

  /** `recorded` says what is in the BEGINs of the code that runs. */
  ghost predicate Described(vm: Vm) {
    forall e {:trigger Fetch(vm.code, e)} ::
      Fetch(vm.code, e).Got? && Fetch(vm.code, e).i.Begin? ==> vm.p.recorded(e) == Recorded(Fetch(vm.code, e).i.nArgs)
  }

  ghost function Now(vm: Vm, s: Where, ip: int): Moment
    reads vm, vm.data
  {
    Moment(s, ip, vm.data[..], vm.top, vm.bp, vm.nArgs)
  }

  /** One turn of the loop of `myInterpret<false>`. */
  method Step(vm: Vm, ip: int, choice: Choice, ghost code: seq<Byte>, ghost publics: seq<int>,
              ghost targets: set<int>, ghost s: Where)
    returns (st: Status, ip': int, ghost s': Where)
    requires Verified(code, publics, targets) && SameProgram(code, vm.code, publics)
    requires Consistent(vm, code, publics, s, ip) && Described(vm)
    modifies vm, vm.data
    ensures StepDone(vm.p, vm.code, choice, st, old(Now(vm, s, ip)), Now(vm, s', ip'))
    ensures st.Going? ==> Consistent(vm, code, publics, s', ip')
    ensures st.Overrun? ==> !Roomy(vm.p, code, publics)
    ensures !st.Going? && !st.Overrun? ==> vm.data[..] == old(vm.data[..])
  {
    Decodes(vm, code, publics, targets, s, ip);
    var f := Fetch(vm.code, ip);
    if f.i.Begin? {
      st, ip', s' := StepEntry(vm, f.i, f.next, ip, choice, code, publics, targets, s);
    } else {
      st, ip', s' := StepOther(vm, f.i, f.next, ip, choice, code, publics, targets, s);
    }
  }

  /** All other instructions. */
  method StepOther(vm: Vm, i: Instr, next: int, ip: int, choice: Choice,
                   ghost code: seq<Byte>, ghost publics: seq<int>, ghost targets: set<int>, ghost s: Where)
    returns (st: Status, ip': int, ghost s': Where)
    requires Verified(code, publics, targets) && s.Body? && InBody(vm, code, publics, s.fs, ip)
    requires Fetch(code, ip) == Got(i, next) && Fetch(vm.code, ip) == Got(i, next)
    modifies vm, vm.data
    ensures StepDone(vm.p, vm.code, choice, st, old(Now(vm, s, ip)), Now(vm, s', ip'))
    ensures (st.Going? ==> Consistent(vm, code, publics, s', ip')) && !st.Overflow?
    ensures st.Overrun? ==> !Roomy(vm.p, code, publics)
    ensures st.Halted? || st.BadStore? ==> vm.data[..] == old(vm.data[..])
  {
    ghost var m := Now(vm, s, ip);
    st, ip', s' := StepBody(vm, i, next, ip, choice, code, publics, targets, s.fs);
    if st.Going? {
      Placed(vm, code, publics, s', ip');
    }
    InBodyDone(vm.p, vm.code, i, next, choice, st, m, Now(vm, s', ip'));
  }

  /** BEGIN in the patched code. */
  method StepEntry(vm: Vm, i: Instr, next: int, ip: int, ghost choice: Choice,
                   ghost code: seq<Byte>, ghost publics: seq<int>, ghost targets: set<int>, ghost s: Where)
    returns (st: Status, ip': int, ghost s': Where)
    requires Verified(code, publics, targets) && s.Entry? && Consistent(vm, code, publics, s, ip)
    requires BeginsAlike(code, vm.code, ip, i, next) && vm.p.recorded(ip) == Recorded(i.nArgs)
    modifies vm, vm.data
    ensures StepDone(vm.p, vm.code, choice, st, old(Now(vm, s, ip)), Now(vm, s', ip'))
    ensures (st.Going? ==> Consistent(vm, code, publics, s', ip')) && !st.Overrun?
    ensures !st.Going? ==> vm.data[..] == old(vm.data[..])
  {
    ghost var m := Now(vm, s, ip);
    st, ip', s' := VisitBegin(vm, i, next, ip, code, publics, targets, s);
    EntryDone(vm.p, code, vm.code, i, choice, st, m, Now(vm, s', ip'));
  }

  /** Only STI and STA can come to a foreign store. */
  lemma NoStores(vm: Vm, code: seq<Byte>, publics: seq<int>, targets: set<int>, s: Where, ip: int, choice: Choice)
    requires Verified(code, publics, targets) && SameProgram(code, vm.code, publics)
    requires Consistent(vm, code, publics, s, ip) && NoReferences(code, publics)
    ensures StatusAt(vm.p, vm.code, Now(vm, s, ip), choice) != BadStore
  {
    Decodes(vm, code, publics, targets, s, ip);
  }

  /** How a step ends, and what it does. */
  ghost predicate StepDone(p: Place, code: seq<Byte>, choice: Choice, st: Status, m: Moment, m': Moment) {
    st == StatusAt(p, code, m, choice) && (st.Going? ==> MomentStep(p, code, choice, m, m'))
  }

  /** The patch does not change what BEGIN does. */
  lemma EntryDone(p: Place, code: seq<Byte>, code': seq<Byte>, i: Instr, choice: Choice, st: Status, m: Moment,
                  m': Moment)
    requires m.at.Entry? && IsFunction(code, m.ip) && SameFetch(Fetch(code, m.ip), Fetch(code', m.ip))
    requires i == Fetch(code', m.ip).i && st == if Crowded(i, m.top) then Overflow else Going
    requires st.Going? ==> EntryStep(p, code, m.at.fs, m.at.ret, m, m')
    ensures StepDone(p, code', choice, st, m, m')
  {
  }

  lemma InBodyDone(p: Place, code: seq<Byte>, i: Instr, next: int, choice: Choice, st: Status, m: Moment, m': Moment)
    requires m.at.Body? && m.at.fs != [] && Fetch(code, m.ip) == Got(i, next)
    requires BodyDone(p, i, next, m.at.fs, choice, st, m, m')
    requires st.Going? ==> AtFrame(m')
    ensures StepDone(p, code, choice, st, m, m')
  {
  }

  /** The state in which `myInterpret` starts. */
  ghost predicate Fresh(vm: Vm, code: seq<Byte>)
    reads vm, vm.data
  {
    && vm.p.Valid() && vm.data.Length == vm.p.size && vm.p.codeSize == |code| && Described(vm)
    && Starting(vm.p, Now(vm, Entry([], 0), 0))
  }

  /** `myInterpret<false>`, for any number of steps and whatever the run-time system answers: every step of the run is
      the one that the instruction makes, and it stops, before the given number of steps, exactly when StatusAt says
      so.  As long as it runs, each function has on the stack exactly as many operands as the verifier has computed
      for the address, above its local variables and under frames that lead back to the callers; so no pop ever
      meets the empty stack that the removed check looks for. */
  method Interpret(vm: Vm, steps: nat, choices: nat -> Choice, ghost code: seq<Byte>, ghost publics: seq<int>,
                  ghost targets: set<int>)
    returns (st: Status, ip: int, ghost run: seq<Moment>)
    requires Verified(code, publics, targets) && SameProgram(code, vm.code, publics) && Fresh(vm, code)
    modifies vm, vm.data
    ensures Run(vm.p, vm.code, choices, run) && run[0] == old(Now(vm, Entry([], 0), 0))
    ensures RunsTo(vm, code, publics, choices, steps, st, ip, run)
  {
    ghost var m := Now(vm, Entry([], 0), 0);
    st, ip, run := Going, 0, [m];
    var n := 0;
    while n < steps
      invariant n <= steps && st.Going? && |run| == n + 1 && Along(vm, code, publics, choices, run, ip) && run[0] == m
    {
      st, ip, run := InterpretOne(vm, ip, n, choices, code, publics, targets, run);
      if !st.Going? {
        return;
      }
      n := n + 1;
    }
  }

  /** The run has made all its steps and can go on, or has come to its end before. */
  ghost predicate RunsTo(vm: Vm, code: seq<Byte>, publics: seq<int>, choices: nat -> Choice, steps: nat, st: Status,
                         ip: int, run: seq<Moment>)
    requires run != []
    reads vm, vm.data
  {
    && |run| <= steps + 1 && (st.Going? <==> |run| == steps + 1) && ip == run[|run| - 1].ip
    && (st.Going? ==> Along(vm, code, publics, choices, run, ip))
    && (!st.Going? ==> StoppedAt(vm, choices, run, st))
    && (st.Overrun? ==> !Roomy(vm.p, code, publics)) && (st.BadStore? ==> !NoReferences(code, publics))
  }

  /** The run so far, up to the present moment. */
  ghost predicate Along(vm: Vm, code: seq<Byte>, publics: seq<int>, choices: nat -> Choice, run: seq<Moment>, ip: int)
    reads vm, vm.data
  {
    && Run(vm.p, vm.code, choices, run) && run[|run| - 1] == Now(vm, run[|run| - 1].at, ip)
    && Consistent(vm, code, publics, run[|run| - 1].at, ip) && Described(vm)
  }

  /** The run has come to its end, where only an operand pushed below the array has been stored. */
  ghost predicate StoppedAt(vm: Vm, choices: nat -> Choice, run: seq<Moment>, st: Status)
    requires run != []
    reads vm, vm.data
  {
    && st == StatusAt(vm.p, vm.code, run[|run| - 1], choices(|run| - 1))
    && (!st.Overrun? ==> vm.data[..] == run[|run| - 1].d)
  }

  method InterpretOne(vm: Vm, ip: int, n: nat, choices: nat -> Choice, ghost code: seq<Byte>, ghost publics: seq<int>,
                      ghost targets: set<int>, ghost run: seq<Moment>)
    returns (st: Status, ip': int, ghost run': seq<Moment>)
    requires Verified(code, publics, targets) && SameProgram(code, vm.code, publics)
    requires Along(vm, code, publics, choices, run, ip) && |run| == n + 1
    modifies vm, vm.data
    ensures st.Going? ==> |run'| == |run| + 1 && run'[0] == run[0] && Along(vm, code, publics, choices, run', ip')
    ensures !st.Going? ==> run' == run && ip' == ip && StoppedAt(vm, choices, run, st)
    ensures (st.Overrun? ==> !Roomy(vm.p, code, publics)) && (st.BadStore? ==> !NoReferences(code, publics))
  {
    ghost var s;
    run' := run;
    if NoReferences(code, publics) {
      NoStores(vm, code, publics, targets, run[|run| - 1].at, ip, choices(n));
    }
    st, ip', s := Step(vm, ip, choices(n), code, publics, targets, run[|run| - 1].at);
    if st.Going? {
      RunOn(vm.p, vm.code, choices, run, Now(vm, s, ip'));
      run' := run + [Now(vm, s, ip')];
    } else {
      ip' := ip;
    }
  }
}
