/** Runs of the interpreter as sequences of moments: what one step makes of the registers and the operand
    array, when a run stops, and what follows for whole runs. */
module Runs {
  import opened Words
  import opened Bytecode
  import opened DepthTable
  import opened BeginPatch
  import opened Frames
  import opened DirectCalls
  import opened Effects

  /** Where a run is, for the proof: inside a function, or at the BEGIN of a function that has just been
      called and will return to `ret`. */
  datatype Where = Body(fs: seq<Frame>) | Entry(fs: seq<Frame>, ret: int)

  /** Going: there is a next instruction.  Halted: the program has ended.  Overflow: BEGIN has found too
      little room.  Overrun: an operand would have gone below the array.  BadStore: STI or STA is about to
      store into a word that is neither in the heap nor the current function's own. */
  datatype Status = Going | Halted | Overflow | Overrun | BadStore

  /** The registers and the operand array at a moment of a run, and where the run is. */
  datatype Moment = Moment(at: Where, ip: int, d: seq<Word>, top: int, bp: int, nArgs: int)

  /** `(n_args & 0xFFFF0000) >> 16`: the maximum that the verifier has recorded. */
  function Recorded(nArgs: int): nat { nArgs % 0x1_0000_0000 / 0x1_0000 }

  // ----- when a run stops ------------------------------------------------------------------

  /** BEGIN has too little room below the top. */
  predicate Crowded(i: Instr, t: int) {
    i.Begin? && t < RealArgs(i.nArgs) + i.nLocals + 4 + Recorded(i.nArgs)
  }

  /** How an instruction that stays in its function ends. */
  ghost function PlainStatus(p: Place, i: Instr, d: seq<Word>, t: int, bp: int, nArgs: int, choice: Choice): Status {
    if Fails(i, d, t) || (MayFail(i) && choice.fails) then Halted
    else if Overruns(i, t) then Overrun
    else if Foreign(p, d, t, bp, nArgs, i, choice.word) then BadStore
    else Going
  }

  /** FAIL and the END of main end the program. */
  ghost function BodyStatus(p: Place, i: Instr, fs: seq<Frame>, m: Moment, choice: Choice): Status {
    if i.Fail? || (i.End? && |fs| <= 1) then Halted
    else PlainStatus(p, i, m.d, m.top, m.bp, m.nArgs, choice)
  }

  /** What becomes of the run at its next instruction. */
  ghost function StatusAt(p: Place, code: seq<Byte>, m: Moment, choice: Choice): Status {
    if !Fetch(code, m.ip).Got? then Halted
    else
      match m.at
      case Entry(_, _) => if Crowded(Fetch(code, m.ip).i, m.top) then Overflow else Going
      case Body(fs) => BodyStatus(p, Fetch(code, m.ip).i, fs, m, choice)
  }

  // ----- steps -----------------------------------------------------------------------------

  /** CALL has pushed the return address. */
  predicate CallStored(p: Place, d: seq<Word>, t: int, ret: int, e: seq<Word>, t': int) {
    Pushed(d, t, p.CodeAddress(ret), e, t')
  }

  /** The memory after `visit_begin`, which started with the top at t. */
  predicate FrameOpened(p: Place, d: seq<Word>, e: seq<Word>, t: int, nLocals: int, nArgs: int, bp: int) {
    && 0 <= nLocals && nLocals + 4 <= t < |d| == |e|
    && forall i :: 0 <= i < |d| ==> e[i] == if i == t then Box(nArgs) else if i == t - 1 then p.Address(bp)
                                            else if t - 3 - nLocals <= i <= t - 3 then 0 else d[i]
  }

  /** The frame that BEGIN opens at ip when the top is at t. */
  ghost function NewFrame(code: seq<Byte>, fs: seq<Frame>, ret: int, ip: int, t: int, d: seq<Word>): Frame
    requires IsFunction(code, ip)
  {
    var n := ArgsOf(code, ip);
    if fs == [] then Frame(ip, t - 1, n, LocalsOf(code, ip), 0, 0, d)
    else Frame(ip, t - 1, n, LocalsOf(code, ip), ret, fs[|fs| - 1].Limit() - 1 - t - n, d)
  }

  /** BEGIN: the frame remembers the memory before it. */
  ghost predicate EntryStep(p: Place, code: seq<Byte>, fs: seq<Frame>, ret: int, m: Moment, m': Moment) {
    && IsFunction(code, m.ip) && m'.at == Body(fs + [NewFrame(code, fs, ret, m.ip, m.top, m.d)])
    && FrameOpened(p, m.d, m'.d, m.top, LocalsOf(code, m.ip), m.nArgs, m.bp)
    && m'.top == m.top - 3 - LocalsOf(code, m.ip) && m'.bp == m.top - 1 && m'.nArgs == ArgsOf(code, m.ip)
    && m'.ip == Fetch(code, m.ip).next
  }

  /** The memory after the return from f, with the result on top at t: the result is in the place of the
      first argument, nothing else has been written, and what lay above is as it was at the call. */
  ghost predicate Returned(p: Place, f: Frame, d: seq<Word>, t: int, e: seq<Word>) {
    && |d| == p.size == |e| && 0 <= t + 1 < |d| && 0 <= f.Top() - 1 < |d| && e == d[f.Top() - 1 := d[t + 1]]
    && Intact(p, f, e)
  }

  /** END: the registers come from the three words at the base pointer, which are those of the frame. */
  ghost predicate LeftFrame(p: Place, f: Frame, m: Moment, m': Moment) {
    && Returned(p, f, m.d, m.top, m'.d) && m'.top == f.Top() - 2 && m'.ip == f.ret
    && m.bp == f.bp && m.nArgs == f.nArgs && 0 <= m.bp && m.bp + 2 < |m.d|
    && m'.bp == p.IndexOf(m.d[m.bp]) && m'.nArgs == Unbox(m.d[m.bp + 1]) && m'.ip == p.Offset(m.d[m.bp + 2])
  }

  /** CJMPz and CJMPnz: where to, by the newest operand. */
  predicate Branched(negated: bool, target: int, next: int, d: seq<Word>, t: int, e: seq<Word>, u: int, to: int) {
    && 0 <= t + 1 < |d| && e == d && u == t + 1
    && to == if (Unbox(d[t + 1]) == 0) == negated then next else target
  }

  /** The instructions that stay in their function. */
  predicate InsideStep(p: Place, i: Instr, next: int, choice: Choice, m: Moment, m': Moment) {
    match i
    case Jmp(target) => m'.d == m.d && m'.top == m.top && m'.ip == target
    case Cjmp(negated, target) => Branched(negated, target, next, m.d, m.top, m'.d, m'.top, m'.ip)
    case _ => m'.ip == next && Applied(p, i, m.d, m.top, m.bp, m.nArgs, choice, m'.d, m'.top)
  }

  ghost predicate BodyStep(p: Place, i: Instr, next: int, fs: seq<Frame>, choice: Choice, m: Moment, m': Moment) {
    match i
    case Call(target, _) =>
      && m'.at == Entry(fs, next) && m'.ip == target && m'.bp == m.bp && m'.nArgs == m.nArgs
      && CallStored(p, m.d, m.top, next, m'.d, m'.top)
    case End => |fs| > 1 && m'.at == Body(fs[..|fs| - 1]) && LeftFrame(p, fs[|fs| - 1], m, m')
    case _ => m'.at == m.at && m'.bp == m.bp && m'.nArgs == m.nArgs && InsideStep(p, i, next, choice, m, m')
  }

  /** The registers are those of the frame on top. */
  predicate AtFrame(m: Moment) {
    m.at.Body? ==> m.at.fs != [] && m.bp == m.at.fs[|m.at.fs| - 1].bp && m.nArgs == m.at.fs[|m.at.fs| - 1].nArgs
  }

  /** One turn of the loop of `myInterpret<false>` that goes on. */
  ghost predicate MomentStep(p: Place, code: seq<Byte>, choice: Choice, m: Moment, m': Moment) {
    && StatusAt(p, code, m, choice) == Going && AtFrame(m')
    && match m.at
       case Entry(fs, ret) => EntryStep(p, code, fs, ret, m, m')
       case Body(fs) =>
         fs != [] && Fetch(code, m.ip).Got?
         && BodyStep(p, Fetch(code, m.ip).i, Fetch(code, m.ip).next, fs, choice, m, m')
  }

  ghost predicate StepOf(p: Place, code: seq<Byte>, choices: nat -> Choice, run: seq<Moment>, i: nat)
    requires i + 1 < |run|
  {
    MomentStep(p, code, choices(i), run[i], run[i + 1])
  }

  /** The state in which `myInterpret` starts: at offset 0 with an empty stack. */
  predicate Starting(p: Place, m: Moment) {
    m.at == Entry([], 0) && m.ip == 0 && m.top == p.begin && m.bp == p.begin && m.nArgs == 2 && |m.d| == p.size
  }

  /** The moments before each step. */
  ghost predicate Run(p: Place, code: seq<Byte>, choices: nat -> Choice, run: seq<Moment>) {
    && run != [] && Starting(p, run[0])
    && forall i: nat {:trigger StepOf(p, code, choices, run, i)} :: i + 1 < |run| ==> StepOf(p, code, choices, run, i)
  }

  lemma RunOn(p: Place, code: seq<Byte>, choices: nat -> Choice, run: seq<Moment>, m: Moment)
    requires Run(p, code, choices, run) && MomentStep(p, code, choices(|run| - 1), run[|run| - 1], m)
    ensures Run(p, code, choices, run + [m])
  {
    var run' := run + [m];
    forall i: nat | i + 1 < |run'| ensures StepOf(p, code, choices, run', i) {
      if i + 1 < |run| {
        assert StepOf(p, code, choices, run, i);
      }
    }
  }

  /** m and m' are moments k and k + 1 of a run. */
  ghost predicate Neighbours(p: Place, code: seq<Byte>, choices: nat -> Choice, run: seq<Moment>, k: nat,
                             choice: Choice, m: Moment, m': Moment) {
    Run(p, code, choices, run) && k + 1 < |run| && choices(k) == choice && run[k] == m && run[k + 1] == m'
  }

  /** Two moments that follow one another in some run. */
  ghost predicate Consecutive(p: Place, code: seq<Byte>, choice: Choice, m: Moment, m': Moment) {
    exists choices, run, k: nat :: Neighbours(p, code, choices, run, k, choice, m, m')
  }

  lemma InRun(p: Place, code: seq<Byte>, choices: nat -> Choice, run: seq<Moment>, k: nat)
    requires Run(p, code, choices, run) && k + 1 < |run|
    ensures Consecutive(p, code, choices(k), run[k], run[k + 1])
  {
    assert Neighbours(p, code, choices, run, k, choices(k), run[k], run[k + 1]);
  }

  /** What a step inside a function does. */
  lemma BodyOf(p: Place, code: seq<Byte>, choice: Choice, m: Moment, m': Moment)
    requires Consecutive(p, code, choice, m, m') && m.at.Body?
    ensures m.at.fs != [] && Fetch(code, m.ip).Got?
    ensures BodyStatus(p, Fetch(code, m.ip).i, m.at.fs, m, choice) == Going
    ensures BodyStep(p, Fetch(code, m.ip).i, Fetch(code, m.ip).next, m.at.fs, choice, m, m')
  {
    var choices, run, k: nat :| Neighbours(p, code, choices, run, k, choice, m, m');
    assert StepOf(p, code, choices, run, k);
  }

  lemma EntryOf(p: Place, code: seq<Byte>, choice: Choice, m: Moment, m': Moment)
    requires Consecutive(p, code, choice, m, m') && m.at.Entry?
    ensures EntryStep(p, code, m.at.fs, m.at.ret, m, m')
  {
    var choices, run, k: nat :| Neighbours(p, code, choices, run, k, choice, m, m');
    assert StepOf(p, code, choices, run, k);
  }

  // ----- calls and returns -----------------------------------------------------------------

  /** How the frames change: BEGIN adds one that returns where the call said, END removes one, and
      nothing else touches them. */
  ghost predicate FrameStep(s: Where, s': Where) {
    match s
    case Body(fs) =>
      || s' == Body(fs) || (s'.Entry? && s'.fs == fs)
      || (|fs| > 1 && s' == Body(fs[..|fs| - 1]))
    case Entry(fs, ret) =>
      && s'.Body? && |s'.fs| == |fs| + 1 && s'.fs[..|fs|] == fs
      && (fs != [] ==> s'.fs[|fs|].ret == ret)
  }

  lemma FramesStep(p: Place, code: seq<Byte>, choice: Choice, m: Moment, m': Moment)
    requires MomentStep(p, code, choice, m, m')
    ensures FrameStep(m.at, m'.at)
  {
  }

  lemma FramesInRun(p: Place, code: seq<Byte>, choices: nat -> Choice, run: seq<Moment>, i: nat)
    requires Run(p, code, choices, run) && i + 1 < |run|
    ensures FrameStep(run[i].at, run[i + 1].at)
  {
    assert StepOf(p, code, choices, run, i);
    FramesStep(p, code, choices(i), run[i], run[i + 1]);
  }

  ghost predicate AtLeast(run: seq<Moment>, i: nat, j: nat, k: nat)
    requires j < |run|
  {
    forall m {:trigger run[m]} :: i <= m <= j ==> k <= |run[m].at.fs|
  }

  /** While the frames are never fewer than k, the first k stay what they are. */
  lemma {:induction false} CallersStay(p: Place, code: seq<Byte>, choices: nat -> Choice, run: seq<Moment>, i: nat,
                                       j: nat, k: nat)
    requires Run(p, code, choices, run) && i <= j < |run| && AtLeast(run, i, j, k)
    ensures k <= |run[i].at.fs| && k <= |run[j].at.fs| && run[j].at.fs[..k] == run[i].at.fs[..k]
    decreases j
  {
    if i < j {
      CallersStay(p, code, choices, run, i, j - 1, k);
      FramesInRun(p, code, choices, run, j - 1);
      FirstKept(run[j - 1].at, run[j].at, k);
    }
  }

  lemma FirstKept(s: Where, s': Where, k: nat)
    requires FrameStep(s, s') && k <= |s.fs| && k <= |s'.fs|
    ensures s'.fs[..k] == s.fs[..k]
  {
  }

  /** Step i is at the BEGIN of a function, and step j at the END that leaves it. */
  ghost predicate Matching(run: seq<Moment>, i: nat, j: nat) {
    && i < j && j + 1 < |run| && run[i].at.Entry? && |run[j + 1].at.fs| == |run[i].at.fs|
    && forall m {:trigger run[m]} :: i < m <= j ==> |run[i].at.fs| < |run[m].at.fs|
  }

  /** Calls and returns are balanced to any depth: the frame that END removes is the one that the
      matching BEGIN has added, and the callers are left as they were. */
  lemma FramesBalanced(p: Place, code: seq<Byte>, choices: nat -> Choice, run: seq<Moment>, i: nat, j: nat)
    requires Run(p, code, choices, run) && Matching(run, i, j)
    ensures run[j].at == run[i + 1].at && run[j + 1].at == Body(run[i].at.fs)
  {
    var k := |run[i].at.fs|;
    FramesInRun(p, code, choices, run, i);
    FramesInRun(p, code, choices, run, j);
    CallersStay(p, code, choices, run, i + 1, j, k + 1);
    assert run[j].at.fs[..k + 1] == run[j].at.fs && run[i + 1].at.fs[..k + 1] == run[i + 1].at.fs;
  }

  lemma CallOf(p: Place, code: seq<Byte>, choices: nat -> Choice, run: seq<Moment>, c: nat)
    requires Run(p, code, choices, run) && c + 1 < |run| && run[c].at.Body? && run[c + 1].at.Entry?
    ensures run[c + 1].at.fs == run[c].at.fs != []
    ensures CallStored(p, run[c].d, run[c].top, run[c + 1].at.ret, run[c + 1].d, run[c + 1].top)
  {
    assert StepOf(p, code, choices, run, c);
  }

  lemma BeginOf(p: Place, code: seq<Byte>, choices: nat -> Choice, run: seq<Moment>, i: nat)
    requires Run(p, code, choices, run) && i + 1 < |run| && run[i].at.Entry?
    ensures var m := run[i];
            && IsFunction(code, m.ip)
            && run[i + 1].at == Body(m.at.fs + [NewFrame(code, m.at.fs, m.at.ret, m.ip, m.top, m.d)])
  {
    assert StepOf(p, code, choices, run, i);
  }

  lemma EndOf(p: Place, code: seq<Byte>, choices: nat -> Choice, run: seq<Moment>, j: nat)
    requires Run(p, code, choices, run) && j + 1 < |run| && |run[j + 1].at.fs| < |run[j].at.fs|
    ensures run[j].at.Body? && LeftFrame(p, run[j].at.fs[|run[j].at.fs| - 1], run[j], run[j + 1])
  {
    assert StepOf(p, code, choices, run, j);
  }

  /** From a CALL at step c to the return at step j: control goes on behind the CALL in the same frames; the
      operands of the caller are what they were, without the arguments and with the result of the function
      on top; no word above the arguments has changed, but for those that collections move. */
  lemma CallAndReturn(p: Place, code: seq<Byte>, choices: nat -> Choice, run: seq<Moment>, c: nat, j: nat)
    requires Run(p, code, choices, run) && Matching(run, c + 1, j) && run[c].at.Body?
    ensures run[j].at.fs != []
    ensures var before, last, after, n := run[c], run[j], run[j + 1], run[j].at.fs[|run[j].at.fs| - 1].nArgs;
            && after.at == before.at && after.ip == run[c + 1].at.ret && after.top == before.top + n - 1
            && |before.d| == |after.d| == |last.d| == p.size
            && 0 <= after.top + 1 < p.size && 0 <= last.top + 1 < p.size
            && after.d[after.top + 1] == last.d[last.top + 1]
            && -1 <= before.top + n && p.begin < p.size
            && forall i :: before.top + n < i <= p.begin && p.Stable(before.d[i]) ==> after.d[i] == before.d[i]
  {
    CallOf(p, code, choices, run, c);
    BeginOf(p, code, choices, run, c + 1);
    FramesBalanced(p, code, choices, run, c + 1, j);
    EndOf(p, code, choices, run, j);
  }
}
