/** The program of CallExample, verified and run to its end. */
module CallRun {
  import opened Words
  import opened Bytecode
  import opened Frames
  import opened Effects
  import opened Runs
  import opened OpcodeSteps
  import opened BeginPatch
  import opened Interpreter
  import opened VerifiedRun
  import opened DirectCalls
  import opened DepthPaths
  import opened ControlFlow
  import opened Verification
  import CallExample

  /** The bytes of the program after the patch: both functions need room for one operand. */
  predicate Bytes(c: seq<Byte>) {
    && |c| == 39 && c[0] == 0x52 && ReadInt(c, 1) == 0x1_0002 && ReadInt(c, 5) == 0
    && c[9] == 0x10 && ReadInt(c, 10) == 0 && c[14] == 0x56 && ReadInt(c, 15) == 24 && c[23] == 0x16
    && c[24] == 0x52 && ReadInt(c, 25) == 0x1_0001 && ReadInt(c, 29) == 0
    && c[33] == 0x22 && ReadInt(c, 34) == 0 && c[38] == 0x16
  }

  /** A run of it, on an array with room for the two frames. */
  ghost predicate OfProgram(p: Place, c: seq<Byte>, choices: nat -> Choice, run: seq<Moment>) {
    Bytes(c) && 20 <= p.begin && Run(p, c, choices, run)
  }

  /** The registers, the number of frames, and the word at b - 3, where the constant, the argument and the result
      are. */
  predicate Shows(m: Moment, ip: int, top: int, bp: int, nArgs: int, frames: nat) {
    m.at.Body? && m.ip == ip && m.top == top && m.bp == bp && m.nArgs == nArgs && |m.at.fs| == frames
  }

  /** The array is there, and holds w at slot s. */
  predicate Holds(p: Place, m: Moment, s: int, w: Word) { 0 <= s < |m.d| == p.size && m.d[s] == w }

  /** The moments of the run, from BEGIN of main to its END; b is `stack_begin`. */
  ghost predicate Expected(p: Place, k: nat, m: Moment) {
    var b := p.begin;
    match k
    case 0 => Starting(p, m)
    case 1 => Shows(m, 9, b - 3, b - 1, 2, 1) && |m.d| == p.size
    case 2 => Shows(m, 14, b - 4, b - 1, 2, 1) && Holds(p, m, b - 3, 1)
    case 3 =>
      && m.at.Entry? && m.ip == 24 && m.top == b - 5 && m.bp == b - 1 && m.nArgs == 2 && |m.at.fs| == 1
      && Holds(p, m, b - 3, 1) && Holds(p, m, b - 4, p.CodeAddress(23))
    case 4 => Shows(m, 33, b - 8, b - 6, 1, 2) && Holds(p, m, b - 3, 1) && Holds(p, m, b - 4, p.CodeAddress(23))
    case 5 => Shows(m, 38, b - 9, b - 6, 1, 2) && Holds(p, m, b - 8, 1) && Holds(p, m, b - 4, p.CodeAddress(23))
    case 6 => m.at.Body? && m.ip == 23 && m.top == b - 4 && |m.at.fs| == 1 && Holds(p, m, b - 3, 1)
    case _ => true
  }

  lemma FirstBegin(p: Place, c: seq<Byte>, choices: nat -> Choice, run: seq<Moment>)
    requires OfProgram(p, c, choices, run) && 1 < |run| && Expected(p, 0, run[0])
    ensures Expected(p, 1, run[1])
  {
    InRun(p, c, choices, run, 0);
    StepBegin(p, c, choices(0), run[0], run[1]);
  }

  lemma Constant(p: Place, c: seq<Byte>, choices: nat -> Choice, run: seq<Moment>)
    requires OfProgram(p, c, choices, run) && 2 < |run| && Expected(p, 1, run[1])
    ensures Expected(p, 2, run[2])
  {
    InRun(p, c, choices, run, 1);
    StepConst(p, c, choices(1), run[1], run[2]);
  }

  lemma Call(p: Place, c: seq<Byte>, choices: nat -> Choice, run: seq<Moment>)
    requires OfProgram(p, c, choices, run) && 3 < |run| && Expected(p, 2, run[2])
    ensures Expected(p, 3, run[3])
  {
    InRun(p, c, choices, run, 2);
    StepCall(p, c, choices(2), run[2], run[3]);
  }

  lemma SecondBegin(p: Place, c: seq<Byte>, choices: nat -> Choice, run: seq<Moment>)
    requires OfProgram(p, c, choices, run) && 4 < |run| && Expected(p, 3, run[3])
    ensures Expected(p, 4, run[4])
  {
    InRun(p, c, choices, run, 3);
    StepBegin(p, c, choices(3), run[3], run[4]);
  }

  lemma Argument(p: Place, c: seq<Byte>, choices: nat -> Choice, run: seq<Moment>)
    requires OfProgram(p, c, choices, run) && 5 < |run| && Expected(p, 4, run[4])
    ensures Expected(p, 5, run[5])
  {
    InRun(p, c, choices, run, 4);
    StepLd(p, c, choices(4), run[4], run[5]);
  }

  lemma Return(p: Place, c: seq<Byte>, choices: nat -> Choice, run: seq<Moment>)
    requires OfProgram(p, c, choices, run) && 6 < |run| && Expected(p, 5, run[5]) && p.Valid() && p.codeSize == 39
    ensures Expected(p, 6, run[6])
  {
    InRun(p, c, choices, run, 5);
    StepEnd(p, c, choices(5), run[5], run[6]);
    p.CodeOffset(23);
  }

  /** Every moment of the run is the one expected. */
  lemma {:induction false} Traced(p: Place, c: seq<Byte>, choices: nat -> Choice, run: seq<Moment>, k: nat)
    requires OfProgram(p, c, choices, run) && k < |run| && p.Valid() && p.codeSize == 39
    ensures Expected(p, k, run[k])
  {
    if 0 < k <= 6 {
      Traced(p, c, choices, run, k - 1);
      match k
      case 1 => FirstBegin(p, c, choices, run);
      case 2 => Constant(p, c, choices, run);
      case 3 => Call(p, c, choices, run);
      case 4 => SecondBegin(p, c, choices, run);
      case 5 => Argument(p, c, choices, run);
      case 6 => Return(p, c, choices, run);
    }
  }

  // ----- where it stops --------------------------------------------------------------------

  /** Inside a function, with the words that an instruction may look at, the run goes on or stops as one of three. */
  lemma GoesOn(p: Place, c: seq<Byte>, choice: Choice, k: nat, m: Moment)
    requires Bytes(c) && 20 <= p.begin && k < 6 && Expected(p, k, m) && |m.d| == p.size && p.begin + 1000 <= p.size
    ensures StatusAt(p, c, m, choice) == Going
  {
    if k == 0 || k == 3 {
      OverflowsExactly(p, c, choice, m);
    } else {
      DecodedHere(c, m.ip);
    }
  }

  lemma DecodedHere(c: seq<Byte>, ip: int)
    requires Bytes(c)
    ensures ip == 9 ==> Fetch(c, ip) == Got(Const(0), 14)
    ensures ip == 14 ==> Fetch(c, ip).Got? && Fetch(c, ip).i.Call?
    ensures ip == 33 ==> Fetch(c, ip) == Got(Ld(ARG, 0), 38)
    ensures ip == 38 || ip == 23 ==> Fetch(c, ip) == Got(End, ip + 1)
  {
  }

  lemma Halts(p: Place, c: seq<Byte>, choice: Choice, m: Moment)
    requires Bytes(c) && Expected(p, 6, m)
    ensures StatusAt(p, c, m, choice) == Halted
  {
    DecodedHere(c, 23);
  }

  lemma Continues(p: Place, c: seq<Byte>, choices: nat -> Choice, run: seq<Moment>, k: nat)
    requires Run(p, c, choices, run)
    ensures k + 1 < |run| ==> StatusAt(p, c, run[k], choices(k)) == Going
  {
    if k + 1 < |run| {
      assert StepOf(p, c, choices, run, k);
    }
  }

  lemma ArrayThere(p: Place, c: seq<Byte>, choices: nat -> Choice, run: seq<Moment>, k: nat)
    requires OfProgram(p, c, choices, run) && k < |run| && p.Valid() && p.codeSize == 39 && k <= 6
    ensures |run[k].d| == p.size && p.begin + 1000 <= p.size
  {
    Traced(p, c, choices, run, k);
  }

  /** A run of at least 7 steps is over after 6 of them, with the boxed 0 as the result. */
  lemma RunsToEnd(p: Place, c: seq<Byte>, choices: nat -> Choice, run: seq<Moment>, st: Status, steps: nat)
    requires OfProgram(p, c, choices, run) && p.Valid() && p.codeSize == 39
    requires 7 <= steps && |run| <= steps + 1 && (st.Going? <==> |run| == steps + 1)
    requires !st.Going? ==> st == StatusAt(p, c, run[|run| - 1], choices(|run| - 1))
    ensures st == Halted && |run| == 7 && Expected(p, 6, run[6])
  {
    var n := |run| - 1;
    if n >= 6 {
      Traced(p, c, choices, run, 6);
      Halts(p, c, choices(6), run[6]);
      Continues(p, c, choices, run, 6);
    } else {
      Traced(p, c, choices, run, n);
      ArrayThere(p, c, choices, run, n);
      GoesOn(p, c, choices(n), n, run[n]);
    }
  }

  // ----- verify, patch and run -------------------------------------------------------------

  /** The same bytes before the patch. */
  predicate Original(c: seq<Byte>) {
    && |c| == 39 && c[0] == 0x52 && ReadInt(c, 1) == 2 && ReadInt(c, 5) == 0
    && c[9] == 0x10 && ReadInt(c, 10) == 0 && c[14] == 0x56 && ReadInt(c, 15) == 24 && c[23] == 0x16
    && c[24] == 0x52 && ReadInt(c, 25) == 1 && ReadInt(c, 29) == 0
    && c[33] == 0x22 && ReadInt(c, 34) == 0 && c[38] == 0x16
  }

  lemma Kept(c0: seq<Byte>, c: seq<Byte>, a: int)
    requires Patched(c0, c, map[0 := 1, 24 := 1], {}) && 0 <= a < |c0|
    requires !(1 <= a < 5) && !(25 <= a < 29)
    ensures |c| == |c0| && c[a] == c0[a]
  {
    assert !Covered(map[0 := 1, 24 := 1].Keys, a);
  }

  /** An integer that is not patched. */
  lemma IntKept(c0: seq<Byte>, c: seq<Byte>, a: int)
    requires Patched(c0, c, map[0 := 1, 24 := 1], {}) && |c0| == 39 && a in {5, 10, 15, 29, 34}
    ensures |c| == 39 && ReadInt(c, a) == ReadInt(c0, a)
  {
    forall b | a <= b < a + 4 ensures |c| == |c0| && c[b] == c0[b] {
      Kept(c0, c, b);
    }
    Kept(c0, c, 0);
    SameInt(c0, c, a);
  }

  lemma CountsRaised(c0: seq<Byte>, c: seq<Byte>)
    requires Patched(c0, c, map[0 := 1, 24 := 1], {}) && |c0| == |c| == 39
    requires ReadInt(c0, 1) == 2 && ReadInt(c0, 25) == 1
    ensures ReadInt(c, 1) == 0x1_0002 && ReadInt(c, 25) == 0x1_0001
  {
    var maxStack := map[0 := 1, 24 := 1];
    assert Raised(c0, c, 0, maxStack[0], 0 in {}) && Raised(c0, c, 24, maxStack[24], 24 in {});
  }

  /** Both maxima are 1, and are added to the upper halves of the argument counts. */
  lemma PatchedBytes(c0: seq<Byte>, c: seq<Byte>)
    requires Original(c0) && Patched(c0, c, map[0 := 1, 24 := 1], {})
    ensures Bytes(c)
  {
    forall a | a in {0, 9, 14, 23, 24, 33, 38} ensures |c| == 39 && c[a] == c0[a] {
      Kept(c0, c, a);
    }
    forall a | a in {5, 10, 15, 29, 34} ensures |c| == 39 && ReadInt(c, a) == ReadInt(c0, a) {
      IntKept(c0, c, a);
    }
    CountsRaised(c0, c);
  }

  /** All that verification and run need of the program. */
  ghost predicate Suits(c: seq<Byte>) {
    && Original(c) && CallExample.Listing(c) && DirectProgram(c, [0, 24]) && NoOverlap(c, [0, 24])
    && Balanced(c, [0, 24], {24})
  }

  lemma ProgramSuits()
    ensures Suits(CallExample.Program())
  {
    CallExample.Integers();
    CallExample.ProgramListed();
    CallExample.CanRun();
  }

  /** What the verifier has recorded for it. */
  lemma Patches(c0: seq<Byte>, c: seq<Byte>, targets: set<int>, maxStack: map<int, int>)
    requires Suits(c0) && Certified(c0, c, [0, 24], targets, maxStack)
    ensures Bytes(c)
  {
    CallExample.MaximaAre(c0, maxStack);
    PatchedBytes(c0, c);
  }

  lemma IsAccepted(c: seq<Byte>, targets: set<int>)
    requires Suits(c) && (AllDecode(c, [0, 24]) ==> ExactTargets(c, [0, 24], targets))
    ensures AllDecode(c, [0, 24]) && Balanced(c, [0, 24], targets)
  {
    CallExample.TargetsAre(c, targets);
  }

  /** The run of the patched code. */
  lemma PatchedRun(p: Place, place: Place, c: seq<Byte>, choices: nat -> Choice, run: seq<Moment>, st: Status,
                   steps: nat)
    requires Bytes(c) && place.Valid() && place.codeSize == 39 && 20 <= place.begin && p == Loaded(place, c)
    requires Run(p, c, choices, run) && 7 <= steps && |run| <= steps + 1 && (st.Going? <==> |run| == steps + 1)
    requires !st.Going? ==> st == StatusAt(p, c, run[|run| - 1], choices(|run| - 1))
    ensures st == Halted && |run| == 7 && Holds(place, run[6], place.begin - 3, 1)
  {
    LoadedIsValid(place, c);
    RunsToEnd(p, c, choices, run, st, steps);
  }

  lemma Concludes(vm: Vm, c0: seq<Byte>, place: Place, choices: nat -> Choice, steps: nat, st: Status, ip: int,
                  run: seq<Moment>)
    requires Bytes(vm.code) && place.Valid() && place.codeSize == 39 && 20 <= place.begin && 7 <= steps
    requires vm.p == Loaded(place, vm.code)
    requires Run(vm.p, vm.code, choices, run) && RunsTo(vm, c0, [0, 24], choices, steps, st, ip, run)
    ensures st == Halted && |run| == 7 && vm.data[..] == run[6].d && Holds(place, run[6], place.begin - 3, 1)
  {
    PatchedRun(vm.p, place, vm.code, choices, run, st, steps);
  }

  method RunSuiting(code: array<Byte>, place: Place, data: array<Word>, steps: nat, choices: nat -> Choice)
    returns (st: Status, vm: Vm, ghost run: seq<Moment>)
    requires Suits(code[..])
    requires place.Valid() && data.Length == place.size && place.codeSize == 39 && 20 <= place.begin && 7 <= steps
    modifies code, data
    ensures st == Halted && |run| == 7 && vm.data == data && data[..] == run[6].d
    ensures Holds(place, run[6], place.begin - 3, 1)
  {
    ghost var c0 := code[..];
    var accepted, ip;
    ghost var targets, maxStack;
    accepted, st, ip, vm, run, targets, maxStack := RunWithVerifierChecks(code, [0, 24], place, data, steps, choices);
    IsAccepted(c0, targets);
    Patches(c0, code[..], targets, maxStack);
    Concludes(vm, c0, place, choices, steps, st, ip, run);
  }

  /** The program is accepted, patched, and run to its end, whatever the array holds before: main halts with the result
      of the function, the boxed 0, on top of the stack. */
  method RunToEnd(place: Place, data: array<Word>, steps: nat, choices: nat -> Choice)
    returns (st: Status, vm: Vm, ghost run: seq<Moment>)
    requires place.Valid() && data.Length == place.size && place.codeSize == 39 && 20 <= place.begin && 7 <= steps
    modifies data
    ensures st == Halted && |run| == 7 && vm.data == data && data[..] == run[6].d
    ensures Holds(place, run[6], place.begin - 3, 1)
  {
    var code := new Byte[39](k requires 0 <= k < 39 => CallExample.Program()[k]);
    ProgramSuits();
    assert code[..] == CallExample.Program();
    st, vm, run := RunSuiting(code, place, data, steps, choices);
  }
}
