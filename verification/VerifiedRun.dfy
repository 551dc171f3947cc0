/** `run_with_verifier_checks`: verification, and then the interpreter without checks on the code that
    the verifier has patched. */
module VerifiedRun {
  import opened Words
  import opened Bytecode
  import opened DepthTable
  import opened DepthPaths
  import opened DepthCheck
  import opened BeginPatch
  import opened Verification
  import opened Frames
  import opened DirectCalls
  import opened ControlFlow
  import opened Effects
  import opened Runs
  import opened Interpreter

  /** No instruction that is reached shares bytes with the argument count of another function. */
  ghost predicate NoOverlap(code: seq<Byte>, publics: seq<int>) {
    forall a, b {:trigger AbsReach(code, publics, a), b in publics} ::
      AbsReach(code, publics, a) && b in publics && Fetch(code, a.ip).Got? && a.ip != b ==>
        a.ip + Width(Fetch(code, a.ip).i) <= b + 1 || b + 5 <= a.ip
  }

  lemma EntryReached(code: seq<Byte>, publics: seq<int>, e: int)
    requires e in publics
    ensures AbsReach(code, publics, At(e, 0))
  {
    LeadsStart(code, e);
  }

  lemma PatchesApart(code: seq<Byte>, publics: seq<int>, begins: set<int>)
    requires DirectProgram(code, publics) && NoOverlap(code, publics) && forall b :: b in begins ==> b in publics
    ensures Apart(begins)
  {
    forall b, c | b in begins && c in begins && b != c ensures b + 4 <= c || c + 4 <= b {
      EntryReached(code, publics, b);
      assert AbsReach(code, publics, At(b, 0)) && c in publics;
    }
  }

  /** Of the bytes of an instruction that is reached, only the count of a BEGIN is patched. */
  lemma OnlyCount(code: seq<Byte>, publics: seq<int>, begins: set<int>, a: At, x: int)
    requires NoOverlap(code, publics) && forall b :: b in begins ==> b in publics
    requires AbsReach(code, publics, a) && Fetch(code, a.ip).Got?
    requires a.ip <= x < a.ip + Width(Fetch(code, a.ip).i) && Covered(begins, x)
    ensures a.ip in begins && a.ip + 1 <= x < a.ip + 5
  {
    var b :| b in begins && b + 1 <= x < b + 5;
    assert b in publics;
  }

  lemma PatchedOther(c0: seq<Byte>, c1: seq<Byte>, publics: seq<int>, maxStack: map<int, int>, a: At)
    requires NoOverlap(c0, publics) && Patched(c0, c1, maxStack, {}) && forall b :: b in maxStack ==> b in publics
    requires AbsReach(c0, publics, a) && Fetch(c0, a.ip).Got? && a.ip !in maxStack
    ensures Fetch(c1, a.ip) == Fetch(c0, a.ip)
  {
    var w := Width(Fetch(c0, a.ip).i);
    forall x | a.ip <= x < a.ip + w && 0 <= x < |c0| ensures c1[x] == c0[x] {
      if Covered(maxStack.Keys, x) {
        OnlyCount(c0, publics, maxStack.Keys, a, x);
      }
    }
    FetchLocal(c0, c1, a.ip);
  }

  /** The other bytes of a BEGIN. */
  lemma BeginBytes(c0: seq<Byte>, c1: seq<Byte>, publics: seq<int>, maxStack: map<int, int>, a: At, x: int)
    requires NoOverlap(c0, publics) && Untouched(c0, c1, maxStack.Keys) && forall b :: b in maxStack ==> b in publics
    requires AbsReach(c0, publics, a) && Fetch(c0, a.ip).Got? && Fetch(c0, a.ip).i.Begin?
    requires (x == a.ip || a.ip + 5 <= x < a.ip + 9) && 0 <= x < |c0|
    ensures c1[x] == c0[x]
  {
    if Covered(maxStack.Keys, x) {
      OnlyCount(c0, publics, maxStack.Keys, a, x);
    }
  }

  lemma PatchedBegin(c0: seq<Byte>, c1: seq<Byte>, publics: seq<int>, maxStack: map<int, int>, a: At)
    requires NoOverlap(c0, publics) && Patched(c0, c1, maxStack, {}) && forall b :: b in maxStack ==> b in publics
    requires AbsReach(c0, publics, a) && Fetch(c0, a.ip).Got? && Fetch(c0, a.ip).i.Begin? && a.ip in maxStack
    ensures SameFetch(Fetch(c0, a.ip), Fetch(c1, a.ip))
    ensures Fetch(c1, a.ip).i.nArgs == Wrap32(Fetch(c0, a.ip).i.nArgs + maxStack[a.ip] * 0x1_0000)
  {
    FetchWidth(c0, a.ip);
    forall x | (x == a.ip || a.ip + 5 <= x < a.ip + 9) && 0 <= x < |c0| ensures c1[x] == c0[x] {
      BeginBytes(c0, c1, publics, maxStack, a, x);
    }
    assert Raised(c0, c1, a.ip, maxStack[a.ip], a.ip in {});
    FetchBegin(c0, c1, a.ip, maxStack[a.ip]);
  }

  lemma PatchedInstr(c0: seq<Byte>, c1: seq<Byte>, publics: seq<int>, maxStack: map<int, int>, a: At)
    requires DirectProgram(c0, publics) && NoOverlap(c0, publics) && Patched(c0, c1, maxStack, {})
    requires forall b :: b in maxStack ==> b in publics
    requires AbsReach(c0, publics, a) && Fetch(c0, a.ip).Got?
    ensures SameFetch(Fetch(c0, a.ip), Fetch(c1, a.ip))
  {
    if a.ip in maxStack {
      assert IsFunction(c0, a.ip);
      PatchedBegin(c0, c1, publics, maxStack, a);
    } else {
      PatchedOther(c0, c1, publics, maxStack, a);
    }
  }

  /** The patch does not change what the program does. */
  lemma PatchHarmless(c0: seq<Byte>, c1: seq<Byte>, publics: seq<int>, targets: set<int>, maxStack: map<int, int>)
    requires DirectProgram(c0, publics) && NoOverlap(c0, publics) && Balanced(c0, publics, targets)
    requires PeaksWitnessed(c0, publics, maxStack) && (Apart(maxStack.Keys) ==> Patched(c0, c1, maxStack, {}))
    ensures SameProgram(c0, c1, publics)
  {
    PatchesApart(c0, publics, maxStack.Keys);
    forall a | AbsReach(c0, publics, a) ensures SameFetch(Fetch(c0, a.ip), Fetch(c1, a.ip)) {
      assert Admissible(c0, a);
      PatchedInstr(c0, c1, publics, maxStack, a);
    }
  }

  /** What the verifier has established about the code it was given, and done to it. */
  ghost predicate Certified(c0: seq<Byte>, c1: seq<Byte>, publics: seq<int>, targets: set<int>,
                            maxStack: map<int, int>) {
    && ExactTargets(c0, publics, targets) && Balanced(c0, publics, targets)
    && PeaksWitnessed(c0, publics, maxStack) && FallsRecorded(c0, publics, maxStack) && Patched(c0, c1, maxStack, {})
  }

  /** There is room for the maxima: functions begin with a BEGIN. */
  lemma MaximaFit(code: seq<Byte>, publics: seq<int>, maxStack: map<int, int>)
    requires DirectProgram(code, publics)
    ensures PeaksWitnessed(code, publics, maxStack) ==> Fits(maxStack, |code|)
  {
    forall b | PeaksWitnessed(code, publics, maxStack) && b in maxStack ensures 0 <= b && b + 5 <= |code| {
      assert maxStack[b] == maxStack[b] && IsFunction(code, b);
      FetchWidth(code, b);
    }
  }

  /** The place of a program that has been loaded with its maxima. */
  function Loaded(place: Place, code: seq<Byte>): Place {
    place.(recorded :=
      e => if Fetch(code, e).Got? && Fetch(code, e).i.Begin? then Recorded(Fetch(code, e).i.nArgs) else 0)
  }

  lemma LoadedIsValid(place: Place, code: seq<Byte>)
    requires place.Valid()
    ensures Loaded(place, code).Valid()
  {
    var q := Loaded(place, code);
    forall i | 0 <= i < q.size ensures q.outside(q.Address(i)) {
      assert q.Address(i) == place.Address(i);
    }
    forall ip | 0 <= ip <= q.codeSize ensures q.Stable(q.CodeAddress(ip)) {
      assert q.CodeAddress(ip) == place.CodeAddress(ip) && place.Stable(place.CodeAddress(ip));
    }
    forall i | -3 <= i < q.size + 3 ensures !q.heap(q.Address(i)) {
      assert q.Address(i) == place.Address(i) && !place.heap(place.Address(i));
    }
    forall ip | 0 <= ip < q.codeSize ensures !q.heap(q.CodeWord(ip)) {
      assert q.CodeWord(ip) == place.CodeWord(ip) && !place.heap(place.CodeWord(ip));
    }
  }

  /** A direct-call program is accepted exactly if all reachable code decodes and all paths are balanced, and then runs
      without its checks as described in Interpreter.Interpret. */
  method RunWithVerifierChecks(code: array<Byte>, publics: seq<int>, place: Place, data: array<Word>, steps: nat,
                               choices: nat -> Choice)
    returns (accepted: bool, st: Status, ip: int, vm: Vm, ghost run: seq<Moment>, ghost targets: set<int>,
             ghost maxStack: map<int, int>)
    requires DirectProgram(code[..], publics) && NoOverlap(code[..], publics)
    requires place.Valid() && data.Length == place.size && place.codeSize == code.Length
    modifies code, data
    ensures AllDecode(old(code[..]), publics) ==> ExactTargets(old(code[..]), publics, targets)
    ensures accepted <==> AllDecode(old(code[..]), publics) && Balanced(old(code[..]), publics, targets)
    ensures accepted ==> Certified(old(code[..]), code[..], publics, targets, maxStack)
    ensures accepted ==> vm.p == Loaded(place, code[..]) && vm.code == code[..] && vm.data == data
    ensures accepted ==> Run(vm.p, vm.code, choices, run) && run[0].d == old(data[..])
    ensures accepted ==> RunsTo(vm, old(code[..]), publics, choices, steps, st, ip, run)
  {
    ghost var c0 := code[..];
    DirectStepsForward(c0, publics);
    accepted, targets, maxStack := Verify(code, publics);
    MaximaFit(c0, publics, maxStack);
    st, ip, run := Going, 0, [];
    LoadedIsValid(place, code[..]);
    vm := new Vm(Loaded(place, code[..]), code[..], data);
    if accepted {
      PatchHarmless(c0, code[..], publics, targets, maxStack);
      PatchesApart(c0, publics, maxStack.Keys);
      st, ip, run := Interpret(vm, steps, choices, c0, publics, targets);
    }
  }
}
