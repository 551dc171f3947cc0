/** Verified programs that call only known functions, and what the verifier's result says about each
    point that execution can be at. */
module DirectCalls {
  import opened Bytecode
  import opened DepthTable
  import opened DepthPaths
  import opened FallChains
  import opened BeginPatch
  import opened Frames

  predicate IsFunction(code: seq<Byte>, e: int) {
    Fetch(code, e).Got? && Fetch(code, e).i.Begin? && 0 <= Fetch(code, e).i.nLocals
  }

  function ArgsOf(code: seq<Byte>, e: int): (n: nat)
    requires IsFunction(code, e)
    ensures n < 0x1_0000
  {
    RealArgs(Fetch(code, e).i.nArgs)
  }

  function LocalsOf(code: seq<Byte>, e: int): nat
    requires IsFunction(code, e)
  {
    Fetch(code, e).i.nLocals
  }

  /** A variable of the function at e; captured variables belong to closures. */
  predicate KnownVariable(code: seq<Byte>, e: int, kind: int, index: int)
    requires IsFunction(code, e)
  {
    || (kind == GLOBAL && 0 <= index < N_GLOBAL - 1)
    || (kind == LOCAL && 0 <= index < LocalsOf(code, e))
    || (kind == ARG && 0 <= index < ArgsOf(code, e))
  }

  function CountOf(i: Instr): int {
    match i
    case Sexp(_, n) => n
    case Barray(n) => n
    case Closure(_, n) => n
    case _ => 0
  }

  /** What a direct-call program does at the point a of the function at e: it calls public functions
      with the number of arguments they take, and no closures; its counts fit in 7 bits; it touches
      only variables that exist; it leaves a function with a result; STOP does not occur. */
  predicate Direct(code: seq<Byte>, publics: seq<int>, e: int, a: At)
    requires IsFunction(code, e) && Fetch(code, a.ip).Got?
  {
    var i := Fetch(code, a.ip).i;
    && !i.Stop? && !i.CallC? && 0 <= CountOf(i) <= 127
    && (i.Call? ==> i.target in publics && IsFunction(code, i.target) && i.n == ArgsOf(code, i.target) <= 127)
    && (i.Ld? ==> KnownVariable(code, e, i.kind, i.index))
    && (i.Lda? ==> KnownVariable(code, e, i.kind, i.index))
    && (i.St? ==> KnownVariable(code, e, i.kind, i.index))
    && (i.End? ==> 1 <= a.depth)
  }

  /** The instruction at `ip` is a BEGIN, which only a call may lead to. */
  predicate AtBegin(code: seq<Byte>, ip: int) { Fetch(code, ip).Got? && Fetch(code, ip).i.Begin? }

  ghost predicate DirectProgram(code: seq<Byte>, publics: seq<int>) {
    && 0 in publics && (forall e :: e in publics ==> IsFunction(code, e)) && ArgsOf(code, 0) < N_GLOBAL - 1
    && (forall e, a, m {:trigger Leads(code, e, a, m)} ::
          e in publics && Leads(code, e, a, m) && Fetch(code, a.ip).Got? ==>
          Direct(code, publics, e, a))
    && forall a, b {:trigger Moves(code, a, b)} :: AbsReach(code, publics, a) && Moves(code, a, b) ==>
         !AtBegin(code, b.ip)
  }

  /** Such a program makes no closure with a negative count, so that the verifier comes to an end. */
  lemma DirectStepsForward(code: seq<Byte>, publics: seq<int>)
    requires DirectProgram(code, publics)
    ensures StepsForward(code, publics) && NoFallCycle(code, publics)
  {
    forall a | AbsReach(code, publics, a) && Fetch(code, a.ip).Got? && Fetch(code, a.ip).i.Closure?
      ensures -1 <= Fetch(code, a.ip).i.n
    {
      var e, m :| e in publics && Leads(code, e, a, m);
      assert Direct(code, publics, e, a);
    }
    ForwardNoCycle(code, publics);
  }

  /** Execution of the function at e can be at a. */
  ghost predicate Within(code: seq<Byte>, publics: seq<int>, e: int, a: At) {
    e in publics && exists m :: Leads(code, e, a, m)
  }

  /** A program that the verifier has accepted. */
  ghost predicate Verified(code: seq<Byte>, publics: seq<int>, targets: set<int>) {
    DirectProgram(code, publics) && Balanced(code, publics, targets)
  }

  lemma WithinStart(code: seq<Byte>, publics: seq<int>, e: int)
    requires e in publics
    ensures Within(code, publics, e, At(e, 0))
  {
    LeadsStart(code, e);
  }

  /** What is known at a point: the operands are there, and the table is right about the instruction. */
  lemma PointKnown(code: seq<Byte>, publics: seq<int>, targets: set<int>, e: int, a: At)
    requires Verified(code, publics, targets) && Within(code, publics, e, a)
    ensures Admissible(code, a) && AbsReach(code, publics, a) && IsFunction(code, e) && Direct(code, publics, e, a)
    ensures var i := Fetch(code, a.ip).i;
            && 0 <= Pops(i) <= a.depth && (!i.End? ==> After(code, a) == a.depth + Pushes(i) - Pops(i))
  {
    var m :| Leads(code, e, a, m);
    assert AbsReach(code, publics, a);
    var i := Fetch(code, a.ip).i;
    CountsFit(i);
    TableRight(i);
  }

  lemma CountsFit(i: Instr)
    requires 0 <= CountOf(i) <= 127 && (i.Call? ==> 0 <= i.n <= 127)
    ensures CountFits(i) && (!i.CallC? ==> Pops(i) >= 0)
  {
  }

  /** Execution goes on within the same function. */
  lemma WithinNext(code: seq<Byte>, publics: seq<int>, targets: set<int>, e: int, a: At, b: At)
    requires Verified(code, publics, targets) && Within(code, publics, e, a) && Moves(code, a, b)
    ensures Within(code, publics, e, b) && !AtBegin(code, b.ip) && 0 <= b.ip <= |code|
  {
    var m :| Leads(code, e, a, m);
    assert AbsReach(code, publics, a);
    LeadsOn(code, e, a, m, b);
    AbsReachOn(code, publics, a, b);
    assert Admissible(code, b);
  }
}
