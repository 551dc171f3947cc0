/** Why CheckPaths asks that no address comes back to itself by falling through: a closure with -2 captured
    variables, behind which `check_depth` goes round for ever although nothing is wrong with the depths. */
module CycleExample {
  import opened Bytecode
  import opened DepthTable
  import opened ControlFlow
  import opened DepthPaths
  import opened FallChains
  import opened DepthCheck
  import opened Verification
  import opened Options

  /** 0: BEGIN 0 0; 9: CALL Lread; 10: DROP; 11: CLOSURE 0 -2; 20: END.  After the closure comes 10 again. */
  function Program(): seq<Byte> {
    [0x52, 0, 0, 0, 0, 0, 0, 0, 0, 0x70, 0x18, 0x54, 0, 0, 0, 0, 0xFE, 0xFF, 0xFF, 0xFF, 0x16]
  }

  /** What the two decoders make of the instruction at ip. */
  function Listed(ip: int): Fetched {
    match ip
    case 0 => Got(Begin(false, 0, 0), 9)
    case 9 => Got(Lread, 10)
    case 10 => Got(Drop, 11)
    case 11 => Got(Closure(0, -2), 10)
    case _ => OutOfCode
  }

  function Ran(ip: int): Flow {
    match ip
    case 0 => Falls(9)
    case 9 => Falls(10)
    case 10 => Falls(11)
    case 11 => Falls(20)
    case 20 => Flow(21, false, None, true)
    case _ => Exits
  }

  ghost predicate Listing(c: seq<Byte>) {
    && (forall ip {:trigger Listed(ip)} :: Listed(ip).Got? ==> Fetch(c, ip) == Listed(ip))
    && forall ip {:trigger Ran(ip)} :: Ran(ip).Flow? ==> RunSpec(c, ip) == Ran(ip)
  }

  lemma ProgramListed()
    ensures Listing(Program())
  {
    var c := Program();
    assert ReadInt(c, 1) == 0 && ReadInt(c, 5) == 0 && ReadInt(c, 12) == 0 && ReadInt(c, 16) == -2;
  }

  function Points(): set<At> { {At(0, 0), At(9, 0), At(10, 1), At(11, 0)} }

  lemma PointMoves(c: seq<Byte>, x: At, y: At)
    requires Listing(c) && x in Points() && Moves(c, x, y)
    ensures y in Points() && !JumpMoves(c, x, y)
  {
    assert Listed(x.ip).Got? && Fetch(c, x.ip) == Listed(x.ip);
  }

  lemma PointAdmissible(c: seq<Byte>, x: At)
    requires Listing(c) && x in Points()
    ensures Admissible(c, x)
  {
    assert Listed(x.ip).Got? && Ran(x.ip).Flow?;
  }

  lemma AllPoints(c: seq<Byte>, a: At)
    requires Listing(c) && AbsReach(c, [0], a)
    ensures a in Points()
  {
    forall x, y | x in Points() && Moves(c, x, y) ensures y in Points() {
      PointMoves(c, x, y);
    }
    ClosedHoldsAbsReach(c, [0], Points(), a);
  }

  lemma NoTargets(c: seq<Byte>)
    requires Listing(c)
    ensures ExactTargets(c, [0], {})
  {
    assert Ran(0).Flow? && Ran(9).Flow? && Ran(10).Flow? && Ran(11).Flow? && Ran(20).Flow?;
    forall ip | Reachable(c, [0], ip) ensures ip in {0, 9, 10, 11, 20} {
      ClosedHoldsReachable(c, [0], {0, 9, 10, 11, 20}, ip);
    }
  }

  lemma NoJoint(c: seq<Byte>, a: At)
    requires Listing(c)
    ensures !Joint(c, [0], {}, a)
  {
    forall x | AbsReach(c, [0], x) && JumpMoves(c, x, a) ensures false {
      AllPoints(c, x);
      PointMoves(c, x, a);
    }
  }

  lemma NothingToReject(c: seq<Byte>)
    requires Listing(c)
    ensures Balanced(c, [0], {})
  {
    forall a | AbsReach(c, [0], a) ensures Admissible(c, a) {
      AllPoints(c, a);
      PointAdmissible(c, a);
    }
    forall a ensures !Joint(c, [0], {}, a) {
      NoJoint(c, a);
    }
  }

  lemma Reached(c: seq<Byte>)
    requires Listing(c)
    ensures AbsReach(c, [0], At(10, 1))
  {
    LeadsStart(c, 0);
    assert AbsReach(c, [0], At(0, 0));
    assert Listed(0).Got? && Listed(9).Got?;
    AbsReachOn(c, [0], At(0, 0), At(9, 0));
    AbsReachOn(c, [0], At(9, 0), At(10, 1));
  }

  lemma ComesBack(c: seq<Byte>)
    requires Listing(c)
    ensures FallTo(c, 10, 2) == Some(10)
  {
    assert Listed(10).Got? && Listed(11).Got? && Ran(10).Flow? && Ran(11).Flow?;
    assert FallOf(c, 10) == Some(11) && FallOf(c, 11) == Some(10);
    assert FallTo(c, 11, 1) == FallTo(c, 10, 0);
  }

  /** What the theorem below says of the program. */
  ghost predicate NeverOver(c: seq<Byte>, n: nat) {
    && ExactTargets(c, [0], {}) && Balanced(c, [0], {}) && !LoopEnds(c, [0], {})
    && !Over(Turns(Step(c, {}), Start([0]), n)) && forall a :: AbsReach(c, [0], a) ==> 0 <= a.depth <= 1
  }

  lemma Shallow(c: seq<Byte>)
    requires Listing(c)
    ensures forall a :: AbsReach(c, [0], a) ==> 0 <= a.depth <= 1
  {
    forall a | AbsReach(c, [0], a) ensures 0 <= a.depth <= 1 {
      AllPoints(c, a);
    }
  }

  lemma Cycling(c: seq<Byte>, a: At)
    requires AbsReach(c, [0], a) && FallTo(c, a.ip, 2) == Some(a.ip)
    ensures !NoFallCycle(c, [0])
  {
  }

  lemma Round(c: seq<Byte>, n: nat)
    requires Listing(c)
    ensures NeverOver(c, n)
  {
    NoTargets(c);
    NothingToReject(c);
    Reached(c);
    ComesBack(c);
    Shallow(c);
    Cycling(c, At(10, 1));
    EndsExactly(c, [0], {});
    CycleNeverEnds(c, [0], {}, At(10, 1), 2, n);
  }

  /** `check_depth` does not end: after any number n of turns nothing has been rejected and its worklist is
      not empty, at depths of no more than 1. */
  lemma GoesRoundForEver(n: nat)
    ensures NeverOver(Program(), n)
  {
    ProgramListed();
    Round(Program(), n);
  }
}
