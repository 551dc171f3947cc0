/** Why Verification.Plain excludes STOP: `run_instruction` ends a path there and
    `visit_instruction` goes on, so that a jump behind it is not among the targets that the first
    pass collects. */
module StopExample {
  import opened Bytecode
  import opened DepthTable
  import opened ControlFlow
  import opened DepthPaths
  import opened Verification
  import opened Options

  /** 0: BEGIN 0 0; 9: STOP; 10: CONST 0; 15: CJMPz 25; 20: CONST 0; 25: END */
  function Program(): seq<Byte> {
    [0x52, 0, 0, 0, 0, 0, 0, 0, 0, 0xF0, 0x10, 0, 0, 0, 0, 0x50, 25, 0, 0, 0, 0x10, 0, 0, 0, 0, 0x16]
  }

  /** What the two decoders make of the instruction at ip. */
  function Listed(ip: int): Fetched {
    match ip
    case 0 => Got(Begin(false, 0, 0), 9)
    case 9 => Got(Stop, 10)
    case 10 => Got(Const(0), 15)
    case 15 => Got(Cjmp(false, 25), 20)
    case 20 => Got(Const(0), 25)
    case 25 => Got(End, 26)
    case _ => OutOfCode
  }

  function Ran(ip: int): Flow {
    match ip
    case 0 => Falls(9)
    case 9 => Flow(10, false, None, true)
    case 10 => Falls(15)
    case 15 => Flow(20, true, Some(25), false)
    case 20 => Falls(25)
    case 25 => Flow(26, false, None, true)
    case _ => Exits
  }

  ghost predicate Listing(c: seq<Byte>) {
    && |c| == 26 && (forall ip {:trigger Listed(ip)} :: Listed(ip).Got? ==> Fetch(c, ip) == Listed(ip))
    && forall ip {:trigger Ran(ip)} :: Ran(ip).Flow? ==> RunSpec(c, ip) == Ran(ip)
  }

  lemma Integers()
    ensures var c := Program();
            && ReadInt(c, 1) == 0 && ReadInt(c, 5) == 0 && ReadInt(c, 11) == 0
            && ReadInt(c, 16) == 25 && ReadInt(c, 21) == 0
  {
  }

  lemma Decoded(ip: int)
    requires Listed(ip).Got?
    ensures Fetch(Program(), ip) == Listed(ip)
  {
    Integers();
  }

  lemma ProgramListed()
    ensures Listing(Program())
  {
    Integers();
    forall ip | Listed(ip).Got? ensures Fetch(Program(), ip) == Listed(ip) {
      Decoded(ip);
    }
  }

  function Points(): set<At> { {At(0, 0), At(9, 0), At(10, 0), At(15, 1), At(20, 0), At(25, 0), At(25, 1)} }

  lemma PointMoves(c: seq<Byte>, x: At, y: At)
    requires Listing(c) && x in Points() && Moves(c, x, y)
    ensures y in Points() && (JumpMoves(c, x, y) ==> y == At(25, 0))
  {
    assert Listed(x.ip).Got? && Fetch(c, x.ip) == Listed(x.ip);
  }

  lemma AllPoints(c: seq<Byte>, a: At)
    requires Listing(c) && AbsReach(c, [0], a)
    ensures a in Points()
  {
    var s := Points();
    forall x, y | x in s && Moves(c, x, y) ensures y in s {
      PointMoves(c, x, y);
    }
    ClosedHoldsAbsReach(c, [0], s, a);
  }

  lemma PointAdmissible(c: seq<Byte>, a: At)
    requires Listing(c) && a in Points()
    ensures Admissible(c, a)
  {
    assert Listed(a.ip).Got? && Ran(a.ip).Flow?;
  }

  /** A move from a point that can be reached. */
  lemma ReachNext(c: seq<Byte>, x: At, y: At)
    requires Listing(c) && AbsReach(c, [0], x) && Listed(x.ip).Got?
    requires y.depth == x.depth + Diagnose(Listed(x.ip).i).change
    requires var f := Listed(x.ip); !f.i.End? && !f.i.Fail? && !f.i.Jmp? && (y.ip == f.next || f.i == Cjmp(false, y.ip))
    ensures AbsReach(c, [0], y)
  {
    KindOf(Listed(x.ip).i);
    AbsReachOn(c, [0], x, y);
  }

  /** The END is reached with two depths. */
  lemma TwoDepths(c: seq<Byte>)
    requires Listing(c)
    ensures AbsReach(c, [0], At(15, 1)) && AbsReach(c, [0], At(25, 0)) && AbsReach(c, [0], At(25, 1))
  {
    BehindStop(c);
    ReachNext(c, At(15, 1), At(25, 0));
    ReachNext(c, At(15, 1), At(20, 0));
    ReachNext(c, At(20, 0), At(25, 1));
  }

  lemma BehindStop(c: seq<Byte>)
    requires Listing(c)
    ensures AbsReach(c, [0], At(15, 1))
  {
    LeadsStart(c, 0);
    assert AbsReach(c, [0], At(0, 0));
    ReachNext(c, At(0, 0), At(9, 0));
    ReachNext(c, At(9, 0), At(10, 0));
    ReachNext(c, At(10, 0), At(15, 1));
  }

  lemma NoTargets(c: seq<Byte>)
    requires Listing(c)
    ensures ExactTargets(c, [0], {})
  {
    assert Ran(0).Flow? && Ran(9).Flow?;
    forall ip | Reachable(c, [0], ip) ensures ip in {0, 9} {
      ClosedHoldsReachable(c, [0], {0, 9}, ip);
    }
  }

  lemma Accepts(c: seq<Byte>)
    requires Listing(c)
    ensures Balanced(c, [0], {})
  {
    forall a | AbsReach(c, [0], a) ensures Admissible(c, a) {
      AllPoints(c, a);
      PointAdmissible(c, a);
    }
    forall a | Joint(c, [0], {}, a) ensures a == At(25, 0) {
      var x :| AbsReach(c, [0], x) && JumpMoves(c, x, a);
      AllPoints(c, x);
      PointMoves(c, x, a);
    }
  }

  /** The verifier accepts the program although its jump target has two depths. */
  lemma StopHidesMismatch()
    ensures ExactTargets(Program(), [0], {}) && Balanced(Program(), [0], {})
    ensures AbsReach(Program(), [0], At(25, 0)) && AbsReach(Program(), [0], At(25, 1))
  {
    ProgramListed();
    TwoDepths(Program());
    NoTargets(Program());
    Accepts(Program());
  }
}
