/** Code without jumps: the verifier accepts a straight line of instructions exactly if each finds its operands. */
module StraightLine {
  import opened Bytecode
  import opened DepthPaths
  import opened Opcodes

  /** Every move from a is the fall to b. */
  ghost predicate OnlyNext(code: seq<Byte>, a: At, b: At) {
    forall c :: !JumpMoves(code, a, c) && (Moves(code, a, c) <==> c == b)
  }

  ghost predicate Next(code: seq<Byte>, ps: seq<At>, k: nat)
    requires k + 1 < |ps|
  {
    OnlyNext(code, ps[k], ps[k + 1])
  }

  /** The points of the only path from address 0, each at an address of its own. */
  ghost predicate Line(code: seq<Byte>, ps: seq<At>) {
    && |ps| > 0 && ps[0] == At(0, 0) && NoMoves(code, ps[|ps| - 1])
    && (forall k: nat {:trigger Next(code, ps, k)} :: k + 1 < |ps| ==> Next(code, ps, k))
    && forall j, k :: 0 <= j < k < |ps| ==> ps[j].ip != ps[k].ip
  }

  lemma {:induction false} LineReached(code: seq<Byte>, ps: seq<At>, k: nat)
    requires Line(code, ps) && k < |ps|
    ensures AbsReach(code, [0], ps[k])
  {
    if k == 0 {
      LeadsStart(code, 0);
    } else {
      LineReached(code, ps, k - 1);
      assert Next(code, ps, k - 1);
      AbsReachOn(code, [0], ps[k - 1], ps[k]);
    }
  }

  lemma OnLine(code: seq<Byte>, ps: seq<At>, a: At)
    requires Line(code, ps) && AbsReach(code, [0], a)
    ensures a in ps && forall b :: !JumpMoves(code, a, b)
  {
    var s := set x | x in ps;
    forall x, y | x in s && Moves(code, x, y) ensures y in s {
      StaysOnLine(code, ps, x, y);
    }
    ClosedHoldsAbsReach(code, [0], s, a);
    var k :| 0 <= k < |ps| && ps[k] == a;
    assert k + 1 < |ps| ==> Next(code, ps, k);
    forall b ensures !JumpMoves(code, a, b) {
      assert k + 1 == |ps| ==> !Moves(code, a, b);
    }
  }

  lemma StaysOnLine(code: seq<Byte>, ps: seq<At>, x: At, y: At)
    requires Line(code, ps) && x in ps && Moves(code, x, y)
    ensures y in ps
  {
    var k :| 0 <= k < |ps| && ps[k] == x;
    assert k + 1 < |ps| ==> Next(code, ps, k);
  }

  /** Accepted exactly if each instruction of the line finds its operands. */
  lemma LineBalanced(code: seq<Byte>, ps: seq<At>, incoming: set<int>)
    requires Line(code, ps)
    ensures Balanced(code, [0], incoming) <==> forall k :: 0 <= k < |ps| ==> Admissible(code, ps[k])
  {
    forall k: nat | k < |ps| ensures AbsReach(code, [0], ps[k]) {
      LineReached(code, ps, k);
    }
    forall a | AbsReach(code, [0], a) ensures a in ps && forall b :: !JumpMoves(code, a, b) {
      OnLine(code, ps, a);
    }
  }

  // ----- two programs ----------------------------------------------------------------------

  /** 0: BEGIN 2 0; 9: CONST 1; 14: DUP; 15: SWAP; 16: DROP; 17: END */
  predicate Duplicates(c: seq<Byte>) {
    && |c| == 18 && c[0] == 0x52 && c[9] == 0x10 && c[14] == 0x19 && c[15] == 0x1A && c[16] == 0x18 && c[17] == 0x16
  }

  function Duplicated(): seq<At> { [At(0, 0), At(9, 0), At(14, 1), At(15, 2), At(16, 2), At(17, 1)] }

  lemma DuplicatedPoint(c: seq<Byte>, k: nat)
    requires Duplicates(c) && k < 6
    ensures Admissible(c, Duplicated()[k])
    ensures if k < 5 then OnlyNext(c, Duplicated()[k], Duplicated()[k + 1]) else NoMoves(c, Duplicated()[k])
  {
    var a := Duplicated()[k];
    if k == 0 {
      NineBytePoint(c, a);
    } else if k == 1 {
      FiveBytePoint(c, a);
    } else if k < 5 {
      OneBytePoint(c, a);
    } else {
      JumpPoint(c, a);
    }
  }

  /** Whatever the counts, the verifier accepts it. */
  lemma DuplicateAccepted(c: seq<Byte>, incoming: set<int>)
    requires Duplicates(c)
    ensures Balanced(c, [0], incoming)
  {
    var ps := Duplicated();
    forall k: nat | k + 1 < |ps| ensures Next(c, ps, k) {
      DuplicatedPoint(c, k);
    }
    DuplicatedPoint(c, 5);
    LineBalanced(c, ps, incoming);
    forall k | 0 <= k < |ps| ensures Admissible(c, ps[k]) {
      DuplicatedPoint(c, k);
    }
  }

  /** 0: BEGIN 2 0; 9: CONST 1; 14: SWAP; 15: END */
  predicate SwapsOne(c: seq<Byte>) { |c| == 16 && c[0] == 0x52 && c[9] == 0x10 && c[14] == 0x1A && c[15] == 0x16 }

  /** SWAP with one operand is refused. */
  lemma SwapRefused(c: seq<Byte>, incoming: set<int>)
    requires SwapsOne(c)
    ensures !Balanced(c, [0], incoming)
  {
    var ps := [At(0, 0), At(9, 0), At(14, 1), At(15, 1)];
    NineBytePoint(c, ps[0]);
    FiveBytePoint(c, ps[1]);
    OneBytePoint(c, ps[2]);
    JumpPoint(c, ps[3]);
    forall k: nat | k + 1 < |ps| ensures Next(c, ps, k) {
      assert k == 0 || k == 1 || k == 2;
    }
    LineBalanced(c, ps, incoming);
    assert !Admissible(c, ps[2]);
  }
}
