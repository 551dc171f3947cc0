/** A program that meets all that VerifiedRun asks for: main calls the identity function on 0. */
module CallExample {
  import opened Bytecode
  import opened DepthTable
  import opened DepthPaths
  import opened ControlFlow
  import opened DepthCheck
  import opened Verification
  import opened BeginPatch
  import opened DirectCalls
  import opened VerifiedRun
  import opened Options

  /** 0: BEGIN 2 0; 9: CONST 0; 14: CALL 24 1; 23: END; 24: BEGIN 1 0; 33: LD A(0); 38: END */
  function Program(): seq<Byte> {
    [0x52, 2, 0, 0, 0, 0, 0, 0, 0] + [0x10, 0, 0, 0, 0] + [0x56, 24, 0, 0, 0, 1, 0, 0, 0] + [0x16]
    + [0x52, 1, 0, 0, 0, 0, 0, 0, 0] + [0x22, 0, 0, 0, 0] + [0x16]
  }

  /** What the decoders make of the instruction at ip. */
  function Listed(ip: int): Fetched {
    match ip
    case 0 => Got(Begin(false, 2, 0), 9)
    case 9 => Got(Const(0), 14)
    case 14 => Got(Call(24, 1), 23)
    case 23 => Got(End, 24)
    case 24 => Got(Begin(false, 1, 0), 33)
    case 33 => Got(Ld(ARG, 0), 38)
    case 38 => Got(End, 39)
    case _ => OutOfCode
  }

  ghost predicate Listing(c: seq<Byte>) {
    && |c| == 39
    && forall ip {:trigger Listed(ip)} :: Listed(ip).Got? ==> Fetch(c, ip) == Listed(ip) && RunSpec(c, ip).Flow?
  }

  lemma Integers()
    ensures var c := Program();
            && ReadInt(c, 1) == 2 && ReadInt(c, 5) == 0 && ReadInt(c, 10) == 0 && ReadInt(c, 15) == 24
            && ReadInt(c, 19) == 1
            && ReadInt(c, 25) == 1 && ReadInt(c, 29) == 0 && ReadInt(c, 34) == 0
  {
  }

  lemma ProgramListed()
    ensures Listing(Program())
  {
    Integers();
  }

  /** The points of each function. */
  function PointsOf(e: int): set<At> {
    if e == 0 then {At(0, 0), At(9, 0), At(14, 1), At(23, 1)} else {At(24, 0), At(33, 0), At(38, 1)}
  }

  lemma PointMoves(c: seq<Byte>, e: int, x: At, y: At)
    requires Listing(c) && (e == 0 || e == 24) && x in PointsOf(e) && Moves(c, x, y)
    ensures y in PointsOf(e) && y.ip != e && !JumpMoves(c, x, y)
  {
    assert Listed(x.ip).Got? && Fetch(c, x.ip) == Listed(x.ip);
  }

  lemma NotAtBegin(c: seq<Byte>, e: int, x: At)
    requires Listing(c) && (e == 0 || e == 24) && x in PointsOf(e) && x.ip != e
    ensures !AtBegin(c, x.ip)
  {
    assert Listed(x.ip).Got? && Fetch(c, x.ip) == Listed(x.ip);
  }

  lemma Inside(c: seq<Byte>, e: int, a: At, m: int)
    requires Listing(c) && (e == 0 || e == 24) && Leads(c, e, a, m)
    ensures a in PointsOf(e)
  {
    var p :| PathFrom(c, e, p) && p[|p| - 1] == a && Peak(p) == m;
    forall x, y | x in PointsOf(e) && Moves(c, x, y) ensures y in PointsOf(e) {
      PointMoves(c, e, x, y);
    }
    ClosedHoldsPath(c, e, PointsOf(e), p, |p| - 1);
  }

  lemma PointAdmissible(c: seq<Byte>, e: int, a: At)
    requires Listing(c) && (e == 0 || e == 24) && a in PointsOf(e)
    ensures Admissible(c, a)
  {
    assert Listed(a.ip).Got? && Fetch(c, a.ip) == Listed(a.ip);
  }

  lemma PointDirect(c: seq<Byte>, e: int, a: At)
    requires Listing(c) && (e == 0 || e == 24) && a in PointsOf(e)
    ensures Fetch(c, a.ip).Got? && IsFunction(c, e) && Direct(c, [0, 24], e, a)
  {
    assert Listed(a.ip).Got? && Listed(0).Got? && Listed(24).Got?;
    assert RealArgs(2) == 2 && RealArgs(1) == 1;
  }

  lemma PointApart(c: seq<Byte>, e: int, a: At, b: int)
    requires Listing(c) && (e == 0 || e == 24) && a in PointsOf(e) && b in [0, 24] && a.ip != b
    requires Fetch(c, a.ip).Got?
    ensures a.ip + Width(Fetch(c, a.ip).i) <= b + 1 || b + 5 <= a.ip
  {
    assert Listed(a.ip).Got? && Fetch(c, a.ip) == Listed(a.ip);
  }

  lemma Reached(c: seq<Byte>, a: At) returns (e: int)
    requires Listing(c) && AbsReach(c, [0, 24], a)
    ensures (e == 0 || e == 24) && a in PointsOf(e)
  {
    var m;
    e, m :| e in [0, 24] && Leads(c, e, a, m);
    Inside(c, e, a, m);
  }

  lemma Functions(c: seq<Byte>)
    requires Listing(c)
    ensures IsFunction(c, 0) && IsFunction(c, 24) && ArgsOf(c, 0) == 2
  {
    assert Listed(0).Got? && Listed(24).Got?;
    assert RealArgs(2) == 2;
  }

  lemma IsDirect(c: seq<Byte>)
    requires Listing(c)
    ensures DirectProgram(c, [0, 24])
  {
    Functions(c);
    forall e, a, m | e in [0, 24] && Leads(c, e, a, m) && Fetch(c, a.ip).Got?
      ensures IsFunction(c, e) && Direct(c, [0, 24], e, a)
    {
      Inside(c, e, a, m);
      PointDirect(c, e, a);
    }
    forall a, b | AbsReach(c, [0, 24], a) && Moves(c, a, b) ensures !AtBegin(c, b.ip) {
      var e := Reached(c, a);
      PointMoves(c, e, a, b);
      NotAtBegin(c, e, b);
    }
  }

  lemma IsApart(c: seq<Byte>)
    requires Listing(c)
    ensures NoOverlap(c, [0, 24])
  {
    forall a, b | AbsReach(c, [0, 24], a) && b in [0, 24] && Fetch(c, a.ip).Got? && a.ip != b
      ensures a.ip + Width(Fetch(c, a.ip).i) <= b + 1 || b + 5 <= a.ip
    {
      var e := Reached(c, a);
      PointApart(c, e, a, b);
    }
  }

  lemma IsBalanced(c: seq<Byte>)
    requires Listing(c)
    ensures Balanced(c, [0, 24], {24})
  {
    forall a | AbsReach(c, [0, 24], a) ensures Admissible(c, a) {
      var e := Reached(c, a);
      PointAdmissible(c, e, a);
    }
    forall a | Joint(c, [0, 24], {24}, a) ensures a == At(24, 0) {
      if AbsReach(c, [0, 24], a) && a.ip in {24} {
        var e := Reached(c, a);
      } else {
        var x :| AbsReach(c, [0, 24], x) && JumpMoves(c, x, a);
        var e := Reached(c, x);
        PointMoves(c, e, x, a);
      }
    }
  }

  // ----- what the verifier finds -----------------------------------------------------------

  function Addresses(): set<int> { {0, 9, 14, 23, 24, 33, 38} }

  lemma Followed(c: seq<Byte>, ip: int, to: int)
    requires Listing(c) && ip in Addresses()
    ensures InCode(c, ip) && RunSpec(c, ip).Flow?
    ensures (Follows(c, ip, to) ==> to in Addresses()) && (JumpsTo(c, ip, to) <==> ip == 14 && to == 24)
  {
    assert Listed(ip).Got?;
    DecodersAgree(c, ip);
  }

  lemma Explored(c: seq<Byte>, ip: int)
    requires Listing(c) && Reachable(c, [0, 24], ip)
    ensures ip in Addresses()
  {
    forall a, b | a in Addresses() && Follows(c, a, b) ensures b in Addresses() {
      Followed(c, a, b);
    }
    ClosedHoldsReachable(c, [0, 24], Addresses(), ip);
  }

  lemma NextFollows(c: seq<Byte>, ip: int, to: int)
    requires Listing(c) && ((ip == 0 && to == 9) || (ip == 9 && to == 14))
    ensures Follows(c, ip, to)
  {
    assert Listed(ip).Got? && Fetch(c, ip) == Listed(ip) && Listed(ip).next == to;
    DecodersAgree(c, ip);
    var r := RunSpec(c, ip);
    assert r.Flow?;
    assert r.isNextChild && !r.isEnd && r.next == to;
  }

  lemma CallReached(c: seq<Byte>)
    requires Listing(c)
    ensures Reachable(c, [0, 24], 14)
  {
    ReachablePublic(c, [0, 24], 0);
    NextFollows(c, 0, 9);
    NextFollows(c, 9, 14);
    ReachableNext(c, [0, 24], 0, 9);
    ReachableNext(c, [0, 24], 9, 14);
  }

  /** The first pass finds the function that is called, and nothing to refuse. */
  lemma TargetsAre(c: seq<Byte>, targets: set<int>)
    requires Listing(c)
    ensures AllDecode(c, [0, 24]) && (ExactTargets(c, [0, 24], targets) <==> targets == {24})
  {
    forall ip | Reachable(c, [0, 24], ip) ensures InCode(c, ip) && RunSpec(c, ip).Flow? {
      Explored(c, ip);
      Followed(c, ip, 0);
    }
    forall j ensures Incoming(c, [0, 24], j) <==> j == 24 {
      OneTarget(c, j);
    }
    if ExactTargets(c, [0, 24], targets) {
      assert forall j :: j in targets <==> j in {24};
    }
  }

  lemma OneTarget(c: seq<Byte>, j: int)
    requires Listing(c)
    ensures Incoming(c, [0, 24], j) <==> j == 24
  {
    if Incoming(c, [0, 24], j) {
      var ip :| Reachable(c, [0, 24], ip) && JumpsTo(c, ip, j);
      Explored(c, ip);
      Followed(c, ip, j);
    }
    CallReached(c);
    Followed(c, 14, 24);
  }

  lemma {:induction false} PeakLow(c: seq<Byte>, e: int, p: seq<At>, k: nat)
    requires Listing(c) && (e == 0 || e == 24) && PathFrom(c, e, p) && 0 < k <= |p|
    ensures Peak(p[..k]) <= 1
  {
    PointLow(c, e, p, k - 1);
    if k > 1 {
      PeakLow(c, e, p, k - 1);
      assert p[..k][..k - 1] == p[..k - 1];
    }
  }

  lemma PointLow(c: seq<Byte>, e: int, p: seq<At>, k: nat)
    requires Listing(c) && (e == 0 || e == 24) && PathFrom(c, e, p) && k < |p|
    ensures p[k].depth <= 1
  {
    forall x, y | x in PointsOf(e) && Moves(c, x, y) ensures y in PointsOf(e) {
      PointMoves(c, e, x, y);
    }
    ClosedHoldsPath(c, e, PointsOf(e), p, k);
  }

  lemma MaximumLow(c: seq<Byte>, e: int, m: int)
    requires Listing(c) && (e == 0 || e == 24) && Witnessed(c, e, m)
    ensures m <= 1
  {
    var a :| Leads(c, e, a, m) && Fetch(c, a.ip).Got? && Fetch(c, a.ip).i.End?;
    var p :| PathFrom(c, e, p) && p[|p| - 1] == a && Peak(p) == m;
    PeakLow(c, e, p, |p|);
    assert p[..|p|] == p;
  }

  function FallOfMain(): seq<At> { [At(0, 0), At(9, 0), At(14, 1), At(23, 1)] }

  function FallOfCallee(): seq<At> { [At(24, 0), At(33, 0), At(38, 1)] }

  lemma FallFrom(c: seq<Byte>, x: At, y: At)
    requires Listing(c) && x.ip in Addresses() && x.ip != 23 && x.ip != 38 && Listed(x.ip).next == y.ip
    requires y.depth == x.depth + Diagnose(Listed(x.ip).i).change
    ensures FallMoves(c, x, y)
  {
    KindOf(Listed(x.ip).i);
  }

  lemma MainFalls(c: seq<Byte>)
    requires Listing(c)
    ensures FallPath(c, 0, FallOfMain()) && Peak(FallOfMain()) == 1
  {
    var p := FallOfMain();
    FallFrom(c, At(0, 0), At(9, 0));
    FallFrom(c, At(9, 0), At(14, 1));
    FallFrom(c, At(14, 1), At(23, 1));
    assert Listed(23).Got?;
    PeakSnoc(p, 2);
    PeakSnoc(p, 1);
    PeakSnoc(p, 0);
    assert p[..4] == p && p[..1] == [At(0, 0)];
  }

  lemma CalleeFalls(c: seq<Byte>)
    requires Listing(c)
    ensures FallPath(c, 24, FallOfCallee()) && Peak(FallOfCallee()) == 1
  {
    var p := FallOfCallee();
    FallFrom(c, At(24, 0), At(33, 0));
    FallFrom(c, At(33, 0), At(38, 1));
    assert Listed(38).Got?;
    PeakSnoc(p, 1);
    PeakSnoc(p, 0);
    assert p[..3] == p && p[..1] == [At(24, 0)];
  }

  /** The second pass records a maximum of 1 for both functions. */
  lemma MaximaAre(c: seq<Byte>, maxStack: map<int, int>)
    requires Listing(c) && PeaksWitnessed(c, [0, 24], maxStack) && FallsRecorded(c, [0, 24], maxStack)
    ensures maxStack == map[0 := 1, 24 := 1]
  {
    MaximaHigh(c, maxStack);
    forall b | b in maxStack ensures b in {0, 24} && maxStack[b] <= 1 {
      MaximumLow(c, b, maxStack[b]);
    }
  }

  lemma MaximaHigh(c: seq<Byte>, maxStack: map<int, int>)
    requires Listing(c) && FallsRecorded(c, [0, 24], maxStack)
    ensures HasMaximum(maxStack, 0, 1) && HasMaximum(maxStack, 24, 1)
  {
    MainFalls(c);
    CalleeFalls(c);
  }

  /** The program can be verified and run. */
  lemma CanRun()
    ensures var c := Program(); DirectProgram(c, [0, 24]) && NoOverlap(c, [0, 24]) && Balanced(c, [0, 24], {24})
  {
    ProgramListed();
    IsDirect(Program());
    IsApart(Program());
    IsBalanced(Program());
  }
}
