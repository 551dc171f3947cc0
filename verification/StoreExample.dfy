/** Why runs stop at BadStore: the verifier accepts a function that stores an element through the
    reference of its local variable, and hits its own return address. */
module StoreExample {
  import opened Words
  import opened Bytecode
  import opened DepthTable
  import opened DepthPaths
  import opened BeginPatch
  import opened Frames
  import opened DirectCalls
  import opened Effects
  import opened Runs
  import opened Interpreter
  import opened VerifiedRun
  import opened Options

  /** 0: BEGIN 2 0; 9: CALL 19 0; 18: END; 19: BEGIN 0 1; 28: LDA L(0); 33: DROP; 34: CONST 3; 39: CONST 77;
      44: STA; 45: END */
  function Program(): seq<Byte> {
    [0x52, 2, 0, 0, 0, 0, 0, 0, 0] + [0x56, 19, 0, 0, 0, 0, 0, 0, 0] + [0x16]
    + [0x52, 0, 0, 0, 0, 1, 0, 0, 0] + [0x31, 0, 0, 0, 0] + [0x18] + [0x10, 3, 0, 0, 0] + [0x10, 77, 0, 0, 0]
    + [0x14] + [0x16]
  }

  /** What the decoders make of the instruction at ip. */
  function Listed(ip: int): Fetched {
    match ip
    case 0 => Got(Begin(false, 2, 0), 9)
    case 9 => Got(Call(19, 0), 18)
    case 18 => Got(End, 19)
    case 19 => Got(Begin(false, 0, 1), 28)
    case 28 => Got(Lda(LOCAL, 0), 33)
    case 33 => Got(Drop, 34)
    case 34 => Got(Const(3), 39)
    case 39 => Got(Const(77), 44)
    case 44 => Got(Sta, 45)
    case 45 => Got(End, 46)
    case _ => OutOfCode
  }

  ghost predicate Listing(c: seq<Byte>) {
    && |c| == 46
    && forall ip {:trigger Listed(ip)} :: Listed(ip).Got? ==> Fetch(c, ip) == Listed(ip) && RunSpec(c, ip).Flow?
  }

  lemma Integers()
    ensures var c := Program();
            && |c| == 46 && ReadInt(c, 1) == 2 && ReadInt(c, 5) == 0 && ReadInt(c, 10) == 19 && ReadInt(c, 14) == 0
            && ReadInt(c, 20) == 0 && ReadInt(c, 24) == 1 && ReadInt(c, 29) == 0
            && ReadInt(c, 35) == 3 && ReadInt(c, 40) == 77
  {
  }

  lemma MainListed(ip: int)
    requires Listed(ip).Got? && ip < 19
    ensures Fetch(Program(), ip) == Listed(ip) && RunSpec(Program(), ip).Flow?
  {
    Integers();
  }

  lemma CalleeFetched(ip: int)
    requires Listed(ip).Got? && 19 <= ip
    ensures Fetch(Program(), ip) == Listed(ip)
  {
    Integers();
  }

  lemma CalleeRuns(ip: int)
    requires Listed(ip).Got? && 19 <= ip
    ensures RunSpec(Program(), ip).Flow?
  {
    Integers();
  }

  lemma ProgramListed()
    ensures Listing(Program())
  {
    forall ip | Listed(ip).Got? ensures Fetch(Program(), ip) == Listed(ip) && RunSpec(Program(), ip).Flow? {
      if ip < 19 {
        MainListed(ip);
      } else {
        CalleeFetched(ip);
        CalleeRuns(ip);
      }
    }
  }

  /** The points of each function. */
  function PointsOf(e: int): set<At> {
    if e == 0 then {At(0, 0), At(9, 0), At(18, 1)}
    else {At(19, 0), At(28, 0), At(33, 2), At(34, 1), At(39, 2), At(44, 3), At(45, 1)}
  }

  predicate IsEntry(e: int) { e == 0 || e == 19 }

  lemma PointMoves(c: seq<Byte>, e: int, x: At, y: At)
    requires Listing(c) && IsEntry(e) && x in PointsOf(e) && Moves(c, x, y)
    ensures y in PointsOf(e) && y.ip != e && !JumpMoves(c, x, y)
  {
    assert Listed(x.ip).Got? && Fetch(c, x.ip) == Listed(x.ip);
  }

  lemma NotAtBegin(c: seq<Byte>, e: int, x: At)
    requires Listing(c) && IsEntry(e) && x in PointsOf(e) && x.ip != e
    ensures !AtBegin(c, x.ip)
  {
    assert Listed(x.ip).Got? && Fetch(c, x.ip) == Listed(x.ip);
  }

  lemma PointAdmissible(c: seq<Byte>, e: int, a: At)
    requires Listing(c) && IsEntry(e) && a in PointsOf(e)
    ensures Admissible(c, a)
  {
    assert Listed(a.ip).Got? && Fetch(c, a.ip) == Listed(a.ip);
  }

  lemma Functions(c: seq<Byte>)
    requires Listing(c)
    ensures IsFunction(c, 0) && IsFunction(c, 19) && ArgsOf(c, 0) == 2 && ArgsOf(c, 19) == 0
  {
    assert Listed(0).Got? && Listed(19).Got?;
    assert RealArgs(2) == 2 && RealArgs(0) == 0;
  }

  lemma PointDirect(c: seq<Byte>, e: int, a: At)
    requires Listing(c) && IsEntry(e) && a in PointsOf(e) && Fetch(c, a.ip).Got? && IsFunction(c, e)
    ensures Direct(c, [0, 19], e, a)
  {
    Functions(c);
    assert Listed(a.ip).Got? && Listed(e).Got?;
  }

  lemma Inside(c: seq<Byte>, e: int, a: At, m: int)
    requires Listing(c) && IsEntry(e) && Leads(c, e, a, m)
    ensures a in PointsOf(e)
  {
    var p :| PathFrom(c, e, p) && p[|p| - 1] == a && Peak(p) == m;
    forall x, y | x in PointsOf(e) && Moves(c, x, y) ensures y in PointsOf(e) {
      PointMoves(c, e, x, y);
    }
    ClosedHoldsPath(c, e, PointsOf(e), p, |p| - 1);
  }

  lemma Reached(c: seq<Byte>, a: At) returns (e: int)
    requires Listing(c) && AbsReach(c, [0, 19], a)
    ensures IsEntry(e) && a in PointsOf(e)
  {
    var m;
    e, m :| e in [0, 19] && Leads(c, e, a, m);
    Inside(c, e, a, m);
  }

  lemma IsDirect(c: seq<Byte>)
    requires Listing(c)
    ensures DirectProgram(c, [0, 19])
  {
    Functions(c);
    forall e, a, m | e in [0, 19] && Leads(c, e, a, m) && Fetch(c, a.ip).Got?
      ensures IsFunction(c, e) && Direct(c, [0, 19], e, a)
    {
      Inside(c, e, a, m);
      PointDirect(c, e, a);
    }
    forall a, b | AbsReach(c, [0, 19], a) && Moves(c, a, b) ensures !AtBegin(c, b.ip) {
      var e := Reached(c, a);
      PointMoves(c, e, a, b);
      NotAtBegin(c, e, b);
    }
  }

  lemma PointApart(c: seq<Byte>, e: int, a: At, b: int)
    requires Listing(c) && IsEntry(e) && a in PointsOf(e) && b in [0, 19] && a.ip != b && Fetch(c, a.ip).Got?
    ensures a.ip + Width(Fetch(c, a.ip).i) <= b + 1 || b + 5 <= a.ip
  {
    assert Listed(a.ip).Got? && Fetch(c, a.ip) == Listed(a.ip);
  }

  lemma IsApart(c: seq<Byte>)
    requires Listing(c)
    ensures NoOverlap(c, [0, 19])
  {
    forall a, b | AbsReach(c, [0, 19], a) && b in [0, 19] && Fetch(c, a.ip).Got? && a.ip != b
      ensures a.ip + Width(Fetch(c, a.ip).i) <= b + 1 || b + 5 <= a.ip
    {
      var e := Reached(c, a);
      PointApart(c, e, a, b);
    }
  }

  lemma IsBalanced(c: seq<Byte>)
    requires Listing(c)
    ensures Balanced(c, [0, 19], {19})
  {
    forall a | AbsReach(c, [0, 19], a) ensures Admissible(c, a) {
      var e := Reached(c, a);
      PointAdmissible(c, e, a);
    }
    forall a | Joint(c, [0, 19], {19}, a) ensures a == At(19, 0) {
      if AbsReach(c, [0, 19], a) && a.ip in {19} {
        var e := Reached(c, a);
      } else {
        var x :| AbsReach(c, [0, 19], x) && JumpMoves(c, x, a);
        var e := Reached(c, x);
        PointMoves(c, e, x, a);
      }
    }
  }

  /** At STA the operands are the reference that LDA has pushed, the index 3 and the value 77. */
  ghost predicate AboutToStore(vm: Vm, c: seq<Byte>, fs: seq<Frame>)
    reads vm, vm.data
  {
    && InBody(vm, c, [0, 19], fs, 44) && 0 <= vm.top + 1 && vm.top + 3 < vm.data.Length
    && vm.data[vm.top + 1] == Box(77) && vm.data[vm.top + 2] == Box(3) && vm.data[vm.top + 3] == vm.p.Address(vm.bp - 1)
  }

  /** STA is in the function that main has called, and the reference just below its local variable. */
  lemma StaInCallee(vm: Vm, c: seq<Byte>, fs: seq<Frame>)
    requires Listing(c) && InBody(vm, c, [0, 19], fs, 44)
    ensures |fs| > 1 && vm.top + 3 == vm.bp - 3 && vm.bp == fs[|fs| - 1].bp
  {
    var f := fs[|fs| - 1];
    var m :| Leads(c, f.begin, At(44, Depth(vm, fs)), m);
    assert Listed(19).Got?;
    Inside(c, f.begin, At(44, Depth(vm, fs)), m);
    assert FrameOf(c, [0, 19], f) && fs[0].begin == 0;
  }

  /** The reference is taken for an array: what is in front of it is the reference itself. */
  lemma ElementHit(p: Place, d: seq<Word>, b: int, other: Word)
    requires p.Valid() && |d| == p.size && 5 <= b && b + 2 < p.size && d[b - 3] == p.Address(b - 1)
    ensures HeaderBefore(p, d, p.Address(b - 1), other) == p.Address(b - 1)
    ensures StaStore(Box(77), Box(3), p.Address(b - 1), p.Address(b - 1)) == WordStore(p.Address(b + 2), Box(77))
  {
    p.AddressIndex(b - 3);
    assert Wrap(p.Address(b - 1) - 8) == p.Address(b - 3);
    assert p.Address(b - 1) == p.dataBase + 4 * (b - 1);
    UnboxBox(3);
  }

  lemma NotOwn(p: Place, bp: int, nArgs: int, s: Store)
    requires p.Valid() && 0 <= bp && bp + 2 < p.begin && Hit(s) == p.Address(bp + 2)
    ensures !Harmless(p, bp, nArgs, s)
  {
    p.AddressIndex(bp + 2);
  }

  lemma ReturnAddress(vm: Vm, code: seq<Byte>, publics: seq<int>, fs: seq<Frame>)
    requires Framed(vm, code, publics, fs) && |fs| > 1
    ensures vm.p.Valid() && vm.data.Length == vm.p.size && 0 <= vm.bp && vm.bp + 2 < vm.p.begin
    ensures vm.data[vm.bp + 2] == vm.p.CodeAddress(fs[|fs| - 1].ret)
  {
    assert Linked(vm.p, fs, |fs| - 1, vm.data[..]);
    Lower(vm.p, fs, vm.data[..], 0, |fs| - 1);
  }

  lemma StoreFound(vm: Vm, other: Word)
    requires vm.p.Valid() && vm.data.Length == vm.p.size && vm.bp + 2 < vm.p.begin && vm.top + 3 == vm.bp - 3
    requires 0 <= vm.top + 1 && vm.top + 3 < vm.data.Length
    requires vm.data[vm.top + 1] == Box(77) && vm.data[vm.top + 2] == Box(3)
    requires vm.data[vm.top + 3] == vm.p.Address(vm.bp - 1)
    ensures StoreAt(vm.p, Sta, vm.data[..], vm.top, other) == WordStore(vm.p.Address(vm.bp + 2), Box(77))
    ensures Foreign(vm.p, vm.data[..], vm.top, vm.bp, vm.nArgs, Sta, other)
  {
    ElementHit(vm.p, vm.data[..], vm.bp, other);
    NotOwn(vm.p, vm.bp, vm.nArgs, WordStore(vm.p.Address(vm.bp + 2), Box(77)));
    AddressEven(vm.p, vm.bp - 1);
  }

  lemma AddressEven(p: Place, i: int)
    requires p.Valid() && 0 <= i < p.size
    ensures !Unboxed(p.Address(i))
  {
  }

  /** The store goes to the word that holds the return address, whatever else is in memory. */
  lemma ReturnAddressHit(vm: Vm, c: seq<Byte>, fs: seq<Frame>, other: Word)
    requires Listing(c) && AboutToStore(vm, c, fs)
    ensures |fs| > 1 && 0 <= vm.bp && vm.bp + 2 < vm.data.Length
    ensures vm.data[vm.bp + 2] == vm.p.CodeAddress(fs[|fs| - 1].ret)
    ensures StoreAt(vm.p, Sta, vm.data[..], vm.top, other) == WordStore(vm.p.Address(vm.bp + 2), Box(77))
    ensures Foreign(vm.p, vm.data[..], vm.top, vm.bp, vm.nArgs, Sta, other)
  {
    StaInCallee(vm, c, fs);
    ReturnAddress(vm, c, [0, 19], fs);
    StoreFound(vm, other);
  }

  // ----- the run that comes there ----------------------------------------------------------

  /** The program c is the one above, and has been verified. */
  ghost predicate Prepared(c: seq<Byte>) { Listing(c) && Verified(c, [0, 19], {19}) }

  lemma LeadsNext(c: seq<Byte>, e: int, x: At, m: int, y: At)
    requires Listing(c) && Leads(c, e, x, m) && Listed(x.ip).Got? && Diagnose(Listed(x.ip).i).kind.OtherKind?
    requires y == At(Listed(x.ip).next, x.depth + Diagnose(Listed(x.ip).i).change)
    ensures Leads(c, e, y, Max(m, y.depth))
  {
    LeadsOn(c, e, x, m, y);
  }

  lemma PointWithin(c: seq<Byte>)
    requires Listing(c)
    ensures Within(c, [0, 19], 19, At(44, 3)) && !AtBegin(c, 44)
  {
    LeadsStart(c, 19);
    LeadsNext(c, 19, At(19, 0), 0, At(28, 0));
    LeadsNext(c, 19, At(28, 0), 0, At(33, 2));
    LeadsNext(c, 19, At(33, 2), 2, At(34, 1));
    LeadsNext(c, 19, At(34, 1), 2, At(39, 2));
    LeadsNext(c, 19, At(39, 2), 2, At(44, 3));
    NotAtBegin(c, 19, At(44, 3));
  }

  /** BEGIN of main. */
  method EnterMain(vm: Vm, ghost c: seq<Byte>) returns (ghost fs: seq<Frame>)
    requires Prepared(c) && Fresh(vm, c) && vm.code == c && 100 < vm.p.begin
    modifies vm, vm.data
    ensures InBody(vm, c, [0, 19], fs, 9) && |fs| == 1 && vm.top == vm.p.begin - 3
  {
    ghost var s;
    var st, ip;
    Functions(c);
    assert Listed(0).Got? && Listed(9).Got?;
    st, ip, s := VisitBegin(vm, Begin(false, 2, 0), 9, 0, c, [0, 19], {19}, Entry([], 0));
    fs := s.fs;
  }

  method CallCallee(vm: Vm, ghost c: seq<Byte>, ghost gs: seq<Frame>)
    requires Prepared(c) && InBody(vm, c, [0, 19], gs, 9) && 90 < vm.top
    modifies vm`top, vm.data
    ensures AtEntry(vm, c, [0, 19], gs, 18, 19) && gs != [] && vm.top == old(vm.top) - 1
  {
    var st, ip;
    ghost var s;
    assert Listed(9).Got? && Listed(18).Got? && Listed(19).Got?;
    st, ip, s := VisitCall(vm, 19, 18, 9, c, [0, 19], {19}, gs);
  }

  lemma CalleeListed(c: seq<Byte>)
    requires Listing(c)
    ensures Fetch(c, 19) == Got(Begin(false, 0, 1), 28) && RealArgs(0) == 0
  {
    assert Listed(19).Got?;
  }

  lemma CalleeFrame(c: seq<Byte>, gs: seq<Frame>, t: int, d: seq<Word>)
    requires Listing(c) && gs != []
    ensures IsFunction(c, 19)
    ensures var f := NewFrame(c, gs, 18, 19, t, d); f.begin == 19 && f.Limit() == t - 3
  {
    Functions(c);
    assert Listed(19).Got?;
  }

  /** BEGIN of the function called. */
  method EnterCallee(vm: Vm, ghost c: seq<Byte>, ghost gs: seq<Frame>) returns (ghost fs: seq<Frame>)
    requires Prepared(c) && Described(vm) && vm.code == c && AtEntry(vm, c, [0, 19], gs, 18, 19) && gs != []
    requires 85 < vm.top
    modifies vm, vm.data
    ensures InCallee(vm, c, fs)
  {
    var st, ip;
    ghost var s;
    ghost var t, d := vm.top, vm.data[..];
    CalleeListed(c);
    st, ip, s := VisitBegin(vm, Begin(false, 0, 1), 28, 19, c, [0, 19], {19}, Entry(gs, 18));
    fs := s.fs;
    CalleeFrame(c, gs, t, d);
  }

  /** In the function called, with no operands yet. */
  ghost predicate InCallee(vm: Vm, c: seq<Byte>, fs: seq<Frame>)
    reads vm, vm.data
  {
    Framed(vm, c, [0, 19], fs) && |fs| > 1 && fs[|fs| - 1].begin == 19 && Depth(vm, fs) == 0 && 80 < vm.top
  }

  /** LDA L(0) and DROP. */
  method PushReference(vm: Vm, ghost c: seq<Byte>, ghost fs: seq<Frame>)
    requires Prepared(c) && InCallee(vm, c, fs)
    modifies vm`top, vm.data
    ensures Framed(vm, c, [0, 19], fs) && Depth(vm, fs) == 1 && 70 < vm.top
    ensures vm.top + 1 < vm.data.Length && vm.data[vm.top + 1] == vm.p.Address(vm.bp - 1)
  {
    FrameBounds(vm, c, [0, 19], fs);
    assert Listed(19).Got?;
    var _ := VisitLda(vm, LOCAL, 0, c, [0, 19], fs);
    var _ := PopOperand(vm, c, [0, 19], fs);
  }

  /** CONST 3 and CONST 77. */
  method PushOperands(vm: Vm, ghost c: seq<Byte>, ghost fs: seq<Frame>)
    requires Prepared(c) && Framed(vm, c, [0, 19], fs) && fs[|fs| - 1].begin == 19 && Depth(vm, fs) == 1 && 70 < vm.top
    requires vm.top + 1 < vm.data.Length && vm.data[vm.top + 1] == vm.p.Address(vm.bp - 1)
    modifies vm`top, vm.data
    ensures AboutToStore(vm, c, fs)
  {
    PointWithin(c);
    PushTwo(vm, c, fs);
  }

  method PushTwo(vm: Vm, ghost c: seq<Byte>, ghost fs: seq<Frame>)
    requires Framed(vm, c, [0, 19], fs) && 70 < vm.top && vm.top + 1 < vm.data.Length
    modifies vm`top, vm.data
    ensures Framed(vm, c, [0, 19], fs) && Depth(vm, fs) == old(Depth(vm, fs)) + 2 && vm.top == old(vm.top) - 2
    ensures vm.data[vm.top + 1] == Box(77) && vm.data[vm.top + 2] == Box(3)
    ensures vm.data[vm.top + 3] == old(vm.data[vm.top + 1])
  {
    var _ := PushOperand(vm, Box(3), c, [0, 19], fs);
    var _ := PushOperand(vm, Box(77), c, [0, 19], fs);
  }

  /** From the start of the program to STA, which then stops as BadStore: in the source it overwrites the
      return address. */
  method RunToStore(vm: Vm, choice: Choice) returns (st: Status, ghost fs: seq<Frame>)
    requires Fresh(vm, Program()) && vm.code == Program() && 100 < vm.p.begin
    modifies vm, vm.data
    ensures |fs| > 1 && st == BadStore
  {
    Accepted();
    fs := RunToSta(vm, Program());
    st := StopsAtSta(vm, choice, Program(), fs);
  }

  method RunToSta(vm: Vm, ghost c: seq<Byte>) returns (ghost fs: seq<Frame>)
    requires Prepared(c) && Fresh(vm, c) && vm.code == c && 100 < vm.p.begin
    modifies vm, vm.data
    ensures AboutToStore(vm, c, fs) && Described(vm)
  {
    ghost var gs := EnterMain(vm, c);
    CallCallee(vm, c, gs);
    fs := EnterCallee(vm, c, gs);
    PushReference(vm, c, fs);
    PushOperands(vm, c, fs);
  }

  lemma StaStops(p: Place, c: seq<Byte>, m: Moment, choice: Choice)
    requires Listing(c) && m.at.Body? && m.ip == 44 && Foreign(p, m.d, m.top, m.bp, m.nArgs, Sta, choice.word)
    ensures StatusAt(p, c, m, choice) == BadStore
  {
    assert Listed(44).Got?;
  }

  method StopsAtSta(vm: Vm, choice: Choice, ghost c: seq<Byte>, ghost fs: seq<Frame>) returns (st: Status)
    requires Prepared(c) && AboutToStore(vm, c, fs) && Described(vm) && vm.code == c
    modifies vm, vm.data
    ensures |fs| > 1 && st == BadStore
  {
    ReturnAddressHit(vm, c, fs, choice.word);
    StaStops(vm.p, c, Now(vm, Body(fs), 44), choice);
    ghost var s;
    var ip;
    st, ip, s := Interpreter.Step(vm, 44, choice, c, [0, 19], {19}, Body(fs));
  }

  /** The verifier accepts the program. */
  lemma Accepted()
    ensures var c := Program();
            Listing(c) && DirectProgram(c, [0, 19]) && NoOverlap(c, [0, 19]) && Balanced(c, [0, 19], {19})
  {
    ProgramListed();
    IsDirect(Program());
    IsApart(Program());
    IsBalanced(Program());
  }
}
