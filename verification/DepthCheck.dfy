/** `check_depth`: a worklist over trackers that computes the depth of the operand stack at every
    address reached from the public symbols. */
module DepthCheck {
  import opened Bytecode
  import opened DepthTable
  import opened DepthPaths
  import opened FallChains
  import opened Options

  /** DepthTracker */
  datatype Tracker = Tracker(ip: int, begin: int, depth: int, max: int)

  /** What is known of a tracker: it stands for a path from its function, whose peak it records. */
  ghost predicate Tracks(code: seq<Byte>, publics: seq<int>, t: Tracker) {
    t.begin in publics && Leads(code, t.begin, At(t.ip, t.depth), t.max)
  }

  ghost predicate AllTrack(code: seq<Byte>, publics: seq<int>, stack: seq<Tracker>) {
    forall k {:trigger stack[k]} :: 0 <= k < |stack| ==> Tracks(code, publics, stack[k])
  }

  ghost function Points(stack: seq<Tracker>): (s: set<At>)
    ensures forall k :: 0 <= k < |stack| ==> At(stack[k].ip, stack[k].depth) in s
  {
    set t | t in stack :: At(t.ip, t.depth)
  }

  lemma PointsPush(stack: seq<Tracker>, t: Tracker)
    ensures Points(stack + [t]) == Points(stack) + {At(t.ip, t.depth)}
  {
    assert forall x :: x in stack + [t] <==> x in stack || x == t;
  }

  /** Points seen, those among them dealt with, registered depths, visited jump targets. */
  datatype Progress = Progress(known: set<At>, done: set<At>, registered: map<int, int>, visited: set<int>)

  ghost predicate Entered(publics: seq<int>, known: set<At>) {
    forall e :: e in publics ==> At(e, 0) in known
  }

  /** Points dealt with are admissible, and what falls out of them is known. */
  ghost predicate Traced(code: seq<Byte>, publics: seq<int>, known: set<At>, done: set<At>) {
    && done <= known
    && (forall a {:trigger AbsReach(code, publics, a)} :: a in known ==> AbsReach(code, publics, a))
    && (forall a {:trigger Admissible(code, a)} :: a in done ==> Admissible(code, a))
    && (forall a, b {:trigger FallMoves(code, a, b)} :: a in done && FallMoves(code, a, b) ==> b in known)
  }

  ghost predicate HasDepth(registered: map<int, int>, b: At) {
    b.ip in registered && registered[b.ip] == b.depth
  }

  /** Every joint point dealt with is registered. */
  ghost predicate JointsRegistered(code: seq<Byte>, incoming: set<int>, done: set<At>, registered: map<int, int>) {
    && (forall a :: a in done && a.ip in incoming ==> HasDepth(registered, a))
    && (forall a, b {:trigger JumpMoves(code, a, b)} :: a in done && JumpMoves(code, a, b) ==> HasDepth(registered, b))
  }

  /** Registered depths are those of joint points. */
  ghost predicate RegisteredJoint(code: seq<Byte>, publics: seq<int>, incoming: set<int>, registered: map<int, int>) {
    forall b {:trigger Joint(code, publics, incoming, b)} :: HasDepth(registered, b) ==>
      Joint(code, publics, incoming, b)
  }

  /** A jump target is visited once, and known with the depth registered for it. */
  ghost predicate TargetsKnown(code: seq<Byte>, known: set<At>, done: set<At>, registered: map<int, int>,
                               visited: set<int>) {
    && (forall a, b {:trigger JumpMoves(code, a, b)} :: a in done && JumpMoves(code, a, b) ==> b.ip in visited)
    && (forall j :: j in visited ==> j in registered && At(j, registered[j]) in known)
  }

  ghost predicate Inv(code: seq<Byte>, publics: seq<int>, incoming: set<int>, s: Progress) {
    && Entered(publics, s.known) && Traced(code, publics, s.known, s.done)
    && JointsRegistered(code, incoming, s.done, s.registered) && RegisteredJoint(code, publics, incoming, s.registered)
    && TargetsKnown(code, s.known, s.done, s.registered, s.visited)
  }

  // ----- one turn of the loop, as a function -----------------------------------------------

  /** What the loop carries from one turn to the next. */
  datatype Loop = Loop(stack: seq<Tracker>, visited: set<int>, registered: map<int, int>, maxStack: map<int, int>)

  ghost function Point(t: Tracker): At { At(t.ip, t.depth) }

  /** `register_depth`; None if there is another depth already. */
  function Registering(registered: map<int, int>, ip: int, depth: int): Option<map<int, int>> {
    if ip in registered && registered[ip] != depth then None else Some(registered[ip := depth])
  }

  /** The tracker for a point that t leads to. */
  function Following(t: Tracker, ip: int, depth: int): Tracker { Tracker(ip, t.begin, depth, Max(t.max, depth)) }

  /** The target of a jump goes on the stack the first time. */
  function Targeting(l: Loop, t: Tracker, target: int, depth: int): Loop {
    if target in l.visited then l
    else l.(stack := l.stack + [Following(t, target, depth)], visited := l.visited + {target})
  }

  /** And is registered each time. */
  function Jumping(l: Loop, t: Tracker, target: int, depth: int): Option<Loop> {
    var r := Registering(l.registered, target, depth);
    if r.None? then None else Some(Targeting(l, t, target, depth).(registered := r.value))
  }

  /** The next instruction goes on the stack, without a test whether it has been there. */
  function Falling(l: Loop, t: Tracker, next: int, depth: int): Loop {
    l.(stack := l.stack + [Following(t, next, depth)])
  }

  /** `max_stack` at the end of a function. */
  function Recording(maxStack: map<int, int>, t: Tracker): map<int, int> {
    maxStack[t.begin := Max(if t.begin in maxStack then maxStack[t.begin] else 0, t.max)]
  }

  /** The cases of the loop body: first the jump, then what follows the instruction. */
  function JumpPart(l: Loop, t: Tracker, d: Diagnostic): Option<Loop> {
    if d.kind.JmpKind? || d.kind.CjmpKind? then Jumping(l, t, d.jump, t.depth + d.change) else Some(l)
  }

  function FallPart(l: Loop, t: Tracker, next: int, d: Diagnostic): Loop {
    if d.kind.OtherKind? || d.kind.CjmpKind? then Falling(l, t, next, t.depth + d.change)
    else if d.kind.EndKind? then l.(maxStack := Recording(l.maxStack, t))
    else l
  }

  function Advanced(l: Loop, t: Tracker, next: int, d: Diagnostic): Option<Loop> {
    var r := JumpPart(l, t, d);
    if r.None? then None else Some(FallPart(r.value, t, next, d))
  }

  /** A joint point is registered before the cases. */
  function Entering(l: Loop, incoming: set<int>, t: Tracker): Option<Loop> {
    if t.ip !in incoming then Some(l)
    else
      var r := Registering(l.registered, t.ip, t.depth);
      if r.None? then None else Some(l.(registered := r.value))
  }

  /** One turn for the tracker t, which has been popped; None if the program is rejected. */
  ghost function Turned(code: seq<Byte>, incoming: set<int>, l: Loop, t: Tracker): Option<Loop> {
    if !Admissible(code, Point(t)) then None
    else
      var r := Entering(l, incoming, t);
      if r.None? then None else Advanced(r.value, t, Fetch(code, t.ip).next, Diagnose(Fetch(code, t.ip).i))
  }

  function Top(l: Loop): Tracker
    requires l.stack != []
  {
    l.stack[|l.stack| - 1]
  }

  function Rest(l: Loop): Loop
    requires l.stack != []
  {
    l.(stack := l.stack[..|l.stack| - 1])
  }

  ghost function Step(code: seq<Byte>, incoming: set<int>): Loop -> Option<Loop> {
    (l: Loop) => if l.stack == [] then None else Turned(code, incoming, Rest(l), Top(l))
  }

  /** The loop after at most n turns. */
  ghost function Turns(step: Loop -> Option<Loop>, l: Loop, n: nat): Option<Loop>
    decreases n
  {
    if n == 0 || l.stack == [] then Some(l)
    else if step(l).None? then None
    else Turns(step, step(l).value, n - 1)
  }

  /** The loop before the first turn. */
  function Start(publics: seq<int>): Loop {
    Loop(seq(|publics|, k requires 0 <= k < |publics| => Tracker(publics[k], publics[k], 0, 0)), {}, map[], map[])
  }

  ghost predicate Over(r: Option<Loop>) { r.None? || r.value.stack == [] }

  /** `check_depth` comes to an end. */
  ghost predicate LoopEnds(code: seq<Byte>, publics: seq<int>, incoming: set<int>) {
    exists n: nat :: Over(Turns(Step(code, incoming), Start(publics), n))
  }

  // ----- how one step keeps the invariant --------------------------------------------------

  lemma Registered(code: seq<Byte>, publics: seq<int>, incoming: set<int>, s: Progress, b: At)
    requires Inv(code, publics, incoming, s) && Joint(code, publics, incoming, b)
    requires b.ip in s.registered ==> s.registered[b.ip] == b.depth
    ensures Inv(code, publics, incoming, s.(registered := s.registered[b.ip := b.depth]))
  {
    var r := s.registered[b.ip := b.depth];
    forall c | HasDepth(r, c) ensures Joint(code, publics, incoming, c) {
      assert c == b || HasDepth(s.registered, c);
    }
    assert forall c :: HasDepth(s.registered, c) ==> HasDepth(r, c);
  }

  lemma Pushed(code: seq<Byte>, publics: seq<int>, incoming: set<int>, s: Progress, b: At)
    requires Inv(code, publics, incoming, s) && AbsReach(code, publics, b)
    ensures Inv(code, publics, incoming, s.(known := s.known + {b}))
  {
  }

  lemma Visited(code: seq<Byte>, publics: seq<int>, incoming: set<int>, s: Progress, j: int)
    requires Inv(code, publics, incoming, s) && j in s.registered && At(j, s.registered[j]) in s.known
    ensures Inv(code, publics, incoming, s.(visited := s.visited + {j}))
  {
  }

  lemma Finished(code: seq<Byte>, publics: seq<int>, incoming: set<int>, s: Progress, a: At)
    requires Inv(code, publics, incoming, s) && a in s.known && Admissible(code, a)
    requires a.ip in incoming ==> HasDepth(s.registered, a)
    requires forall b :: FallMoves(code, a, b) ==> b in s.known
    requires forall b :: JumpMoves(code, a, b) ==> b.ip in s.visited && HasDepth(s.registered, b)
    ensures Inv(code, publics, incoming, s.(done := s.done + {a}))
  {
  }

  lemma DoneHoldsAll(code: seq<Byte>, publics: seq<int>, incoming: set<int>, s: Progress, a: At)
    requires Inv(code, publics, incoming, s) && s.known == s.done && AbsReach(code, publics, a)
    ensures a in s.done
  {
    forall c, b | c in s.done && Moves(code, c, b) ensures b in s.done {
      if JumpMoves(code, c, b) {
        assert b == At(b.ip, s.registered[b.ip]);
      }
    }
    ClosedHoldsAbsReach(code, publics, s.done, a);
  }

  /** When every known point has been dealt with, all paths have been accounted for. */
  lemma AllDone(code: seq<Byte>, publics: seq<int>, incoming: set<int>, s: Progress)
    requires Inv(code, publics, incoming, s) && s.known == s.done
    ensures Balanced(code, publics, incoming)
  {
    forall a | AbsReach(code, publics, a) ensures a in s.done {
      DoneHoldsAll(code, publics, incoming, s, a);
    }
    forall b | Joint(code, publics, incoming, b) ensures HasDepth(s.registered, b) {
    }
  }

  // ----- how a turn keeps it ---------------------------------------------------------------

  /** The state of the loop: what is known is done, on the stack, or held by the step in progress. */
  ghost predicate Working(code: seq<Byte>, publics: seq<int>, incoming: set<int>, s: Progress, stack: seq<Tracker>,
                          held: set<At>) {
    && Inv(code, publics, incoming, s) && AllTrack(code, publics, stack)
    && s.known == s.done + Points(stack) + held
  }

  /** Each recorded maximum is the peak of some path from the function to one of its ENDs. */
  ghost predicate Witnessed(code: seq<Byte>, begin: int, m: int) {
    exists a :: Leads(code, begin, a, m) && Fetch(code, a.ip).Got? && Fetch(code, a.ip).i.End?
  }

  ghost predicate PeaksWitnessed(code: seq<Byte>, publics: seq<int>, maxStack: map<int, int>) {
    forall b {:trigger maxStack[b]} :: b in maxStack ==> b in publics && Witnessed(code, b, maxStack[b])
  }

  ghost predicate LoopInv(code: seq<Byte>, publics: seq<int>, incoming: set<int>, l: Loop, s: Progress, held: set<At>) {
    && Working(code, publics, incoming, s, l.stack, held) && s.visited == l.visited && s.registered == l.registered
    && PeaksWitnessed(code, publics, l.maxStack)
  }

  lemma TrackedReach(code: seq<Byte>, publics: seq<int>, t: Tracker)
    requires Tracks(code, publics, t)
    ensures AbsReach(code, publics, Point(t))
  {
  }

  lemma TracksOn(code: seq<Byte>, publics: seq<int>, t: Tracker, b: At)
    requires Tracks(code, publics, t) && Moves(code, Point(t), b)
    ensures Tracks(code, publics, Following(t, b.ip, b.depth)) && AbsReach(code, publics, b)
  {
    LeadsOn(code, t.begin, Point(t), t.max, b);
    TrackedReach(code, publics, Following(t, b.ip, b.depth));
  }

  /** A tracker is pushed. */
  lemma PushKeeps(code: seq<Byte>, publics: seq<int>, incoming: set<int>, s: Progress, stack: seq<Tracker>,
                  held: set<At>, u: Tracker)
    requires Working(code, publics, incoming, s, stack, held) && Tracks(code, publics, u)
    ensures Working(code, publics, incoming, s.(known := s.known + {Point(u)}), stack + [u], held)
  {
    TrackedReach(code, publics, u);
    Pushed(code, publics, incoming, s, Point(u));
    PointsPush(stack, u);
  }

  /** Two joint points with different depths at one address. */
  lemma Mismatch(code: seq<Byte>, publics: seq<int>, incoming: set<int>, s: Progress, b: At)
    requires Inv(code, publics, incoming, s) && Joint(code, publics, incoming, b)
    requires b.ip in s.registered && s.registered[b.ip] != b.depth
    ensures !Balanced(code, publics, incoming)
  {
    assert HasDepth(s.registered, At(b.ip, s.registered[b.ip]));
  }

  ghost predicate DepthsKept(re: map<int, int>, re': map<int, int>) {
    forall c {:trigger HasDepth(re', c)} {:trigger HasDepth(re, c)} :: HasDepth(re, c) ==> HasDepth(re', c)
  }

  /** A registration fails only on a real mismatch. */
  lemma RegisterKeeps(code: seq<Byte>, publics: seq<int>, incoming: set<int>, l: Loop, s: Progress, held: set<At>,
                      b: At)
    requires LoopInv(code, publics, incoming, l, s, held) && Joint(code, publics, incoming, b)
    ensures var r := Registering(l.registered, b.ip, b.depth);
            && (r.None? ==> !Balanced(code, publics, incoming))
            && (r.Some? ==>
                  && LoopInv(code, publics, incoming, l.(registered := r.value), s.(registered := r.value), held)
                  && HasDepth(r.value, b) && DepthsKept(l.registered, r.value))
  {
    if Registering(l.registered, b.ip, b.depth).None? {
      Mismatch(code, publics, incoming, s, b);
    } else {
      Registered(code, publics, incoming, s, b);
    }
  }

  /** The loop that `follow_jump` has made of l, with the record s' beside it; if there is none, something was to be
      rejected. */
  ghost predicate JumpDone(code: seq<Byte>, publics: seq<int>, incoming: set<int>, l: Loop, s: Progress, t: Tracker,
                           r: Option<Loop>, s': Progress) {
    match r
    case None => !Balanced(code, publics, incoming)
    case Some(l') =>
      && LoopInv(code, publics, incoming, l', s', {Point(t)}) && s'.done == s.done
      && DepthsKept(l.registered, l'.registered)
  }

  /** A jump: target and depth are known, visited and registered afterwards. */
  lemma JumpKeeps(code: seq<Byte>, publics: seq<int>, incoming: set<int>, l: Loop, s: Progress, t: Tracker, b: At,
                  r: Option<Loop>) returns (s': Progress)
    requires LoopInv(code, publics, incoming, l, s, {Point(t)}) && Tracks(code, publics, t)
    requires JumpMoves(code, Point(t), b) && r == Jumping(l, t, b.ip, b.depth)
    ensures JumpDone(code, publics, incoming, l, s, t, r, s')
    ensures r.Some? ==> b.ip in r.value.visited && HasDepth(r.value.registered, b)
  {
    TrackedReach(code, publics, t);
    assert Joint(code, publics, incoming, b);
    var l1, s1 := TargetPushed(code, publics, incoming, l, s, t, b);
    RegisterKeeps(code, publics, incoming, l1, s1, {Point(t)}, b);
    s' := s1;
    var re := Registering(l.registered, b.ip, b.depth);
    if re.Some? {
      var s2 := s1.(registered := re.value);
      assert b.ip in l.visited ==> At(b.ip, re.value[b.ip]) in s2.known;
      Visited(code, publics, incoming, s2, b.ip);
      s' := s2.(visited := s2.visited + {b.ip});
      assert b.ip in l.visited ==> l.visited + {b.ip} == l.visited;
    }
  }

  /** The push of the target, before it counts as visited. */
  lemma TargetPushed(code: seq<Byte>, publics: seq<int>, incoming: set<int>, l: Loop, s: Progress, t: Tracker, b: At)
    returns (l1: Loop, s1: Progress)
    requires LoopInv(code, publics, incoming, l, s, {Point(t)}) && Tracks(code, publics, t)
    requires JumpMoves(code, Point(t), b)
    ensures l1 == l.(stack := Targeting(l, t, b.ip, b.depth).stack) && s1 == s.(known := s1.known)
    ensures LoopInv(code, publics, incoming, l1, s1, {Point(t)}) && (b.ip !in l.visited ==> b in s1.known)
  {
    l1, s1 := l, s;
    if b.ip !in l.visited {
      var u := Following(t, b.ip, b.depth);
      TracksOn(code, publics, t, b);
      PushKeeps(code, publics, incoming, s, l.stack, {Point(t)}, u);
      l1, s1 := l.(stack := l.stack + [u]), s.(known := s.known + {b});
    }
  }

  lemma FallKeeps(code: seq<Byte>, publics: seq<int>, incoming: set<int>, l: Loop, s: Progress, t: Tracker, b: At,
                  l': Loop) returns (s': Progress)
    requires LoopInv(code, publics, incoming, l, s, {Point(t)}) && Tracks(code, publics, t)
    requires FallMoves(code, Point(t), b) && l' == Falling(l, t, b.ip, b.depth)
    ensures LoopInv(code, publics, incoming, l', s', {Point(t)})
    ensures s' == s.(known := s.known + {b})
  {
    TracksOn(code, publics, t, b);
    PushKeeps(code, publics, incoming, s, l.stack, {Point(t)}, Following(t, b.ip, b.depth));
    s' := s.(known := s.known + {b});
  }

  lemma {:induction false} PeakNonNegative(code: seq<Byte>, begin: int, p: seq<At>)
    requires PathFrom(code, begin, p)
    ensures Peak(p) >= 0
    decreases |p|
  {
    if |p| > 1 {
      var q := p[..|p| - 1];
      forall k | 0 <= k < |q| - 1 ensures Hop(code, q, k) {
        assert Hop(code, p, k);
      }
      PeakNonNegative(code, begin, q);
    }
  }

  /** A recorded maximum is witnessed. */
  lemma RecordKeeps(code: seq<Byte>, publics: seq<int>, maxStack: map<int, int>, t: Tracker)
    requires Tracks(code, publics, t) && Fetch(code, t.ip).Got? && Fetch(code, t.ip).i.End?
    requires PeaksWitnessed(code, publics, maxStack)
    ensures PeaksWitnessed(code, publics, Recording(maxStack, t)) && Recording(maxStack, t)[t.begin] >= t.max
  {
    var p :| PathFrom(code, t.begin, p) && p[|p| - 1] == Point(t) && Peak(p) == t.max;
    PeakNonNegative(code, t.begin, p);
    assert Witnessed(code, t.begin, t.max);
  }

  lemma EndKeeps(code: seq<Byte>, publics: seq<int>, incoming: set<int>, l: Loop, s: Progress, t: Tracker, l': Loop)
    requires LoopInv(code, publics, incoming, l, s, {Point(t)}) && Tracks(code, publics, t)
    requires Fetch(code, t.ip).Got? && Fetch(code, t.ip).i.End? && l' == l.(maxStack := Recording(l.maxStack, t))
    ensures LoopInv(code, publics, incoming, l', s, {Point(t)})
  {
    RecordKeeps(code, publics, l.maxStack, t);
  }

  /** All jumps out of a are registered and visited. */
  ghost predicate JumpsKnown(code: seq<Byte>, a: At, l: Loop) {
    forall b :: JumpMoves(code, a, b) ==> b.ip in l.visited && HasDepth(l.registered, b)
  }

  ghost predicate FallsKnown(code: seq<Byte>, a: At, known: set<At>) {
    forall b :: FallMoves(code, a, b) ==> b in known
  }

  /** The point of t has been dealt with. */
  lemma Concluded(code: seq<Byte>, publics: seq<int>, incoming: set<int>, l: Loop, s: Progress, t: Tracker)
    requires LoopInv(code, publics, incoming, l, s, {Point(t)}) && Admissible(code, Point(t))
    requires t.ip in incoming ==> HasDepth(l.registered, Point(t))
    requires JumpsKnown(code, Point(t), l) && FallsKnown(code, Point(t), s.known)
    ensures LoopInv(code, publics, incoming, l, s.(done := s.done + {Point(t)}), {})
  {
    Finished(code, publics, incoming, s, Point(t));
  }

  /** d and next are what is decoded at a, and say where it leads. */
  ghost predicate LeadsTo(code: seq<Byte>, a: At, next: int, d: Diagnostic) {
    && (forall b :: JumpMoves(code, a, b) <==> TakesJump(d) && b == At(d.jump, a.depth + d.change))
    && (forall b :: FallMoves(code, a, b) <==> FallsThrough(d) && b == At(next, a.depth + d.change))
    && (d.kind.EndKind? ==> Fetch(code, a.ip).Got? && Fetch(code, a.ip).i.End?)
  }

  lemma DecodedLeads(code: seq<Byte>, a: At)
    requires Admissible(code, a)
    ensures LeadsTo(code, a, Fetch(code, a.ip).next, Diagnose(Fetch(code, a.ip).i))
  {
    KindOf(Fetch(code, a.ip).i);
  }

  /** Where the jump of d goes, and the fall to `next`. */
  function Target(t: Tracker, d: Diagnostic): At { At(d.jump, t.depth + d.change) }

  function Successor(t: Tracker, next: int, d: Diagnostic): At { At(next, t.depth + d.change) }

  predicate TakesJump(d: Diagnostic) { d.kind.JmpKind? || d.kind.CjmpKind? }

  predicate FallsThrough(d: Diagnostic) { d.kind.OtherKind? || d.kind.CjmpKind? }

  lemma SameLoop(code: seq<Byte>, publics: seq<int>, incoming: set<int>, l: Loop, s: Progress, held: set<At>, l': Loop)
    requires LoopInv(code, publics, incoming, l, s, held) && l' == l
    ensures LoopInv(code, publics, incoming, l', s, held)
  {
  }

  lemma JumpPartCases(l: Loop, t: Tracker, d: Diagnostic)
    ensures JumpPart(l, t, d)
         == if TakesJump(d) then Jumping(l, t, Target(t, d).ip, Target(t, d).depth) else Some(l)
  {
  }

  lemma JumpPartKeeps(code: seq<Byte>, publics: seq<int>, incoming: set<int>, l: Loop, s: Progress, t: Tracker,
                      d: Diagnostic, r: Option<Loop>) returns (s': Progress)
    requires LoopInv(code, publics, incoming, l, s, {Point(t)}) && Tracks(code, publics, t)
    requires TakesJump(d) ==> JumpMoves(code, Point(t), Target(t, d))
    requires r == if TakesJump(d) then Jumping(l, t, Target(t, d).ip, Target(t, d).depth) else Some(l)
    ensures JumpDone(code, publics, incoming, l, s, t, r, s')
    ensures r.Some? && TakesJump(d) ==> d.jump in r.value.visited && HasDepth(r.value.registered, Target(t, d))
  {
    s' := s;
    if TakesJump(d) {
      s' := JumpKeeps(code, publics, incoming, l, s, t, Target(t, d), r);
    } else {
      SameLoop(code, publics, incoming, l, s, {Point(t)}, r.value);
    }
  }

  lemma FallPartCases(l: Loop, t: Tracker, next: int, d: Diagnostic)
    ensures FallsThrough(d) ==> FallPart(l, t, next, d) == Falling(l, t, next, t.depth + d.change)
    ensures d.kind.EndKind? ==> FallPart(l, t, next, d) == l.(maxStack := Recording(l.maxStack, t))
    ensures !FallsThrough(d) && !d.kind.EndKind? ==> FallPart(l, t, next, d) == l
  {
  }

  lemma FallPartKeeps(code: seq<Byte>, publics: seq<int>, incoming: set<int>, l: Loop, s: Progress, t: Tracker,
                      next: int, d: Diagnostic) returns (s': Progress)
    requires LoopInv(code, publics, incoming, l, s, {Point(t)}) && Tracks(code, publics, t)
    requires FallsThrough(d) ==> FallMoves(code, Point(t), Successor(t, next, d))
    requires d.kind.EndKind? ==> Fetch(code, t.ip).Got? && Fetch(code, t.ip).i.End?
    ensures LoopInv(code, publics, incoming, FallPart(l, t, next, d), s', {Point(t)}) && s'.done == s.done
    ensures FallsThrough(d) ==> Successor(t, next, d) in s'.known
  {
    FallPartCases(l, t, next, d);
    s' := s;
    if FallsThrough(d) {
      s' := FallKeeps(code, publics, incoming, l, s, t, Successor(t, next, d), FallPart(l, t, next, d));
    } else if d.kind.EndKind? {
      EndKeeps(code, publics, incoming, l, s, t, FallPart(l, t, next, d));
    }
  }

  /** All that is to be known of the point of t is known. */
  lemma AllKnown(code: seq<Byte>, l: Loop, known: set<At>, t: Tracker, next: int, d: Diagnostic)
    requires LeadsTo(code, Point(t), next, d)
    requires TakesJump(d) ==> d.jump in l.visited && HasDepth(l.registered, Target(t, d))
    requires FallsThrough(d) ==> Successor(t, next, d) in known
    ensures JumpsKnown(code, Point(t), l) && FallsKnown(code, Point(t), known)
  {
  }

  lemma CasesKeep(code: seq<Byte>, publics: seq<int>, incoming: set<int>, l: Loop, s: Progress, t: Tracker, next: int,
                  d: Diagnostic) returns (s': Progress)
    requires LoopInv(code, publics, incoming, l, s, {Point(t)}) && Tracks(code, publics, t)
    requires Admissible(code, Point(t)) && (t.ip in incoming ==> HasDepth(l.registered, Point(t)))
    requires LeadsTo(code, Point(t), next, d)
    ensures var r := Advanced(l, t, next, d);
            && (r.None? ==> !Balanced(code, publics, incoming))
            && (r.Some? ==> LoopInv(code, publics, incoming, r.value, s', {}) && s'.done == s.done + {Point(t)})
  {
    JumpPartCases(l, t, d);
    var r := JumpPart(l, t, d);
    s' := JumpPartKeeps(code, publics, incoming, l, s, t, d, r);
    if r.Some? {
      var l1 := FallPart(r.value, t, next, d);
      var s1 := FallPartKeeps(code, publics, incoming, r.value, s', t, next, d);
      AllKnown(code, l1, s1.known, t, next, d);
      Concluded(code, publics, incoming, l1, s1, t);
      s' := s1.(done := s1.done + {Point(t)});
    }
  }

  /** A turn keeps the invariant, or the program is not balanced. */
  lemma TurnKeeps(code: seq<Byte>, publics: seq<int>, incoming: set<int>, l: Loop, s: Progress, t: Tracker)
    returns (s': Progress)
    requires LoopInv(code, publics, incoming, l, s, {Point(t)}) && Tracks(code, publics, t)
    ensures var r := Turned(code, incoming, l, t);
            && (r.None? ==> !Balanced(code, publics, incoming))
            && (r.Some? ==> LoopInv(code, publics, incoming, r.value, s', {}) && s'.done == s.done + {Point(t)})
  {
    TrackedReach(code, publics, t);
    s' := s;
    if !Admissible(code, Point(t)) {
      return;
    }
    if t.ip in incoming {
      RegisterKeeps(code, publics, incoming, l, s, {Point(t)}, Point(t));
    }
    var r := Entering(l, incoming, t);
    if r.None? {
      return;
    }
    DecodedLeads(code, Point(t));
    s' := CasesKeep(code, publics, incoming, r.value, s.(registered := r.value.registered), t, Fetch(code, t.ip).next,
                    Diagnose(Fetch(code, t.ip).i));
  }

  /** Taking a tracker from the stack. */
  lemma Popped(code: seq<Byte>, publics: seq<int>, incoming: set<int>, l: Loop, s: Progress)
    requires LoopInv(code, publics, incoming, l, s, {}) && l.stack != []
    ensures Tracks(code, publics, Top(l)) && LoopInv(code, publics, incoming, Rest(l), s, {Point(Top(l))})
  {
    var rest, t := Rest(l).stack, Top(l);
    assert l.stack == rest + [t];
    PointsPush(rest, t);
    forall k | 0 <= k < |rest| ensures Tracks(code, publics, rest[k]) {
      assert l.stack[k] == rest[k];
    }
  }

  lemma StepKeeps(code: seq<Byte>, publics: seq<int>, incoming: set<int>, l: Loop, s: Progress) returns (s': Progress)
    requires LoopInv(code, publics, incoming, l, s, {}) && l.stack != []
    ensures var r := Turned(code, incoming, Rest(l), Top(l));
            && (r.None? ==> !Balanced(code, publics, incoming))
            && (r.Some? ==> LoopInv(code, publics, incoming, r.value, s', {}) && s'.done == s.done + {Point(Top(l))})
  {
    Popped(code, publics, incoming, l, s);
    s' := TurnKeeps(code, publics, incoming, Rest(l), s, Top(l));
  }

  lemma StartTracks(code: seq<Byte>, publics: seq<int>)
    ensures AllTrack(code, publics, Start(publics).stack)
  {
    var st := Start(publics).stack;
    forall k | 0 <= k < |st| ensures Tracks(code, publics, st[k]) {
      LeadsStart(code, publics[k]);
    }
  }

  lemma StartEnters(publics: seq<int>)
    ensures Entered(publics, Points(Start(publics).stack))
  {
    var st := Start(publics).stack;
    forall e | e in publics ensures At(e, 0) in Points(st) {
      var k :| 0 <= k < |publics| && publics[k] == e;
      assert st[k] == Tracker(e, e, 0, 0);
    }
  }

  lemma PointsReached(code: seq<Byte>, publics: seq<int>, stack: seq<Tracker>)
    requires AllTrack(code, publics, stack)
    ensures forall a :: a in Points(stack) ==> AbsReach(code, publics, a)
  {
    forall a | a in Points(stack) ensures AbsReach(code, publics, a) {
      var t :| t in stack && a == At(t.ip, t.depth);
      var k :| 0 <= k < |stack| && stack[k] == t;
      TrackedReach(code, publics, stack[k]);
    }
  }

  lemma Started(code: seq<Byte>, publics: seq<int>, incoming: set<int>, stack: seq<Tracker>, known: set<At>)
    requires AllTrack(code, publics, stack) && Points(stack) == known && Entered(publics, known)
    requires forall a :: a in known ==> AbsReach(code, publics, a)
    ensures LoopInv(code, publics, incoming, Loop(stack, {}, map[], map[]), Progress(known, {}, map[], {}), {})
  {
  }

  lemma StartSound(code: seq<Byte>, publics: seq<int>, incoming: set<int>) returns (s: Progress)
    ensures LoopInv(code, publics, incoming, Start(publics), s, {}) && s.known == Points(Start(publics).stack)
  {
    var st := Start(publics).stack;
    StartTracks(code, publics);
    StartEnters(publics);
    PointsReached(code, publics, st);
    Started(code, publics, incoming, st, Points(st));
    s := Progress(Points(st), {}, map[], {});
  }

  lemma EmptyIsRight(code: seq<Byte>, publics: seq<int>, incoming: set<int>, l: Loop, s: Progress)
    requires LoopInv(code, publics, incoming, l, s, {}) && l.stack == []
    ensures Balanced(code, publics, incoming) && PeaksWitnessed(code, publics, l.maxStack)
  {
    assert Points(l.stack) == {};
    AllDone(code, publics, incoming, s);
  }

  // ----- whole runs of the loop ------------------------------------------------------------

  /** What every turn keeps holds after any number of turns. */
  lemma {:induction false} TurnsKeep(step: Loop -> Option<Loop>, inv: Loop -> bool, rejected: bool, l: Loop, n: nat)
    requires inv(l)
    requires forall m :: inv(m) && m.stack != [] && step(m).Some? ==> inv(step(m).value)
    requires forall m :: inv(m) && m.stack != [] && step(m).None? ==> rejected
    ensures Turns(step, l, n).Some? ==> inv(Turns(step, l, n).value)
    ensures Turns(step, l, n).None? ==> rejected
    decreases n
  {
    if n > 0 && l.stack != [] && step(l).Some? {
      TurnsKeep(step, inv, rejected, step(l).value, n - 1);
    }
  }

  /** One more turn of a run that has something to do. */
  lemma {:induction false} OneMoreTurn(step: Loop -> Option<Loop>, l: Loop, n: nat, m: Loop)
    requires Turns(step, l, n) == Some(m) && m.stack != []
    ensures Turns(step, l, n + 1) == step(m)
    decreases n
  {
    if n > 0 {
      OneMoreTurn(step, step(l).value, n - 1, m);
    } else {
      assert step(l).Some? ==> Turns(step, step(l).value, 0) == step(l);
    }
  }

  /** A run whose turns make a measure smaller ends. */
  lemma {:induction false} TurnsEnd(step: Loop -> Option<Loop>, inv: Loop -> bool, u: Loop -> nat, w: Loop -> nat,
                                   l: Loop) returns (n: nat)
    requires inv(l)
    requires forall m :: inv(m) && m.stack != [] && step(m).Some? ==> inv(step(m).value)
    requires forall m :: inv(m) && m.stack != [] && step(m).Some? ==>
               u(step(m).value) < u(m) || (u(step(m).value) == u(m) && w(step(m).value) < w(m))
    ensures Over(Turns(step, l, n))
    decreases u(l), w(l)
  {
    n := 0;
    if l.stack != [] {
      n := 1;
      if step(l).Some? {
        var m := TurnsEnd(step, inv, u, w, step(l).value);
        n := m + 1;
      }
    }
  }

  /** Every turn that starts with something to do succeeds and leaves something to do. */
  ghost predicate Restless(step: Loop -> Option<Loop>, inv: Loop -> bool) {
    forall m {:trigger inv(m)} :: inv(m) ==> m.stack != [] && step(m).Some? && inv(step(m).value)
  }

  /** A run in which every turn leaves something to do goes on. */
  lemma {:induction false} TurnsGoOn(step: Loop -> Option<Loop>, inv: Loop -> bool, l: Loop, n: nat)
    requires inv(l) && Restless(step, inv)
    ensures !Over(Turns(step, l, n))
    decreases n
  {
    if n > 0 {
      TurnsGoOn(step, inv, step(l).value, n - 1);
    }
  }

  ghost predicate Sound(code: seq<Byte>, publics: seq<int>, incoming: set<int>, l: Loop) {
    exists s :: LoopInv(code, publics, incoming, l, s, {})
  }

  lemma StepSound(code: seq<Byte>, publics: seq<int>, incoming: set<int>, l: Loop)
    requires Sound(code, publics, incoming, l) && l.stack != []
    ensures var r := Step(code, incoming)(l);
            (r.None? ==> !Balanced(code, publics, incoming)) && (r.Some? ==> Sound(code, publics, incoming, r.value))
  {
    var s :| LoopInv(code, publics, incoming, l, s, {});
    var s' := StepKeeps(code, publics, incoming, l, s);
  }

  /** Whenever the loop ends its verdict is right. */
  lemma VerdictRight(code: seq<Byte>, publics: seq<int>, incoming: set<int>, n: nat)
    requires Over(Turns(Step(code, incoming), Start(publics), n))
    ensures var r := Turns(Step(code, incoming), Start(publics), n);
            && (r.Some? <==> Balanced(code, publics, incoming))
            && (r.Some? ==> PeaksWitnessed(code, publics, r.value.maxStack))
  {
    var s := StartSound(code, publics, incoming);
    forall m | Sound(code, publics, incoming, m) && m.stack != []
      ensures var r := Step(code, incoming)(m);
              (r.None? ==> !Balanced(code, publics, incoming)) && (r.Some? ==> Sound(code, publics, incoming, r.value))
    {
      StepSound(code, publics, incoming, m);
    }
    TurnsKeep(Step(code, incoming), (m: Loop) => Sound(code, publics, incoming, m), !Balanced(code, publics, incoming),
              Start(publics), n);
    var r := Turns(Step(code, incoming), Start(publics), n);
    if r.Some? {
      var s' :| LoopInv(code, publics, incoming, r.value, s', {});
      EmptyIsRight(code, publics, incoming, r.value, s');
    }
  }

  // ----- the maxima ------------------------------------------------------------------------

  ghost predicate FallHop(code: seq<Byte>, p: seq<At>, k: nat)
    requires k + 1 < |p|
  {
    FallMoves(code, p[k], p[k + 1])
  }

  /** A path from the function at `begin` to one of its ENDs that never jumps. */
  ghost predicate FallPath(code: seq<Byte>, begin: int, p: seq<At>) {
    && |p| > 0 && p[0] == At(begin, 0) && Fetch(code, p[|p| - 1].ip).Got? && Fetch(code, p[|p| - 1].ip).i.End?
    && forall k: nat {:trigger FallHop(code, p, k)} :: k + 1 < |p| ==> FallHop(code, p, k)
  }

  ghost predicate HasMaximum(maxStack: map<int, int>, begin: int, peak: int) {
    begin in maxStack && peak <= maxStack[begin]
  }

  /** The maximum of each public function with such a path is there, and no less than the peak of the path. */
  ghost predicate FallsRecorded(code: seq<Byte>, publics: seq<int>, maxStack: map<int, int>) {
    forall e, p {:trigger FallPath(code, e, p)} :: e in publics && FallPath(code, e, p) ==>
      HasMaximum(maxStack, e, Peak(p))
  }

  /** The tracker t has come to point k of the path. */
  ghost predicate On(p: seq<At>, k: nat, begin: int, t: Tracker)
    requires k < |p|
  {
    t.begin == begin && Point(t) == p[k] && Peak(p[..k + 1]) <= t.max
  }

  /** Some tracker on the stack is on the path. */
  ghost predicate Underway(p: seq<At>, begin: int, stack: seq<Tracker>) {
    exists k: nat, j: nat {:trigger p[k], stack[j]} :: k < |p| && j < |stack| && On(p, k, begin, stack[j])
  }

  ghost predicate PathKept(p: seq<At>, begin: int, l: Loop)
    requires |p| > 0
  {
    Underway(p, begin, l.stack) || HasMaximum(l.maxStack, begin, Peak(p))
  }

  /** All paths that never jump are underway or recorded. */
  ghost predicate FallsKept(code: seq<Byte>, publics: seq<int>, l: Loop) {
    forall e, p {:trigger FallPath(code, e, p)} :: e in publics && FallPath(code, e, p) ==> PathKept(p, e, l)
  }

  lemma StartCovers(code: seq<Byte>, publics: seq<int>)
    ensures FallsKept(code, publics, Start(publics))
  {
    forall e, p | e in publics && FallPath(code, e, p) ensures PathKept(p, e, Start(publics)) {
      var j: nat :| j < |publics| && publics[j] == e;
      assert p[..1] == [At(e, 0)];
      assert On(p, 0, e, Start(publics).stack[j]);
    }
  }

  /** The stack only grows at its end, and maxima only grow, in a turn. */
  ghost predicate Extends(l: Loop, l': Loop) {
    && l.stack <= l'.stack
    && forall e {:trigger e in l.maxStack} :: e in l.maxStack ==> HasMaximum(l'.maxStack, e, l.maxStack[e])
  }

  lemma TurnExtends(code: seq<Byte>, incoming: set<int>, l: Loop, t: Tracker)
    requires Turned(code, incoming, l, t).Some?
    ensures Extends(l, Turned(code, incoming, l, t).value)
  {
  }

  lemma PeakSnoc(p: seq<At>, k: nat)
    requires k + 1 < |p|
    ensures Peak(p[..k + 2]) == Max(Peak(p[..k + 1]), p[k + 1].depth)
  {
    assert p[..k + 2][..k + 1] == p[..k + 1];
  }

  /** The turn of a tracker on the path brings it one step on, or records the path. */
  lemma TurnCovers(code: seq<Byte>, incoming: set<int>, l: Loop, t: Tracker, p: seq<At>, k: nat)
    requires Turned(code, incoming, l, t).Some? && FallPath(code, t.begin, p) && k < |p| && On(p, k, t.begin, t)
    ensures PathKept(p, t.begin, Turned(code, incoming, l, t).value)
  {
    var l' := Turned(code, incoming, l, t).value;
    KindOf(Fetch(code, t.ip).i);
    if k + 1 < |p| {
      assert FallHop(code, p, k);
      PeakSnoc(p, k);
      assert On(p, k + 1, t.begin, l'.stack[|l'.stack| - 1]);
    } else {
      assert p[..k + 1] == p;
    }
  }

  lemma StepCovers(code: seq<Byte>, publics: seq<int>, incoming: set<int>, l: Loop)
    requires l.stack != [] && FallsKept(code, publics, l) && Step(code, incoming)(l).Some?
    ensures FallsKept(code, publics, Step(code, incoming)(l).value)
  {
    var r, t := Rest(l), Top(l);
    var l' := Turned(code, incoming, r, t).value;
    TurnExtends(code, incoming, r, t);
    forall e, p | e in publics && FallPath(code, e, p) ensures PathKept(p, e, l') {
      PathStaysCovered(code, incoming, l, l', e, p);
    }
  }

  lemma PathStaysCovered(code: seq<Byte>, incoming: set<int>, l: Loop, l': Loop, e: int, p: seq<At>)
    requires l.stack != [] && Turned(code, incoming, Rest(l), Top(l)).Some? && Extends(Rest(l), l')
    requires l' == Turned(code, incoming, Rest(l), Top(l)).value && FallPath(code, e, p) && PathKept(p, e, l)
    ensures PathKept(p, e, l')
  {
    if Underway(p, e, l.stack) {
      var k: nat, j: nat :| k < |p| && j < |l.stack| && On(p, k, e, l.stack[j]);
      if j == |l.stack| - 1 {
        assert On(p, k, e, Top(l));
        TurnCovers(code, incoming, Rest(l), Top(l), p, k);
      } else {
        var r := Rest(l).stack;
        assert r == l.stack[..|l.stack| - 1] && j < |r| && r[j] == l.stack[j];
        assert l'.stack[j] == r[j];
        assert On(p, k, e, l'.stack[j]);
      }
    } else {
      assert e in Rest(l).maxStack;
    }
  }

  /** Whenever the loop ends no path that never jumps has been forgotten. */
  lemma MaximaRight(code: seq<Byte>, publics: seq<int>, incoming: set<int>, n: nat)
    requires Over(Turns(Step(code, incoming), Start(publics), n))
    ensures var r := Turns(Step(code, incoming), Start(publics), n);
            r.Some? ==> FallsRecorded(code, publics, r.value.maxStack)
  {
    var step, inv := Step(code, incoming), (m: Loop) => FallsKept(code, publics, m);
    StartCovers(code, publics);
    forall m | inv(m) && m.stack != [] && step(m).Some? ensures inv(step(m).value) {
      StepCovers(code, publics, incoming, m);
    }
    TurnsKeep(step, inv, true, Start(publics), n);
    var r := Turns(step, Start(publics), n);
    if r.Some? {
      forall e, p | e in publics && FallPath(code, e, p) ensures HasMaximum(r.value.maxStack, e, Peak(p)) {
        assert PathKept(p, e, r.value);
      }
    }
  }

  // ----- that it ends ----------------------------------------------------------------------

  /** Jump targets not yet visited, in the code or not. */
  ghost function Unvisited(visited: set<int>): (u: set<int>)
    ensures forall a :: a in u <==> -0x8000_0000 <= a < 0x8000_0000 && a !in visited
  {
    set a | -0x8000_0000 <= a < 0x8000_0000 && a !in visited
  }

  lemma TargetRange(code: seq<Byte>, ip: int)
    requires Fetch(code, ip).Got? && (Fetch(code, ip).i.Jmp? || Fetch(code, ip).i.Cjmp?)
    ensures -0x8000_0000 <= Fetch(code, ip).i.target < 0x8000_0000
  {
  }

  /** How far the trackers on the stack have to fall. */
  ghost function Weight(code: seq<Byte>, stack: seq<Tracker>): (w: nat) {
    if stack == [] then 0 else Weight(code, stack[..|stack| - 1]) + Distance(code, stack[|stack| - 1].ip)
  }

  lemma WeightPush(code: seq<Byte>, stack: seq<Tracker>, t: Tracker)
    ensures Weight(code, stack + [t]) == Weight(code, stack) + Distance(code, t.ip)
  {
    assert (stack + [t])[..|stack|] == stack;
  }

  /** The worklist shrinks: fewer unvisited targets, or the same with less weight. */
  ghost predicate Shrinks(code: seq<Byte>, l: Loop, l': Loop) {
    || Unvisited(l'.visited) < Unvisited(l.visited)
    || (l'.visited == l.visited && Weight(code, l'.stack) < Weight(code, l.stack))
  }

  lemma JumpShrinks(code: seq<Byte>, l: Loop, t: Tracker, target: int, depth: int)
    requires Jumping(l, t, target, depth).Some? && -0x8000_0000 <= target < 0x8000_0000
    ensures var l' := Jumping(l, t, target, depth).value;
            Unvisited(l'.visited) < Unvisited(l.visited) || (l'.visited == l.visited && l'.stack == l.stack)
  {
    if target !in l.visited {
      assert target in Unvisited(l.visited) && target !in Unvisited(l.visited + {target});
    }
  }

  lemma FallShrinks(code: seq<Byte>, publics: seq<int>, l: Loop, t: Tracker)
    requires NoFallCycle(code, publics) && Tracks(code, publics, t) && FallOf(code, t.ip).Some?
    ensures var l' := Falling(l, t, FallOf(code, t.ip).value, t.depth + Diagnose(Fetch(code, t.ip).i).change);
            l'.visited == l.visited && Weight(code, l'.stack) < Weight(code, l.stack) + Distance(code, t.ip)
  {
    TrackedReach(code, publics, t);
    Nearer(code, publics, Point(t));
    WeightPush(code, l.stack, Following(t, FallOf(code, t.ip).value, t.depth + Diagnose(Fetch(code, t.ip).i).change));
  }

  lemma JumpPartShrinks(code: seq<Byte>, l: Loop, t: Tracker)
    requires Fetch(code, t.ip).Got? && JumpPart(l, t, Diagnose(Fetch(code, t.ip).i)).Some?
    ensures var l' := JumpPart(l, t, Diagnose(Fetch(code, t.ip).i)).value;
            Unvisited(l'.visited) < Unvisited(l.visited) || (l'.visited == l.visited && l'.stack == l.stack)
  {
    var d := Diagnose(Fetch(code, t.ip).i);
    KindOf(Fetch(code, t.ip).i);
    if d.kind.JmpKind? || d.kind.CjmpKind? {
      TargetRange(code, t.ip);
      JumpShrinks(code, l, t, d.jump, t.depth + d.change);
    }
  }

  lemma FallPartShrinks(code: seq<Byte>, publics: seq<int>, l: Loop, t: Tracker)
    requires NoFallCycle(code, publics) && Tracks(code, publics, t) && Admissible(code, Point(t))
    ensures var l' := FallPart(l, t, Fetch(code, t.ip).next, Diagnose(Fetch(code, t.ip).i));
            l'.visited == l.visited && Weight(code, l'.stack) < Weight(code, l.stack) + Distance(code, t.ip)
  {
    var d := Diagnose(Fetch(code, t.ip).i);
    if d.kind.OtherKind? || d.kind.CjmpKind? {
      FallShrinks(code, publics, l, t);
    }
  }

  lemma TurnShrinks(code: seq<Byte>, publics: seq<int>, incoming: set<int>, l: Loop, t: Tracker)
    requires NoFallCycle(code, publics) && Tracks(code, publics, t) && Turned(code, incoming, l, t).Some?
    ensures Shrinks(code, l.(stack := l.stack + [t]), Turned(code, incoming, l, t).value)
  {
    var l1 := Entering(l, incoming, t).value;
    WeightPush(code, l.stack, t);
    JumpPartShrinks(code, l1, t);
    FallPartShrinks(code, publics, JumpPart(l1, t, Diagnose(Fetch(code, t.ip).i)).value, t);
  }

  lemma TopTracked(code: seq<Byte>, publics: seq<int>, incoming: set<int>, l: Loop, s: Progress)
    requires LoopInv(code, publics, incoming, l, s, {}) && l.stack != []
    ensures Tracks(code, publics, Top(l))
  {
  }

  lemma StepShrinks(code: seq<Byte>, publics: seq<int>, incoming: set<int>, l: Loop)
    requires NoFallCycle(code, publics) && l.stack != [] && Tracks(code, publics, Top(l))
    requires Turned(code, incoming, Rest(l), Top(l)).Some?
    ensures Shrinks(code, l, Turned(code, incoming, Rest(l), Top(l)).value)
  {
    TurnShrinks(code, publics, incoming, Rest(l), Top(l));
    assert l == Rest(l).(stack := Rest(l).stack + [Top(l)]);
  }

  lemma FewerUnvisited(l: Loop, l': Loop)
    requires Unvisited(l'.visited) < Unvisited(l.visited)
    ensures |Unvisited(l'.visited)| < |Unvisited(l.visited)|
  {
    var a, b := Unvisited(l'.visited), Unvisited(l.visited);
    assert b == a + (b - a) && b - a != {};
  }

  /** Without fall cycles the loop ends. */
  lemma EndsWithoutCycle(code: seq<Byte>, publics: seq<int>, incoming: set<int>)
    requires NoFallCycle(code, publics)
    ensures LoopEnds(code, publics, incoming)
  {
    var s := StartSound(code, publics, incoming);
    forall m | Sound(code, publics, incoming, m) && m.stack != [] && Step(code, incoming)(m).Some?
      ensures Smaller(code, Step(code, incoming)(m).value, m)
      ensures Sound(code, publics, incoming, Step(code, incoming)(m).value)
    {
      StepSound(code, publics, incoming, m);
      var s1 :| LoopInv(code, publics, incoming, m, s1, {});
      TopTracked(code, publics, incoming, m, s1);
      StepSmaller(code, publics, incoming, m);
    }
    var n := TurnsEnd(Step(code, incoming), (m: Loop) => Sound(code, publics, incoming, m),
                      (m: Loop) => |Unvisited(m.visited)|, (m: Loop) => Weight(code, m.stack), Start(publics));
  }

  ghost predicate Smaller(code: seq<Byte>, l': Loop, l: Loop) {
    || |Unvisited(l'.visited)| < |Unvisited(l.visited)|
    || (|Unvisited(l'.visited)| == |Unvisited(l.visited)| && Weight(code, l'.stack) < Weight(code, l.stack))
  }

  lemma StepSmaller(code: seq<Byte>, publics: seq<int>, incoming: set<int>, l: Loop)
    requires NoFallCycle(code, publics) && l.stack != [] && Tracks(code, publics, Top(l))
    requires Step(code, incoming)(l).Some?
    ensures Smaller(code, Step(code, incoming)(l).value, l)
  {
    var l' := Step(code, incoming)(l).value;
    StepShrinks(code, publics, incoming, l);
    if Unvisited(l'.visited) < Unvisited(l.visited) {
      FewerUnvisited(l, l');
    }
  }

  /** The addresses on the cycle from c. */
  ghost predicate OnCycle(code: seq<Byte>, c: int, ip: int) { exists j: nat :: FallTo(code, c, j) == Some(ip) }

  /** Some tracker on the stack is on the cycle. */
  ghost predicate Circling(code: seq<Byte>, c: int, stack: seq<Tracker>) {
    exists k :: 0 <= k < |stack| && OnCycle(code, c, stack[k].ip)
  }

  lemma CircleFalls(code: seq<Byte>, c: int, k: nat, ip: int)
    requires k > 0 && FallTo(code, c, k) == Some(c) && OnCycle(code, c, ip)
    ensures FallOf(code, ip).Some? && OnCycle(code, c, FallOf(code, ip).value)
  {
    var j: nat :| FallTo(code, c, j) == Some(ip);
    CycleGoesOn(code, c, k, j);
    FallFurther(code, c, j, 1);
    assert FallTo(code, ip, 1) == FallOf(code, ip);
  }

  /** Once there is one there will always be one. */
  lemma CircleStays(code: seq<Byte>, incoming: set<int>, c: int, k: nat, l: Loop)
    requires k > 0 && FallTo(code, c, k) == Some(c) && l.stack != [] && Circling(code, c, l.stack)
    requires Turned(code, incoming, Rest(l), Top(l)).Some?
    ensures Circling(code, c, Turned(code, incoming, Rest(l), Top(l)).value.stack)
  {
    var t, l' := Top(l), Turned(code, incoming, Rest(l), Top(l)).value;
    TurnStack(code, incoming, Rest(l), t);
    var i :| 0 <= i < |l.stack| && OnCycle(code, c, l.stack[i].ip);
    if i < |l.stack| - 1 {
      assert l'.stack[i] == l.stack[i];
    } else {
      CircleFalls(code, c, k, t.ip);
      assert OnCycle(code, c, l'.stack[|l'.stack| - 1].ip);
    }
  }

  /** What is on the stack after a turn: the rest, and above it what the instruction leads to. */
  lemma TurnStack(code: seq<Byte>, incoming: set<int>, l: Loop, t: Tracker)
    requires Turned(code, incoming, l, t).Some?
    ensures var st := Turned(code, incoming, l, t).value.stack;
            && |l.stack| <= |st| && st[..|l.stack|] == l.stack
            && (FallOf(code, t.ip).Some? ==> |l.stack| < |st| && st[|st| - 1].ip == FallOf(code, t.ip).value)
  {
  }

  /** The state of a loop that will not end: the cycle from c is on the stack, or has not been seen yet. */
  ghost predicate Endless(code: seq<Byte>, publics: seq<int>, incoming: set<int>, l: Loop, s: Progress, c: int) {
    && LoopInv(code, publics, incoming, l, s, {})
    && (Circling(code, c, l.stack) || forall b :: b in s.known ==> !OnCycle(code, c, b.ip))
  }

  /** On a balanced program with a cycle it stays so: points are known only when they have been on the stack. */
  lemma StaysEndless(code: seq<Byte>, publics: seq<int>, incoming: set<int>, l: Loop, s: Progress, a: At, k: nat)
    returns (s': Progress)
    requires Balanced(code, publics, incoming) && Endless(code, publics, incoming, l, s, a.ip)
    requires AbsReach(code, publics, a) && k > 0 && FallTo(code, a.ip, k) == Some(a.ip)
    ensures l.stack != [] && Step(code, incoming)(l).Some?
    ensures Endless(code, publics, incoming, Step(code, incoming)(l).value, s', a.ip)
  {
    NotEmpty(code, publics, incoming, l, s, a);
    s' := StepKeeps(code, publics, incoming, l, s);
    if Circling(code, a.ip, l.stack) {
      CircleStays(code, incoming, a.ip, k, l);
    } else {
      NewOnStack(code, publics, incoming, l, s, Step(code, incoming)(l).value, s', a.ip);
    }
  }

  lemma NotEmpty(code: seq<Byte>, publics: seq<int>, incoming: set<int>, l: Loop, s: Progress, a: At)
    requires LoopInv(code, publics, incoming, l, s, {}) && AbsReach(code, publics, a)
    requires Circling(code, a.ip, l.stack) || forall b :: b in s.known ==> !OnCycle(code, a.ip, b.ip)
    ensures l.stack != []
  {
    assert FallTo(code, a.ip, 0) == Some(a.ip);
    if l.stack == [] {
      assert Points(l.stack) == {};
      DoneHoldsAll(code, publics, incoming, s, a);
    }
  }

  /** What a turn makes known is on the stack after it. */
  lemma NewOnStack(code: seq<Byte>, publics: seq<int>, incoming: set<int>, l: Loop, s: Progress, l': Loop, s': Progress,
                   c: int)
    requires LoopInv(code, publics, incoming, l, s, {}) && LoopInv(code, publics, incoming, l', s', {}) && l.stack != []
    requires s'.done == s.done + {Point(Top(l))}
    requires forall b :: b in s.known ==> !OnCycle(code, c, b.ip)
    ensures Circling(code, c, l'.stack) || forall b :: b in s'.known ==> !OnCycle(code, c, b.ip)
  {
    forall b | b in s'.known && OnCycle(code, c, b.ip) ensures Circling(code, c, l'.stack) {
      assert Point(Top(l)) in Points(l.stack);
      PointCircles(code, c, l'.stack, b);
    }
  }

  lemma PointCircles(code: seq<Byte>, c: int, stack: seq<Tracker>, b: At)
    requires b in Points(stack) && OnCycle(code, c, b.ip)
    ensures Circling(code, c, stack)
  {
    var t :| t in stack && b == At(t.ip, t.depth);
    var i :| 0 <= i < |stack| && stack[i] == t;
  }

  ghost predicate WillGoOn(code: seq<Byte>, publics: seq<int>, incoming: set<int>, l: Loop, c: int) {
    exists s :: Endless(code, publics, incoming, l, s, c)
  }

  lemma GoesOn(code: seq<Byte>, publics: seq<int>, incoming: set<int>, l: Loop, a: At, k: nat)
    requires Balanced(code, publics, incoming) && WillGoOn(code, publics, incoming, l, a.ip)
    requires AbsReach(code, publics, a) && k > 0 && FallTo(code, a.ip, k) == Some(a.ip)
    ensures l.stack != [] && Step(code, incoming)(l).Some?
    ensures WillGoOn(code, publics, incoming, Step(code, incoming)(l).value, a.ip)
  {
    var s :| Endless(code, publics, incoming, l, s, a.ip);
    var s' := StaysEndless(code, publics, incoming, l, s, a, k);
  }

  lemma StartGoesOn(code: seq<Byte>, publics: seq<int>, incoming: set<int>, c: int)
    ensures WillGoOn(code, publics, incoming, Start(publics), c)
  {
    var s := StartSound(code, publics, incoming);
    AtStart(publics, code, s, c);
    assert Endless(code, publics, incoming, Start(publics), s, c);
  }

  lemma CycleRestless(code: seq<Byte>, publics: seq<int>, incoming: set<int>, a: At, k: nat,
                      step: Loop -> Option<Loop>, inv: Loop -> bool)
    requires Balanced(code, publics, incoming)
    requires AbsReach(code, publics, a) && k > 0 && FallTo(code, a.ip, k) == Some(a.ip)
    requires step == Step(code, incoming) && forall m :: inv(m) <==> WillGoOn(code, publics, incoming, m, a.ip)
    ensures Restless(step, inv)
  {
    forall m | inv(m) ensures m.stack != [] && step(m).Some? && inv(step(m).value) {
      GoesOn(code, publics, incoming, m, a, k);
    }
  }

  /** On a balanced program with a cycle the loop does not end. */
  lemma CycleNeverEnds(code: seq<Byte>, publics: seq<int>, incoming: set<int>, a: At, k: nat, n: nat)
    requires Balanced(code, publics, incoming)
    requires AbsReach(code, publics, a) && k > 0 && FallTo(code, a.ip, k) == Some(a.ip)
    ensures !Over(Turns(Step(code, incoming), Start(publics), n))
  {
    var step, inv := Step(code, incoming), (m: Loop) => WillGoOn(code, publics, incoming, m, a.ip);
    CycleRestless(code, publics, incoming, a, k, step, inv);
    StartGoesOn(code, publics, incoming, a.ip);
    TurnsGoOn(step, inv, Start(publics), n);
  }

  /** For balanced programs the loop ends if and only if there are no fall cycles; without them it ends for
      every program. */
  lemma EndsExactly(code: seq<Byte>, publics: seq<int>, incoming: set<int>)
    ensures NoFallCycle(code, publics) ==> LoopEnds(code, publics, incoming)
    ensures Balanced(code, publics, incoming) ==> (LoopEnds(code, publics, incoming) <==> NoFallCycle(code, publics))
  {
    if NoFallCycle(code, publics) {
      EndsWithoutCycle(code, publics, incoming);
    } else if Balanced(code, publics, incoming) {
      var a, k: nat :| AbsReach(code, publics, a) && k > 0 && FallTo(code, a.ip, k) == Some(a.ip);
      forall n: nat ensures !Over(Turns(Step(code, incoming), Start(publics), n)) {
        CycleNeverEnds(code, publics, incoming, a, k, n);
      }
    }
  }

  /** Before the first turn everything known is on the stack. */
  lemma AtStart(publics: seq<int>, code: seq<Byte>, s: Progress, c: int)
    requires s.known == Points(Start(publics).stack)
    ensures Circling(code, c, Start(publics).stack) || forall b :: b in s.known ==> !OnCycle(code, c, b.ip)
  {
    var st := Start(publics).stack;
    forall b | b in s.known && OnCycle(code, c, b.ip) ensures Circling(code, c, st) {
      var t :| t in st && b == At(t.ip, t.depth);
      var i :| 0 <= i < |st| && st[i] == t;
    }
  }

  // ----- the loop --------------------------------------------------------------------------

  /** `register_depth`: it fails exactly on a second, different depth. */
  method RegisterDepth(registered: map<int, int>, ip: int, depth: int) returns (ok: bool, registered': map<int, int>)
    ensures ok <==> (ip in registered ==> registered[ip] == depth)
    ensures ok ==> Registering(registered, ip, depth) == Some(registered') && registered' == registered[ip := depth]
    ensures !ok ==> registered' == registered
  {
    ok, registered' := true, registered;
    if ip in registered {
      ok := registered[ip] == depth;
      if ok {
        assert registered[ip := depth] == registered;
      }
    } else {
      registered' := registered[ip := depth];
    }
  }

  /** A jump: its target goes on the stack the first time, and is registered each time. */
  method FollowJump(t: Tracker, target: int, depth: int, l: Loop) returns (ok: bool, l': Loop)
    ensures Jumping(l, t, target, depth) == if ok then Some(l') else None
    ensures ok ==> (target in l.visited <==> l'.stack == l.stack) && target in l'.visited
    ensures ok ==> target in l'.registered && l'.registered[target] == depth
  {
    l' := l;
    if target !in l.visited {
      l' := l.(stack := l.stack + [Following(t, target, depth)], visited := l.visited + {target});
      assert |l'.stack| > |l.stack|;
    }
    var re;
    ok, re := RegisterDepth(l.registered, target, depth);
    l' := l'.(registered := re);
  }

  /** The first half of the loop body: both decoders, and the two checks on the depth. */
  method Inspect(code: array<Byte>, t: Tracker) returns (ok: bool, next: int, d: Diagnostic)
    ensures ok <==> Admissible(code[..], Point(t))
    ensures ok ==> d == Diagnose(Fetch(code[..], t.ip).i) && next == Fetch(code[..], t.ip).next
  {
    ok, next, d := false, 0, Other(0, 0);
    var r := RunInstruction(code, t.ip);
    var f := Fetch(code[..], t.ip);
    if r.Flow? && f.Got? {
      next, d := f.next, Diagnose(f.i);
      ok := d.required <= t.depth && 0 <= t.depth + d.change;
    }
  }

  /** The second half of the loop body: by kind of instruction. */
  method Advance(t: Tracker, next: int, d: Diagnostic, l: Loop) returns (ok: bool, l': Loop)
    ensures Advanced(l, t, next, d) == if ok then Some(l') else None
  {
    var depth := t.depth + d.change;
    ok, l' := true, l;
    if d.kind.JmpKind? || d.kind.CjmpKind? {
      ok, l' := FollowJump(t, d.jump, depth, l);
      if !ok {
        return;
      }
    }
    if d.kind.OtherKind? || d.kind.CjmpKind? {
      l' := l'.(stack := l'.stack + [Following(t, next, depth)]);
    }
    if d.kind.EndKind? {
      var before := if t.begin in l.maxStack then l.maxStack[t.begin] else 0;
      l' := l'.(maxStack := l'.maxStack[t.begin := Max(before, t.max)]);
    }
  }

  /** The loop body. */
  method TakeTurn(code: array<Byte>, incoming: set<int>, l: Loop) returns (ok: bool, l': Loop)
    requires l.stack != []
    ensures Turned(code[..], incoming, Rest(l), Top(l)) == if ok then Some(l') else None
  {
    var t := l.stack[|l.stack| - 1];
    l' := l.(stack := l.stack[..|l.stack| - 1]);
    var next, d;
    ok, next, d := Inspect(code, t);
    if !ok {
      return;
    }
    if t.ip in incoming {
      var re;
      ok, re := RegisterDepth(l'.registered, t.ip, t.depth);
      if !ok {
        return;
      }
      l' := l'.(registered := re);
    }
    ok, l' := Advance(t, next, d, l');
  }

  method RunLoop(code: array<Byte>, ghost publics: seq<int>, incoming: set<int>, start: Loop, ghost s0: Progress)
    returns (r: Option<map<int, int>>, ghost n: nat)
    requires LoopInv(code[..], publics, incoming, start, s0, {}) && NoFallCycle(code[..], publics)
    ensures EndsWith(Turns(Step(code[..], incoming), start, n), r)
  {
    var l := start;
    n := 0;
    ghost var s := s0;
    while l.stack != []
      invariant LoopInv(code[..], publics, incoming, l, s, {})
      invariant Turns(Step(code[..], incoming), start, n) == Some(l)
      decreases Unvisited(l.visited), Weight(code[..], l.stack)
    {
      ghost var s' := StepKeeps(code[..], publics, incoming, l, s);
      TopTracked(code[..], publics, incoming, l, s);
      OneMoreTurn(Step(code[..], incoming), start, n, l);
      n := n + 1;
      var ok, l' := TakeTurn(code, incoming, l);
      if !ok {
        return None, n;
      }
      StepShrinks(code[..], publics, incoming, l);
      l, s := l', s';
    }
    r := Some(l.maxStack);
  }

  /** The maxima are those with which the loop has ended. */
  ghost predicate EndsWith(end: Option<Loop>, r: Option<map<int, int>>) {
    Over(end) && r == if end.None? then None else Some(end.value.maxStack)
  }

  /** The loop of `check_depth`: it ends, although the instruction after the current one is pushed again
      each time, and accepts exactly the balanced programs.  EndsExactly and CycleExample show that a
      balanced program needs the precondition.  The maxima are those of the loop: each is the peak of some path,
      and no path that never jumps has a higher one. */
  method CheckPaths(code: array<Byte>, publics: seq<int>, incoming: set<int>)
    returns (r: Option<map<int, int>>, ghost n: nat)
    requires NoFallCycle(code[..], publics)
    ensures EndsWith(Turns(Step(code[..], incoming), Start(publics), n), r)
    ensures r.Some? <==> Balanced(code[..], publics, incoming)
    ensures r.Some? ==> PeaksWitnessed(code[..], publics, r.value) && FallsRecorded(code[..], publics, r.value)
  {
    var stack := PushEntries(publics);
    ghost var s := StartSound(code[..], publics, incoming);
    r, n := RunLoop(code, publics, incoming, Loop(stack, {}, map[], map[]), s);
    VerdictRight(code[..], publics, incoming, n);
    MaximaRight(code[..], publics, incoming, n);
  }

  /** The trackers for the public symbols. */
  method PushEntries(publics: seq<int>) returns (stack: seq<Tracker>)
    ensures stack == Start(publics).stack
  {
    stack := [];
    var i := 0;
    while i < |publics|
      invariant 0 <= i <= |publics| && stack == Start(publics).stack[..i]
    {
      stack := stack + [Tracker(publics[i], publics[i], 0, 0)];
      i := i + 1;
    }
  }
}
