/** The abstract machine of the verifier: points are addresses with a depth of the operand stack, and
    the paths through them that start at public symbols. */
module DepthPaths {
  import opened Bytecode
  import opened DepthTable
  import opened ControlFlow

  datatype At = At(ip: int, depth: int)

  function Max(a: int, b: int): int { if a > b then a else b }

  /** The depth after the instruction at a. */
  function After(code: seq<Byte>, a: At): int
    requires Fetch(code, a.ip).Got?
  {
    a.depth + Diagnose(Fetch(code, a.ip).i).change
  }

  ghost predicate JumpMoves(code: seq<Byte>, a: At, b: At) {
    Fetch(code, a.ip).Got? &&
    var d := Diagnose(Fetch(code, a.ip).i);
    (d.kind.JmpKind? || d.kind.CjmpKind?) && b == At(d.jump, After(code, a))
  }

  ghost predicate FallMoves(code: seq<Byte>, a: At, b: At) {
    Fetch(code, a.ip).Got? &&
    var d := Diagnose(Fetch(code, a.ip).i);
    (d.kind.OtherKind? || d.kind.CjmpKind?) && b == At(Fetch(code, a.ip).next, After(code, a))
  }

  ghost predicate Moves(code: seq<Byte>, a: At, b: At) { JumpMoves(code, a, b) || FallMoves(code, a, b) }

  /** What the verifier demands of a point: both decoders accept the instruction, and the stack is deep
      enough before and after it. */
  ghost predicate Admissible(code: seq<Byte>, a: At) {
    && RunSpec(code, a.ip).Flow? && Fetch(code, a.ip).Got?
    && Diagnose(Fetch(code, a.ip).i).required <= a.depth && 0 <= After(code, a)
  }

  ghost predicate PathFrom(code: seq<Byte>, begin: int, p: seq<At>) {
    |p| > 0 && p[0] == At(begin, 0) && forall k :: 0 <= k < |p| - 1 ==> Hop(code, p, k)
  }

  ghost predicate Hop(code: seq<Byte>, p: seq<At>, k: nat)
    requires k + 1 < |p|
  {
    Moves(code, p[k], p[k + 1])
  }

  /** The greatest depth on a path. */
  function Peak(p: seq<At>): int
    requires |p| > 0
  {
    if |p| == 1 then p[0].depth else Max(Peak(p[..|p| - 1]), p[|p| - 1].depth)
  }

  /** Some path of peak m leads from the function at `begin` to a. */
  ghost predicate Leads(code: seq<Byte>, begin: int, a: At, m: int) {
    exists p :: PathFrom(code, begin, p) && p[|p| - 1] == a && Peak(p) == m
  }

  lemma LeadsStart(code: seq<Byte>, begin: int)
    ensures Leads(code, begin, At(begin, 0), 0)
  {
    var p := [At(begin, 0)];
    assert PathFrom(code, begin, p) && Peak(p) == 0;
  }

  lemma LeadsOn(code: seq<Byte>, begin: int, a: At, m: int, b: At)
    requires Leads(code, begin, a, m) && Moves(code, a, b)
    ensures Leads(code, begin, b, Max(m, b.depth))
  {
    var p :| PathFrom(code, begin, p) && p[|p| - 1] == a && Peak(p) == m;
    var q := p + [b];
    forall k | 0 <= k < |q| - 1 ensures Hop(code, q, k) {
      if k < |p| - 1 {
        assert Hop(code, p, k);
      }
    }
    assert q[..|q| - 1] == p;
    assert PathFrom(code, begin, q);
  }

  /** A point that the abstract machine can be at. */
  ghost predicate AbsReach(code: seq<Byte>, publics: seq<int>, a: At) {
    exists e, m :: e in publics && Leads(code, e, a, m)
  }

  lemma AbsReachOn(code: seq<Byte>, publics: seq<int>, a: At, b: At)
    requires AbsReach(code, publics, a) && Moves(code, a, b)
    ensures AbsReach(code, publics, b)
  {
    var e, m :| e in publics && Leads(code, e, a, m);
    LeadsOn(code, e, a, m, b);
  }

  /** No closure that can be reached has a count for which `visit_instruction` steps backwards. */
  ghost predicate StepsForward(code: seq<Byte>, publics: seq<int>) {
    forall a {:trigger AbsReach(code, publics, a)} ::
      AbsReach(code, publics, a) && Fetch(code, a.ip).Got? && Fetch(code, a.ip).i.Closure? ==>
        -1 <= Fetch(code, a.ip).i.n
  }

  /** Decoding goes forwards then, and stays in the code. */
  lemma NextForward(code: seq<Byte>, ip: int)
    requires RunSpec(code, ip).Flow? && Fetch(code, ip).Got?
    requires Fetch(code, ip).i.Closure? ==> -1 <= Fetch(code, ip).i.n
    ensures ip < Fetch(code, ip).next <= |code|
  {
    DecodersAgree(code, ip);
  }

  /** A set that holds the entries and is closed under moves holds every point of every path. */
  lemma {:induction false} ClosedHoldsPath(code: seq<Byte>, begin: int, s: set<At>, p: seq<At>, k: nat)
    requires PathFrom(code, begin, p) && k < |p| && At(begin, 0) in s
    requires forall a, b :: a in s && Moves(code, a, b) ==> b in s
    ensures p[k] in s
  {
    if k > 0 {
      ClosedHoldsPath(code, begin, s, p, k - 1);
      assert Hop(code, p, k - 1);
      assert Moves(code, p[k - 1], p[k]);
    }
  }

  lemma ClosedHoldsAbsReach(code: seq<Byte>, publics: seq<int>, s: set<At>, a: At)
    requires AbsReach(code, publics, a) && forall e :: e in publics ==> At(e, 0) in s
    requires forall a, b :: a in s && Moves(code, a, b) ==> b in s
    ensures a in s
  {
    var e, m :| e in publics && Leads(code, e, a, m);
    var p :| PathFrom(code, e, p) && p[|p| - 1] == a && Peak(p) == m;
    ClosedHoldsPath(code, e, s, p, |p| - 1);
  }

  /** The points whose depths must agree with each other: those at addresses in `incoming`, and the
      ones that jumps lead to. */
  ghost predicate Joint(code: seq<Byte>, publics: seq<int>, incoming: set<int>, b: At) {
    || (AbsReach(code, publics, b) && b.ip in incoming)
    || exists c :: AbsReach(code, publics, c) && JumpMoves(code, c, b)
  }

  /** No path is inadmissible, and no two joint points at one address differ in depth. */
  ghost predicate Balanced(code: seq<Byte>, publics: seq<int>, incoming: set<int>) {
    && (forall a :: AbsReach(code, publics, a) ==> Admissible(code, a))
    && forall a, b :: (Joint(code, publics, incoming, a) && Joint(code, publics, incoming, b) && a.ip == b.ip) ==>
         a.depth == b.depth
  }

  /** On every path of a balanced program, each instruction finds the operands it requires and leaves a
      non-negative depth. */
  lemma NoUnderflow(code: seq<Byte>, publics: seq<int>, incoming: set<int>, begin: int, p: seq<At>, k: nat)
    requires Balanced(code, publics, incoming) && begin in publics && PathFrom(code, begin, p) && k < |p|
    ensures Fetch(code, p[k].ip).Got? && Diagnose(Fetch(code, p[k].ip).i).required <= p[k].depth
    ensures 0 <= After(code, p[k])
  {
    var q := p[..k + 1];
    forall i | 0 <= i < |q| - 1 ensures Hop(code, q, i) {
      assert Hop(code, p, i);
    }
    assert PathFrom(code, begin, q) && q[|q| - 1] == p[k];
    assert Leads(code, begin, p[k], Peak(q));
    assert AbsReach(code, publics, p[k]);
  }
}
