/** The verifier as a whole: `gather_incoming_cf` and then `check_depth`. */
module Verification {
  import opened Bytecode
  import opened DepthTable
  import opened ControlFlow
  import opened DepthPaths
  import opened FallChains
  import opened DepthCheck
  import opened BeginPatch
  import opened Options

  ghost predicate ExactTargets(code: seq<Byte>, publics: seq<int>, targets: set<int>) {
    forall j :: j in targets <==> Incoming(code, publics, j)
  }

  lemma WitnessedPublic(code: seq<Byte>, publics: seq<int>, maxStack: map<int, int>)
    requires PeaksWitnessed(code, publics, maxStack)
    ensures forall b {:trigger maxStack[b]} :: b in maxStack ==> exists k :: 0 <= k < |publics| && publics[k] == b
  {
    forall b {:trigger maxStack[b]} | b in maxStack ensures exists k :: 0 <= k < |publics| && publics[k] == b {
      assert b in publics;
    }
  }

  /** The verifying part of `run_with_verifier_checks`.  It accepts exactly the programs whose
      reachable code decodes, whose paths are balanced and whose maxima can be written. */
  method Verify(code: array<Byte>, publics: seq<int>)
    returns (ok: bool, ghost targets: set<int>, ghost maxStack: map<int, int>)
    requires NoFallCycle(code[..], publics)
    modifies code
    ensures AllDecode(old(code[..]), publics) ==> ExactTargets(old(code[..]), publics, targets)
    ensures ok <==> AllDecode(old(code[..]), publics) && Balanced(old(code[..]), publics, targets)
                    && Fits(maxStack, code.Length)
    ensures AllDecode(old(code[..]), publics) && Balanced(old(code[..]), publics, targets) ==>
              PeaksWitnessed(old(code[..]), publics, maxStack) && FallsRecorded(old(code[..]), publics, maxStack)
    ensures ok && Apart(maxStack.Keys) ==> Patched(old(code[..]), code[..], maxStack, {})
  {
    targets, maxStack := {}, map[];
    var g := GatherIncomingCf(code, publics);
    if g.Failed? {
      return false, targets, maxStack;
    }
    targets := g.targets;
    var r, _ := CheckPaths(code, publics, g.targets);
    if r.None? {
      return false, targets, maxStack;
    }
    maxStack := r.value;
    WitnessedPublic(code[..], publics, r.value);
    ok := PatchBegins(code, r.value, publics);
  }

  // ----- one depth for each jump target ----------------------------------------------------

  /** The code that the verifier explores: no STOP, where its two passes part ways, and no closure
      with a negative number of captured variables, where the two decoders do. */
  ghost predicate Plain(code: seq<Byte>, publics: seq<int>) {
    forall a {:trigger AbsReach(code, publics, a)} :: AbsReach(code, publics, a) && Fetch(code, a.ip).Got? ==>
      var i := Fetch(code, a.ip).i; !i.Stop? && !(i.Closure? && i.n < 0)
  }

  /** A move of the abstract machine is a step of the control flow. */
  lemma MovesFollow(code: seq<Byte>, a: At, b: At)
    requires Admissible(code, a) && Moves(code, a, b)
    requires !Fetch(code, a.ip).i.Stop? && !(Fetch(code, a.ip).i.Closure? && Fetch(code, a.ip).i.n < 0)
    ensures Follows(code, a.ip, b.ip)
  {
    DecodersAgree(code, a.ip);
    KindOf(Fetch(code, a.ip).i);
  }

  lemma HopFollows(code: seq<Byte>, publics: seq<int>, incoming: set<int>, a: At, b: At)
    requires Balanced(code, publics, incoming) && Plain(code, publics) && AbsReach(code, publics, a)
    requires Moves(code, a, b)
    ensures AbsReach(code, publics, b) && Follows(code, a.ip, b.ip)
  {
    assert Admissible(code, a);
    MovesFollow(code, a, b);
    AbsReachOn(code, publics, a, b);
  }

  lemma {:induction false} PathFollows(code: seq<Byte>, publics: seq<int>, incoming: set<int>, begin: int,
                                       p: seq<At>, k: nat)
    requires Balanced(code, publics, incoming) && Plain(code, publics)
    requires begin in publics && PathFrom(code, begin, p) && k < |p|
    ensures AbsReach(code, publics, p[k]) && Reachable(code, publics, p[k].ip)
  {
    if k == 0 {
      LeadsStart(code, begin);
      ReachablePublic(code, publics, begin);
    } else {
      PathFollows(code, publics, incoming, begin, p, k - 1);
      assert Hop(code, p, k - 1);
      HopFollows(code, publics, incoming, p[k - 1], p[k]);
      ReachableNext(code, publics, p[k - 1].ip, p[k].ip);
    }
  }

  /** The second pass explores only code that the first one has explored. */
  lemma ExploredByBoth(code: seq<Byte>, publics: seq<int>, incoming: set<int>, a: At)
    requires Balanced(code, publics, incoming) && Plain(code, publics) && AbsReach(code, publics, a)
    ensures Reachable(code, publics, a.ip)
  {
    var e, m :| e in publics && Leads(code, e, a, m);
    var p :| PathFrom(code, e, p) && p[|p| - 1] == a && Peak(p) == m;
    PathFollows(code, publics, incoming, e, p, |p| - 1);
  }

  /** The two passes together give one depth to each target of a jump or call: all paths that arrive
      there, by jumping or by falling through, arrive with the same depth. */
  lemma OneDepth(code: seq<Byte>, publics: seq<int>, targets: set<int>, c: At, a: At, b: At)
    requires ExactTargets(code, publics, targets) && Balanced(code, publics, targets) && Plain(code, publics)
    requires AbsReach(code, publics, c) && JumpOf(Fetch(code, c.ip).i) == Some(a.ip)
    requires AbsReach(code, publics, a) && AbsReach(code, publics, b) && a.ip == b.ip
    ensures a.depth == b.depth
  {
    ExploredByBoth(code, publics, targets, c);
    DecodersAgree(code, c.ip);
    assert JumpsTo(code, c.ip, a.ip);
    assert Incoming(code, publics, a.ip);
    assert Joint(code, publics, targets, a) && Joint(code, publics, targets, b);
  }
}
