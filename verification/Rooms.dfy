/** What the maxima that the verifier records are good for: in a program without jumps every function has room for
    all its operands. */
module Rooms {
  import opened Words
  import opened Bytecode
  import opened DepthTable
  import opened DepthPaths
  import opened DepthCheck
  import opened BeginPatch
  import opened Verification
  import opened Frames
  import opened DirectCalls
  import opened Runs
  import opened Interpreter
  import opened VerifiedRun

  ghost predicate JumpFree(code: seq<Byte>, publics: seq<int>) {
    forall a, b {:trigger JumpMoves(code, a, b)} :: AbsReach(code, publics, a) ==> !JumpMoves(code, a, b)
  }

  /** Every function comes to its END. */
  ghost predicate AllReturn(code: seq<Byte>, publics: seq<int>) {
    forall e {:trigger e in publics} :: e in publics ==> exists p :: FallPath(code, e, p)
  }

  /** The argument counts and the maxima fit into 16 bits each. */
  ghost predicate Halves(code: seq<Byte>, publics: seq<int>, maxStack: map<int, int>) {
    forall e {:trigger e in publics} :: e in publics && AtBegin(code, e) && e in maxStack ==>
      0 <= Fetch(code, e).i.nArgs < 0x1_0000 && 0 <= maxStack[e] < 0x1_0000
  }

  // ----- without jumps there is one path ---------------------------------------------------

  lemma FallOnly(code: seq<Byte>, a: At, b: At, c: At)
    requires FallMoves(code, a, b) && FallMoves(code, a, c)
    ensures b == c
  {
  }

  lemma {:induction false} SamePath(code: seq<Byte>, publics: seq<int>, e: int, p: seq<At>, q: seq<At>, k: nat)
    requires JumpFree(code, publics) && e in publics && FallPath(code, e, p) && PathFrom(code, e, q) && k < |q|
    ensures k < |p| && q[k] == p[k]
  {
    if k > 0 {
      SamePath(code, publics, e, p, q, k - 1);
      assert Hop(code, q, k - 1);
      PointReached(code, publics, e, q, k - 1);
      assert !JumpMoves(code, q[k - 1], q[k]);
      KindOf(Fetch(code, q[k - 1].ip).i);
      if k < |p| {
        assert FallHop(code, p, k - 1);
        FallOnly(code, p[k - 1], p[k], q[k]);
      }
    }
  }

  lemma {:induction false} PointReached(code: seq<Byte>, publics: seq<int>, e: int, q: seq<At>, k: nat)
    requires e in publics && PathFrom(code, e, q) && k < |q|
    ensures AbsReach(code, publics, q[k])
  {
    if k == 0 {
      LeadsStart(code, e);
    } else {
      PointReached(code, publics, e, q, k - 1);
      assert Hop(code, q, k - 1);
      AbsReachOn(code, publics, q[k - 1], q[k]);
    }
  }

  lemma {:induction false} PeakGrows(p: seq<At>, k: nat)
    requires 0 < k <= |p|
    ensures Peak(p[..k]) <= Peak(p)
    decreases |p| - k
  {
    if k < |p| {
      PeakSnoc(p, k - 1);
      PeakGrows(p, k + 1);
    } else {
      assert p[..k] == p;
    }
  }

  /** The peak of a path is no higher than that of the path to the END. */
  lemma PeakKnown(code: seq<Byte>, publics: seq<int>, maxStack: map<int, int>, e: int, a: At, m: int)
    requires JumpFree(code, publics) && AllReturn(code, publics) && FallsRecorded(code, publics, maxStack)
    requires e in publics && Leads(code, e, a, m)
    ensures HasMaximum(maxStack, e, m)
  {
    var p :| FallPath(code, e, p);
    var q :| PathFrom(code, e, q) && q[|q| - 1] == a && Peak(q) == m;
    forall k: nat | k < |q| ensures k < |p| && q[k] == p[k] {
      SamePath(code, publics, e, p, q, k);
    }
    assert |q| - 1 < |p| && p[..|q|] == q;
    PeakGrows(p, |q|);
  }

  // ----- what is recorded ------------------------------------------------------------------

  lemma RecordedIs(w: int, n: int, m: int)
    requires 0 <= n < 0x1_0000 && 0 <= m < 0x1_0000 && w == Wrap32(n + m * 0x1_0000)
    ensures Recorded(w) == m
  {
    var u := n + m * 0x1_0000;
    assert 0 <= u < 0x1_0000_0000;
    assert w % 0x1_0000_0000 == u;
  }

  lemma LoadedCount(place: Place, c1: seq<Byte>, e: int)
    requires AtBegin(c1, e)
    ensures Loaded(place, c1).recorded(e) == Recorded(Fetch(c1, e).i.nArgs)
  {
  }

  lemma RecordedAt(c0: seq<Byte>, c1: seq<Byte>, publics: seq<int>, maxStack: map<int, int>, place: Place, e: int)
    requires NoOverlap(c0, publics) && Patched(c0, c1, maxStack, {}) && forall b :: b in maxStack ==> b in publics
    requires e in publics && e in maxStack && AtBegin(c0, e)
    requires 0 <= Fetch(c0, e).i.nArgs < 0x1_0000 && 0 <= maxStack[e] < 0x1_0000
    ensures Loaded(place, c1).recorded(e) == maxStack[e]
  {
    CountPatched(c0, c1, publics, maxStack, e, Fetch(c0, e).i.nArgs, maxStack[e]);
    LoadedCount(place, c1, e);
  }

  lemma CountPatched(c0: seq<Byte>, c1: seq<Byte>, publics: seq<int>, maxStack: map<int, int>, e: int, n: int, m: int)
    requires NoOverlap(c0, publics) && Patched(c0, c1, maxStack, {}) && forall b :: b in maxStack ==> b in publics
    requires e in publics && e in maxStack && AtBegin(c0, e) && n == Fetch(c0, e).i.nArgs && m == maxStack[e]
    requires 0 <= n < 0x1_0000 && 0 <= m < 0x1_0000
    ensures AtBegin(c1, e) && Recorded(Fetch(c1, e).i.nArgs) == m
  {
    EntryReached(c0, publics, e);
    PatchedBegin(c0, c1, publics, maxStack, At(e, 0));
    RecordedIs(Fetch(c1, e).i.nArgs, n, m);
  }

  /** A verified program without jumps, all of whose functions return, never pushes below the array. */
  lemma NeverOverruns(c0: seq<Byte>, c1: seq<Byte>, publics: seq<int>, targets: set<int>, maxStack: map<int, int>,
                      place: Place)
    requires DirectProgram(c0, publics) && NoOverlap(c0, publics) && Certified(c0, c1, publics, targets, maxStack)
    requires JumpFree(c0, publics) && AllReturn(c0, publics) && Halves(c0, publics, maxStack)
    requires ClosuresSmall(c0, publics)
    ensures Roomy(Loaded(place, c1), c0, publics)
  {
    var p := Loaded(place, c1);
    assert forall b :: b in maxStack ==> maxStack[b] == maxStack[b] && b in publics;
    forall e, a, m | e in publics && Leads(c0, e, a, m) ensures m <= p.recorded(e) {
      PeakKnown(c0, publics, maxStack, e, a, m);
      assert IsFunction(c0, e);
      RecordedAt(c0, c1, publics, maxStack, place, e);
    }
    BoundedIsRoomy(p, c0, publics, targets);
  }
}
