/** Falling from one instruction to the next without a jump: what `check_depth` follows without looking
    whether it has been there. */
module FallChains {
  import opened Bytecode
  import opened DepthTable
  import opened DepthPaths
  import opened Options
  import MarkQueue

  /** The address that the second pass pushes for the instruction after the one at ip, if it does. */
  function FallOf(code: seq<Byte>, ip: int): Option<int> {
    if !RunSpec(code, ip).Flow? || !Fetch(code, ip).Got? then None
    else
      var kind := Diagnose(Fetch(code, ip).i).kind;
      if kind.OtherKind? || kind.CjmpKind? then Some(Fetch(code, ip).next) else None
  }

  /** Where k falls in a row lead. */
  function FallTo(code: seq<Byte>, ip: int, k: nat): Option<int>
    decreases k
  {
    if k == 0 then Some(ip)
    else if FallOf(code, ip).None? then None
    else FallTo(code, FallOf(code, ip).value, k - 1)
  }

  lemma {:induction false} FallFurther(code: seq<Byte>, ip: int, j: nat, k: nat)
    requires FallTo(code, ip, j).Some?
    ensures FallTo(code, ip, j + k) == FallTo(code, FallTo(code, ip, j).value, k)
    decreases j
  {
    if j > 0 {
      FallFurther(code, FallOf(code, ip).value, j - 1, k);
    }
  }

  /** No address that can be reached comes back to itself by falling through alone. */
  ghost predicate NoFallCycle(code: seq<Byte>, publics: seq<int>) {
    forall a, k: nat {:trigger AbsReach(code, publics, a), FallTo(code, a.ip, k)} ::
      AbsReach(code, publics, a) && k > 0 ==> FallTo(code, a.ip, k) != Some(a.ip)
  }

  lemma {:induction false} FallReached(code: seq<Byte>, publics: seq<int>, a: At, k: nat) returns (b: At)
    requires AbsReach(code, publics, a) && FallTo(code, a.ip, k).Some?
    ensures AbsReach(code, publics, b) && b.ip == FallTo(code, a.ip, k).value
    decreases k
  {
    b := a;
    if k > 0 {
      var c := At(Fetch(code, a.ip).next, After(code, a));
      assert FallMoves(code, a, c);
      AbsReachOn(code, publics, a, c);
      b := FallReached(code, publics, c, k - 1);
    }
  }

  /** The number of addresses on the way that begins at ip, counted up to n. */
  function Length(code: seq<Byte>, ip: int, n: nat): (r: nat)
    ensures r <= n && (n > 0 ==> r > 0)
    decreases n
  {
    if n == 0 then 0
    else if FallOf(code, ip).None? then 1
    else 1 + Length(code, FallOf(code, ip).value, n - 1)
  }

  /** A count that stops early is final. */
  lemma {:induction false} LengthFinal(code: seq<Byte>, ip: int, n: nat, m: nat)
    requires n <= m && Length(code, ip, n) < n
    ensures Length(code, ip, m) == Length(code, ip, n)
    decreases n
  {
    if FallOf(code, ip).Some? {
      LengthFinal(code, FallOf(code, ip).value, n - 1, m - 1);
    }
  }

  /** A count that does not stop passes n - 1 addresses that fall. */
  lemma {:induction false} LengthFull(code: seq<Byte>, ip: int, n: nat, j: nat)
    requires Length(code, ip, n) == n && j + 1 < n
    ensures FallTo(code, ip, j).Some? && FallOf(code, FallTo(code, ip, j).value).Some?
    ensures InCode(code, FallTo(code, ip, j).value)
    decreases j
  {
    if j > 0 {
      LengthFull(code, FallOf(code, ip).value, n - 1, j - 1);
    }
  }

  /** Without cycles the way ends within the code. */
  lemma WayEnds(code: seq<Byte>, publics: seq<int>, a: At)
    requires NoFallCycle(code, publics) && AbsReach(code, publics, a)
    ensures Length(code, a.ip, |code| + 2) < |code| + 2
  {
    var n := |code| + 2;
    if Length(code, a.ip, n) == n {
      var q := Way(code, a.ip, n);
      forall i, j | 0 <= i < j < |q| ensures q[i] != q[j] {
        WayDistinct(code, publics, a, n, i, j);
      }
      MarkQueue.Pigeonhole(q, |code|);
    }
  }

  ghost function Passed(code: seq<Byte>, ip: int, n: nat, j: nat): (a: nat)
    requires Length(code, ip, n) == n && j + 1 < n
    ensures FallTo(code, ip, j) == Some(a as int) && a < |code|
  {
    LengthFull(code, ip, n, j);
    FallTo(code, ip, j).value
  }

  ghost function Way(code: seq<Byte>, ip: int, n: nat): (q: seq<nat>)
    requires Length(code, ip, n) == n > 0
    ensures |q| == n - 1 && forall j: nat :: j < n - 1 ==> q[j] == Passed(code, ip, n, j)
  {
    seq(n - 1, j requires 0 <= j < n - 1 => Passed(code, ip, n, j))
  }

  lemma WayDistinct(code: seq<Byte>, publics: seq<int>, a: At, n: nat, i: nat, j: nat)
    requires NoFallCycle(code, publics) && AbsReach(code, publics, a)
    requires Length(code, a.ip, n) == n && i < j < n - 1
    ensures FallTo(code, a.ip, i) != FallTo(code, a.ip, j)
  {
    LengthFull(code, a.ip, n, i);
    FallFurther(code, a.ip, i, j - i);
    var b := FallReached(code, publics, a, i);
    assert FallTo(code, b.ip, j - i) != Some(b.ip);
  }

  /** How long the way from ip is. */
  function Distance(code: seq<Byte>, ip: int): (d: nat)
    ensures d > 0
  {
    Length(code, ip, |code| + 3)
  }

  /** Falling makes it shorter. */
  lemma Nearer(code: seq<Byte>, publics: seq<int>, a: At)
    requires NoFallCycle(code, publics) && AbsReach(code, publics, a) && FallOf(code, a.ip).Some?
    ensures Distance(code, FallOf(code, a.ip).value) < Distance(code, a.ip)
  {
    var b := FallReached(code, publics, a, 1);
    WayEnds(code, publics, b);
    LengthFinal(code, b.ip, |code| + 2, |code| + 3);
  }

  /** A cycle is gone round for ever. */
  lemma {:induction false} CycleGoesOn(code: seq<Byte>, ip: int, k: nat, j: nat)
    requires k > 0 && FallTo(code, ip, k) == Some(ip)
    ensures FallTo(code, ip, j).Some? && FallOf(code, FallTo(code, ip, j).value).Some?
    decreases j
  {
    if j < k {
      CycleWhole(code, ip, k, j);
    } else {
      CycleGoesOn(code, ip, k, j - k);
      FallFurther(code, ip, k, j - k);
    }
  }

  lemma {:induction false} CycleWhole(code: seq<Byte>, ip: int, k: nat, j: nat)
    requires j < k && FallTo(code, ip, k).Some?
    ensures FallTo(code, ip, j).Some? && FallOf(code, FallTo(code, ip, j).value).Some?
    decreases j
  {
    if j > 0 {
      CycleWhole(code, FallOf(code, ip).value, k - 1, j - 1);
    }
  }

  lemma {:induction false} FallsForward(code: seq<Byte>, publics: seq<int>, a: At, k: nat)
    requires StepsForward(code, publics) && AbsReach(code, publics, a) && FallTo(code, a.ip, k).Some?
    ensures k > 0 ==> a.ip < FallTo(code, a.ip, k).value
    decreases k
  {
    if k > 0 {
      NextForward(code, a.ip);
      var b := At(Fetch(code, a.ip).next, After(code, a));
      assert FallMoves(code, a, b);
      AbsReachOn(code, publics, a, b);
      FallsForward(code, publics, b, k - 1);
    }
  }

  /** Code that never steps back has no cycles. */
  lemma ForwardNoCycle(code: seq<Byte>, publics: seq<int>)
    requires StepsForward(code, publics)
    ensures NoFallCycle(code, publics)
  {
    forall a, k: nat | AbsReach(code, publics, a) && k > 0 ensures FallTo(code, a.ip, k) != Some(a.ip) {
      if FallTo(code, a.ip, k).Some? {
        FallsForward(code, publics, a, k);
      }
    }
  }
}
