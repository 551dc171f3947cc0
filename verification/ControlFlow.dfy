/** `gather_incoming_cf`: the addresses that jumps and calls of reachable instructions lead to. */
module ControlFlow {
  import opened Bytecode
  import opened Options

  /** Execution may continue at `to` after the instruction at `ip`, or call the function there. */
  ghost predicate Follows(code: seq<Byte>, ip: int, to: int) {
    var r := RunSpec(code, ip);
    r.Flow? && (r.jump == Some(to) || (r.isNextChild && !r.isEnd && r.next == to))
  }

  ghost predicate Trace(code: seq<Byte>, publics: seq<int>, p: seq<int>) {
    |p| > 0 && p[0] in publics && forall k :: 0 <= k < |p| - 1 ==> Link(code, p, k)
  }

  ghost predicate Link(code: seq<Byte>, p: seq<int>, k: nat)
    requires k + 1 < |p|
  {
    Follows(code, p[k], p[k + 1])
  }

  /** Some path from a public symbol leads to the instruction at ip. */
  ghost predicate Reachable(code: seq<Byte>, publics: seq<int>, ip: int) {
    exists p :: Trace(code, publics, p) && p[|p| - 1] == ip
  }

  lemma ReachablePublic(code: seq<Byte>, publics: seq<int>, ip: int)
    requires ip in publics
    ensures Reachable(code, publics, ip)
  {
    assert Trace(code, publics, [ip]);
  }

  lemma ReachableNext(code: seq<Byte>, publics: seq<int>, ip: int, to: int)
    requires Reachable(code, publics, ip) && Follows(code, ip, to)
    ensures Reachable(code, publics, to)
  {
    var p :| Trace(code, publics, p) && p[|p| - 1] == ip;
    var q := p + [to];
    forall k | 0 <= k < |q| - 1 ensures Link(code, q, k) {
      if k < |p| - 1 {
        assert Link(code, p, k);
      }
    }
    assert Trace(code, publics, q);
  }

  /** A set that holds the public symbols and is closed under Follows holds every reachable address. */
  lemma {:induction false} ClosedHoldsTrace(code: seq<Byte>, publics: seq<int>, s: set<int>, p: seq<int>, k: nat)
    requires Trace(code, publics, p) && k < |p| && forall a :: a in publics ==> a in s
    requires forall a, b :: a in s && Follows(code, a, b) ==> b in s
    ensures p[k] in s
  {
    if k == 0 {
      var a := p[0];
      assert a in publics;
    } else {
      ClosedHoldsTrace(code, publics, s, p, k - 1);
      assert Link(code, p, k - 1);
      var a, b := p[k - 1], p[k];
      assert a in s && Follows(code, a, b);
      assert b in s;
    }
  }

  lemma ClosedHoldsReachable(code: seq<Byte>, publics: seq<int>, s: set<int>, ip: int)
    requires Reachable(code, publics, ip) && forall a :: a in publics ==> a in s
    requires forall a, b :: a in s && Follows(code, a, b) ==> b in s
    ensures ip in s
  {
    var p :| Trace(code, publics, p) && p[|p| - 1] == ip;
    ClosedHoldsTrace(code, publics, s, p, |p| - 1);
  }

  /** The target of a jump or call in reachable code. */
  ghost predicate Incoming(code: seq<Byte>, publics: seq<int>, j: int) {
    exists ip :: Reachable(code, publics, ip) && JumpsTo(code, ip, j)
  }

  ghost predicate JumpsTo(code: seq<Byte>, ip: int, j: int) {
    RunSpec(code, ip).Flow? && RunSpec(code, ip).jump == Some(j)
  }

  /** All reachable addresses lie in the code and `run_instruction` accepts what is there. */
  ghost predicate AllDecode(code: seq<Byte>, publics: seq<int>) {
    forall ip :: Reachable(code, publics, ip) ==> InCode(code, ip) && RunSpec(code, ip).Flow?
  }

  datatype Gathered = Targets(targets: set<int>) | Failed

  /** The state of the worklist loop: the visited addresses, of which those not pending have been
      dealt with. */
  ghost predicate Explored(code: seq<Byte>, publics: seq<int>, seen: set<int>, pending: set<int>, targets: set<int>) {
    && (forall a :: a in seen ==> InCode(code, a) && Reachable(code, publics, a))
    && pending <= seen
    && (forall a :: a in seen && a !in pending ==> RunSpec(code, a).Flow?)
    && (forall a, b :: a in seen && a !in pending && Follows(code, a, b) ==> b in seen)
    && (forall a, b :: a in seen && a !in pending && JumpsTo(code, a, b) ==> b in targets)
    && (forall b :: b in targets ==> Incoming(code, publics, b))
  }

  /** The marks in the vector `visited`. */
  ghost function Seen(v: seq<bool>): (s: set<int>)
    ensures forall a :: a in s <==> 0 <= a < |v| && v[a]
  {
    set a | 0 <= a < |v| && v[a]
  }

  ghost function Unseen(v: seq<bool>): (s: set<int>)
    ensures forall a :: a in s <==> 0 <= a < |v| && !v[a]
  {
    set a | 0 <= a < |v| && !v[a]
  }

  /** `push_if_not_visited`; an address outside the code is outside the vector. */
  method PushIfNotVisited(visited: array<bool>, stack: seq<int>, ip: int) returns (ok: bool, stack': seq<int>)
    modifies visited
    ensures ok <==> 0 <= ip < visited.Length
    ensures ok ==> Seen(visited[..]) == Seen(old(visited[..])) + {ip}
    ensures ok ==> stack' == (if ip in Seen(old(visited[..])) then stack else stack + [ip])
    ensures ok ==> Unseen(visited[..]) == Unseen(old(visited[..])) - {ip}
    ensures !ok ==> stack' == stack && visited[..] == old(visited[..])
  {
    ok, stack' := 0 <= ip < visited.Length, stack;
    if ok && !visited[ip] {
      stack' := stack + [ip];
      visited[ip] := true;
    }
  }

  lemma NewPending(code: seq<Byte>, publics: seq<int>, seen: set<int>, pending: set<int>, targets: set<int>, ip: int)
    requires Explored(code, publics, seen, pending, targets) && InCode(code, ip) && Reachable(code, publics, ip)
    ensures Explored(code, publics, seen + {ip}, if ip in seen then pending else pending + {ip}, targets)
  {
    if ip in seen {
      assert seen + {ip} == seen;
    }
  }

  /** The addresses on the worklist. */
  ghost function OnStack(stack: seq<int>): (s: set<int>)
    ensures forall a :: a in s <==> a in stack
  {
    set a | a in stack
  }

  /** One address is put on the worklist unless it has been there before. */
  method Discover(visited: array<bool>, stack: seq<int>, ip: int, ghost code: seq<Byte>, ghost publics: seq<int>,
                  ghost held: set<int>, ghost targets: set<int>)
    returns (ok: bool, stack': seq<int>)
    requires |code| == visited.Length && Reachable(code, publics, ip)
    requires Explored(code, publics, Seen(visited[..]), OnStack(stack) + held, targets)
    modifies visited
    ensures ok <==> InCode(code, ip)
    ensures ok ==> Explored(code, publics, Seen(visited[..]), OnStack(stack') + held, targets)
    ensures ok ==> ip in Seen(visited[..]) && Seen(old(visited[..])) <= Seen(visited[..])
    ensures ok ==> Unseen(visited[..]) < Unseen(old(visited[..]))
                   || (Unseen(visited[..]) == Unseen(old(visited[..])) && stack' == stack)
  {
    ghost var seen := Seen(visited[..]);
    ok, stack' := PushIfNotVisited(visited, stack, ip);
    if ok {
      NewPending(code, publics, seen, OnStack(stack) + held, targets, ip);
      assert OnStack(stack + [ip]) + held == OnStack(stack) + held + {ip};
    }
  }

  /** The address ip has been dealt with. */
  lemma DealtWith(code: seq<Byte>, publics: seq<int>, seen: set<int>, pending: set<int>, targets: set<int>,
                  targets': set<int>, ip: int)
    requires Explored(code, publics, seen, pending + {ip}, targets) && RunSpec(code, ip).Flow?
    requires forall b :: Follows(code, ip, b) ==> b in seen
    requires targets <= targets' && forall b :: b in targets' && b !in targets ==> JumpsTo(code, ip, b)
    requires forall b :: JumpsTo(code, ip, b) ==> b in targets'
    ensures Explored(code, publics, seen, pending, targets')
  {
  }

  /** The body of the loop, for the address just popped. */
  method Examine(code: array<Byte>, publics: seq<int>, visited: array<bool>, stack: seq<int>, targets: set<int>,
                 ip: int)
    returns (ok: bool, stack': seq<int>, targets': set<int>)
    requires code.Length == visited.Length && ip in Seen(visited[..])
    requires Explored(code[..], publics, Seen(visited[..]), OnStack(stack) + {ip}, targets)
    modifies visited
    ensures code[..] == old(code[..])
    ensures ok ==> Explored(code[..], publics, Seen(visited[..]), OnStack(stack'), targets')
    ensures ok ==> Seen(old(visited[..])) <= Seen(visited[..])
    ensures ok ==> Unseen(visited[..]) < Unseen(old(visited[..]))
                   || (Unseen(visited[..]) == Unseen(old(visited[..])) && stack' == stack)
    ensures !ok ==> !AllDecode(code[..], publics)
  {
    ghost var c, u := code[..], Unseen(visited[..]);
    ok, stack', targets' := true, stack, targets;
    var r := RunInstruction(code, ip);
    if !r.Flow? {
      return false, stack, targets;
    }
    if r.jump.Some? {
      assert Follows(c, ip, r.jump.value);
      ReachableNext(c, publics, ip, r.jump.value);
      ok, stack' := Discover(visited, stack', r.jump.value, c, publics, {ip}, targets);
      if !ok {
        return;
      }
    }
    if r.isNextChild && !r.isEnd {
      assert Follows(c, ip, r.next);
      ReachableNext(c, publics, ip, r.next);
      ok, stack' := Discover(visited, stack', r.next, c, publics, {ip}, targets);
      if !ok {
        return;
      }
    }
    if r.jump.Some? {
      targets' := targets + {r.jump.value};
    }
    DealtWith(c, publics, Seen(visited[..]), OnStack(stack'), targets, targets', ip);
  }

  /** The public symbols are the first addresses on the worklist. */
  method PushPublics(visited: array<bool>, publics: seq<int>, ghost code: seq<Byte>) returns (ok: bool, stack: seq<int>)
    requires |code| == visited.Length && Seen(visited[..]) == {}
    modifies visited
    ensures !ok ==> !AllDecode(code, publics)
    ensures ok ==> Explored(code, publics, Seen(visited[..]), OnStack(stack), {})
    ensures ok ==> forall a :: a in publics ==> a in Seen(visited[..])
  {
    ok, stack := true, [];
    var i := 0;
    while i < |publics|
      invariant 0 <= i <= |publics| && Explored(code, publics, Seen(visited[..]), OnStack(stack) + {}, {})
      invariant forall k :: 0 <= k < i ==> publics[k] in Seen(visited[..])
    {
      ReachablePublic(code, publics, publics[i]);
      ok, stack := Discover(visited, stack, publics[i], code, publics, {}, {});
      if !ok {
        return;
      }
      i := i + 1;
    }
    assert OnStack(stack) + {} == OnStack(stack);
  }

  lemma ExploredAll(code: seq<Byte>, publics: seq<int>, seen: set<int>, targets: set<int>)
    requires Explored(code, publics, seen, {}, targets) && forall a :: a in publics ==> a in seen
    ensures AllDecode(code, publics) && forall j :: j in targets <==> Incoming(code, publics, j)
  {
    forall ip | Reachable(code, publics, ip) ensures ip in seen {
      ClosedHoldsReachable(code, publics, seen, ip);
    }
  }

  method Drain(code: array<Byte>, publics: seq<int>, visited: array<bool>, start: seq<int>) returns (r: Gathered)
    requires code.Length == visited.Length && Explored(code[..], publics, Seen(visited[..]), OnStack(start), {})
    requires forall a :: a in publics ==> a in Seen(visited[..])
    modifies visited
    ensures code[..] == old(code[..])
    ensures r.Targets? <==> AllDecode(code[..], publics)
    ensures r.Targets? ==> forall j :: j in r.targets <==> Incoming(code[..], publics, j)
  {
    var targets, stack, ok := {}, start, true;
    while stack != []
      invariant Explored(code[..], publics, Seen(visited[..]), OnStack(stack), targets)
      invariant forall a :: a in publics ==> a in Seen(visited[..])
      decreases Unseen(visited[..]), |stack|
    {
      var ip, rest := stack[|stack| - 1], stack[..|stack| - 1];
      assert OnStack(stack) == OnStack(rest) + {ip} by {
        assert stack == rest + [ip];
      }
      ok, stack, targets := Examine(code, publics, visited, rest, targets, ip);
      if !ok {
        return Failed;
      }
    }
    assert OnStack(stack) == {};
    ExploredAll(code[..], publics, Seen(visited[..]), targets);
    r := Targets(targets);
  }

  /** `gather_incoming_cf`: it succeeds exactly when all reachable code decodes, and then its result is
      exactly the set of jump and call targets of reachable instructions. */
  method GatherIncomingCf(code: array<Byte>, publics: seq<int>) returns (r: Gathered)
    ensures r.Targets? <==> AllDecode(code[..], publics)
    ensures r.Targets? ==> forall j :: j in r.targets <==> Incoming(code[..], publics, j)
  {
    var visited := new bool[code.Length](_ => false);
    assert Seen(visited[..]) == {};
    var ok, stack := PushPublics(visited, publics, code[..]);
    if ok {
      r := Drain(code, publics, visited, stack);
    } else {
      r := Failed;
    }
  }
}
