/** The end of `check_depth`: the maximum depth of a function goes into the upper half of the argument
    count of its BEGIN, and what that does to the code. */
module BeginPatch {
  import opened Bytecode

  function Wrap32(i: int): (r: int)
    ensures -0x8000_0000 <= r < 0x8000_0000
  {
    (i + 0x8000_0000) % 0x1_0000_0000 - 0x8000_0000
  }

  /** What BEGIN takes for the number of arguments: `n_args & 0xFFFF`. */
  function RealArgs(nArgs: int): (n: nat)
    ensures n < 0x1_0000
  {
    nArgs % 0x1_0000
  }

  lemma ArgsKept(w: int, m: int)
    ensures RealArgs(Wrap32(w + m * 0x1_0000)) == RealArgs(w)
  {
    var x := w + m * 0x1_0000;
    var q := (x + 0x8000_0000) / 0x1_0000_0000;
    assert Wrap32(x) == x - q * 0x1_0000_0000;
    assert Wrap32(x) == w + 0x1_0000 * (m - q * 0x1_0000);
    ModShift(w, m - q * 0x1_0000);
  }

  lemma ModShift(w: int, k: int)
    ensures (w + 0x1_0000 * k) % 0x1_0000 == w % 0x1_0000
  {
  }

  lemma FourBytes(u: int)
    requires 0 <= u < 0x1_0000_0000
    ensures u % 0x100 + 0x100 * (u / 0x100 % 0x100) + 0x1_0000 * (u / 0x1_0000 % 0x100)
            + 0x100_0000 * (u / 0x100_0000) == u
    ensures u / 0x100_0000 < 0x100
  {
    var v := u / 0x100;
    var w := v / 0x100;
    assert w == u / 0x1_0000 && w / 0x100 == u / 0x100_0000;
  }

  /** `*(int *) p = w` */
  method WriteInt(code: array<Byte>, p: nat, w: int)
    requires p + 4 <= code.Length
    modifies code
    ensures ReadInt(code[..], p) == Wrap32(w)
    ensures forall a :: 0 <= a < code.Length && (a < p || p + 4 <= a) ==> code[a] == old(code[a])
  {
    var u := w % 0x1_0000_0000;
    FourBytes(u);
    Signed(w);
    var b0, b1, b2, b3 := u % 0x100, u / 0x100 % 0x100, u / 0x1_0000 % 0x100, u / 0x100_0000;
    code[p], code[p + 1], code[p + 2], code[p + 3] := b0, b1, b2, b3;
  }

  lemma Signed(w: int)
    ensures var u := w % 0x1_0000_0000; Wrap32(w) == if u >= 0x8000_0000 then u - 0x1_0000_0000 else u
  {
  }

  /** The functions do not overlap in the four bytes that are patched. */
  ghost predicate Apart(begins: set<int>) {
    forall b, c :: b in begins && c in begins && b != c ==> b + 4 <= c || c + 4 <= b
  }

  /** Byte a belongs to the argument count of some BEGIN. */
  ghost predicate Covered(begins: set<int>, a: int) {
    exists b :: b in begins && b + 1 <= a < b + 5
  }

  /** The count of function b has been raised by its maximum, or is still what it was. */
  ghost predicate Raised(c0: seq<Byte>, c1: seq<Byte>, b: int, m: int, waiting: bool) {
    0 <= b && b + 5 <= |c0| == |c1| ==>
      ReadInt(c1, b + 1) == if waiting then ReadInt(c0, b + 1) else Wrap32(ReadInt(c0, b + 1) + m * 0x1_0000)
  }

  ghost predicate Untouched(c0: seq<Byte>, c1: seq<Byte>, begins: set<int>) {
    |c1| == |c0| && forall a {:trigger c1[a]} :: 0 <= a < |c0| && !Covered(begins, a) ==> c1[a] == c0[a]
  }

  /** The counts of all functions but those in `rest` have been raised, and nothing else has changed. */
  ghost predicate Patched(c0: seq<Byte>, c1: seq<Byte>, maxStack: map<int, int>, rest: set<int>) {
    && Untouched(c0, c1, maxStack.Keys)
    && forall b {:trigger maxStack[b]} :: b in maxStack ==> Raised(c0, c1, b, maxStack[b], b in rest)
  }

  ghost predicate Fits(maxStack: map<int, int>, n: nat) {
    forall b :: b in maxStack ==> 0 <= b && b + 5 <= n
  }

  lemma SameInt(c0: seq<Byte>, c1: seq<Byte>, p: int)
    requires 0 <= p && p + 4 <= |c0| == |c1| && forall a :: p <= a < p + 4 ==> c1[a] == c0[a]
    ensures ReadInt(c1, p) == ReadInt(c0, p)
  {
  }

  /** c2 is c1 except for the count at b, which has been raised by m. */
  ghost predicate RaisedHere(c1: seq<Byte>, c2: seq<Byte>, b: int, m: int) {
    && 0 <= b && b + 5 <= |c1| == |c2| && ReadInt(c2, b + 1) == Wrap32(ReadInt(c1, b + 1) + m * 0x1_0000)
    && forall a :: 0 <= a < |c1| && (a < b + 1 || b + 5 <= a) ==> c2[a] == c1[a]
  }

  lemma RaisedStays(c0: seq<Byte>, c1: seq<Byte>, c2: seq<Byte>, b: int, m: int, d: int, n: int, waiting: bool)
    requires RaisedHere(c1, c2, b, m) && Raised(c0, c1, d, n, waiting) && |c0| == |c1| && (d + 4 <= b || b + 4 <= d)
    ensures Raised(c0, c2, d, n, waiting)
  {
    if 0 <= d && d + 5 <= |c0| {
      SameInt(c1, c2, d + 1);
    }
  }

  lemma UntouchedStays(c0: seq<Byte>, c1: seq<Byte>, c2: seq<Byte>, begins: set<int>, b: int, m: int)
    requires RaisedHere(c1, c2, b, m) && Untouched(c0, c1, begins) && b in begins
    ensures Untouched(c0, c2, begins)
  {
    forall a | 0 <= a < |c0| && !Covered(begins, a) ensures c2[a] == c0[a] {
      assert a < b + 1 || b + 5 <= a;
      assert c1[a] == c0[a];
    }
  }

  /** One more count has been raised. */
  lemma PatchOne(c0: seq<Byte>, c1: seq<Byte>, c2: seq<Byte>, maxStack: map<int, int>, rest: set<int>, b: int)
    requires Apart(maxStack.Keys) && Patched(c0, c1, maxStack, rest) && b in rest && b in maxStack
    requires RaisedHere(c1, c2, b, maxStack[b])
    ensures Patched(c0, c2, maxStack, rest - {b})
  {
    UntouchedStays(c0, c1, c2, maxStack.Keys, b, maxStack[b]);
    forall d | d in maxStack ensures Raised(c0, c2, d, maxStack[d], d in rest - {b}) {
      if d != b {
        RaisedStays(c0, c1, c2, b, maxStack[b], d, maxStack[d], d in rest);
      }
    }
  }

  /** The loop over `max_stack`.  Its order is left open by the source; here it is that of the
      functions in `order`. */
  method PatchBegins(code: array<Byte>, maxStack: map<int, int>, order: seq<int>) returns (ok: bool)
    requires forall b {:trigger maxStack[b]} :: b in maxStack ==> exists k :: 0 <= k < |order| && order[k] == b
    modifies code
    ensures ok <==> Fits(maxStack, code.Length)
    ensures ok && Apart(maxStack.Keys) ==> Patched(old(code[..]), code[..], maxStack, {})
  {
    ghost var c0 := code[..];
    var rest := maxStack.Keys;
    var k := 0;
    while k < |order|
      invariant 0 <= k <= |order| && rest <= maxStack.Keys && forall j :: 0 <= j < k ==> order[j] !in rest
      invariant forall b {:trigger maxStack[b]} :: b in maxStack && b !in rest ==> 0 <= b && b + 5 <= code.Length
      invariant Apart(maxStack.Keys) ==> Patched(c0, code[..], maxStack, rest)
    {
      var b := order[k];
      if b in rest {
        if b < 0 || b + 5 > code.Length {
          assert b in maxStack;
          return false;
        }
        ghost var c1 := code[..];
        WriteInt(code, b + 1, ReadInt(code[..], b + 1) + maxStack[b] * 0x1_0000);
        assert RaisedHere(c1, code[..], b, maxStack[b]);
        if Apart(maxStack.Keys) {
          PatchOne(c0, c1, code[..], maxStack, rest, b);
        }
        rest := rest - {b};
      }
      k := k + 1;
    }
    NothingLeft(maxStack, order, rest);
    ok := true;
    if Apart(maxStack.Keys) {
      AllRaised(c0, code[..], maxStack, rest);
    }
  }

  lemma NothingLeft(maxStack: map<int, int>, order: seq<int>, rest: set<int>)
    requires forall b {:trigger maxStack[b]} :: b in maxStack ==> exists k :: 0 <= k < |order| && order[k] == b
    requires forall j :: 0 <= j < |order| ==> order[j] !in rest
    ensures forall b {:trigger maxStack[b]} :: b in maxStack ==> b !in rest
  {
    forall b {:trigger maxStack[b]} | b in maxStack ensures b !in rest {
      var k :| 0 <= k < |order| && order[k] == b;
      assert order[k] !in rest;
    }
  }

  lemma AllRaised(c0: seq<Byte>, c1: seq<Byte>, maxStack: map<int, int>, rest: set<int>)
    requires Patched(c0, c1, maxStack, rest) && forall b {:trigger maxStack[b]} :: b in maxStack ==> b !in rest
    ensures Patched(c0, c1, maxStack, {})
  {
  }

  // ----- the patched code ------------------------------------------------------------------

  /** Bytes that the decoder looks at for the instruction itself. */
  function Width(i: Instr): (w: nat)
    ensures w == 1 || w == 5 || w == 9
  {
    match i
    case Const(_) => 5
    case Str(_) => 5
    case Sexp(_, _) => 9
    case Jmp(_) => 5
    case Ld(_, _) => 5
    case Lda(_, _) => 5
    case St(_, _) => 5
    case Cjmp(_, _) => 5
    case Begin(_, _, _) => 9
    case Closure(_, _) => 9
    case CallC(_) => 5
    case Call(_, _) => 9
    case Tag(_, _) => 9
    case Array(_) => 5
    case Fail(_, _) => 9
    case Line(_) => 5
    case Barray(_) => 5
    case _ => 1
  }

  lemma FetchWidth(code: seq<Byte>, ip: int)
    requires Fetch(code, ip).Got?
    ensures InCode(code, ip) && ip + Width(Fetch(code, ip).i) <= |code|
  {
  }

  /** An instruction depends only on its own bytes. */
  lemma FetchLocal(c0: seq<Byte>, c1: seq<Byte>, ip: int)
    requires Fetch(c0, ip).Got? && |c1| == |c0|
    requires forall a :: ip <= a < ip + Width(Fetch(c0, ip).i) && 0 <= a < |c0| ==> c1[a] == c0[a]
    ensures Fetch(c1, ip) == Fetch(c0, ip)
  {
    FetchWidth(c0, ip);
    var w := Width(Fetch(c0, ip).i);
    if w >= 5 {
      SameInt(c0, c1, ip + 1);
    }
    if w == 9 {
      SameInt(c0, c1, ip + 5);
    }
  }

  /** What BEGIN in the patched code asks for, as in the verified code apart from the maximum. */
  ghost predicate SameBegin(i: Instr, j: Instr) {
    i.Begin? && j.Begin? && RealArgs(i.nArgs) == RealArgs(j.nArgs) && i.nLocals == j.nLocals
  }

  /** The patched code decodes as the verified code, apart from the maxima in BEGIN. */
  ghost predicate SameFetch(f: Fetched, g: Fetched) {
    g == f || (f.Got? && g.Got? && SameBegin(f.i, g.i) && g.next == f.next)
  }

  /** A BEGIN whose count has been raised is a BEGIN with the same number of arguments and locals. */
  lemma FetchBegin(c0: seq<Byte>, c1: seq<Byte>, ip: int, m: int)
    requires Fetch(c0, ip).Got? && Fetch(c0, ip).i.Begin? && |c1| == |c0|
    requires c1[ip] == c0[ip] && forall a :: ip + 5 <= a < ip + 9 && a < |c0| ==> c1[a] == c0[a]
    requires ip + 5 <= |c0| && ReadInt(c1, ip + 1) == Wrap32(ReadInt(c0, ip + 1) + m * 0x1_0000)
    ensures SameFetch(Fetch(c0, ip), Fetch(c1, ip))
    ensures Fetch(c1, ip).i.nArgs == Wrap32(Fetch(c0, ip).i.nArgs + m * 0x1_0000)
  {
    FetchWidth(c0, ip);
    SameInt(c0, c1, ip + 5);
    ArgsKept(Fetch(c0, ip).i.nArgs, m);
  }
}
