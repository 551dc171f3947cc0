/** What short programs of the abstract machine do to an explicit stack, without naming how. */
module Laws {
  import opened Words
  import opened Abstraction
  import opened Semantics
  import opened Options
  import TagHash

  /** The machine with these operands on top of what is below. */
  function On(m: Machine, below: seq<Val>, vs: seq<Val>): Machine { m.(stack := below + vs) }

  /** What is below are the globals and other operands. */
  predicate Below(m: Machine, below: seq<Val>) { m.globals <= |below| }

  /** The run has succeeded with these operands; what was in the store is still there. */
  predicate Leaves(m: Machine, r: Outcome, stack: seq<Val>) {
    r.Done? && r.m.stack == stack && m.store <= r.m.store && r.m.globals == m.globals
  }

  function Int(i: int): Val { Imm(Box(i)) }

  lemma Run1(m: Machine, a: Op)
    requires WellFormed(a)
    ensures Run(m, [a]) == Step(m, a)
  {
    assert [a][1..] == [];
  }

  lemma Run2(m: Machine, a: Op, b: Op)
    requires WellFormed(a) && WellFormed(b)
    ensures Run(m, [a, b]) == if Step(m, a).Done? then Step(Step(m, a).m, b) else Step(m, a)
  {
    assert [a, b][1..] == [b];
    if Step(m, a).Done? {
      Run1(Step(m, a).m, b);
    }
  }

  lemma Run3(m: Machine, a: Op, b: Op, c: Op)
    requires WellFormed(a) && WellFormed(b) && WellFormed(c)
    ensures Run(m, [a, b, c]) == if Step(m, a).Done? then Run(Step(m, a).m, [b, c]) else Step(m, a)
  {
    assert [a, b, c][1..] == [b, c];
  }

  // ----- operands --------------------------------------------------------------------------

  lemma ConstLaw(m: Machine, below: seq<Val>, i: int)
    requires Below(m, below)
    ensures Run(On(m, below, []), [Const(i)]) == Done(On(m, below, [Int(i)]))
  {
    Run1(On(m, below, []), Const(i));
  }

  lemma DropLaw(m: Machine, below: seq<Val>, v: Val)
    requires Below(m, below)
    ensures Run(On(m, below, [v]), [Drop]) == Done(On(m, below, []))
  {
    Run1(On(m, below, [v]), Drop);
    assert (below + [v])[..|below|] == below + [];
  }

  lemma DupLaw(m: Machine, below: seq<Val>, v: Val)
    requires Below(m, below)
    ensures Run(On(m, below, [v]), [Dup]) == Done(On(m, below, [v, v]))
  {
    Run1(On(m, below, [v]), Dup);
    assert below + [v] + [v] == below + [v, v];
  }

  /** The older operand is on top afterwards. */
  lemma SwapLaw(m: Machine, below: seq<Val>, older: Val, newer: Val)
    requires Below(m, below)
    ensures Run(On(m, below, [older, newer]), [Swap]) == Done(On(m, below, [newer, older]))
  {
    Run1(On(m, below, [older, newer]), Swap);
    assert (below + [older, newer])[..|below|] + [newer] + [older] == below + [newer, older];
  }

  /** Without operands, with the globals only, the pops fail. */
  lemma UnderflowLaw(m: Machine, op: Op)
    requires |m.stack| == m.globals && (op == Drop || op == Swap || op == Elem || op == Sta || op == Length)
    ensures Run(m, [op]) == Exit
  {
    Run1(m, op);
  }

  /** Global j is entry globals - 1 - j; one that has been stored is loaded again, the others are what they were, and
      the value stays on the stack. */
  lemma GlobalLaw(m: Machine, below: seq<Val>, v: Val, i: nat, j: nat)
    requires Below(m, below) && i < m.globals && j < m.globals
    ensures var r, before := Run(On(m, below, [v]), [StGlobal(i), LdGlobal(j)]), Run(On(m, below, [v]), [LdGlobal(j)]);
            && r.Done? && before.Done? && |r.m.stack| == |before.m.stack| == |below| + 2 && r.m.store == m.store
            && r.m.stack[|below|] == v
            && before.m.stack[|below| + 1] == On(m, below, [v]).stack[m.globals - 1 - j]
            && r.m.stack[|below| + 1] == if i == j then v else before.m.stack[|below| + 1]
  {
    Run1(On(m, below, [v]), LdGlobal(j));
    Run2(On(m, below, [v]), StGlobal(i), LdGlobal(j));
  }

  // ----- objects ---------------------------------------------------------------------------

  lemma ElementAt(m: Machine, below: seq<Val>, x: Val, j: int)
    requires Below(m, below) && -0x4000_0000 <= j < 0x4000_0000
    ensures Run(On(m, below, [x]), [Const(j), Elem]) == Step(On(m, below, [x, Int(j)]), Elem)
    ensures var q := On(m, below, [x, Int(j)]); Dropped(q, 2) == On(m, below, []) && Newest(q, 1) == x && Has(q, 2)
    ensures Newest(On(m, below, [x, Int(j)]), 0) == Int(j) && IsInt(Int(j)) && Unbox(Int(j).w) == j
  {
    Run2(On(m, below, [x]), Const(j), Elem);
    assert below + [x] + [Int(j)] == below + [x, Int(j)];
    assert (below + [x, Int(j)])[..|below|] == below + [];
    UnboxBox(j);
    BoxIsUnboxed(j);
  }

  /** ELEM takes the index first and then the object below it: element k of a new array, and of a new s-expression, is
      operand k in the order in which they were pushed; in a closure the code address is in front of them. */
  lemma ArrayLaw(m: Machine, below: seq<Val>, vs: seq<Val>, k: nat)
    requires Below(m, below) && k < |vs| && |vs| + 1 < MAX_LEN
    ensures var r := Run(On(m, below, vs), [Array(|vs|), Const(k), Elem]);
            Leaves(m, r, below + [vs[k]])
  {
    ArrayTag(|vs|);
    BuildLaw(m, below, vs, Array(|vs|), Header(ARRAY_TAG, |vs|), 0, k);
  }

  lemma SexpLaw(m: Machine, below: seq<Val>, vs: seq<Val>, tag: string, code: Word, k: nat)
    requires Below(m, below) && k < |vs| && |vs| + 1 < MAX_LEN && TagHash.TagCode(tag) == Some(code)
    ensures var r := Run(On(m, below, vs), [Sexp(tag, |vs|), Const(k), Elem]);
            Leaves(m, r, below + [vs[k]])
  {
    SexpHeader(|vs|);
    SexpStepIs(On(m, below, vs), tag, code, |vs|);
    BuildLaw(m, below, vs, Sexp(tag, |vs|), Header(SEXP_TAG, |vs|), code, k);
  }

  lemma ClosureLaw(m: Machine, below: seq<Val>, vs: seq<Val>, addr: Word, k: nat)
    requires Below(m, below) && k < |vs| && |vs| + 1 < MAX_LEN
    ensures var r := Run(On(m, below, vs), [Closure(addr, |vs|), Const(k + 1), Elem]);
            Leaves(m, r, below + [vs[k]])
  {
    ClosureTag(|vs| + 1);
    BuildLaw(m, below, vs, Closure(addr, |vs|), Header(CLOSURE_TAG, |vs| + 1), addr, k);
  }

  lemma SexpStepIs(m: Machine, tag: string, code: Word, n: nat)
    requires n + 1 < MAX_LEN && TagHash.TagCode(tag) == Some(code)
    ensures Step(m, Sexp(tag, n)) == Gathered(m, Header(SEXP_TAG, n), code, n)
  {
  }

  lemma ClosureTag(n: nat)
    requires n < MAX_LEN
    ensures Words.Tag(Header(CLOSURE_TAG, n)) == CLOSURE_TAG
  {
  }

  lemma BuildLaw(m: Machine, below: seq<Val>, vs: seq<Val>, op: Op, h: Word, first: Word, k: nat)
    requires Below(m, below) && k < |vs| && |vs| + 1 < MAX_LEN && WellFormed(op)
    requires Words.Tag(h) == ARRAY_TAG || Words.Tag(h) == SEXP_TAG || Words.Tag(h) == CLOSURE_TAG
    requires Step(On(m, below, vs), op) == Gathered(On(m, below, vs), h, first, |vs|)
    ensures var j := if Words.Tag(h) == CLOSURE_TAG then k + 1 else k;
            Leaves(m, Run(On(m, below, vs), [op, Const(j), Elem]), below + [vs[k]])
  {
    Run3(On(m, below, vs), op, Const(if Words.Tag(h) == CLOSURE_TAG then k + 1 else k), Elem);
    NewElement(m, below, vs, h, first, k);
  }

  /** The operands are gathered into an object with header h, on which ELEM finds them. */
  lemma NewElement(m: Machine, below: seq<Val>, vs: seq<Val>, h: Word, first: Word, k: nat)
    requires Below(m, below) && k < |vs| && |vs| + 1 < MAX_LEN
    requires Words.Tag(h) == ARRAY_TAG || Words.Tag(h) == SEXP_TAG || Words.Tag(h) == CLOSURE_TAG
    ensures var o, j := Gathered(On(m, below, vs), h, first, |vs|), if Words.Tag(h) == CLOSURE_TAG then k + 1 else k;
            && o.Done? && Run(o.m, [Const(j), Elem])
                          == Done(Machine(m.store + [Obj(h, first, vs, [])], below + [vs[k]], m.globals))
  {
    var store := m.store + [Obj(h, first, vs, [])];
    var j := if Words.Tag(h) == CLOSURE_TAG then k + 1 else k;
    assert (below + vs)[|below|..] == vs && (below + vs)[..|below|] == below;
    ElementAt(m.(store := store), below, Ref(|m.store|), j);
    assert below + [] == below;
  }

  /** The characters of a string are signed, and a 0 follows them. */
  lemma StringLaw(m: Machine, below: seq<Val>, text: seq<nat>, literal: Word, k: nat)
    requires Below(m, below) && WellFormed(Str(text, literal)) && k <= |text|
    ensures var r := Run(On(m, below, []), [Str(text, literal), Const(k), Elem]);
            var b: int := if k == |text| then 0 else text[k];
            var c := if b < 128 then b else b - 256;
            Leaves(m, r, below + [Int(c)])
  {
    var o := Obj(Header(STRING_TAG, |text|), 0, [], text + [0]);
    Run3(On(m, below, []), Str(text, literal), Const(k), Elem);
    ElementAt(m.(store := m.store + [o]), below, Ref(|m.store|), k);
    assert below + [] == below;
    StringTag(|text|);
  }

  lemma StringTag(n: nat)
    requires n < MAX_LEN
    ensures Words.Tag(Header(STRING_TAG, n)) == STRING_TAG && Words.Len(Header(STRING_TAG, n)) == n
  {
  }

  /** ELEM on an integer ends the program, and so does an index that is none. */
  lemma ElemFails(m: Machine, below: seq<Val>, x: Val, i: Val)
    requires Below(m, below) && (IsInt(x) || !IsInt(i))
    ensures Run(On(m, below, [x, i]), [Elem]) == Exit
  {
    Run1(On(m, below, [x, i]), Elem);
  }

  /** The low byte of an integer, as a signed number. */
  function LowByte(v: Val): Val
    requires IsInt(v)
  {
    var c := Unbox(v.w) % 256;
    Int(if c < 128 then c else c - 256)
  }

  /** STA takes the value first, then the index, then the object: what it has stored is what ELEM finds there, in a
      string the low byte, signed; other objects are not changed. */
  lemma StoreLaw(m: Machine, below: seq<Val>, id: nat, j: int, v: Val)
    requires Below(m, below) && -0x4000_0000 <= j < 0x4000_0000 && id < |m.store|
    requires var o := m.store[id];
             if Words.Tag(o.header) == STRING_TAG then 0 <= j < |o.bytes| && IsInt(v)
             else if Words.Tag(o.header) == CLOSURE_TAG then 1 <= j <= |o.fields| else 0 <= j < |o.fields|
    ensures var x, i := Ref(id), Int(j);
            var r := Run(On(m, below, [x, i, x, i, v]), [Sta, Drop, Elem]);
            && r.Done? && |r.m.store| == |m.store|
            && (forall k :: 0 <= k < |m.store| && k != id ==> r.m.store[k] == m.store[k])
            && r.m.stack == below + [if Words.Tag(m.store[id].header) == STRING_TAG then LowByte(v) else v]
  {
    var x, i := Ref(id), Int(j);
    var q, r := On(m, below, [x, i, x, i, v]), On(m, below, [x, i]);
    UnboxBox(j);
    BoxIsUnboxed(j);
    Run3(q, Sta, Drop, Elem);
    StaStepIs(m, below, x, i, v);
    StoredIsLoaded(r, v, i, x);
    var p := Store(r, v, i, x).m;
    Run2(p, Drop, Elem);
    ElemStepIs(p, below, x, i, v);
  }

  lemma StaStepIs(m: Machine, below: seq<Val>, x: Val, i: Val, v: Val)
    requires Below(m, below)
    ensures Step(On(m, below, [x, i, x, i, v]), Sta) == Store(On(m, below, [x, i]), v, i, x)
  {
    assert Dropped(On(m, below, [x, i, x, i, v]), 3).stack == below + [x, i];
  }

  lemma ElemStepIs(p: Machine, below: seq<Val>, x: Val, i: Val, v: Val)
    requires Below(p, below) && p.stack == below + [x, i] + [v]
    ensures Step(p, Drop) == Done(p.(stack := below + [x, i])) && Dropped(p, 1) == p.(stack := below + [x, i])
    ensures Step(p.(stack := below + [x, i]), Elem) == Element(p.(stack := below), x, i)
    ensures forall w :: Element(p.(stack := below + [x, i]), x, i) == Done(Push(p.(stack := below + [x, i]), w)) ==>
              Element(p.(stack := below), x, i) == Done(Push(p.(stack := below), w))
  {
    assert p.stack[..|p.stack| - 1] == below + [x, i];
    assert (below + [x, i])[..|below|] == below;
    var a, b := Element(p.(stack := below + [x, i]), x, i), Element(p.(stack := below), x, i);
    if a.Done? {
      assert b.Done? && a.m.stack[|below| + 2] == b.m.stack[|below|];
    }
  }

  // ----- tests and lengths -----------------------------------------------------------------

  lemma LengthLaw(m: Machine, below: seq<Val>, vs: seq<Val>, text: seq<nat>, literal: Word)
    requires Below(m, below) && |vs| + 1 < MAX_LEN && WellFormed(Str(text, literal))
    ensures var r := Run(On(m, below, vs), [Array(|vs|), Length]); Leaves(m, r, below + [Int(|vs|)])
    ensures var r := Run(On(m, below, []), [Str(text, literal), Length]); Leaves(m, r, below + [Int(|text|)])
    ensures Run(On(m, below, []), [Const(0), Length]) == Exit
  {
    Run2(On(m, below, vs), Array(|vs|), Length);
    Run2(On(m, below, []), Str(text, literal), Length);
    Run2(On(m, below, []), Const(0), Length);
    StringTag(|text|);
    ArrayTag(|vs|);
    BoxIsUnboxed(0);
    assert (below + vs)[..|below|] == below;
  }

  lemma ArrayTag(n: nat)
    requires n < MAX_LEN
    ensures Words.Tag(Header(ARRAY_TAG, n)) == ARRAY_TAG && Words.Len(Header(ARRAY_TAG, n)) == n
  {
  }

  /** ARRAY tells arrays by their length. */
  lemma ArrayTestLaw(m: Machine, below: seq<Val>, vs: seq<Val>, len: nat)
    requires Below(m, below) && |vs| + 1 < MAX_LEN && len < MAX_LEN
    ensures var r := Run(On(m, below, vs), [Array(|vs|), ArrayTest(len)]);
            Leaves(m, r, below + [Int(if len == |vs| then 1 else 0)])
  {
    Run2(On(m, below, vs), Array(|vs|), ArrayTest(len));
    ArrayTag(|vs|);
    UnboxBox(len);
    assert (below + vs)[..|below|] == below;
  }

  /** Both tests are negative on an integer. */
  lemma IntegerTestLaw(m: Machine, below: seq<Val>, len: nat, i: int, tag: string)
    requires Below(m, below) && TagHash.TagCode(tag).Some?
    ensures var r := Run(On(m, below, [Int(i)]), [ArrayTest(len)]); Leaves(m, r, below + [Int(0)])
    ensures var r := Run(On(m, below, [Int(i)]), [TagTest(tag, len)]); Leaves(m, r, below + [Int(0)])
  {
    var q := On(m, below, [Int(i)]);
    Run1(q, ArrayTest(len));
    Run1(q, TagTest(tag, len));
    BoxIsUnboxed(i);
    assert Dropped(q, 1).stack == below;
  }
}
