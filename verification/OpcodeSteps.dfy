/** What the interpreter does at each opcode, byte by byte: to the registers, to the words of the operand array, and
    where it goes on.  The newest operand is the word above the top. */
module OpcodeSteps {
  import opened Words
  import opened Bytecode
  import opened DepthTable
  import opened BeginPatch
  import opened Frames
  import opened DirectCalls
  import opened Effects
  import opened Runs
  import opened Opcodes
  import opened Options

  /** A step at one of the opcodes lo to hi inside a function; d is the array and t the top before it. */
  ghost predicate Does(p: Place, code: seq<Byte>, choice: Choice, m: Moment, m': Moment, lo: int, hi: int) {
    Consecutive(p, code, choice, m, m') && m.at.Body? && InCode(code, m.ip) && lo <= code[m.ip] <= hi
  }

  /** The array e with the top at u, and control `width` bytes on, in the same function. */
  ghost predicate Then(m: Moment, m': Moment, e: seq<Word>, u: int, width: nat) {
    m'.at == m.at && m'.bp == m.bp && m'.nArgs == m.nArgs && m'.d == e && m'.top == u && m'.ip == m.ip + width
  }

  /** The opcode of an instruction of one byte. */
  predicate ByteFor(i: Instr, x: int) {
    match i
    case Binop(op) => 0x01 <= x <= 0x0D && op == x - 1
    case Sti => x == 0x13
    case Sta => x == 0x14
    case End => x == 0x16 || x == 0x17
    case Drop => x == 0x18
    case Dup => x == 0x19
    case Swap => x == 0x1A
    case Elem => x == 0x1B
    case Patt(patt) => 0x60 <= x <= 0x66 && patt == x - 0x60
    case Lread => x == 0x70
    case Lwrite => x == 0x71
    case Llength => x == 0x72
    case Lstring => x == 0x73
    case _ => false
  }

  lemma Encoded(code: seq<Byte>, ip: int, i: Instr)
    requires InCode(code, ip) && ByteFor(i, code[ip])
    ensures Decodes(code, ip, i, 1)
  {
    OneByte(code, ip);
  }

  /** There are n words above the top. */
  predicate Operands(m: Moment, n: nat) { 0 <= m.top + 1 && m.top + n < |m.d| }

  predicate Free(m: Moment) { 0 <= m.top < |m.d| }

  /** The effect of the instruction that has been decoded. */
  lemma Inside(p: Place, code: seq<Byte>, choice: Choice, m: Moment, m': Moment, i: Instr, width: nat)
    requires Consecutive(p, code, choice, m, m') && m.at.Body? && Decodes(code, m.ip, i, width)
    requires !i.Jmp? && !i.Cjmp? && !i.Call? && !i.End?
    ensures Applied(p, i, m.d, m.top, m.bp, m.nArgs, choice, m'.d, m'.top)
    ensures !Fails(i, m.d, m.top) && !Foreign(p, m.d, m.top, m.bp, m.nArgs, i, choice.word)
    ensures Then(m, m', m'.d, m'.top, width)
  {
    BodyOf(p, code, choice, m, m');
  }

  lemma Decoded(p: Place, code: seq<Byte>, choice: Choice, m: Moment, m': Moment)
    requires Consecutive(p, code, choice, m, m') && m.at.Body?
    ensures Fetch(code, m.ip).Got? && m.ip + Width(Fetch(code, m.ip).i) <= |code|
  {
    BodyOf(p, code, choice, m, m');
    FetchWidth(code, m.ip);
  }

  /** An operation that neither collects nor captures. */
  lemma Computed(p: Place, code: seq<Byte>, choice: Choice, m: Moment, m': Moment, i: Instr, width: nat)
    requires Consecutive(p, code, choice, m, m') && m.at.Body? && Decodes(code, m.ip, i, width)
    requires Computes(i) && !Allocates(i) && 0 <= Pops(i)
    ensures Operands(m, Pops(i)) && |m'.d| == |m.d| && !Fails(i, m.d, m.top)
    ensures Pushes(i) == 0 ==> Then(m, m', m.d, m.top + Pops(i), width)
    ensures Pushes(i) != 0 ==> 0 <= m.top + Pops(i)
    ensures Pushes(i) != 0 ==>
              Then(m, m', m.d[m.top + Pops(i) := Result(i, m.d, m.top, choice.word)], m.top + Pops(i) - 1, width)
  {
    Inside(p, code, choice, m, m', i, width);
    assert Filled(m.d, m.top, 0, choice.word) == m.d;
  }

  // ----- operands --------------------------------------------------------------------------

  /** DROP */
  lemma StepDrop(p: Place, code: seq<Byte>, choice: Choice, m: Moment, m': Moment)
    requires Does(p, code, choice, m, m', 0x18, 0x18)
    ensures Then(m, m', m.d, m.top + 1, 1)
  {
    Encoded(code, m.ip, Drop);
    Computed(p, code, choice, m, m', Drop, 1);
  }

  /** DUP: the newest operand is there twice. */
  lemma StepDup(p: Place, code: seq<Byte>, choice: Choice, m: Moment, m': Moment)
    requires Does(p, code, choice, m, m', 0x19, 0x19)
    ensures Operands(m, 1) && Free(m) && Then(m, m', m.d[m.top := m.d[m.top + 1]], m.top - 1, 1)
  {
    Encoded(code, m.ip, Dup);
    Inside(p, code, choice, m, m', Dup, 1);
  }

  /** SWAP: the two newest operands change places. */
  lemma StepSwap(p: Place, code: seq<Byte>, choice: Choice, m: Moment, m': Moment)
    requires Does(p, code, choice, m, m', 0x1A, 0x1A)
    ensures Operands(m, 2)
    ensures Then(m, m', m.d[m.top + 1 := m.d[m.top + 2]][m.top + 2 := m.d[m.top + 1]], m.top, 1)
  {
    Encoded(code, m.ip, Swap);
    Inside(p, code, choice, m, m', Swap, 1);
  }

  /** CONST: the integer behind the opcode, boxed. */
  lemma StepConst(p: Place, code: seq<Byte>, choice: Choice, m: Moment, m': Moment)
    requires Does(p, code, choice, m, m', 0x10, 0x10)
    ensures m.ip + 5 <= |code| && Free(m)
    ensures Then(m, m', m.d[m.top := Box(ReadInt(code, m.ip + 1))], m.top - 1, 5)
  {
    Decoded(p, code, choice, m, m');
    FiveBytes(code, m.ip);
    Computed(p, code, choice, m, m', Const(ReadInt(code, m.ip + 1)), 5);
  }

  /** LINE */
  lemma StepLine(p: Place, code: seq<Byte>, choice: Choice, m: Moment, m': Moment)
    requires Does(p, code, choice, m, m', 0x5A, 0x5A)
    ensures Then(m, m', m.d, m.top, 5)
  {
    Decoded(p, code, choice, m, m');
    FiveBytes(code, m.ip);
    Computed(p, code, choice, m, m', Line(ReadInt(code, m.ip + 1)), 5);
  }

  // ----- variables -------------------------------------------------------------------------

  /** LD: the word of global, local variable or argument k is pushed. */
  lemma StepLd(p: Place, code: seq<Byte>, choice: Choice, m: Moment, m': Moment)
    requires Does(p, code, choice, m, m', 0x20, 0x22)
    ensures m.ip + 5 <= |code| && Free(m)
    ensures var x, k := code[m.ip], ReadInt(code, m.ip + 1);
            var s := if x == 0x20 then p.begin + 1 + k else if x == 0x21 then m.bp - 1 - k else m.bp + 2 + m.nArgs - k;
            0 <= s < |m.d| && Then(m, m', m.d[m.top := m.d[s]], m.top - 1, 5)
  {
    Decoded(p, code, choice, m, m');
    FiveBytes(code, m.ip);
    Inside(p, code, choice, m, m', Ld(code[m.ip] - 0x1F, ReadInt(code, m.ip + 1)), 5);
  }

  /** LDA: its address is pushed twice. */
  lemma StepLda(p: Place, code: seq<Byte>, choice: Choice, m: Moment, m': Moment)
    requires Does(p, code, choice, m, m', 0x30, 0x32)
    ensures m.ip + 5 <= |code| && 1 <= m.top < |m.d|
    ensures var x, k := code[m.ip], ReadInt(code, m.ip + 1);
            var s := if x == 0x30 then p.begin + 1 + k else if x == 0x31 then m.bp - 1 - k else m.bp + 2 + m.nArgs - k;
            Then(m, m', m.d[m.top := p.Address(s)][m.top - 1 := p.Address(s)], m.top - 2, 5)
  {
    Decoded(p, code, choice, m, m');
    FiveBytes(code, m.ip);
    Inside(p, code, choice, m, m', Lda(code[m.ip] - 0x2F, ReadInt(code, m.ip + 1)), 5);
  }

  /** ST: the newest operand goes there, and stays. */
  lemma StepSt(p: Place, code: seq<Byte>, choice: Choice, m: Moment, m': Moment)
    requires Does(p, code, choice, m, m', 0x40, 0x42)
    ensures m.ip + 5 <= |code| && Operands(m, 1)
    ensures var x, k := code[m.ip], ReadInt(code, m.ip + 1);
            var s := if x == 0x40 then p.begin + 1 + k else if x == 0x41 then m.bp - 1 - k else m.bp + 2 + m.nArgs - k;
            0 <= s < |m.d| && Then(m, m', m.d[s := m.d[m.top + 1]], m.top, 5)
  {
    Decoded(p, code, choice, m, m');
    FiveBytes(code, m.ip);
    Inside(p, code, choice, m, m', St(code[m.ip] - 0x3F, ReadInt(code, m.ip + 1)), 5);
  }

  // ----- arithmetic ------------------------------------------------------------------------

  /** The two operands of an arithmetic instruction are integers. */
  predicate Integers(m: Moment, a: int, b: int) {
    && Operands(m, 2) && -0x4000_0000 <= a < 0x4000_0000 && -0x4000_0000 <= b < 0x4000_0000
    && m.d[m.top + 2] == Box(a) && m.d[m.top + 1] == Box(b)
  }

  /** The integer r takes the place of the older one. */
  ghost predicate Yields(m: Moment, m': Moment, r: int) {
    Operands(m, 2) && 0 <= m.top + 2 && Then(m, m', m.d[m.top + 2 := Box(r)], m.top + 1, 1)
  }

  lemma BinaryStep(p: Place, code: seq<Byte>, choice: Choice, m: Moment, m': Moment, a: int, b: int)
    requires Does(p, code, choice, m, m', 0x01, 0x0D) && Integers(m, a, b)
    ensures var r := Arithmetic(code[m.ip] - 1, a, b); r.Some? ==> Yields(m, m', r.value)
  {
    Encoded(code, m.ip, Binop(code[m.ip] - 1));
    UnboxBox(a);
    UnboxBox(b);
    Computed(p, code, choice, m, m', Binop(code[m.ip] - 1), 1);
  }

  /** + - * and the comparisons; a product must fit into 32 bits. */
  lemma StepArithmetic(p: Place, code: seq<Byte>, choice: Choice, m: Moment, m': Moment, a: int, b: int)
    requires Does(p, code, choice, m, m', 0x01, 0x0D) && Integers(m, a, b)
    ensures var x := code[m.ip];
            && (x == 0x01 ==> Yields(m, m', a + b)) && (x == 0x02 ==> Yields(m, m', a - b))
            && (x == 0x03 && -0x8000_0000 <= a * b < 0x8000_0000 ==> Yields(m, m', a * b))
            && (x == 0x06 ==> Yields(m, m', if a < b then 1 else 0))
            && (x == 0x07 ==> Yields(m, m', if a <= b then 1 else 0))
            && (x == 0x08 ==> Yields(m, m', if a > b then 1 else 0))
            && (x == 0x09 ==> Yields(m, m', if a >= b then 1 else 0))
            && (x == 0x0A ==> Yields(m, m', if a == b then 1 else 0))
            && (x == 0x0B ==> Yields(m, m', if a == b then 0 else 1))
            && (x == 0x0C ==> Yields(m, m', if a == 0 || b == 0 then 0 else 1))
            && (x == 0x0D ==> Yields(m, m', if a == 0 && b == 0 then 0 else 1))
  {
    BinaryStep(p, code, choice, m, m', a, b);
  }

  /** / and %: quotient q and remainder r, rounded towards zero. */
  lemma StepDivision(p: Place, code: seq<Byte>, choice: Choice, m: Moment, m': Moment, a: int, b: int)
    returns (q: int, r: int)
    requires Does(p, code, choice, m, m', 0x04, 0x05) && Integers(m, a, b) && b != 0
    ensures q * b + r == a && (if b > 0 then -b < r < b else b < r < -b) && (a >= 0 ==> r >= 0) && (a <= 0 ==> r <= 0)
    ensures Yields(m, m', if code[m.ip] == 0x04 then q else r)
  {
    q, r := Quotient(a, b), a - Quotient(a, b) * b;
    QuotientRounds(a, b);
    BinaryStep(p, code, choice, m, m', a, b);
  }

  lemma QuotientRounds(a: int, b: int)
    requires b != 0
    ensures var r := a - Quotient(a, b) * b;
            (if b > 0 then -b < r < b else b < r < -b) && (a >= 0 ==> r >= 0) && (a <= 0 ==> r <= 0)
  {
    var n := if a >= 0 then a else -a;
    assert n == n / b * b + n % b;
    assert a < 0 ==> Quotient(a, b) * b == -(n / b * b);
  }

  // ----- tests -----------------------------------------------------------------------------

  /** The word w takes the place of the newest operand. */
  ghost predicate Replaces(m: Moment, m': Moment, w: Word, width: nat) {
    Operands(m, 1) && Then(m, m', m.d[m.top + 1 := w], m.top, width)
  }

  /** PATT: #ref and #val tell boxed integers, which have the low bit, from everything else; the other kinds are never
      an integer. */
  lemma StepPatt(p: Place, code: seq<Byte>, choice: Choice, m: Moment, m': Moment)
    requires Does(p, code, choice, m, m', 0x61, 0x66)
    ensures Operands(m, 1)
    ensures var x, odd := code[m.ip], m.d[m.top + 1] % 2 == 1;
            && (x == 0x64 ==> Replaces(m, m', if odd then 1 else 3, 1))
            && (x == 0x65 ==> Replaces(m, m', if odd then 3 else 1, 1))
            && (x != 0x64 && x != 0x65 ==> Replaces(m, m', if odd then 1 else choice.word, 1))
  {
    Encoded(code, m.ip, Patt(code[m.ip] - 0x60));
    var patt: int := code[m.ip] - 0x60;
    PattStep(p, code, choice, m, m', patt);
    KindFound(m.d[m.top + 1], patt, choice.word);
  }

  lemma PattStep(p: Place, code: seq<Byte>, choice: Choice, m: Moment, m': Moment, patt: int)
    requires Consecutive(p, code, choice, m, m') && m.at.Body? && Decodes(code, m.ip, Patt(patt), 1) && 1 <= patt <= 6
    ensures Operands(m, 1) && Replaces(m, m', BoxedOr(KindTest(patt, m.d[m.top + 1]), choice.word), 1)
  {
    Computed(p, code, choice, m, m', Patt(patt), 1);
  }

  lemma KindFound(w: Word, patt: int, other: Word)
    ensures BoxedOr(KindTest(patt, w), other)
         == if patt == 4 then if w % 2 == 1 then 1 else 3
            else if patt == 5 then if w % 2 == 1 then 3 else 1
            else if w % 2 == 1 then 1 else other
  {
  }

  /** TAG: 0 for an integer, else what the object is. */
  lemma StepTag(p: Place, code: seq<Byte>, choice: Choice, m: Moment, m': Moment)
    requires Does(p, code, choice, m, m', 0x57, 0x57)
    ensures Operands(m, 1) && Replaces(m, m', if m.d[m.top + 1] % 2 == 1 then 1 else choice.word, 9)
  {
    Decoded(p, code, choice, m, m');
    TagDecoded(code, m.ip);
    TestStep(p, code, choice, m, m', Fetch(code, m.ip).i, 9);
  }

  lemma TestStep(p: Place, code: seq<Byte>, choice: Choice, m: Moment, m': Moment, i: Instr, width: nat)
    requires Consecutive(p, code, choice, m, m') && m.at.Body? && Decodes(code, m.ip, i, width) && (i.Tag? || i.Array?)
    ensures Operands(m, 1) && Replaces(m, m', if m.d[m.top + 1] % 2 == 1 then 1 else choice.word, width)
  {
    Computed(p, code, choice, m, m', i, width);
  }

  lemma TagDecoded(code: seq<Byte>, ip: int)
    requires Fetch(code, ip).Got? && InCode(code, ip) && code[ip] == 0x57
    ensures Fetch(code, ip).i.Tag? && Decodes(code, ip, Fetch(code, ip).i, 9)
  {
    FetchWidth(code, ip);
    NineBytes(code, ip);
  }

  /** ARRAY likewise. */
  lemma StepArray(p: Place, code: seq<Byte>, choice: Choice, m: Moment, m': Moment)
    requires Does(p, code, choice, m, m', 0x58, 0x58)
    ensures Operands(m, 1) && Replaces(m, m', if m.d[m.top + 1] % 2 == 1 then 1 else choice.word, 5)
  {
    Decoded(p, code, choice, m, m');
    FiveBytes(code, m.ip);
    TestStep(p, code, choice, m, m', Instr.Array(ReadInt(code, m.ip + 1)), 5);
  }

  // ----- the run-time system ---------------------------------------------------------------

  /** ELEM: the answer takes the place of two operands; the older one is no integer and the newer one is. */
  lemma StepElem(p: Place, code: seq<Byte>, choice: Choice, m: Moment, m': Moment)
    requires Does(p, code, choice, m, m', 0x1B, 0x1B) && m.top + 3 < |m.d|
    ensures Operands(m, 2) && m.d[m.top + 2] % 2 == 0 && m.d[m.top + 1] % 2 == 1
    ensures Then(m, m', m.d[m.top + 2 := choice.word], m.top + 1, 1)
  {
    Encoded(code, m.ip, Elem);
    Computed(p, code, choice, m, m', Elem, 1);
    ElemKinds(m.d, m.top);
  }

  lemma ElemKinds(d: seq<Word>, t: int)
    requires 0 <= t + 1 && t + 3 < |d| && !Fails(Elem, d, t)
    ensures d[t + 2] % 2 == 0 && d[t + 1] % 2 == 1
  {
  }

  /** =str: 0 if the newer operand is an integer. */
  lemma StepStringEqual(p: Place, code: seq<Byte>, choice: Choice, m: Moment, m': Moment)
    requires Does(p, code, choice, m, m', 0x60, 0x60)
    ensures Operands(m, 2)
    ensures Then(m, m', m.d[m.top + 2 := if m.d[m.top + 1] % 2 == 1 then 1 else choice.word], m.top + 1, 1)
  {
    Encoded(code, m.ip, Patt(0));
    Computed(p, code, choice, m, m', Patt(0), 1);
  }

  /** CALL Lread pushes a word. */
  lemma StepLread(p: Place, code: seq<Byte>, choice: Choice, m: Moment, m': Moment)
    requires Does(p, code, choice, m, m', 0x70, 0x70)
    ensures Free(m) && Then(m, m', m.d[m.top := choice.word], m.top - 1, 1)
  {
    Encoded(code, m.ip, Lread);
    Computed(p, code, choice, m, m', Lread, 1);
  }

  /** CALL Lwrite leaves 0, boxed. */
  lemma StepLwrite(p: Place, code: seq<Byte>, choice: Choice, m: Moment, m': Moment)
    requires Does(p, code, choice, m, m', 0x71, 0x71)
    ensures Replaces(m, m', 1, 1)
  {
    Encoded(code, m.ip, Lwrite);
    Computed(p, code, choice, m, m', Lwrite, 1);
  }

  /** CALL Llength takes no integer. */
  lemma StepLlength(p: Place, code: seq<Byte>, choice: Choice, m: Moment, m': Moment)
    requires Does(p, code, choice, m, m', 0x72, 0x72) && m.top + 3 < |m.d|
    ensures Replaces(m, m', choice.word, 1) && m.d[m.top + 1] % 2 == 0
  {
    Encoded(code, m.ip, Llength);
    Computed(p, code, choice, m, m', Llength, 1);
  }

  /** An operation that may collect has taken n operands and left w in the place of the first, or pushed it; the words
      above it have changed in no other way than by a collection, and in none if there was none. */
  ghost predicate Allocated(p: Place, m: Moment, m': Moment, n: int, choice: Choice, width: int) {
    var r := m.top + n;
    && 0 <= r < |m.d| == |m'.d| && m'.top == r - 1 && m'.ip == m.ip + width && m'.at == m.at
    && m'.d[r] == choice.word
    && forall s :: r < s < |m.d| && (p.Stable(m.d[s]) || !Collected(p, m.d, choice.heap)) ==> m'.d[s] == m.d[s]
  }

  lemma AllocatedBy(p: Place, code: seq<Byte>, choice: Choice, m: Moment, m': Moment, i: Instr, width: nat)
    requires Consecutive(p, code, choice, m, m') && m.at.Body? && Decodes(code, m.ip, i, width)
    requires Allocates(i) && !i.Closure? && 0 <= Pops(i) && Pushes(i) == 1
    ensures Allocated(p, m, m', Pops(i), choice, width)
  {
    Inside(p, code, choice, m, m', i, width);
    assert Filled(m.d, m.top, 0, choice.word) == m.d;
  }

  /** STRING */
  lemma StepStr(p: Place, code: seq<Byte>, choice: Choice, m: Moment, m': Moment)
    requires Does(p, code, choice, m, m', 0x11, 0x11)
    ensures Allocated(p, m, m', 0, choice, 5)
  {
    Decoded(p, code, choice, m, m');
    FiveBytes(code, m.ip);
    AllocatedBy(p, code, choice, m, m', Str(ReadInt(code, m.ip + 1)), 5);
  }

  /** SEXP with n operands */
  lemma StepSexp(p: Place, code: seq<Byte>, choice: Choice, m: Moment, m': Moment)
    requires Does(p, code, choice, m, m', 0x12, 0x12)
    ensures m.ip + 9 <= |code| && Allocated(p, m, m', ReadInt(code, m.ip + 5), choice, 9)
  {
    Decoded(p, code, choice, m, m');
    NineBytes(code, m.ip);
    var i := Instr.Sexp(ReadInt(code, m.ip + 1), ReadInt(code, m.ip + 5));
    Inside(p, code, choice, m, m', i, 9);
    AllocatedBy(p, code, choice, m, m', i, 9);
  }

  /** CALL Barray with n operands */
  lemma StepBarray(p: Place, code: seq<Byte>, choice: Choice, m: Moment, m': Moment)
    requires Does(p, code, choice, m, m', 0x74, 0x74)
    ensures m.ip + 5 <= |code| && Allocated(p, m, m', ReadInt(code, m.ip + 1), choice, 5)
  {
    Decoded(p, code, choice, m, m');
    FiveBytes(code, m.ip);
    var i := Instr.Barray(ReadInt(code, m.ip + 1));
    Inside(p, code, choice, m, m', i, 5);
    AllocatedBy(p, code, choice, m, m', i, 5);
  }

  /** CALL Lstring */
  lemma StepLstring(p: Place, code: seq<Byte>, choice: Choice, m: Moment, m': Moment)
    requires Does(p, code, choice, m, m', 0x73, 0x73)
    ensures Allocated(p, m, m', 1, choice, 1)
  {
    Encoded(code, m.ip, Lstring);
    AllocatedBy(p, code, choice, m, m', Lstring, 1);
  }

  /** CLOSURE pushes one word, whatever it captures. */
  lemma StepClosure(p: Place, code: seq<Byte>, choice: Choice, m: Moment, m': Moment)
    requires Does(p, code, choice, m, m', 0x54, 0x54)
    ensures m.ip + 9 <= |code| && Free(m) && |m'.d| == |m.d|
    ensures m'.ip == m.ip + 9 + 5 * ReadInt(code, m.ip + 5) && m'.top == m.top - 1 && m'.d[m.top] == choice.word
    ensures forall s :: m.top < s < |m.d| && p.Stable(m.d[s]) ==> m'.d[s] == m.d[s]
  {
    Decoded(p, code, choice, m, m');
    NineBytes(code, m.ip);
    BodyOf(p, code, choice, m, m');
  }

  // ----- stores through references ---------------------------------------------------------

  /** The store changes slot s of the array, if it has one there. */
  lemma SlotWritten(p: Place, d: seq<Word>, s: int, v: Word)
    requires p.Valid() && |d| == p.size && 0 <= s < p.size
    ensures Written(p, d, WordStore(p.Address(s), v)) == d[s := v]
  {
    p.AddressIndex(s);
  }

  /** STI: the value goes to the word that the reference below it names, in the array or in the heap, and takes the
      place of the reference. */
  lemma StepSti(p: Place, code: seq<Byte>, choice: Choice, m: Moment, m': Moment, s: int)
    requires Does(p, code, choice, m, m', 0x13, 0x13) && p.Valid() && |m.d| == p.size
    ensures Operands(m, 3)
    ensures var v, ref := m.d[m.top + 1], m.d[m.top + 2];
            && (0 <= s < p.size && ref == p.Address(s) ==> Then(m, m', m.d[s := v][m.top + 2 := v], m.top + 1, 1))
            && (HeapWord(p, ref) ==> Then(m, m', m.d[m.top + 2 := v], m.top + 1, 1))
            && (HeapWord(p, ref) || exists k :: 0 <= k < p.size && ref == p.Address(k))
  {
    Encoded(code, m.ip, Sti);
    Inside(p, code, choice, m, m', Sti, 1);
    var v, ref := m.d[m.top + 1], m.d[m.top + 2];
    if 0 <= s < p.size && ref == p.Address(s) {
      SlotWritten(p, m.d, s, v);
    }
    if HeapWord(p, ref) {
      HeapApart(p, m.d, WordStore(ref, v));
    }
  }

  /** STA with a reference in the place of the index stores through what is below it. */
  lemma StepSta(p: Place, code: seq<Byte>, choice: Choice, m: Moment, m': Moment, s: int)
    requires Does(p, code, choice, m, m', 0x14, 0x14) && p.Valid() && |m.d| == p.size
    ensures Operands(m, 3)
    ensures var v, index, x := m.d[m.top + 1], m.d[m.top + 2], m.d[m.top + 3];
            index % 2 == 0 ==>
              && (0 <= s < p.size && x == p.Address(s) ==> Then(m, m', m.d[s := v][m.top + 3 := v], m.top + 2, 1))
              && (HeapWord(p, x) ==> Then(m, m', m.d[m.top + 3 := v], m.top + 2, 1))
  {
    Encoded(code, m.ip, Sta);
    Inside(p, code, choice, m, m', Sta, 1);
    var v, x := m.d[m.top + 1], m.d[m.top + 3];
    if 0 <= s < p.size && x == p.Address(s) {
      SlotWritten(p, m.d, s, v);
    }
    if HeapWord(p, x) {
      HeapApart(p, m.d, WordStore(x, v));
    }
  }

  /** STA with index j: element j of what is at x, one further on behind the header of an s-expression; the header is
      two words in front.  A value in the array at slot s may stand for x. */
  lemma StepStaElement(p: Place, code: seq<Byte>, choice: Choice, m: Moment, m': Moment, s: int, j: int)
    requires Does(p, code, choice, m, m', 0x14, 0x14) && p.Valid() && |m.d| == p.size && Operands(m, 3)
    requires m.d[m.top + 2] == Box(j) && 2 <= s < p.size && m.d[m.top + 3] == p.Address(s)
    requires 0 <= j && s + j + 1 < p.size && j < 0x4000_0000
    ensures var v, tag := m.d[m.top + 1], m.d[s - 2] % 8;
            && (tag == 5 ==> Then(m, m', m.d[s + j + 1 := v][m.top + 3 := v], m.top + 2, 1))
            && (tag != 1 && tag != 5 ==> Then(m, m', m.d[s + j := v][m.top + 3 := v], m.top + 2, 1))
  {
    Encoded(code, m.ip, Sta);
    Inside(p, code, choice, m, m', Sta, 1);
    HeaderInFront(p, m.d, s, choice.word);
    ElementStore(p, m.d[m.top + 1], s, j, m.d[s - 2]);
    SlotWritten(p, m.d, s + j, m.d[m.top + 1]);
    SlotWritten(p, m.d, s + j + 1, m.d[m.top + 1]);
  }

  lemma ElementStore(p: Place, v: Word, s: int, j: int, header: Word)
    requires p.Valid() && 2 <= s && 0 <= j < 0x4000_0000 && s + j + 1 < p.size
    ensures header % 8 == 5 ==> StaStore(v, Box(j), p.Address(s), header) == WordStore(p.Address(s + j + 1), v)
    ensures header % 8 != 1 && header % 8 != 5 ==>
              StaStore(v, Box(j), p.Address(s), header) == WordStore(p.Address(s + j), v)
  {
    UnboxBox(j);
    BoxIsUnboxed(j);
    assert p.Address(s) == p.dataBase + 4 * s;
    assert Wrap(p.Address(s) + 4 * j) == p.Address(s + j) && Wrap(p.Address(s) + 4 * (j + 1)) == p.Address(s + j + 1);
  }

  /** And in a string: byte j, from the low bits of the value. */
  lemma StepStaChar(p: Place, code: seq<Byte>, choice: Choice, m: Moment, m': Moment, s: int, j: int)
    requires Does(p, code, choice, m, m', 0x14, 0x14) && p.Valid() && |m.d| == p.size && Operands(m, 3)
    requires 0 <= j < 0x4000_0000 && 2 <= s && s + j / 4 < p.size && s < p.size
    requires m.d[m.top + 2] == Box(j) && m.d[m.top + 3] == p.Address(s) && m.d[s - 2] % 8 == 1
    ensures var v, k := m.d[m.top + 1], s + j / 4;
            Then(m, m', m.d[k := WithByte(m.d[k], j % 4, Unbox(v) % 256)][m.top + 3 := v], m.top + 2, 1)
  {
    Encoded(code, m.ip, Sta);
    Inside(p, code, choice, m, m', Sta, 1);
    HeaderInFront(p, m.d, s, choice.word);
    CharStore(p, m.d, m.d[m.top + 1], s, j, m.d[s - 2]);
  }

  lemma CharStore(p: Place, d: seq<Word>, v: Word, s: int, j: int, header: Word)
    requires p.Valid() && |d| == p.size && 2 <= s && 0 <= j < 0x4000_0000 && s + j / 4 < p.size && header % 8 == 1
    ensures var k := s + j / 4;
            Written(p, d, StaStore(v, Box(j), p.Address(s), header)) == d[k := WithByte(d[k], j % 4, Unbox(v) % 256)]
  {
    UnboxBox(j);
    BoxIsUnboxed(j);
    ByteAddress(p, s, j);
    ByteWritten(p, d, s + j / 4, j % 4, Unbox(v) % 256, Wrap(p.Address(s) + j));
  }

  lemma ByteWritten(p: Place, d: seq<Word>, k: int, r: nat, b: nat, a: Word)
    requires p.Valid() && |d| == p.size && 0 <= k < p.size && r < 4 && b < 256
    requires a == p.Address(k) + r && p.Address(k) % 4 == 0
    ensures Written(p, d, ByteStore(a, b)) == d[k := WithByte(d[k], r, b)]
  {
    InWord(p.Address(k), r);
    p.AddressIndex(k);
    LowByte(d[k], a, r, b);
  }

  lemma InWord(w: int, r: int)
    requires w % 4 == 0 && 0 <= r < 4
    ensures (w + r) % 4 == r && w + r - (w + r) % 4 == w
  {
  }

  lemma LowByte(w: Word, a: Word, r: nat, b: nat)
    requires a % 4 == r && b < 256
    ensures NewWord(w, ByteStore(a, b)) == WithByte(w, r, b)
  {
    assert b % 256 == b;
  }

  lemma ByteAddress(p: Place, s: int, j: int)
    requires p.Valid() && 0 <= s && 0 <= j && s + j / 4 < p.size
    ensures Wrap(p.Address(s) + j) == p.Address(s + j / 4) + j % 4 && p.Address(s + j / 4) % 4 == 0
  {
    assert p.Address(s) == p.dataBase + 4 * s && p.Address(s + j / 4) == p.dataBase + 4 * (s + j / 4);
  }

  /** The words of the array that a function may store into: below its base pointer, its arguments if it has been
      called, and the globals. */
  lemma OwnSlots(p: Place, bp: int, nArgs: int, s: int, v: Word)
    requires p.Valid() && 0 <= s < p.size
    ensures Harmless(p, bp, nArgs, WordStore(p.Address(s), v)) <==>
              s < bp || (bp != p.begin - 1 && bp + 3 <= s < bp + 3 + nArgs) || p.begin < s
  {
    p.AddressIndex(s);
    assert !p.heap(p.Address(s));
  }

  lemma HeaderInFront(p: Place, d: seq<Word>, s: int, other: Word)
    requires p.Valid() && |d| == p.size && 2 <= s < p.size
    ensures HeaderBefore(p, d, p.Address(s), other) == d[s - 2]
  {
    p.AddressIndex(s - 2);
    assert Wrap(p.Address(s) - 8) == p.Address(s - 2);
  }

  // ----- control ---------------------------------------------------------------------------

  /** JMP */
  lemma StepJmp(p: Place, code: seq<Byte>, choice: Choice, m: Moment, m': Moment)
    requires Does(p, code, choice, m, m', 0x15, 0x15)
    ensures m.ip + 5 <= |code| && m'.d == m.d && m'.top == m.top && m'.at == m.at && m'.ip == ReadInt(code, m.ip + 1)
  {
    Decoded(p, code, choice, m, m');
    FiveBytes(code, m.ip);
    BodyOf(p, code, choice, m, m');
  }

  /** CJMPz jumps on 0, CJMPnz on anything else; of the words, 1 is the boxed 0. */
  lemma StepCjmp(p: Place, code: seq<Byte>, choice: Choice, m: Moment, m': Moment)
    requires Does(p, code, choice, m, m', 0x50, 0x51)
    ensures m.ip + 5 <= |code| && Operands(m, 1) && m'.d == m.d && m'.top == m.top + 1 && m'.at == m.at
    ensures var zero := m.d[m.top + 1] <= 1;
            m'.ip == if zero == (code[m.ip] == 0x50) then ReadInt(code, m.ip + 1) else m.ip + 5
  {
    Decoded(p, code, choice, m, m');
    FiveBytes(code, m.ip);
    BodyOf(p, code, choice, m, m');
  }

  /** CALL pushes the address behind it and goes to its target. */
  lemma StepCall(p: Place, code: seq<Byte>, choice: Choice, m: Moment, m': Moment)
    requires Does(p, code, choice, m, m', 0x56, 0x56)
    ensures m.ip + 9 <= |code| && Free(m) && m'.ip == ReadInt(code, m.ip + 1)
    ensures m'.d == m.d[m.top := p.CodeAddress(m.ip + 9)] && m'.top == m.top - 1 && m'.bp == m.bp && m'.nArgs == m.nArgs
    ensures m'.at == Entry(m.at.fs, m.ip + 9)
  {
    Decoded(p, code, choice, m, m');
    NineBytes(code, m.ip);
    BodyOf(p, code, choice, m, m');
  }

  /** BEGIN, for n arguments and k local variables: it saves count and base pointer below the top, sets them, and
      leaves k + 1 words below, all zero but the one next to the base pointer, which stays as it was. */
  lemma StepBegin(p: Place, code: seq<Byte>, choice: Choice, m: Moment, m': Moment)
    requires Consecutive(p, code, choice, m, m') && m.at.Entry? && InCode(code, m.ip)
    ensures (code[m.ip] == 0x52 || code[m.ip] == 0x53) && m.ip + 9 <= |code| && |m'.d| == |m.d| && m.top < |m.d|
    ensures m'.at.Body? && |m'.at.fs| == |m.at.fs| + 1
    ensures var n, k := ReadInt(code, m.ip + 1) % 0x1_0000, ReadInt(code, m.ip + 5);
            && 0 <= k && k + 4 <= m.top && m'.ip == m.ip + 9
            && m'.nArgs == n && m'.bp == m.top - 1 && m'.top == m.top - 3 - k
            && m'.d[m.top] == Box(m.nArgs) && m'.d[m.top - 1] == p.Address(m.bp) && m'.d[m.top - 2] == m.d[m.top - 2]
            && (forall s :: m.top - 3 - k <= s <= m.top - 3 ==> m'.d[s] == 0)
            && (forall s :: m.top < s < |m.d| || 0 <= s < m.top - 3 - k ==> m'.d[s] == m.d[s])
  {
    EntryOf(p, code, choice, m, m');
    FetchWidth(code, m.ip);
    NineBytes(code, m.ip);
  }

  /** END in a called function: count and base pointer come back from the words at the base pointer, the operands up to
      the arguments go, and the result takes the place of the first argument. */
  lemma StepEnd(p: Place, code: seq<Byte>, choice: Choice, m: Moment, m': Moment)
    requires Does(p, code, choice, m, m', 0x16, 0x17)
    ensures Operands(m, 1) && 0 <= m.bp && m.bp + 2 < |m.d| && 0 <= m.bp + 2 + m.nArgs < |m.d|
    ensures m'.d == m.d[m.bp + 2 + m.nArgs := m.d[m.top + 1]] && m'.top == m.bp + 1 + m.nArgs
    ensures m'.ip == p.Offset(m.d[m.bp + 2]) && m'.nArgs == Unbox(m.d[m.bp + 1]) && m'.bp == p.IndexOf(m.d[m.bp])
    ensures |m.at.fs| > 1 && m'.at == Body(m.at.fs[..|m.at.fs| - 1])
  {
    Encoded(code, m.ip, End);
    BodyOf(p, code, choice, m, m');
  }

  // ----- arguments -------------------------------------------------------------------------

  /** From a CALL at step c over the BEGIN to an LD A(i) as the first instruction of the function: it pushes the operand
      that the caller had pushed as the i-th of n arguments, counted from 0. */
  lemma ArgumentLoaded(p: Place, code: seq<Byte>, choices: nat -> Choice, run: seq<Moment>, c: nat, i: nat)
    requires Run(p, code, choices, run) && c + 3 < |run| && run[c].at.Body?
    requires InCode(code, run[c].ip) && code[run[c].ip] == 0x56
    requires InCode(code, run[c + 2].ip) && code[run[c + 2].ip] == 0x22 && run[c + 2].ip + 5 <= |code|
    requires ReadInt(code, run[c + 2].ip + 1) == i < run[c + 2].nArgs
    ensures var n, t := run[c + 2].nArgs, run[c].top;
            && 0 <= run[c + 3].top + 1 < |run[c + 3].d| && 0 <= t + n - i < |run[c].d|
            && run[c + 3].d[run[c + 3].top + 1] == run[c].d[t + n - i]
  {
    CallInRun(p, code, choices, run, c);
    BeginInRun(p, code, choices, run, c + 1);
    ArgumentInRun(p, code, choices, run, c + 2, i);
  }

  lemma CallInRun(p: Place, code: seq<Byte>, choices: nat -> Choice, run: seq<Moment>, c: nat)
    requires Run(p, code, choices, run) && c + 1 < |run| && run[c].at.Body?
    requires InCode(code, run[c].ip) && code[run[c].ip] == 0x56
    ensures run[c + 1].at.Entry? && 0 <= run[c].top && run[c + 1].top == run[c].top - 1 && |run[c + 1].d| == |run[c].d|
    ensures forall s :: run[c].top < s < |run[c].d| ==> run[c + 1].d[s] == run[c].d[s]
  {
    InRun(p, code, choices, run, c);
    StepCall(p, code, choices(c), run[c], run[c + 1]);
  }

  lemma BeginInRun(p: Place, code: seq<Byte>, choices: nat -> Choice, run: seq<Moment>, c: nat)
    requires Run(p, code, choices, run) && c + 1 < |run| && run[c].at.Entry?
    ensures run[c + 1].at.Body? && run[c + 1].bp == run[c].top - 1 && |run[c + 1].d| == |run[c].d| && 0 <= run[c].top
    ensures forall s :: run[c].top < s < |run[c].d| ==> run[c + 1].d[s] == run[c].d[s]
  {
    InRun(p, code, choices, run, c);
    BeginDecoded(p, code, choices(c), run[c], run[c + 1]);
    StepBegin(p, code, choices(c), run[c], run[c + 1]);
  }

  lemma ArgumentInRun(p: Place, code: seq<Byte>, choices: nat -> Choice, run: seq<Moment>, k: nat, i: int)
    requires Run(p, code, choices, run) && k + 1 < |run| && run[k].at.Body?
    requires InCode(code, run[k].ip) && code[run[k].ip] == 0x22 && run[k].ip + 5 <= |code|
    requires ReadInt(code, run[k].ip + 1) == i
    ensures 0 <= run[k].bp + 2 + run[k].nArgs - i < |run[k].d| && 0 <= run[k + 1].top + 1 < |run[k + 1].d|
    ensures run[k + 1].d[run[k + 1].top + 1] == run[k].d[run[k].bp + 2 + run[k].nArgs - i]
  {
    InRun(p, code, choices, run, k);
    StepLd(p, code, choices(k), run[k], run[k + 1]);
  }

  lemma BeginDecoded(p: Place, code: seq<Byte>, choice: Choice, m: Moment, m': Moment)
    requires Consecutive(p, code, choice, m, m') && m.at.Entry?
    ensures InCode(code, m.ip) && m'.at.Body?
  {
    EntryOf(p, code, choice, m, m');
  }

  // ----- when a run stops ------------------------------------------------------------------

  /** At an instruction that decodes, with the words that it may look at in the array. */
  ghost predicate Before(code: seq<Byte>, m: Moment, x: int) {
    m.at.Body? && Fetch(code, m.ip).Got? && Operands(m, 3) && InCode(code, m.ip) && code[m.ip] == x
  }

  /** An operation that fails for the kind of its operands, or for what it finds. */
  predicate Failing(m: Moment, x: int, choice: Choice)
    requires Operands(m, 3)
  {
    var newest, older, oldest := m.d[m.top + 1] % 2 == 1, m.d[m.top + 2] % 2 == 1, m.d[m.top + 3] % 2 == 1;
    || (x == 0x14 && older && oldest) || (x == 0x1B && (older || !newest)) || (x == 0x72 && newest)
    || (x == 0x60 && older) || ((x == 0x12 || x == 0x57 || x == 0x60) && choice.fails)
  }

  /** Halted exactly at FAIL, at the END of main, and where an operation fails. */
  lemma HaltsExactly(p: Place, code: seq<Byte>, choice: Choice, m: Moment, x: int)
    requires Before(code, m, x)
    ensures StatusAt(p, code, m, choice) == Halted <==>
              x == 0x59 || ((x == 0x16 || x == 0x17) && |m.at.fs| <= 1) || Failing(m, x, choice)
  {
    ByteOf(code, m.ip);
  }

  /** Overrun exactly where the array is full: below the top there is no room for the word that CONST, STRING, LD, DUP,
      Lread, CALL, or SEXP and Barray without operands push, for the two of LDA, or for those that CLOSURE captures. */
  lemma OverrunsExactly(p: Place, code: seq<Byte>, choice: Choice, m: Moment, x: int)
    requires Before(code, m, x) && x != 0x55 && !Failing(m, x, choice)
    ensures var n1, n2 := Count(code, m.ip, 1), Count(code, m.ip, 5);
            StatusAt(p, code, m, choice) == Overrun <==>
              || ((x == 0x10 || x == 0x11 || 0x20 <= x <= 0x2F || x == 0x19 || x == 0x70 || x == 0x56) && m.top < 0)
              || (((x == 0x12 && n2 < 1) || (x == 0x74 && n1 < 1)) && m.top < 0)
              || (0x30 <= x <= 0x3F && m.top < 1) || (x == 0x54 && m.top < (if n2 > 1 then n2 - 1 else 0))
  {
    ByteOf(code, m.ip);
  }

  /** BadStore exactly at STI and STA, for a store into a word that is neither the function's own nor in the heap. */
  lemma BadStoreExactly(p: Place, code: seq<Byte>, choice: Choice, m: Moment, x: int)
    requires Before(code, m, x)
    ensures StatusAt(p, code, m, choice) == BadStore <==>
              || (x == 0x13 && !Harmless(p, m.bp, m.nArgs, WordStore(m.d[m.top + 2], m.d[m.top + 1])))
              || (x == 0x14 && !Failing(m, x, choice)
                  && !Harmless(p, m.bp, m.nArgs, StoreAt(p, Sta, m.d, m.top, choice.word)))
  {
    ByteOf(code, m.ip);
  }

  /** Overflow exactly at a BEGIN with n arguments, k local variables and the maximum h recorded, where below the top
      there are fewer than n + k + h + 4 words. */
  lemma OverflowsExactly(p: Place, code: seq<Byte>, choice: Choice, m: Moment)
    requires m.at.Entry? && InCode(code, m.ip) && m.ip + 9 <= |code|
    requires code[m.ip] == 0x52 || code[m.ip] == 0x53
    ensures var w, k := ReadInt(code, m.ip + 1), ReadInt(code, m.ip + 5);
            var n, h := w % 0x1_0000, w % 0x1_0000_0000 / 0x1_0000;
            StatusAt(p, code, m, choice) == if m.top < n + k + h + 4 then Overflow else Going
  {
    NineBytes(code, m.ip);
  }

  function Count(code: seq<Byte>, ip: int, k: nat): int {
    if 0 <= ip && ip + k + 4 <= |code| then ReadInt(code, ip + k) else 0
  }

  /** What has been decoded tells the opcode. */
  lemma ByteOf(code: seq<Byte>, ip: int)
    requires Fetch(code, ip).Got? && InCode(code, ip)
    ensures var i, x := Fetch(code, ip).i, code[ip];
            && (i.Fail? <==> x == 0x59) && (i.End? <==> x == 0x16 || x == 0x17) && (i.Sti? <==> x == 0x13)
            && (i.Sta? <==> x == 0x14) && (i.Elem? <==> x == 0x1B) && (i.Llength? <==> x == 0x72)
            && (i == Patt(0) <==> x == 0x60) && (i.Sexp? <==> x == 0x12) && (i.Tag? <==> x == 0x57)
            && (i.Ld? <==> 0x20 <= x <= 0x2F) && (i.Lda? <==> 0x30 <= x <= 0x3F) && (i.Const? <==> x == 0x10)
            && (i.Str? <==> x == 0x11) && (i.Dup? <==> x == 0x19) && (i.Lread? <==> x == 0x70)
            && (i.Call? <==> x == 0x56) && (i.Closure? <==> x == 0x54) && (i.Barray? <==> x == 0x74)
            && (i.CallC? <==> x == 0x55)
            && (i.Sexp? || i.Closure? ==> i.n == Count(code, ip, 5)) && (i.Barray? ==> i.n == Count(code, ip, 1))
  {
  }
}
