/** What each instruction of `CheckingExecutingVisitor<false>` does to the registers and to the operand
    array, with whatever the run-time system answers as a parameter. */
module Effects {
  import opened Words
  import opened Bytecode
  import opened DepthTable
  import opened BeginPatch
  import opened Frames
  import opened Options

  /** What happens to happen at a step: the word that an operation computes, or STA finds in front of its
      target, when the operand array does not tell; the operand array after the collection that an allocation
      may cause; and whether the operation ends the program for what it finds in the heap or in a string. */
  datatype Choice = Choice(word: Word, heap: seq<Word>, fails: bool)

  /** The slot of a variable: `create_reference`. */
  function SlotOf(p: Place, bp: int, nArgs: int, kind: int, index: int): int {
    if kind == GLOBAL then p.begin + 1 + index
    else if kind == LOCAL then bp - 1 - index
    else bp + 2 + nArgs - index
  }

  // ----- stores through references ---------------------------------------------------------

  /** The address of a word that the current function owns; the frame of main has no arguments. */
  predicate OwnAddress(p: Place, bp: int, nArgs: int, w: Word) {
    var i := p.IndexOf(w);
    && 0 <= i < p.size && w == p.Address(i)
    && (i < bp || (bp != p.begin - 1 && bp + 3 <= i < bp + 3 + nArgs) || p.begin < i)
  }

  /** A store of a whole word, or of one byte. */
  datatype Store = WordStore(address: Word, value: Word) | ByteStore(address: Word, byte: nat)

  function Wrap(a: int): Word { a % 0x1_0000_0000 }

  /** Where `Bsta` stores v when it is given the index i and the address x, with `header` in front of
      what is at x; an index that is not a boxed integer means x itself. */
  function StaStore(v: Word, i: Word, x: Word, header: Word): Store {
    if !Unboxed(i) then WordStore(x, v)
    else if Words.Tag(header) == STRING_TAG then ByteStore(Wrap(x + Unbox(i)), Unbox(v) % 256)
    else if Words.Tag(header) == SEXP_TAG then WordStore(Wrap(x + 4 * (Unbox(i) + 1)), v)
    else WordStore(Wrap(x + 4 * Unbox(i)), v)
  }

  /** The word that a store changes. */
  function Hit(s: Store): Word {
    match s
    case WordStore(a, _) => a
    case ByteStore(a, _) => a - a % 4
  }

  function NewWord(w: Word, s: Store): Word {
    match s
    case WordStore(_, v) => v
    case ByteStore(a, b) => WithByte(w, a % 4, b % 256)
  }

  /** The operand array after a store. */
  function Written(p: Place, d: seq<Word>, s: Store): (e: seq<Word>)
    ensures |e| == |d|
  {
    var k := p.IndexOf(Hit(s));
    if 0 <= k < |d| && Hit(s) == p.Address(k) then d[k := NewWord(d[k], s)] else d
  }

  predicate HeapWord(p: Place, w: Word) { w % 4 == 0 && p.heap(w) }

  /** A store into the heap touches neither the operand array nor the fields of the visitor nor code. */
  lemma HeapApart(p: Place, d: seq<Word>, s: Store)
    requires p.Valid() && |d| == p.size && HeapWord(p, Hit(s))
    ensures Written(p, d, s) == d
    ensures forall i :: -3 <= i < p.size + 3 ==> Hit(s) != p.Address(i)
    ensures forall ip :: 0 <= ip < p.codeSize ==> Hit(s) != p.CodeWord(ip)
  {
  }

  /** The stores after which the frames are still there: into the heap, or to a word of its own. */
  predicate Harmless(p: Place, bp: int, nArgs: int, s: Store) {
    OwnAddress(p, bp, nArgs, Hit(s)) || HeapWord(p, Hit(s))
  }

  /** The header that `Bsta` finds in front of x; outside the array it is what `other` says. */
  function HeaderBefore(p: Place, d: seq<Word>, x: Word, other: Word): Word {
    var w := Wrap(x - 8);
    var k := p.IndexOf(w);
    if 0 <= k < |d| && w == p.Address(k) then d[k] else other
  }

  /** The store that STI or STA makes when the top is at t; the newest operand is the value. */
  function StoreAt(p: Place, i: Instr, d: seq<Word>, t: int, other: Word): Store
    requires 0 <= t + 1 && t + 3 < |d|
  {
    if i.Sti? then WordStore(d[t + 2], d[t + 1])
    else StaStore(d[t + 1], d[t + 2], d[t + 3], HeaderBefore(p, d, d[t + 3], other))
  }

  /** The instruction i is about to store into a word that is neither in the heap nor its own. */
  ghost predicate Foreign(p: Place, d: seq<Word>, t: int, bp: int, nArgs: int, i: Instr, other: Word) {
    && (i.Sti? || (i.Sta? && !Fails(i, d, t)))
    && 0 <= t + 1 && t + 3 < |d| && !Harmless(p, bp, nArgs, StoreAt(p, i, d, t, other))
  }

  // ----- operations ------------------------------------------------------------------------

  /** Instructions that may allocate. */
  predicate Allocates(i: Instr) { i.Str? || i.Sexp? || i.Closure? || i.Barray? || i.Lstring? }

  /** Instructions that only replace operands by a result. */
  predicate Computes(i: Instr) {
    || i.Binop? || i.Const? || i.Drop? || i.Elem? || i.Tag? || i.Array? || i.Patt? || i.Line?
    || i.Lread? || i.Lwrite? || i.Llength? || Allocates(i)
  }

  /** Operands that an instruction has on the stack, besides those it starts with, when it pushes for the
      last time; the depth table does not count them. */
  function Extra(i: Instr): nat {
    if i.Lda? then 1 else if i.Closure? && i.n > 1 then i.n - 1 else 0
  }

  /** C division: towards zero. */
  function Quotient(x: int, y: int): int
    requires y != 0
  {
    if x >= 0 then x / y else -(-x / y)
  }

  function Truth(b: bool): int { if b then 1 else 0 }

  /** `arithm_op`; None where C leaves the result open: a division by zero, or a product of more than 32 bits. */
  function Arithmetic(op: int, x: int, y: int): Option<int> {
    if op == 0 then Some(x + y)
    else if op == 1 then Some(x - y)
    else if op == 2 then if -0x8000_0000 <= x * y < 0x8000_0000 then Some(x * y) else None
    else if op == 3 then if y == 0 then None else Some(Quotient(x, y))
    else if op == 4 then if y == 0 then None else Some(x - Quotient(x, y) * y)
    else if op == 5 then Some(Truth(x < y))
    else if op == 6 then Some(Truth(x <= y))
    else if op == 7 then Some(Truth(x > y))
    else if op == 8 then Some(Truth(x >= y))
    else if op == 9 then Some(Truth(x == y))
    else if op == 10 then Some(Truth(x != y))
    else if op == 11 then Some(Truth(x != 0 && y != 0))
    else if op == 12 then Some(Truth(x != 0 || y != 0))
    else None
  }

  /** The tests for a kind of value, of a word that is no boxed integer or is one; None if the heap decides. */
  function KindTest(patt: int, w: Word): Option<int> {
    if Unboxed(w) then Some(Truth(patt == 5)) else if patt == 4 || patt == 5 then Some(Truth(patt == 4)) else None
  }

  /** What an operation pushes when the top is at t; `other` where the operands do not tell. */
  function Result(i: Instr, d: seq<Word>, t: int, other: Word): Word
    requires 0 <= t + 1 && 0 <= Pops(i) && t + Pops(i) < |d|
  {
    match i
    case Const(value) => Box(value)
    case Lwrite => Box(0)
    case Binop(op) => BoxedOr(Arithmetic(op, Unbox(d[t + 2]), Unbox(d[t + 1])), other)
    case Tag(_, _) => if Unboxed(d[t + 1]) then Box(0) else other
    case Array(_) => if Unboxed(d[t + 1]) then Box(0) else other
    case Patt(patt) =>
      if patt == 0 then if Unboxed(d[t + 1]) then Box(0) else other else BoxedOr(KindTest(patt, d[t + 1]), other)
    case _ => other
  }

  function BoxedOr(r: Option<int>, other: Word): Word { if r.Some? then Box(r.value) else other }

  /** The operation ends the program for the kind of its operands: STA and ELEM on an integer or with an index that
      is none (for STA that is a reference), the length of an integer, =str with an integer. */
  predicate Fails(i: Instr, d: seq<Word>, t: int) {
    0 <= t + 1 && t + 3 < |d| &&
    match i
    case Sta => Unboxed(d[t + 2]) && Unboxed(d[t + 3])
    case Elem => Unboxed(d[t + 2]) || !Unboxed(d[t + 1])
    case Llength => Unboxed(d[t + 1])
    case Patt(patt) => patt == 0 && Unboxed(d[t + 2])
    case _ => false
  }

  /** Operations that can also end it for what they find: a tag that `LtagHash` refuses, =str with an object that is
      no string. */
  predicate MayFail(i: Instr) { i.Sexp? || i.Tag? || i == Patt(0) }

  /** The array is too full for what the instruction pushes. */
  predicate Overruns(i: Instr, t: int) { t < Extra(i) && (i.Call? || Pops(i) < Pushes(i)) }

  // ----- effects ---------------------------------------------------------------------------

  /** The array d with the top at t after a push: e with the top at u. */
  predicate Pushed(d: seq<Word>, t: int, w: Word, e: seq<Word>, u: int) {
    0 <= t < |d| && e == d[t := w] && u == t - 1
  }

  /** After n copies of w have been pushed. */
  function Filled(d: seq<Word>, t: int, n: int, w: Word): (e: seq<Word>)
    ensures |e| == |d|
  {
    seq(|d|, k requires 0 <= k < |d| => if t - n < k <= t then w else d[k])
  }

  /** After the collection that leaves `heap`, if there can be such. */
  function Swept(p: Place, d: seq<Word>, heap: seq<Word>): seq<Word> {
    if Collected(p, d, heap) then heap else d
  }

  /** Values that a closure pushes before it takes them again; they are not in the depth table. */
  function Captured(i: Instr): nat { if i.Closure? && i.n > 0 then i.n else 0 }

  /** The array when the operands of an operation have been dealt with, before they go. */
  function Gone(p: Place, i: Instr, d: seq<Word>, t: int, choice: Choice): seq<Word> {
    var f := Filled(d, t, Captured(i), choice.word);
    if Allocates(i) then Swept(p, f, choice.heap) else f
  }

  /** An operation has replaced its operands by its result. */
  predicate Exchanged(p: Place, i: Instr, d: seq<Word>, t: int, choice: Choice, e: seq<Word>, u: int) {
    var r, g := t + Pops(i), Gone(p, i, d, t, choice);
    && 0 <= t + 1 && 0 <= Pops(i) && r < |d| == |g|
    && if Pushes(i) == 0 then e == g && u == r else Pushed(g, r, Result(i, d, t, choice.word), e, u)
  }

  /** The array and the top after an instruction on operands and variables. */
  predicate Applied(p: Place, i: Instr, d: seq<Word>, t: int, bp: int, nArgs: int, choice: Choice, e: seq<Word>,
                    u: int) {
    match i
    case Ld(kind, index) =>
      var k := SlotOf(p, bp, nArgs, kind, index); 0 <= k < |d| && Pushed(d, t, d[k], e, u)
    case Lda(kind, index) =>
      var w := p.Address(SlotOf(p, bp, nArgs, kind, index)); 1 <= t < |d| && e == d[t := w][t - 1 := w] && u == t - 2
    case St(kind, index) =>
      var k := SlotOf(p, bp, nArgs, kind, index); 0 <= k < |d| && 0 <= t + 1 < |d| && e == d[k := d[t + 1]] && u == t
    case Dup => 0 <= t && t + 1 < |d| && Pushed(d, t, d[t + 1], e, u)
    case Swap => 0 <= t + 1 && t + 2 < |d| && e == d[t + 1 := d[t + 2]][t + 2 := d[t + 1]] && u == t
    case Sti => 0 <= t + 1 && t + 3 < |d| && e == Written(p, d, StoreAt(p, i, d, t, 0))[t + 2 := d[t + 1]] && u == t + 1
    case Sta =>
      && 0 <= t + 1 && t + 3 < |d| && u == t + 2
      && e == Written(p, d, StoreAt(p, i, d, t, choice.word))[t + 3 := d[t + 1]]
    case _ => Exchanged(p, i, d, t, choice, e, u)
  }
}
