/** The operations of the virtual machine on stack and heap, on an abstract machine with unbounded
    memory whose objects never move. */
module Semantics {
  import opened Words
  import opened Abstraction
  import opened Options
  import TagHash

  /** `stack` is the global area, its last word first, and then the operands, oldest first; the
      first `globals` entries are the global area. */
  datatype Machine = Machine(store: seq<Obj>, stack: seq<Val>, globals: nat)

  /** Exit: the program ends with an error message.  Stuck: the source reads or writes outside an
      object, or through an address that is not an object. */
  datatype Outcome = Done(m: Machine) | Exit | Stuck

  datatype Op =
    | Const(i: int)
    | Str(text: seq<nat>, literal: Word)
    | Sexp(tag: string, n: nat)
    | Array(n: nat)
    | Closure(addr: Word, n: nat)
    | Sta
    | Elem
    | Length
    | TagTest(tag: string, len: int)
    | ArrayTest(len: int)
    | Drop
    | Dup
    | Swap
    | LdGlobal(index: nat)
    | StGlobal(index: nat)

  /** Lengths that fit in a header, and C strings. */
  predicate WellFormed(op: Op) {
    match op
    case Str(text, _) => |text| < MAX_LEN && forall k :: 0 <= k < |text| ==> 0 < text[k] < 256
    case Sexp(_, n) => n + 1 < MAX_LEN
    case Array(n) => n + 1 < MAX_LEN
    case Closure(_, n) => n + 1 < MAX_LEN
    case _ => true
  }

  predicate IsInt(v: Val) { v.Imm? && Unboxed(v.w) }

  function Push(m: Machine, v: Val): Machine { m.(stack := m.stack + [v]) }

  /** The machine without its k newest operands. */
  function Dropped(m: Machine, k: nat): Machine
    requires k <= |m.stack|
  {
    m.(stack := m.stack[..|m.stack| - k])
  }

  /** The k-th newest entry of the stack, from 0. */
  function Newest(m: Machine, k: nat): Val
    requires k < |m.stack|
  {
    m.stack[|m.stack| - 1 - k]
  }

  predicate Has(m: Machine, k: nat) { m.globals + k <= |m.stack| }

  lemma DroppedAgain(m: Machine, k: nat)
    requires Has(m, k) && k <= |m.stack|
    ensures Has(Dropped(m, k), 1) <==> Has(m, k + 1)
    ensures Has(m, k + 1) ==> Dropped(Dropped(m, k), 1) == Dropped(m, k + 1) && Newest(Dropped(m, k), 0) == Newest(m, k)
  {
  }

  predicate Known(m: Machine, v: Val) { v.Ref? && v.id < |m.store| }

  /** A `char` is signed. */
  function CharValue(b: nat): int { if b >= 128 then b - 256 else b }

  /** `Belem` */
  function Element(m: Machine, v: Val, index: Val): Outcome {
    if IsInt(v) || !IsInt(index) then Exit
    else if !Known(m, v) then Stuck
    else
      var o, i := m.store[v.id], Unbox(index.w);
      if Tag(o.header) == STRING_TAG then
        if 0 <= i < |o.bytes| then Done(Push(m, Imm(Box(CharValue(o.bytes[i]))))) else Stuck
      else
        var d := if Tag(o.header) == CLOSURE_TAG then i - 1 else i;
        if 0 <= d < |o.fields| then Done(Push(m, o.fields[d])) else Stuck
  }

  /** `Bsta` with an index */
  function Store(m: Machine, v: Val, index: Val, x: Val): Outcome {
    if !IsInt(index) then Stuck
    else if IsInt(x) then Exit
    else if !Known(m, x) then Stuck
    else
      var o, i := m.store[x.id], Unbox(index.w);
      if Tag(o.header) == STRING_TAG then
        if 0 <= i < |o.bytes| && IsInt(v)
        then Done(Push(m.(store := m.store[x.id := o.(bytes := o.bytes[i := Unbox(v.w) % 256])]), v)) else Stuck
      else
        var d := if Tag(o.header) == CLOSURE_TAG then i - 1 else i;
        if 0 <= d < |o.fields|
        then Done(Push(m.(store := m.store[x.id := o.(fields := o.fields[d := v])]), v)) else Stuck
  }

  /** A new object whose fields are the n newest operands, in the order they were pushed. */
  function Gathered(m: Machine, header: Word, first: Word, n: nat): Outcome {
    if !Has(m, n) then Exit
    else
      var o := Obj(header, first, m.stack[|m.stack| - n..], []);
      Done(Push(Dropped(m, n).(store := m.store + [o]), Ref(|m.store|)))
  }

  /** A test that pops a value and pushes a boxed truth value. */
  function Test(m: Machine, v: Val, tag: nat, len: int, first: Word): Outcome {
    if IsInt(v) then Done(Push(m, Imm(Box(0))))
    else if !Known(m, v) then Stuck
    else
      var o := m.store[v.id];
      var r := Tag(o.header) == tag && Len(o.header) == len && (tag == SEXP_TAG ==> o.first == first);
      Done(Push(m, Imm(Box(if r then 1 else 0))))
  }

  function StrStep(m: Machine, text: seq<nat>): Outcome
    requires |text| < MAX_LEN
  {
    var o := Obj(Header(STRING_TAG, |text|), 0, [], text + [0]);
    Done(Push(m.(store := m.store + [o]), Ref(|m.store|)))
  }

  function StaStep(m: Machine): Outcome {
    if !Has(m, 3) then Exit else Store(Dropped(m, 3), Newest(m, 0), Newest(m, 1), Newest(m, 2))
  }

  function ElemStep(m: Machine): Outcome {
    if !Has(m, 2) then Exit else Element(Dropped(m, 2), Newest(m, 1), Newest(m, 0))
  }

  function LengthStep(m: Machine): Outcome {
    if !Has(m, 1) || IsInt(Newest(m, 0)) then Exit
    else if !Known(m, Newest(m, 0)) then Stuck
    else Done(Push(Dropped(m, 1), Imm(Box(Len(m.store[Newest(m, 0).id].header)))))
  }

  function TestStep(m: Machine, tag: nat, len: int, first: Word): Outcome {
    if !Has(m, 1) then Exit else Test(Dropped(m, 1), Newest(m, 0), tag, Unbox(Box(len)), first)
  }

  /** A tag that `LtagHash` refuses ends the program. */
  function SexpStep(m: Machine, tag: string, n: nat): Outcome
    requires n < MAX_LEN
  {
    var c := TagHash.TagCode(tag);
    if c.None? then Exit else Gathered(m, Header(SEXP_TAG, n), c.value, n)
  }

  function TagStep(m: Machine, tag: string, len: int): Outcome {
    var c := TagHash.TagCode(tag);
    if c.None? then Exit else TestStep(m, SEXP_TAG, len, c.value)
  }

  function DropStep(m: Machine): Outcome {
    if !Has(m, 1) then Exit else Done(Dropped(m, 1))
  }

  function DupStep(m: Machine): Outcome {
    if |m.stack| == 0 then Stuck else Done(Push(m, Newest(m, 0)))
  }

  function SwapStep(m: Machine): Outcome {
    if !Has(m, 2) then Exit else Done(Push(Push(Dropped(m, 2), Newest(m, 0)), Newest(m, 1)))
  }

  function LdStep(m: Machine, index: nat): Outcome {
    if index >= m.globals || |m.stack| < m.globals then Stuck else Done(Push(m, m.stack[m.globals - 1 - index]))
  }

  function StStep(m: Machine, index: nat): Outcome {
    if index >= m.globals || |m.stack| < m.globals then Stuck
    else Done(m.(stack := m.stack[m.globals - 1 - index := Newest(m, 0)]))
  }

  function Step(m: Machine, op: Op): Outcome
    requires WellFormed(op)
  {
    match op
    case Const(i) => Done(Push(m, Imm(Box(i))))
    case Str(text, _) => StrStep(m, text)
    case Sexp(tag, n) => SexpStep(m, tag, n)
    case Array(n) => Gathered(m, Header(ARRAY_TAG, n), 0, n)
    case Closure(addr, n) => Gathered(m, Header(CLOSURE_TAG, n + 1), addr, n)
    case Sta => StaStep(m)
    case Elem => ElemStep(m)
    case Length => LengthStep(m)
    case TagTest(tag, len) => TagStep(m, tag, len)
    case ArrayTest(len) => TestStep(m, ARRAY_TAG, len, 0)
    case Drop => DropStep(m)
    case Dup => DupStep(m)
    case Swap => SwapStep(m)
    case LdGlobal(index) => LdStep(m, index)
    case StGlobal(index) => StStep(m, index)
  }

  predicate AllWellFormed(ops: seq<Op>) {
    forall k {:trigger WellFormed(ops[k])} :: 0 <= k < |ops| ==> WellFormed(ops[k])
  }

  /** A whole program; the first operation that does not succeed decides. */
  function Run(m: Machine, ops: seq<Op>): Outcome
    requires AllWellFormed(ops)
    decreases |ops|
  {
    if ops == [] then Done(m)
    else
      var r := Step(m, ops[0]);
      if r.Done? then Run(r.m, ops[1..]) else r
  }

  // ----- what the abstract machine promises ------------------------------------------------

  /** What has been stored is loaded again, from a string as a signed byte. */
  lemma StoredIsLoaded(m: Machine, v: Val, index: Val, x: Val)
    requires Store(m, v, index, x).Done?
    ensures var p := Store(m, v, index, x).m;
            && Newest(p, 0) == v && p.stack == m.stack + [v] && |p.store| == |m.store|
            && Element(Dropped(p, 1), x, index)
               == Done(Push(Dropped(p, 1), if Tag(m.store[x.id].header) == STRING_TAG
                                          then Imm(Box(CharValue(Unbox(v.w) % 256))) else v))
  {
  }

  /** A store changes no other object, and no other element of its object. */
  lemma OthersUnchanged(m: Machine, v: Val, index: Val, x: Val, index': Val, x': Val)
    requires Store(m, v, index, x).Done? && Known(m, x') && IsInt(index')
    requires (x' != x || Unbox(index'.w) != Unbox(index.w))
    requires Element(m, x', index').Done?
    ensures var p := Store(m, v, index, x).m;
            Element(p, x', index').Done? && Newest(Element(p, x', index').m, 0) == Newest(Element(m, x', index').m, 0)
  {
  }

  /** The elements of a new array are the operands, in the order in which they were pushed. */
  lemma GatheredElements(m: Machine, n: nat, k: nat)
    requires Has(m, n) && k < n < MAX_LEN && n <= |m.stack|
    ensures var o := Gathered(m, Header(ARRAY_TAG, n), 0, n);
            && o.Done? && Newest(o.m, 0) == Ref(|m.store|) && |o.m.stack| == |m.stack| - n + 1
            && Element(o.m, Ref(|m.store|), Imm(Box(k))) == Done(Push(o.m, Newest(m, n - 1 - k)))
  {
    BoxIsUnboxed(k);
    UnboxBox(k);
    ArrayHeader(n);
  }

  lemma ArrayHeader(n: nat)
    requires n < MAX_LEN
    ensures Tag(Header(ARRAY_TAG, n)) == ARRAY_TAG
  {
  }

  lemma SexpHeader(n: nat)
    requires n < MAX_LEN
    ensures Tag(Header(SEXP_TAG, n)) == SEXP_TAG && Len(Header(SEXP_TAG, n)) == n
  {
  }

  /** The test for tag s and length len on an s-expression that has just been built with tag t and n
      operands: it is positive if and only if the lengths and the first five characters agree. */
  lemma TagMatches(m: Machine, s: string, t: string, n: nat, len: nat)
    requires Has(m, n) && n <= |m.stack| && n + 1 < MAX_LEN && len < MAX_LEN
    requires TagHash.TagCode(s).Some? && TagHash.TagCode(t).Some?
    ensures var o, same := SexpStep(m, t, n), len == n && TagHash.FirstFive(s) == TagHash.FirstFive(t);
            && o.Done? && Has(o.m, 1)
            && TagStep(o.m, s, len) == Done(Push(Dropped(o.m, 1), Imm(Box(if same then 1 else 0))))
  {
    TagHash.SameCode(s, t);
    SexpHeader(n);
    UnboxBox(len);
  }
}
