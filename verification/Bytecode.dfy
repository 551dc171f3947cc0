/** The bytecode and its two decoders: `visit_instruction` of src/visitor.h, which the verifier and
    the interpreter use, and `run_instruction` of src/main.cpp, which only the verifier uses.
    Addresses are offsets from `code_ptr`; strings are offsets into the string table. */
module Bytecode {
  import opened Options

  type Byte = b: int | 0 <= b < 256

  /** Where a variable lives: GLOBAL = 1, LOCAL = 2, ARG = 3, CAPTURED = 4. */
  const GLOBAL := 1
  const LOCAL := 2
  const ARG := 3
  const CAPTURED := 4

  datatype Instr =
    | Stop | Binop(op: int) | Const(value: int) | Str(text: int) | Sexp(tag: int, n: int)
    | Sti | Sta | Jmp(target: int) | End | Drop | Dup | Swap | Elem
    | Ld(kind: int, index: int) | Lda(kind: int, index: int) | St(kind: int, index: int)
    | Cjmp(negated: bool, target: int) | Begin(closure: bool, nArgs: int, nLocals: int)
    | Closure(addr: int, n: int) | CallC(n: int) | Call(target: int, n: int)
    | Tag(name: int, n: int) | Array(n: int) | Fail(arg1: int, arg2: int) | Line(number: int)
    | Patt(patt: int) | Lread | Lwrite | Llength | Lstring | Barray(n: int)

  const BINOP_LAST := 13
  const PATT_LAST := 7

  /** A signed 32-bit number, least significant byte first. */
  function ReadInt(code: seq<Byte>, p: int): (i: int)
    requires 0 <= p && p + 4 <= |code|
    ensures -0x8000_0000 <= i < 0x8000_0000
  {
    var b0: int, b1: int, b2: int, b3: int := code[p], code[p + 1], code[p + 2], code[p + 3];
    var u := b0 + 0x100 * b1 + 0x1_0000 * b2 + 0x100_0000 * b3;
    if u >= 0x8000_0000 then u - 0x1_0000_0000 else u
  }

  predicate InCode(code: seq<Byte>, ip: int) { 0 <= ip < |code| }

  /** `check_is_begin`: BEGIN is 0x52 and CBEGIN 0x53. */
  predicate IsBegin(code: seq<Byte>, ip: int) {
    InCode(code, ip) && (code[ip] == 0x52 || code[ip] == 0x53)
  }

  // ----- visit_instruction -----------------------------------------------------------------

  /** BadOpcode and OutOfCode end the program with a message.  Undefined: an operand lies outside the
      code, whose reads `check_address` does not guard. */
  datatype Fetched = Got(i: Instr, next: int) | BadOpcode | OutOfCode | Undefined

  /** `visit_instruction` up to the call of the visitor; `next` is `decode_next_ip`. */
  function Fetch(code: seq<Byte>, ip: int): Fetched {
    if ip >= |code| then OutOfCode
    else if ip < 0 then Undefined
    else
      var h: int, l: int := code[ip] / 16, code[ip] % 16;
      if h == 15 then Got(Stop, ip + 1)
      else if h == 0 then Got(Binop((l - 1) % 256), ip + 1)
      else if h == 1 then FetchMisc1(code, ip, l)
      else if 2 <= h <= 4 then FetchVariable(code, ip, h, l)
      else if h == 5 then FetchMisc2(code, ip, l)
      else if h == 6 then Got(Patt(l), ip + 1)
      else if h == 7 then FetchCall(code, ip, l)
      else BadOpcode
  }

  function FetchMisc1(code: seq<Byte>, ip: int, l: int): Fetched
    requires InCode(code, ip)
  {
    if l == 0 || l == 1 || l == 5 then
      if ip + 5 > |code| then Undefined
      else
        var a := ReadInt(code, ip + 1);
        Got(if l == 0 then Const(a) else if l == 1 then Str(a) else Jmp(a), ip + 5)
    else if l == 2 then
      if ip + 9 > |code| then Undefined else Got(Sexp(ReadInt(code, ip + 1), ReadInt(code, ip + 5)), ip + 9)
    else if l == 3 then Got(Sti, ip + 1)
    else if l == 4 then Got(Sta, ip + 1)
    else if l == 6 || l == 7 then Got(End, ip + 1)
    else if l == 8 then Got(Drop, ip + 1)
    else if l == 9 then Got(Dup, ip + 1)
    else if l == 10 then Got(Swap, ip + 1)
    else if l == 11 then Got(Elem, ip + 1)
    else BadOpcode
  }

  function FetchVariable(code: seq<Byte>, ip: int, h: int, l: int): Fetched
    requires InCode(code, ip)
  {
    if ip + 5 > |code| then Undefined
    else
      var index := ReadInt(code, ip + 1);
      Got(if h == 2 then Ld(l + 1, index) else if h == 3 then Lda(l + 1, index) else St(l + 1, index), ip + 5)
  }

  function FetchMisc2(code: seq<Byte>, ip: int, l: int): Fetched
    requires InCode(code, ip)
  {
    if l > 10 then BadOpcode
    else if ip + 5 > |code| then Undefined
    else
      var a := ReadInt(code, ip + 1);
      if l == 0 || l == 1 then Got(Cjmp(l == 1, a), ip + 5)
      else if l == 5 then Got(CallC(a), ip + 5)
      else if l == 8 then Got(Array(a), ip + 5)
      else if l == 10 then Got(Line(a), ip + 5)
      else if ip + 9 > |code| then Undefined
      else
        var b := ReadInt(code, ip + 5);
        if l == 2 || l == 3 then Got(Begin(l == 3, a, b), ip + 9)
        else if l == 4 then Got(Closure(a, b), ip + 9 + 5 * b)
        else if l == 6 then Got(Call(a, b), ip + 9)
        else if l == 7 then Got(Tag(a, b), ip + 9)
        else Got(Fail(a, b), ip + 9)
  }

  function FetchCall(code: seq<Byte>, ip: int, l: int): Fetched
    requires InCode(code, ip)
  {
    if l == 0 then Got(Lread, ip + 1)
    else if l == 1 then Got(Lwrite, ip + 1)
    else if l == 2 then Got(Llength, ip + 1)
    else if l == 3 then Got(Lstring, ip + 1)
    else if l == 4 then if ip + 5 > |code| then Undefined else Got(Barray(ReadInt(code, ip + 1)), ip + 5)
    else BadOpcode
  }

  // ----- run_instruction -------------------------------------------------------------------

  /** InstructionResult without its text.  Exits: the program ends with a message. */
  datatype Flow =
    | Flow(next: int, isNextChild: bool, jump: Option<int>, isEnd: bool)
    | Exits
    | Stray

  function Falls(next: int): Flow { Flow(next, true, None, false) }

  /** The n captured variables of a closure, each a kind byte and an index: where they end. */
  function Captures(code: seq<Byte>, p: int, n: int): Flow
    requires 0 <= p
    decreases n
  {
    if n <= 0 then Falls(p)
    else if p + 1 > |code| then Stray
    else if code[p] <= 3 then if p + 5 > |code| then Stray else Captures(code, p + 5, n - 1)
    else if p + 1 > |code| then Stray else Exits
  }

  /** What `run_instruction` returns. */
  function RunSpec(code: seq<Byte>, ip: int): Flow {
    if ip >= |code| then Exits
    else if ip < 0 then Stray
    else
      var h: int, l: int := code[ip] / 16, code[ip] % 16;
      if h == 15 then Flow(ip + 1, false, None, true)
      else if h == 0 then if l == 0 then Stray else if l <= BINOP_LAST then Falls(ip + 1) else Exits
      else if h == 1 then RunMisc1(code, ip, l)
      else if 2 <= h <= 4 then
        if ip + 5 > |code| then Stray else if l <= 3 then Falls(ip + 5) else Exits
      else if h == 5 then RunMisc2(code, ip, l)
      else if h == 6 then if l < PATT_LAST then Falls(ip + 1) else Exits
      else if h == 7 then
        if l <= 3 then Falls(ip + 1)
        else if l == 4 then if ip + 5 > |code| then Stray else Falls(ip + 5)
        else Exits
      else Exits
  }

  function RunMisc1(code: seq<Byte>, ip: int, l: int): Flow
    requires InCode(code, ip)
  {
    if l == 0 || l == 1 then if ip + 5 > |code| then Stray else Falls(ip + 5)
    else if l == 2 then if ip + 9 > |code| then Stray else Falls(ip + 9)
    else if l == 5 then if ip + 5 > |code| then Stray else Flow(ip + 5, false, Some(ReadInt(code, ip + 1)), false)
    else if l == 6 || l == 7 then Flow(ip + 1, false, None, true)
    else if l <= 11 then Falls(ip + 1)
    else Exits
  }

  function RunMisc2(code: seq<Byte>, ip: int, l: int): Flow
    requires InCode(code, ip)
  {
    if l > 10 then Exits
    else if ip + 5 > |code| then Stray
    else
      var a := ReadInt(code, ip + 1);
      if l == 0 || l == 1 then Flow(ip + 5, true, Some(a), false)
      else if l == 5 || l == 8 || l == 10 then Falls(ip + 5)
      else if l == 4 && !IsBegin(code, a) then Exits
      else if ip + 9 > |code| then Stray
      else if l == 4 then Captures(code, ip + 9, ReadInt(code, ip + 5))
      else if l == 6 then if IsBegin(code, a) then Flow(ip + 9, true, Some(a), false) else Exits
      else if l == 9 then Flow(ip + 9, false, None, true)
      else Falls(ip + 9)
  }

  /** The loop over captured variables. */
  method RunCaptures(code: array<Byte>, start: int, n: int) returns (r: Flow)
    requires 0 <= start
    ensures r == Captures(code[..], start, n)
  {
    var ip, i := start, 0;
    while i < n
      invariant 0 <= ip && 0 <= i && (i <= n || n <= 0)
      invariant n > 0 ==> Captures(code[..], start, n) == Captures(code[..], ip, n - i)
      invariant n <= 0 ==> ip == start && i == 0
    {
      if ip + 1 > code.Length {
        return Stray;
      }
      if code[ip] > 3 {
        return Exits;
      }
      if ip + 5 > code.Length {
        return Stray;
      }
      ip := ip + 5;
      i := i + 1;
    }
    r := Falls(ip);
  }

  /** `read_int` at the cursor ip. */
  method NextInt(code: array<Byte>, ip: int) returns (ok: bool, value: int, next: int)
    requires 0 <= ip
    ensures ok <==> ip + 4 <= code.Length
    ensures ok ==> value == ReadInt(code[..], ip) && next == ip + 4
  {
    ok, value, next := ip + 4 <= code.Length, 0, ip;
    if ok {
      value, next := ReadInt(code[..], ip), ip + 4;
    }
  }

  /** The case MISC1, with the cursor behind the opcode. */
  method InstructionMisc1(code: array<Byte>, start: int, l: int) returns (r: Flow)
    requires InCode(code[..], start) && 0 <= l < 16
    ensures r == RunMisc1(code[..], start, l)
  {
    var ip, ok, a := start + 1, true, 0;
    if l > 11 {
      return Exits;
    }
    if l == 0 || l == 1 || l == 2 || l == 5 {
      ok, a, ip := NextInt(code, ip);
      if ok && l == 2 {
        var n;
        ok, n, ip := NextInt(code, ip);
      }
    }
    if !ok {
      return Stray;
    }
    if l == 5 {
      return Flow(ip, false, Some(a), false);
    }
    if l == 6 || l == 7 {
      return Flow(ip, false, None, true);
    }
    r := Falls(ip);
  }

  /** The case MISC2. */
  method InstructionMisc2(code: array<Byte>, start: int, l: int) returns (r: Flow)
    requires InCode(code[..], start) && 0 <= l < 16
    ensures r == RunMisc2(code[..], start, l)
  {
    if l > 10 {
      return Exits;
    }
    var ok, a, ip := NextInt(code, start + 1);
    if !ok {
      return Stray;
    }
    if l == 0 || l == 1 {
      return Flow(ip, true, Some(a), false);
    }
    if l == 5 || l == 8 || l == 10 {
      return Falls(ip);
    }
    if l == 4 && !IsBegin(code[..], a) {
      return Exits;
    }
    var n;
    ok, n, ip := NextInt(code, ip);
    if !ok {
      return Stray;
    }
    if l == 4 {
      r := RunCaptures(code, ip, n);
    } else if l == 6 {
      r := if IsBegin(code[..], a) then Flow(ip, true, Some(a), false) else Exits;
    } else if l == 9 {
      r := Flow(ip, false, None, true);
    } else {
      r := Falls(ip);
    }
  }

  /** The cases LD, LDA, ST, and CALL to Barray: an integer, then whether the opcode is known. */
  method InstructionInt(code: array<Byte>, start: int, known: bool) returns (r: Flow)
    requires InCode(code[..], start)
    ensures r == if start + 5 > code.Length then Stray else if known then Falls(start + 5) else Exits
  {
    var ok, _, ip := NextInt(code, start + 1);
    r := if !ok then Stray else if known then Falls(ip) else Exits;
  }

  /** `run_instruction`: what it accepts `visit_instruction` decodes, with the same successors. */
  method RunInstruction(code: array<Byte>, start: int) returns (r: Flow)
    ensures r == RunSpec(code[..], start)
    ensures r.Flow? ==> Fetch(code[..], start).Got? && start < r.next <= code.Length
    ensures r.Flow? ==> var i := Fetch(code[..], start).i;
                        r.jump == JumpOf(i) && (r.isEnd <==> Ends(i)) && (r.isNextChild <==> !Ends(i) && !i.Jmp?)
  {
    if start >= code.Length {
      return Exits;
    }
    if start < 0 {
      return Stray;
    }
    var h: int, l: int := code[start] / 16, code[start] % 16;
    if h == 15 {
      r := Flow(start + 1, false, None, true);
    } else if h == 0 {
      r := if l == 0 then Stray else if l - 1 < BINOP_LAST then Falls(start + 1) else Exits;
    } else if h == 1 {
      r := InstructionMisc1(code, start, l);
    } else if 2 <= h <= 4 {
      r := InstructionInt(code, start, l <= 3);
    } else if h == 5 {
      r := InstructionMisc2(code, start, l);
    } else if h == 6 {
      r := if l < PATT_LAST then Falls(start + 1) else Exits;
    } else if h == 7 && l == 4 {
      r := InstructionInt(code, start, true);
    } else if h == 7 && l < 4 {
      r := Falls(start + 1);
    } else {
      r := Exits;
    }
    if r.Flow? {
      DecodersAgree(code[..], start);
    }
  }

  // ----- agreement -------------------------------------------------------------------------

  predicate Ends(i: Instr) { i.Stop? || i.End? || i.Fail? }

  function JumpOf(i: Instr): Option<int> {
    if i.Jmp? || i.Cjmp? || i.Call? then Some(i.target) else None
  }

  /** Captured variables that are all there end 5 * n bytes on. */
  lemma {:induction false} CapturesEnd(code: seq<Byte>, p: int, n: int)
    requires 0 <= p && Captures(code, p, n).Flow?
    ensures Captures(code, p, n) == Falls(if n <= 0 then p else p + 5 * n)
    ensures n > 0 ==> p + 5 * n <= |code|
    decreases n
  {
    if n > 0 {
      CapturesEnd(code, p + 5, n - 1);
    }
  }

  /** The two decoders agree: whatever `run_instruction` accepts, `visit_instruction` decodes, with the
      jump target and the successors that `run_instruction` reports; the next addresses agree
      exactly when the instruction is not a closure with a negative number of captured variables. */
  lemma DecodersAgree(code: seq<Byte>, ip: int)
    requires RunSpec(code, ip).Flow?
    ensures var f, r := Fetch(code, ip), RunSpec(code, ip);
            && f.Got? && r.jump == JumpOf(f.i) && (r.isEnd <==> Ends(f.i))
            && (r.isNextChild <==> !Ends(f.i) && !f.i.Jmp?)
            && (r.next == f.next <==> !(f.i.Closure? && f.i.n < 0)) && ip < r.next <= |code|
  {
    if code[ip] / 16 == 5 && code[ip] % 16 == 4 {
      CapturesEnd(code, ip + 9, ReadInt(code, ip + 5));
    }
  }

  /** Decoding goes backwards for such a closure: -2 captured variables take ip 1 back to ip 0. */
  lemma BackwardExample()
    ensures var code: seq<Byte> := [0x52, 0x54, 0, 0, 0, 0, 0xFE, 0xFF, 0xFF, 0xFF];
            Fetch(code, 1) == Got(Closure(0, -2), 0) && RunSpec(code, 1) == Falls(10)
  {
    var code: seq<Byte> := [0x52, 0x54, 0, 0, 0, 0, 0xFE, 0xFF, 0xFF, 0xFF];
    assert ReadInt(code, 2) == 0 && ReadInt(code, 6) == -2;
  }
}
