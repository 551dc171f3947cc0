/** The encoding of src/lama-enums.h, byte by byte: what the verifier makes of each opcode, in numbers. */
module Opcodes {
  import opened Bytecode
  import opened DepthTable
  import opened DepthPaths
  import opened Options

  // ----- decoding --------------------------------------------------------------------------

  /** Four bytes are a number modulo 2^32, the least significant first; ReadInt says that it is a signed one. */
  lemma LittleEndian(code: seq<Byte>, p: int)
    requires 0 <= p && p + 4 <= |code|
    ensures var b0: int, b1: int, b2: int, b3: int := code[p], code[p + 1], code[p + 2], code[p + 3];
            (ReadInt(code, p) - b0 - 256 * b1 - 65536 * b2 - 16777216 * b3) % 0x1_0000_0000 == 0
  {
  }

  ghost predicate Decodes(code: seq<Byte>, ip: int, i: Instr, width: nat) { Fetch(code, ip) == Got(i, ip + width) }

  /** Opcodes of one byte. */
  lemma OneByte(code: seq<Byte>, ip: int)
    requires InCode(code, ip)
    ensures var x := code[ip];
            && (0x01 <= x <= 0x0D ==> Decodes(code, ip, Binop(x - 1), 1))
            && (x == 0x13 ==> Decodes(code, ip, Sti, 1)) && (x == 0x14 ==> Decodes(code, ip, Sta, 1))
            && (x == 0x16 || x == 0x17 ==> Decodes(code, ip, End, 1)) && (x == 0x18 ==> Decodes(code, ip, Drop, 1))
            && (x == 0x19 ==> Decodes(code, ip, Dup, 1)) && (x == 0x1A ==> Decodes(code, ip, Swap, 1))
            && (x == 0x1B ==> Decodes(code, ip, Elem, 1))
            && (0x60 <= x <= 0x66 ==> Decodes(code, ip, Patt(x - 0x60), 1))
            && (x == 0x70 ==> Decodes(code, ip, Lread, 1)) && (x == 0x71 ==> Decodes(code, ip, Lwrite, 1))
            && (x == 0x72 ==> Decodes(code, ip, Llength, 1)) && (x == 0x73 ==> Decodes(code, ip, Lstring, 1))
            && (0xF0 <= x ==> Decodes(code, ip, Stop, 1))
  {
  }

  /** Opcodes with one integer. */
  lemma FiveBytes(code: seq<Byte>, ip: int)
    requires InCode(code, ip) && ip + 5 <= |code|
    ensures var x, a := code[ip], ReadInt(code, ip + 1);
            && (x == 0x10 ==> Decodes(code, ip, Const(a), 5)) && (x == 0x11 ==> Decodes(code, ip, Str(a), 5))
            && (x == 0x15 ==> Decodes(code, ip, Jmp(a), 5))
            && (0x20 <= x <= 0x23 ==> Decodes(code, ip, Ld(x - 0x1F, a), 5))
            && (0x30 <= x <= 0x33 ==> Decodes(code, ip, Lda(x - 0x2F, a), 5))
            && (0x40 <= x <= 0x43 ==> Decodes(code, ip, St(x - 0x3F, a), 5))
            && (x == 0x50 ==> Decodes(code, ip, Cjmp(false, a), 5))
            && (x == 0x51 ==> Decodes(code, ip, Cjmp(true, a), 5))
            && (x == 0x55 ==> Decodes(code, ip, CallC(a), 5)) && (x == 0x58 ==> Decodes(code, ip, Array(a), 5))
            && (x == 0x5A ==> Decodes(code, ip, Line(a), 5)) && (x == 0x74 ==> Decodes(code, ip, Barray(a), 5))
  {
  }

  /** Opcodes with two integers. */
  lemma NineBytes(code: seq<Byte>, ip: int)
    requires InCode(code, ip) && ip + 9 <= |code|
    ensures var x, a, b := code[ip], ReadInt(code, ip + 1), ReadInt(code, ip + 5);
            && (x == 0x12 ==> Decodes(code, ip, Sexp(a, b), 9))
            && (x == 0x52 ==> Decodes(code, ip, Begin(false, a, b), 9))
            && (x == 0x53 ==> Decodes(code, ip, Begin(true, a, b), 9))
            && (x == 0x54 ==> Fetch(code, ip) == Got(Closure(a, b), ip + 9 + 5 * b))
            && (x == 0x56 ==> Decodes(code, ip, Call(a, b), 9)) && (x == 0x57 ==> Decodes(code, ip, Tag(a, b), 9))
            && (x == 0x59 ==> Decodes(code, ip, Fail(a, b), 9))
  {
  }

  // ----- what the verifier makes of them ---------------------------------------------------

  /** An instruction of `width` bytes that is followed by the next one: accepted exactly where it fits into the code
      and the stack has the depth required, before and after. */
  ghost predicate FallsOn(code: seq<Byte>, a: At, width: nat, required: int, change: int) {
    && (Admissible(code, a) <==> a.ip + width <= |code| && required <= a.depth && 0 <= a.depth + change)
    && (a.ip + width <= |code| ==>
          forall b :: !JumpMoves(code, a, b) && (Moves(code, a, b) <==> b == At(a.ip + width, a.depth + change)))
  }

  ghost predicate NoMoves(code: seq<Byte>, a: At) { forall b :: !Moves(code, a, b) }

  lemma FallPoint(code: seq<Byte>, a: At, i: Instr, width: nat)
    requires RunSpec(code, a.ip).Flow? <==> a.ip + width <= |code|
    requires a.ip + width <= |code| ==> Decodes(code, a.ip, i, width) && Diagnose(i).kind.OtherKind?
    ensures FallsOn(code, a, width, Diagnose(i).required, Diagnose(i).change)
  {
  }

  /** Arithmetic, operations on operands, patterns, and calls into the run-time system. */
  lemma OneBytePoint(code: seq<Byte>, a: At)
    requires InCode(code, a.ip)
    ensures var x := code[a.ip];
            && (0x01 <= x <= 0x0D ==> FallsOn(code, a, 1, 2, -1))
            && (x == 0x13 ==> FallsOn(code, a, 1, 2, -1)) && (x == 0x14 ==> FallsOn(code, a, 1, 3, -2))
            && (x == 0x18 ==> FallsOn(code, a, 1, 1, -1)) && (x == 0x19 ==> FallsOn(code, a, 1, 1, 1))
            && (x == 0x1A ==> FallsOn(code, a, 1, 2, 0)) && (x == 0x1B ==> FallsOn(code, a, 1, 2, -1))
            && (x == 0x60 ==> FallsOn(code, a, 1, 2, -1)) && (0x61 <= x <= 0x66 ==> FallsOn(code, a, 1, 2, 0))
            && (x == 0x70 ==> FallsOn(code, a, 1, 0, 1)) && (0x71 <= x <= 0x73 ==> FallsOn(code, a, 1, 1, 0))
            && (0xF0 <= x ==> FallsOn(code, a, 1, 0, 0))
  {
    OperandPoint(code, a);
    PatternPoint(code, a);
  }

  lemma OperandPoint(code: seq<Byte>, a: At)
    requires InCode(code, a.ip)
    ensures var x := code[a.ip];
            && (0x01 <= x <= 0x0D ==> FallsOn(code, a, 1, 2, -1))
            && (x == 0x13 ==> FallsOn(code, a, 1, 2, -1)) && (x == 0x14 ==> FallsOn(code, a, 1, 3, -2))
            && (x == 0x18 ==> FallsOn(code, a, 1, 1, -1)) && (x == 0x19 ==> FallsOn(code, a, 1, 1, 1))
            && (x == 0x1A ==> FallsOn(code, a, 1, 2, 0)) && (x == 0x1B ==> FallsOn(code, a, 1, 2, -1))
  {
    OneByte(code, a.ip);
    OneByteRun(code, a.ip);
    var f := Fetch(code, a.ip);
    if f.Got? && RunSpec(code, a.ip).Flow? && Diagnose(f.i).kind.OtherKind? && f.next == a.ip + 1 {
      FallPoint(code, a, f.i, 1);
    }
  }

  lemma PatternPoint(code: seq<Byte>, a: At)
    requires InCode(code, a.ip)
    ensures var x := code[a.ip];
            && (x == 0x60 ==> FallsOn(code, a, 1, 2, -1)) && (0x61 <= x <= 0x66 ==> FallsOn(code, a, 1, 2, 0))
            && (x == 0x70 ==> FallsOn(code, a, 1, 0, 1)) && (0x71 <= x <= 0x73 ==> FallsOn(code, a, 1, 1, 0))
            && (0xF0 <= x ==> FallsOn(code, a, 1, 0, 0))
  {
    OneByte(code, a.ip);
    OneByteRun(code, a.ip);
    var f := Fetch(code, a.ip);
    if f.Got? && RunSpec(code, a.ip).Flow? && Diagnose(f.i).kind.OtherKind? && f.next == a.ip + 1 {
      FallPoint(code, a, f.i, 1);
    }
  }

  lemma OneByteRun(code: seq<Byte>, ip: int)
    requires InCode(code, ip)
    ensures var x := code[ip];
            && (0x01 <= x <= 0x0D || 0x13 <= x <= 0x14 || 0x16 <= x <= 0x1B ==> RunSpec(code, ip).Flow?)
            && (0x60 <= x <= 0x66 || 0x70 <= x <= 0x73 || 0xF0 <= x ==> RunSpec(code, ip).Flow?)
  {
  }

  /** Constants, variables, and the instructions with a count. */
  lemma FiveBytePoint(code: seq<Byte>, a: At)
    requires InCode(code, a.ip)
    ensures var x := code[a.ip];
            && (x == 0x10 || x == 0x11 ==> FallsOn(code, a, 5, 0, 1))
            && (0x20 <= x <= 0x23 ==> FallsOn(code, a, 5, 0, 1))
            && (0x30 <= x <= 0x33 ==> FallsOn(code, a, 5, 0, 2)) && (0x40 <= x <= 0x43 ==> FallsOn(code, a, 5, 1, 0))
            && (x == 0x58 ==> FallsOn(code, a, 5, 1, 0)) && (x == 0x5A ==> FallsOn(code, a, 5, 0, 0))
    ensures a.ip + 5 <= |code| ==>
              var x, n := code[a.ip], ReadInt(code, a.ip + 1);
              && (x == 0x55 ==> FallsOn(code, a, 5, I8(n), I8(-n)))
              && (x == 0x74 ==> FallsOn(code, a, 5, I8(n), I8(1 - n)))
  {
    FiveByteRun(code, a.ip);
    if a.ip + 5 <= |code| {
      FiveBytes(code, a.ip);
      var f := Fetch(code, a.ip);
      if f.Got? && RunSpec(code, a.ip).Flow? && Diagnose(f.i).kind.OtherKind? && f.next == a.ip + 5 {
        FallPoint(code, a, f.i, 5);
      }
    }
  }

  lemma FiveByteRun(code: seq<Byte>, ip: int)
    requires InCode(code, ip)
    ensures var x, fits := code[ip], ip + 5 <= |code|;
            && (x == 0x10 || x == 0x11 || x == 0x15 || 0x20 <= x <= 0x23 ==> (RunSpec(code, ip).Flow? <==> fits))
            && (0x30 <= x <= 0x33 || 0x40 <= x <= 0x43 || x == 0x74 ==> (RunSpec(code, ip).Flow? <==> fits))
            && (x == 0x50 || x == 0x51 || x == 0x55 || x == 0x58 || x == 0x5A ==> (RunSpec(code, ip).Flow? <==> fits))
  {
  }

  /** S-expressions, BEGIN, calls and tags; a call needs a BEGIN at its target. */
  lemma NineBytePoint(code: seq<Byte>, a: At)
    requires InCode(code, a.ip) && a.ip + 9 <= |code|
    ensures var x, n := code[a.ip], ReadInt(code, a.ip + 5);
            && (x == 0x12 ==> FallsOn(code, a, 9, I8(n), I8(1 - n)))
            && (x == 0x52 || x == 0x53 ==> FallsOn(code, a, 9, 0, 0)) && (x == 0x57 ==> FallsOn(code, a, 9, 1, 0))
            && (x == 0x56 && BeginByte(code, ReadInt(code, a.ip + 1)) ==> FallsOn(code, a, 9, I8(n), I8(1 - n)))
            && (x == 0x56 && !BeginByte(code, ReadInt(code, a.ip + 1)) ==> !Admissible(code, a))
            && (x == 0x59 ==> NoMoves(code, a) && (Admissible(code, a) <==> 0 <= a.depth))
  {
    NineBytes(code, a.ip);
    NineByteRun(code, a.ip);
    var f := Fetch(code, a.ip);
    if f.Got? && RunSpec(code, a.ip).Flow? && Diagnose(f.i).kind.OtherKind? && f.next == a.ip + 9 {
      FallPoint(code, a, f.i, 9);
    }
  }

  predicate BeginByte(code: seq<Byte>, ip: int) { 0 <= ip < |code| && (code[ip] == 0x52 || code[ip] == 0x53) }

  lemma NineByteRun(code: seq<Byte>, ip: int)
    requires InCode(code, ip) && ip + 9 <= |code|
    ensures var x := code[ip];
            && (x == 0x12 || x == 0x52 || x == 0x53 || x == 0x57 || x == 0x59 ==> RunSpec(code, ip).Flow?)
            && (x == 0x56 ==> (RunSpec(code, ip).Flow? <==> BeginByte(code, ReadInt(code, ip + 1))))
  {
  }

  /** And do not fit otherwise. */
  lemma NineByteCut(code: seq<Byte>, a: At)
    requires InCode(code, a.ip) && |code| < a.ip + 9
    ensures var x := code[a.ip];
            x == 0x12 || x == 0x52 || x == 0x53 || x == 0x54 || x == 0x56 || x == 0x57 || x == 0x59 ==>
              !Admissible(code, a)
  {
  }

  /** END and RET, JMP, CJMPz and CJMPnz. */
  lemma JumpPoint(code: seq<Byte>, a: At)
    requires InCode(code, a.ip)
    ensures var x, fits := code[a.ip], a.ip + 5 <= |code|;
            && (x == 0x16 || x == 0x17 ==> NoMoves(code, a) && (Admissible(code, a) <==> 0 <= a.depth))
            && (x == 0x15 ==> (Admissible(code, a) <==> fits && 0 <= a.depth))
            && (x == 0x50 || x == 0x51 ==> (Admissible(code, a) <==> fits && 1 <= a.depth))
    ensures a.ip + 5 <= |code| ==>
              var x, j := code[a.ip], ReadInt(code, a.ip + 1);
              && (x == 0x15 ==> forall b :: !FallMoves(code, a, b) && (JumpMoves(code, a, b) <==> b == At(j, a.depth)))
              && (x == 0x50 || x == 0x51 ==> forall b :: JumpMoves(code, a, b) <==> b == At(j, a.depth - 1))
              && (x == 0x50 || x == 0x51 ==> forall b :: FallMoves(code, a, b) <==> b == At(a.ip + 5, a.depth - 1))
  {
    OneByte(code, a.ip);
    OneByteRun(code, a.ip);
    FiveByteRun(code, a.ip);
    if a.ip + 5 <= |code| {
      FiveBytes(code, a.ip);
    }
  }

  /** The kind byte of captured variable k is known: 0 to 3. */
  predicate KnownKind(code: seq<Byte>, p: int, k: nat)
    requires 0 <= p
  {
    p + 5 * k < |code| && code[p + 5 * k] <= 3
  }

  ghost predicate KnownKinds(code: seq<Byte>, p: int, n: int)
    requires 0 <= p
  {
    forall k: nat {:trigger KnownKind(code, p, k)} :: k < n ==> KnownKind(code, p, k)
  }

  /** The captured variables of a closure, each a kind byte and an index, are accepted if they are all in the code and
      of a known kind. */
  lemma {:induction false} CapturesExactly(code: seq<Byte>, p: int, n: int)
    requires 0 <= p
    ensures Captures(code, p, n).Flow? <==> n <= 0 || (p + 5 * n <= |code| && KnownKinds(code, p, n))
    decreases n
  {
    if n > 0 {
      var q := p + 5;
      CapturesExactly(code, q, n - 1);
      if KnownKinds(code, p, n) {
        assert KnownKind(code, p, 0);
        forall k: nat | k < n - 1 ensures KnownKind(code, q, k) {
          assert KnownKind(code, p, k + 1);
        }
      }
      if KnownKinds(code, q, n - 1) && p < |code| && code[p] <= 3 {
        forall k: nat | k < n ensures KnownKind(code, p, k) {
          assert k == 0 || KnownKind(code, q, k - 1);
        }
      }
    }
  }

  /** CLOSURE needs a BEGIN at its address and goes on behind the captured variables, or before them. */
  lemma ClosurePoint(code: seq<Byte>, a: At)
    requires InCode(code, a.ip) && a.ip + 9 <= |code| && code[a.ip] == 0x54
    ensures var addr, n := ReadInt(code, a.ip + 1), ReadInt(code, a.ip + 5);
            && (Admissible(code, a) <==>
                  && BeginByte(code, addr)
                  && (n <= 0 || (a.ip + 9 + 5 * n <= |code| && KnownKinds(code, a.ip + 9, n)))
                  && I8(n) <= a.depth && 0 <= a.depth + 1)
            && forall b :: Moves(code, a, b) <==> b == At(a.ip + 9 + 5 * n, a.depth + 1)
  {
    NineBytes(code, a.ip);
    CapturesExactly(code, a.ip + 9, ReadInt(code, a.ip + 5));
  }

  /** All other bytes are refused. */
  lemma NoOpcode(code: seq<Byte>, a: At)
    requires InCode(code, a.ip)
    ensures var x := code[a.ip];
            && (x == 0x00 || x == 0x0E || x == 0x0F || 0x1C <= x <= 0x1F || 0x24 <= x <= 0x2F ==> !Admissible(code, a))
            && (0x34 <= x <= 0x3F || 0x44 <= x <= 0x4F || 0x5B <= x <= 0x5F ==> !Admissible(code, a))
            && (0x67 <= x <= 0x6F || 0x75 <= x <= 0xEF ==> !Admissible(code, a))
  {
  }

  /** Counts are narrowed to 8 bits. */
  lemma Narrowed(n: int)
    ensures (I8(n) - n) % 256 == 0 && (-128 <= n < 128 ==> I8(n) == n)
  {
  }
}
