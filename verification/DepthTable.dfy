/** The table of src/diagnostic-visitor.h: how the verifier thinks an instruction moves the depth of
    the operand stack, against what the interpreter does. */
module DepthTable {
  import opened Bytecode
  import opened Options

  datatype Kind = JmpKind | CjmpKind | EndKind | FailKind | OtherKind

  datatype Diagnostic = Diagnostic(change: int, required: int, jump: int, kind: Kind)

  /** Conversion to a signed 8-bit number. */
  function I8(x: int): (r: int)
    ensures -128 <= r < 128
  {
    (x + 128) % 256 - 128
  }

  function Other(change: int, required: int): Diagnostic { Diagnostic(change, required, 0, OtherKind) }

  /** `DiagnosticVisitor`.  A call is of kind OTHER, so that the verifier does not follow it. */
  function Diagnose(i: Instr): Diagnostic {
    match i
    case Binop(_) => Other(-1, 2)
    case Const(_) => Other(1, 0)
    case Str(_) => Other(1, 0)
    case Sexp(_, n) => Other(I8(1 - n), I8(n))
    case Sti => Other(-1, 2)
    case Sta => Other(-2, 3)
    case Jmp(target) => Diagnostic(0, 0, target, JmpKind)
    case End => Diagnostic(0, 0, 0, EndKind)
    case Drop => Other(-1, 1)
    case Dup => Other(1, 1)
    case Swap => Other(0, 2)
    case Elem => Other(-1, 2)
    case Ld(_, _) => Other(1, 0)
    case Lda(_, _) => Other(2, 0)
    case St(_, _) => Other(0, 1)
    case Cjmp(_, target) => Diagnostic(-1, 1, target, CjmpKind)
    case Begin(_, _, _) => Other(0, 0)
    case Closure(_, n) => Other(1, I8(n))
    case CallC(n) => Other(I8(-n), I8(n))
    case Call(_, n) => Other(I8(1 - n), I8(n))
    case Tag(_, _) => Other(0, 1)
    case Array(_) => Other(0, 1)
    case Fail(_, _) => Diagnostic(0, 0, 0, FailKind)
    case Line(_) => Other(0, 0)
    case Patt(patt) => Other(if patt == 0 then -1 else 0, 2)
    case Lread => Other(1, 0)
    case Lwrite => Other(0, 1)
    case Llength => Other(0, 1)
    case Lstring => Other(0, 1)
    case Barray(n) => Other(I8(1 - n), I8(n))
    case Stop => Other(0, 0)
  }

  /** The kinds of the table. */
  lemma KindOf(i: Instr)
    ensures var d := Diagnose(i);
            && (d.kind.JmpKind? <==> i.Jmp?) && (d.kind.CjmpKind? <==> i.Cjmp?)
            && (i.Jmp? || i.Cjmp? ==> d.jump == i.target)
            && (d.kind.OtherKind? <==> !i.Jmp? && !i.Cjmp? && !i.End? && !i.Fail?)
            && (d.kind.EndKind? <==> i.End?)
  {
  }

  /** How many operands of the current function the interpreter takes from the stack, or looks at on
      its top, from the start of the instruction to the start of the next one of the same function. */
  function Pops(i: Instr): int {
    match i
    case Binop(_) => 2
    case Sexp(_, n) => n
    case Sti => 2
    case Sta => 3
    case End => 1
    case Drop => 1
    case Dup => 1
    case Swap => 2
    case Elem => 2
    case St(_, _) => 1
    case Cjmp(_, _) => 1
    case CallC(n) => n + 1
    case Call(_, n) => n
    case Tag(_, _) => 1
    case Array(_) => 1
    case Patt(patt) => if patt == 0 then 2 else 1
    case Lwrite => 1
    case Llength => 1
    case Lstring => 1
    case Barray(n) => n
    case _ => 0
  }

  /** And how many it leaves there instead. */
  function Pushes(i: Instr): int {
    match i
    case Dup => 2
    case Swap => 2
    case Lda(_, _) => 2
    case Jmp(_) => 0
    case End => 1
    case Drop => 0
    case Cjmp(_, _) => 0
    case Begin(_, _, _) => 0
    case Fail(_, _) => 0
    case Line(_) => 0
    case Stop => 0
    case _ => 1
  }

  /** The counts for which the 8-bit arithmetic of the table does no harm. */
  predicate CountFits(i: Instr) {
    match i
    case Sexp(_, n) => -126 <= n <= 127
    case Barray(n) => -126 <= n <= 127
    case Call(_, n) => -126 <= n <= 127
    case Closure(_, n) => n % 256 < 128
    case _ => true
  }

  lemma NarrowCount(n: int)
    ensures I8(1 - n) == 1 - n && I8(n) >= n <==> -126 <= n <= 127
  {
  }

  lemma NarrowClosureCall(n: int)
    ensures I8(-n) == -n ==> I8(n) < n + 1
  {
  }

  lemma NarrowClosure(n: int)
    ensures I8(n) >= 0 <==> n % 256 < 128
  {
  }

  predicate Right(i: Instr) { Diagnose(i).change == Pushes(i) - Pops(i) && Diagnose(i).required >= Pops(i) }

  lemma RightCount(i: Instr)
    requires i.Sexp? || i.Barray? || i.Call? || i.Closure? || i.CallC?
    ensures Right(i) <==> CountFits(i) && !i.CallC?
  {
    match i
    case Sexp(_, n) => NarrowCount(n);
    case Barray(n) => NarrowCount(n);
    case Call(_, n) => NarrowCount(n);
    case Closure(_, n) => NarrowClosure(n);
    case CallC(n) => NarrowClosureCall(n);
  }

  /** The table is right about an instruction exactly when its count fits and it is neither a closure
      call, which needs one operand more than the table says, nor the end of a function, which takes
      the result. */
  lemma TableRight(i: Instr)
    ensures Diagnose(i).change == Pushes(i) - Pops(i) && Diagnose(i).required >= Pops(i)
       <==> CountFits(i) && !i.CallC? && !i.End?
  {
    if i.Sexp? || i.Barray? || i.Call? || i.Closure? || i.CallC? {
      RightCount(i);
    }
  }

  /** With 128 operands the table demands a depth of -128. */
  lemma CountTooLarge()
    ensures Diagnose(Barray(128)) == Other(-127, -128) && Pops(Barray(128)) == 128
  {
  }
}
