/** Whole runs: every program on the real heap, with collections at any allocation, computes what it
    computes on the abstract machine. */
module Execution {
  import opened Words
  import opened Layout
  import opened ProcessState
  import opened Abstraction
  import opened Collector
  import opened Settled
  import opened Liveness
  import opened Allocation
  import opened Runtime
  import opened Builders
  import S = Semantics

  /** The literal of a `STRING` is an address outside the heap; it may be odd. */
  predicate Loaded(g: Process, op: S.Op) {
    S.WellFormed(op) && (op.Str? ==> Unboxed(op.literal) || g.outside(op.literal))
  }

  predicate AllLoaded(g: Process, ops: seq<S.Op>) {
    forall k {:trigger Loaded(g, ops[k])} :: 0 <= k < |ops| ==> Loaded(g, ops[k])
  }

  /** What an instruction that ended with st has done, where the abstract machine comes to o; overflow is
      reported only when the operands of o do not fit. */
  ghost predicate Simulates(g: Process, st: Status, o: S.Outcome)
    reads g, g.mem, g.ram
  {
    && (st.Running? ==> Active(g) && o == S.Done(View(g)))
    && (st.Error? ==> o == S.Exit)
    && (st.Overflow? ==> Exceeds(g, o))
  }

  /** Words that an operation allocates. */
  function Request(op: S.Op): nat
    requires S.WellFormed(op)
  {
    match op
    case Str(text, _) => ObjWords(Header(STRING_TAG, |text|))
    case Sexp(_, n) => ObjWords(Header(SEXP_TAG, n))
    case Array(n) => ObjWords(Header(ARRAY_TAG, n))
    case Closure(_, n) => ObjWords(Header(CLOSURE_TAG, n + 1))
    case _ => 0
  }

  /** Words of the objects that can be reached from the operand stack. */
  ghost function Live(m: S.Machine): nat { LiveWords(m.store, m.stack, |m.store|) }

  lemma LiveSeen(g: Process)
    requires Active(g)
    ensures LiveOf(g) == Live(View(g))
  {
    assert Stack(g) + Extras(g) == Stack(g);
  }

  /** What an instruction that allocates `words` has done to the memory when `live` words could be reached. */
  twostate predicate Accounted(g: Process, st: Status, live: nat, words: nat)
    reads g
  {
    && (st.OutOfMemory? ==> Denied(g, live, words))
    && (st.Running? ==> Served(g, live, words))
  }

  lemma NothingAllocated(calls: nat, live: nat, size: nat)
    ensures Stretched(calls, live, size, 0, calls, size)
  {
  }

  /** Operations on the operand stack. */
  method ExecuteStack(g: Process, op: S.Op) returns (st: Status)
    requires Active(g) && S.WellFormed(op) && S.Step(View(g), op) != S.Stuck
    requires op.Const? || op.Drop? || op.Dup? || op.Swap? || op.LdGlobal? || op.StGlobal?
    modifies g`top, g.ram
    ensures Simulates(g, st, S.Step(old(View(g)), op)) && !st.OutOfMemory?
  {
    match op
    case Const(i) => st := PushInt(g, i);
    case Drop => st := VisitDrop(g);
    case Dup => st := VisitDup(g);
    case Swap => st := VisitSwap(g);
    case LdGlobal(index) => st := VisitLd(g, index);
    case StGlobal(index) =>
      VisitSt(g, index);
      st := Running;
  }

  /** Operations that look into objects or store into them. */
  method ExecuteHeap(g: Process, op: S.Op) returns (st: Status)
    requires Active(g) && S.WellFormed(op) && S.Step(View(g), op) != S.Stuck
    requires op.Sta? || op.Elem? || op.Length? || op.TagTest? || op.ArrayTest?
    modifies g`top, g`store, g.mem, g.ram
    ensures Simulates(g, st, S.Step(old(View(g)), op)) && !st.OutOfMemory?
  {
    match op
    case Sta => st := VisitSta(g);
    case Elem => st := VisitElem(g);
    case Length => st := VisitLength(g);
    case TagTest(tag, len) => st := VisitTag(g, tag, len);
    case ArrayTest(len) => st := VisitTest(g, ARRAY_TAG, len, 0);
  }

  /** Operations that do not allocate. */
  method ExecuteOther(g: Process, op: S.Op) returns (st: Status)
    requires Active(g) && S.WellFormed(op) && S.Step(View(g), op) != S.Stuck
    requires !op.Str? && !op.Sexp? && !op.Array? && !op.Closure?
    modifies g`top, g`store, g.mem, g.ram
    ensures Simulates(g, st, S.Step(old(View(g)), op)) && !st.OutOfMemory?
  {
    if op.Sta? || op.Elem? || op.Length? || op.TagTest? || op.ArrayTest? {
      st := ExecuteHeap(g, op);
    } else {
      st := ExecuteStack(g, op);
    }
  }

  /** Operations that allocate. */
  method ExecuteAlloc(g: Process, op: S.Op, ghost words: nat) returns (st: Status)
    requires Active(g) && Loaded(g, op) && words == Request(op)
    requires op.Str? || op.Sexp? || op.Array? || op.Closure?
    modifies g`base, g`mem, g`current, g`calls, g`sh, g`ids, g`store, g`extra, g`top, g.mem, g.ram
    ensures Simulates(g, st, S.Step(old(View(g)), op))
    ensures Accounted(g, st, old(LiveOf(g)), words)
  {
    match op
    case Str(text, literal) => st := VisitStr(g, text, literal);
    case Sexp(tag, n) => st := VisitSexp(g, tag, n);
    case Array(n) => st := VisitArray(g, n);
    case Closure(addr, n) => st := VisitClosure(g, addr, n);
  }

  /** One instruction. */
  method Execute(g: Process, op: S.Op) returns (st: Status)
    requires Active(g) && Loaded(g, op) && S.Step(View(g), op) != S.Stuck
    modifies g`base, g`mem, g`current, g`calls, g`sh, g`ids, g`store, g`extra, g`top, g.mem, g.ram
    ensures Simulates(g, st, S.Step(old(View(g)), op))
    ensures Accounted(g, st, old(LiveOf(g)), Request(op))
  {
    NothingAllocated(g.calls, LiveOf(g), g.mem.Length);
    if op.Str? || op.Sexp? || op.Array? || op.Closure? {
      st := ExecuteAlloc(g, op, Request(op));
    } else {
      st := ExecuteOther(g, op);
    }
  }

  /** A run of the abstract machine splits after any number of operations that succeed. */
  lemma {:induction false} RunSplit(m: S.Machine, ops: seq<S.Op>, k: nat, p: S.Machine)
    requires k < |ops| && S.AllWellFormed(ops)
    requires S.Run(m, ops[..k]) == S.Done(p)
    ensures S.Run(m, ops[..k + 1]) == S.Step(p, ops[k])
    ensures !S.Step(p, ops[k]).Done? ==> S.Run(m, ops) == S.Step(p, ops[k])
    decreases k
  {
    var first := ops[..k + 1];
    if k == 0 {
      assert first == [ops[0]] && first[1..] == [];
    } else {
      var q, rest := S.Step(m, ops[0]), ops[1..];
      assert ops[..k][1..] == rest[..k - 1] && first[1..] == rest[..k] && ops[..k][0] == ops[0] == first[0];
      RunSplit(q.m, rest, k - 1, p);
    }
  }

  // ----- how much memory a program needs ---------------------------------------------------

  /** The words that all objects of a store would take, were they never collected. */
  function StoreWords(store: seq<Obj>): nat {
    if store == [] then 0 else StoreWords(store[..|store| - 1]) + ObjWords(store[|store| - 1].header)
  }

  lemma StoreWordsPush(store: seq<Obj>, o: Obj)
    ensures StoreWords(store + [o]) == StoreWords(store) + ObjWords(o.header)
  {
    assert (store + [o])[..|store|] == store;
  }

  lemma {:induction false} StoreWordsSame(store: seq<Obj>, id: nat, o: Obj)
    requires id < |store| && o.header == store[id].header
    ensures StoreWords(store[id := o]) == StoreWords(store)
  {
    var n := |store| - 1;
    if id < n {
      StoreWordsSame(store[..n], id, o);
      assert store[id := o][..n] == store[..n][id := o];
    } else {
      assert store[id := o][..n] == store[..n];
    }
  }

  lemma {:induction false} StoreWordsGrow(store: seq<Obj>, j: nat, k: nat)
    requires j <= k <= |store|
    ensures StoreWords(store[..j]) <= StoreWords(store[..k])
    decreases k
  {
    if j < k {
      StoreWordsGrow(store, j, k - 1);
      assert store[..k][..k - 1] == store[..k - 1];
    }
  }

  lemma StoreWordsStep(store: seq<Obj>, k: nat, id: nat)
    requires k <= id < |store|
    ensures StoreWords(store[..k]) + ObjWords(store[id].header) <= StoreWords(store[..id + 1])
  {
    StoreWordsGrow(store, k, id);
    assert store[..id + 1] == store[..id] + [store[id]];
    StoreWordsPush(store[..id], store[id]);
  }

  lemma HeapNext(m: seq<Word>, base: nat, sh: Shape, ids: seq<nat>, store: seq<Obj>, i: nat)
    requires sh.Valid() && Fits(m, sh) && Represents(m, base, sh, ids, store) && i < sh.N()
    requires Below(ids, i) <= |store| && sh.st[i] <= StoreWords(store[..Below(ids, i)])
    ensures Below(ids, i + 1) <= |store| && sh.st[i + 1] <= StoreWords(store[..Below(ids, i + 1)])
  {
    ObjectInStore(m, base, sh, ids, store, i);
    StoreWordsStep(store, Below(ids, i), ids[i]);
  }

  /** The first i objects of the heap are among the first of the store. */
  lemma {:induction false} HeapInStore(m: seq<Word>, base: nat, sh: Shape, ids: seq<nat>, store: seq<Obj>, i: nat)
    requires sh.Valid() && Fits(m, sh) && Represents(m, base, sh, ids, store) && i <= sh.N()
    ensures Below(ids, i) <= |store| && sh.st[i] <= StoreWords(store[..Below(ids, i)])
  {
    if i > 0 {
      HeapInStore(m, base, sh, ids, store, i - 1);
      HeapNext(m, base, sh, ids, store, i - 1);
    }
  }

  /** The heap is never larger than all that has been allocated. */
  lemma HeapBounded(g: Process)
    requires Ready(g)
    ensures g.current <= StoreWords(g.store)
  {
    var n := g.sh.N();
    HeapInStore(g.mem[..], g.base, g.sh, g.ids, g.store, n);
    StoreWordsGrow(g.store, Below(g.ids, n), |g.store|);
    assert g.store[..|g.store|] == g.store;
  }

  /** An operation adds to the store what it requests. */
  lemma StepWords(m: S.Machine, op: S.Op)
    requires S.WellFormed(op) && S.Step(m, op).Done?
    ensures StoreWords(S.Step(m, op).m.store) == StoreWords(m.store) + Request(op)
  {
    var p := S.Step(m, op).m;
    if op.Sta? {
      var x := S.Newest(m, 2);
      StoreWordsSame(m.store, x.id, p.store[x.id]);
    } else if Request(op) > 0 {
      StoreWordsPush(m.store, p.store[|m.store|]);
    }
  }

  /** What is live is part of what has been allocated. */
  lemma {:induction false} LiveAllocated(store: seq<Obj>, vs: seq<Val>, n: nat)
    requires n <= |store|
    ensures LiveWords(store, vs, n) <= StoreWords(store[..n])
  {
    if n > 0 {
      LiveAllocated(store, vs, n - 1);
      assert store[..n] == store[..n - 1] + [store[n - 1]];
      StoreWordsPush(store[..n - 1], store[n - 1]);
    }
  }

  /** The heap that a collection asks for before op: twice what can be reached, and what op allocates. */
  ghost function Demand(p: S.Machine, op: S.Op): nat
    requires S.WellFormed(op)
  {
    2 * Live(p) + Request(op)
  }

  ghost function DemandAt(m: S.Machine, ops: seq<S.Op>, k: nat): nat
    requires k < |ops| && S.AllWellFormed(ops)
  {
    var o := S.Run(m, ops[..k]);
    if o.Done? then Demand(o.m, ops[k]) else 0
  }

  /** The largest demand of the first k operations. */
  ghost function Need(m: S.Machine, ops: seq<S.Op>, k: nat): nat
    requires k <= |ops| && S.AllWellFormed(ops)
  {
    if k == 0 then 0 else Max(Need(m, ops, k - 1), DemandAt(m, ops, k - 1))
  }

  lemma {:induction false} NeedGrows(m: S.Machine, ops: seq<S.Op>, j: nat, k: nat)
    requires j <= k <= |ops| && S.AllWellFormed(ops)
    ensures Need(m, ops, j) <= Need(m, ops, k)
    decreases k
  {
    if j < k {
      NeedGrows(m, ops, j, k - 1);
    }
  }

  function TotalRequest(ops: seq<S.Op>): nat
    requires S.AllWellFormed(ops)
  {
    if ops == [] then 0 else Request(ops[0]) + TotalRequest(ops[1..])
  }

  /** What has been allocated before operation k, and what it asks for, is part of the total. */
  lemma {:induction false} RunWords(m: S.Machine, ops: seq<S.Op>, k: nat)
    requires k < |ops| && S.AllWellFormed(ops) && S.Run(m, ops[..k]).Done?
    ensures StoreWords(S.Run(m, ops[..k]).m.store) + Request(ops[k]) <= StoreWords(m.store) + TotalRequest(ops)
    decreases k
  {
    if k > 0 {
      assert ops[..k][0] == ops[0] && ops[..k][1..] == ops[1..][..k - 1];
      StepWords(m, ops[0]);
      RunWords(S.Step(m, ops[0]).m, ops[1..], k - 1);
    }
  }

  /** No program needs more than twice what it allocates in all. */
  lemma {:induction false} NeedBounded(m: S.Machine, ops: seq<S.Op>, k: nat)
    requires k <= |ops| && S.AllWellFormed(ops)
    ensures Need(m, ops, k) <= 2 * (StoreWords(m.store) + TotalRequest(ops))
  {
    if k > 0 {
      NeedBounded(m, ops, k - 1);
      var o := S.Run(m, ops[..k - 1]);
      if o.Done? {
        RunWords(m, ops, k - 1);
        LiveAllocated(o.m.store, o.m.stack, |o.m.store|);
        assert o.m.store[..|o.m.store|] == o.m.store;
      }
    }
  }

  // ----- whole programs --------------------------------------------------------------------

  /** Where a run has met a limit: the operation, and the mremap call and the size that was refused. */
  datatype Stop = Stop(index: nat, call: nat, asked: nat)

  /** The size of a heap that began with `size` words when no demand was above `need`. */
  function Room(size: nat, need: nat): nat { Max(Max(size, MINIMUM_HEAP_CAPACITY), need) }

  /** The operands after the operation do not fit into the stack. */
  ghost predicate TooDeep(s: Stop, m: S.Machine, ops: seq<S.Op>, capacity: int)
    requires S.AllWellFormed(ops)
  {
    s.index < |ops| && var o := S.Run(m, ops[..s.index + 1]); o.Done? && |o.m.stack| > capacity
  }

  /** What the machine p has allocated does not fit, together with what op asks for, into the heap with which
      the run began, and the system has refused to enlarge it to a size that no demand so far exceeds. */
  ghost predicate RefusedTo(s: Stop, p: S.Machine, op: S.Op, need: nat, calls: nat, size: nat, answers: nat -> Mremap,
                            outside: Word -> bool)
    requires S.WellFormed(op)
  {
    && calls <= s.call <= calls + s.index && !Granted(answers(s.call), s.asked, outside)
    && size < StoreWords(p.store) + Request(op) && size <= s.asked <= Room(size, Max(need, Demand(p, op)))
  }

  /** This has happened to the abstract program. */
  ghost predicate OutOfHeap(s: Stop, m: S.Machine, ops: seq<S.Op>, calls: nat, size: nat, answers: nat -> Mremap,
                            outside: Word -> bool)
    requires S.AllWellFormed(ops)
  {
    && s.index < |ops| && S.Run(m, ops[..s.index]).Done?
    && RefusedTo(s, S.Run(m, ops[..s.index]).m, ops[s.index], Need(m, ops, s.index), calls, size, answers, outside)
  }

  /** The operands always fit. */
  ghost predicate StackFits(m: S.Machine, ops: seq<S.Op>, capacity: int)
    requires S.AllWellFormed(ops)
  {
    forall k {:trigger ops[..k]} :: 0 <= k <= |ops| && S.Run(m, ops[..k]).Done? ==>
      |S.Run(m, ops[..k]).m.stack| <= capacity
  }

  ghost predicate AlwaysGranted(answers: nat -> Mremap, n: nat, outside: Word -> bool) {
    forall c: nat {:trigger answers(c)} :: Granted(answers(c), n, outside)
  }

  lemma GrantedLess(answer: Mremap, n: nat, k: nat, outside: Word -> bool)
    requires Granted(answer, n, outside) && k <= n
    ensures Granted(answer, k, outside)
  {
  }

  /** The system grants heaps of twice what the program can reach at any time, and what it then asks for. */
  ghost predicate Generous(answers: nat -> Mremap, size: nat, m: S.Machine, ops: seq<S.Op>, outside: Word -> bool)
    requires S.AllWellFormed(ops)
  {
    AlwaysGranted(answers, Room(size, Need(m, ops, |ops|)), outside)
  }

  /** A run that does not go on: the abstract program has come to an error, or a limit has been met. */
  ghost predicate Ended(st: Status, s: Stop, m: S.Machine, ops: seq<S.Op>, capacity: int, calls: nat, size: nat,
                        answers: nat -> Mremap, outside: Word -> bool)
    requires S.AllWellFormed(ops)
  {
    match st
    case Running => false
    case Error => S.Run(m, ops) == S.Exit
    case Overflow => TooDeep(s, m, ops, capacity)
    case OutOfMemory => OutOfHeap(s, m, ops, calls, size, answers, outside)
  }

  lemma NotRefused(s: Stop, p: S.Machine, op: S.Op, need: nat, calls: nat, size: nat, answers: nat -> Mremap,
                   outside: Word -> bool, total: nat)
    requires S.WellFormed(op) && need <= total && Demand(p, op) <= total
    requires AlwaysGranted(answers, Room(size, total), outside)
    ensures !RefusedTo(s, p, op, need, calls, size, answers, outside)
  {
    if s.asked <= Room(size, total) {
      GrantedLess(answers(s.call), Room(size, total), s.asked, outside);
    }
  }

  /** No limit is met where there is room. */
  lemma NoLimitMet(st: Status, s: Stop, m: S.Machine, ops: seq<S.Op>, capacity: int, calls: nat, size: nat,
                   answers: nat -> Mremap, outside: Word -> bool)
    requires S.AllWellFormed(ops)
    requires Ended(st, s, m, ops, capacity, calls, size, answers, outside)
    ensures StackFits(m, ops, capacity) ==> !st.Overflow?
    ensures Generous(answers, size, m, ops, outside) ==> !st.OutOfMemory?
  {
    if s.index < |ops| && S.Run(m, ops[..s.index]).Done? {
      var k, total := s.index, Need(m, ops, |ops|);
      NeedGrows(m, ops, k + 1, |ops|);
      if AlwaysGranted(answers, Room(size, total), outside) {
        NotRefused(s, S.Run(m, ops[..k]).m, ops[k], Need(m, ops, k), calls, size, answers, outside, total);
      }
    }
  }

  /** The heap of a run that started with calls0 and size0 and has executed k operations. */
  ghost predicate Bounded(g: Process, calls0: nat, size0: nat, k: nat, need: nat)
    reads g
  {
    calls0 <= g.calls <= calls0 + k && size0 <= g.mem.Length <= Room(size0, need)
  }

  /** A refusal in terms of the abstract machine. */
  lemma DeniedTo(p: S.Machine, op: S.Op, need: nat, k: nat, calls0: nat, size0: nat, call: nat, current: nat, size: nat,
                 answers: nat -> Mremap, outside: Word -> bool) returns (s: Stop)
    requires S.WellFormed(op) && calls0 <= call <= calls0 + k && current <= StoreWords(p.store)
    requires size0 <= size <= Room(size0, need)
    requires OutOfRoom(answers(call), current, Live(p), Request(op), size, outside)
    ensures s.index == k && RefusedTo(s, p, op, need, calls0, size0, answers, outside)
  {
    var n: nat :| size <= n <= NextSize(Live(p), Request(op), size) && !Granted(answers(call), n, outside);
    s := Stop(k, call, n);
  }

  /** How operation k of a run, executed on the machine p, has ended. */
  ghost predicate EndedAt(g: Process, st: Status, s: Stop, p: S.Machine, op: S.Op, need: nat, calls0: nat, size0: nat)
    requires S.WellFormed(op)
    reads g, g.mem, g.ram
  {
    && Simulates(g, st, S.Step(p, op))
    && (st.Running? ==> Bounded(g, calls0, size0, s.index + 1, Max(need, Demand(p, op))))
    && (st.OutOfMemory? ==> RefusedTo(s, p, op, need, calls0, size0, g.answers, g.outside))
  }

  /** What an instruction has done to the bounds; `call`, `current` and `size` are from before it. */
  lemma Afterwards(g: Process, st: Status, p: S.Machine, op: S.Op, need: nat, k: nat, calls0: nat, size0: nat,
                   call: nat, current: nat, size: nat) returns (s: Stop)
    requires S.WellFormed(op) && Simulates(g, st, S.Step(p, op))
    requires calls0 <= call <= calls0 + k && size0 <= size <= Room(size0, need)
    requires current <= StoreWords(p.store)
    requires st.Running? ==> Stretched(call, Live(p), size, Request(op), g.calls, g.mem.Length)
    requires st.OutOfMemory? ==> OutOfRoom(g.answers(call), current, Live(p), Request(op), size, g.outside)
    ensures s.index == k && EndedAt(g, st, s, p, op, need, calls0, size0)
  {
    s := Stop(k, 0, 0);
    if st.OutOfMemory? {
      s := DeniedTo(p, op, need, k, calls0, size0, call, current, size, g.answers, g.outside);
    }
  }

  /** One instruction of a run. */
  method ExecuteNext(g: Process, op: S.Op, ghost need: nat, ghost k: nat, ghost calls0: nat, ghost size0: nat)
    returns (st: Status, ghost s: Stop)
    requires Active(g) && Loaded(g, op) && S.Step(View(g), op) != S.Stuck && Bounded(g, calls0, size0, k, need)
    modifies g`base, g`mem, g`current, g`calls, g`sh, g`ids, g`store, g`extra, g`top, g.mem, g.ram
    ensures s.index == k && EndedAt(g, st, s, old(View(g)), op, need, calls0, size0)
    ensures st.Running? ==> g.mem == old(g.mem) || fresh(g.mem)
  {
    ghost var p, call, current, size := View(g), g.calls, g.current, g.mem.Length;
    HeapBounded(g);
    LiveSeen(g);
    st := Execute(g, op);
    s := Afterwards(g, st, p, op, need, k, calls0, size0, call, current, size);
  }

  /** After k operations of a run that began in m. */
  ghost predicate InRun(g: Process, m: S.Machine, ops: seq<S.Op>, k: nat, calls0: nat, size0: nat)
    requires S.AllWellFormed(ops)
    reads g, g.mem, g.ram
  {
    && k <= |ops| && Active(g) && S.Run(m, ops[..k]) == S.Done(View(g))
    && Bounded(g, calls0, size0, k, Need(m, ops, k))
  }

  /** What this means for the run. */
  lemma RunOn(g: Process, st: Status, s: Stop, m: S.Machine, ops: seq<S.Op>, p: S.Machine, calls0: nat, size0: nat)
    requires s.index < |ops| && S.AllWellFormed(ops)
    requires S.Run(m, ops[..s.index]) == S.Done(p)
    requires EndedAt(g, st, s, p, ops[s.index], Need(m, ops, s.index), calls0, size0)
    ensures st.Running? ==> InRun(g, m, ops, s.index + 1, calls0, size0)
    ensures !st.Running? ==> Ended(st, s, m, ops, g.bottom - 1 - g.floor, calls0, size0, g.answers, g.outside)
  {
    RunSplit(m, ops, s.index, p);
  }

  lemma RunBegins(g: Process, ops: seq<S.Op>)
    requires Active(g) && S.AllWellFormed(ops)
    ensures InRun(g, View(g), ops, 0, g.calls, g.mem.Length)
  {
  }

  lemma RunEnds(g: Process, m: S.Machine, ops: seq<S.Op>, calls0: nat, size0: nat)
    requires S.AllWellFormed(ops)
    requires InRun(g, m, ops, |ops|, calls0, size0)
    ensures Active(g) && S.Run(m, ops) == S.Done(View(g))
  {
    assert ops[..|ops|] == ops;
  }

  /** One instruction of a program. */
  method ExecuteInRun(g: Process, ops: seq<S.Op>, k: nat, ghost m: S.Machine, ghost calls0: nat, ghost size0: nat)
    returns (st: Status, ghost s: Stop)
    requires S.AllWellFormed(ops)
    requires k < |ops| && InRun(g, m, ops, k, calls0, size0) && Loaded(g, ops[k]) && S.Run(m, ops) != S.Stuck
    modifies g`base, g`mem, g`current, g`calls, g`sh, g`ids, g`store, g`extra, g`top, g.mem, g.ram
    ensures st.Running? ==> InRun(g, m, ops, k + 1, calls0, size0) && (g.mem == old(g.mem) || fresh(g.mem))
    ensures !st.Running? ==> Ended(st, s, m, ops, g.bottom - 1 - g.floor, calls0, size0, g.answers, g.outside)
  {
    ghost var p := View(g);
    RunSplit(m, ops, k, p);
    st, s := ExecuteNext(g, ops[k], Need(m, ops, k), k, calls0, size0);
    RunOn(g, st, s, m, ops, p, calls0, size0);
  }

  /** The instructions one after another. */
  method ExecuteAll(g: Process, ops: seq<S.Op>, ghost m: S.Machine, ghost calls0: nat, ghost size0: nat)
    returns (st: Status, ghost stop: Stop)
    requires S.AllWellFormed(ops)
    requires InRun(g, m, ops, 0, calls0, size0) && S.Run(m, ops) != S.Stuck
    requires AllLoaded(g, ops)
    modifies g`base, g`mem, g`current, g`calls, g`sh, g`ids, g`store, g`extra, g`top, g.mem, g.ram
    ensures st.Running? ==> InRun(g, m, ops, |ops|, calls0, size0)
    ensures !st.Running? ==> Ended(st, stop, m, ops, g.bottom - 1 - g.floor, calls0, size0, g.answers, g.outside)
  {
    st, stop := Running, Stop(0, 0, 0);
    var k := 0;
    while k < |ops|
      invariant k <= |ops| && InRun(g, m, ops, k, calls0, size0) && st.Running?
      invariant g.mem == old(g.mem) || fresh(g.mem)
    {
      st, stop := ExecuteInRun(g, ops, k, m, calls0, size0);
      if !st.Running? {
        return;
      }
      k := k + 1;
    }
  }

  /** A whole program.  If it ends normally then so does the abstract program, in the state that the
      final stack and heap represent; if it stops with an error then the abstract program stops at
      the same instruction; otherwise it has met a limit, which does not happen when there is room. */
  method RunAll(g: Process, ops: seq<S.Op>) returns (st: Status, ghost stop: Stop)
    requires Active(g) && S.AllWellFormed(ops)
    requires AllLoaded(g, ops)
    requires S.Run(View(g), ops) != S.Stuck
    modifies g`base, g`mem, g`current, g`calls, g`sh, g`ids, g`store, g`extra, g`top, g.mem, g.ram
    ensures st.Running? ==> Active(g) && S.Run(old(View(g)), ops) == S.Done(View(g))
    ensures !st.Running? ==>
              Ended(st, stop, old(View(g)), ops, g.bottom - 1 - g.floor, old(g.calls), old(g.mem.Length), g.answers,
                    g.outside)
    ensures StackFits(old(View(g)), ops, g.bottom - 1 - g.floor) ==> !st.Overflow?
    ensures Generous(g.answers, old(g.mem.Length), old(View(g)), ops, g.outside) ==> !st.OutOfMemory?
  {
    ghost var m, calls0, size0 := View(g), g.calls, g.mem.Length;
    RunBegins(g, ops);
    st, stop := ExecuteAll(g, ops, m, calls0, size0);
    if st.Running? {
      RunEnds(g, m, ops, calls0, size0);
    } else {
      NoLimitMet(st, stop, m, ops, g.bottom - 1 - g.floor, calls0, size0, g.answers, g.outside);
    }
  }

  const N_GLOBAL: nat := 1000
  const STACK_SIZE: nat := 100000

  /** The state before the first instruction: an empty heap and a zeroed operand array.  Of the
      N_GLOBAL words reserved for globals the last lies at `__gc_stack_bottom`, past the array, where
      the interpreter keeps `stack_begin`; N_GLOBAL - 1 are usable. */
  method Boot(base: nat, mem: array<Word>, ram: array<Word>, local: nat, floor: nat, outside: Word -> bool,
              answers: nat -> Mremap)
    returns (g: Process)
    requires Mappable(base, mem.Length, outside) && outside(0) && mem != ram
    requires local < floor && floor + STACK_SIZE < ram.Length && outside(ram[floor + STACK_SIZE])
    requires forall p :: floor <= p < floor + STACK_SIZE ==> ram[p] == 0
    ensures fresh(g) && Active(g) && g.mem == mem && g.ram == ram && g.outside == outside && g.answers == answers
    ensures View(g) == S.Machine([], seq(N_GLOBAL - 1, _ => Imm(0)), N_GLOBAL - 1)
  {
    var bottom := floor + STACK_SIZE;
    g := new Process(base, mem, ram, local, floor, bottom - N_GLOBAL, bottom, outside, answers);
    assert g.sh.Valid() && g.sh.End() == 0;
    assert Stack(g) == seq(N_GLOBAL - 1, _ => Imm(0));
  }
}
