/** The operations as the interpreter and the run-time system perform them, on the word stack and the
    moving heap, and the proof that they refine the abstract machine. */
module Runtime {
  import opened Words
  import opened Layout
  import opened Options
  import opened ProcessState
  import opened Abstraction
  import opened Settled
  import opened Allocation
  import opened Mutation
  import opened Relocation
  import TagHash
  import S = Semantics

  /** Overflow and OutOfMemory are the limits that the abstract machine does not have. */
  datatype Status = Running | Error | Overflow | OutOfMemory

  /** Between two instructions: no extra root is registered and the operand stack is in its array. */
  ghost predicate Active(g: Process)
    reads g, g.mem, g.ram
  {
    Ready(g) && g.extra == [] && g.local < g.floor <= g.top <= g.stackBegin < g.bottom
  }

  ghost function View(g: Process): S.Machine
    requires Active(g)
    reads g, g.mem, g.ram
  {
    S.Machine(g.store, Stack(g), g.bottom - 1 - g.stackBegin)
  }

  // ----- the operand stack -----------------------------------------------------------------

  /** The abstract machine goes on with more operands than there is room for. */
  ghost predicate Exceeds(g: Process, o: S.Outcome)
    reads g`bottom
  {
    o.Done? && |o.m.stack| > g.bottom - 1 - g.floor
  }

  /** `push` with its overflow check. */
  method Push(g: Process, w: Word) returns (ok: bool)
    requires Active(g) && Good(g.base, g.sh, g.outside, w)
    modifies g`top, g.ram
    ensures ok <==> old(g.top) > g.floor
    ensures ok ==> Active(g) && View(g) == S.Push(old(View(g)), old(ValOf(g.base, g.sh, g.ids, w)))
  {
    ok := g.top > g.floor;
    if ok {
      ghost var r := g.ram[..];
      g.ram[g.top] := w;
      g.top := g.top - 1;
      StackPushed(g.base, g.sh, g.ids, r, g.ram[..], g.top, g.bottom, w);
    }
  }

  lemma StackPushed(base: nat, sh: Shape, ids: seq<nat>, r: seq<Word>, r': seq<Word>, top: nat, bottom: nat, w: Word)
    requires sh.Valid() && |ids| == sh.N() && top + 1 < bottom < |r| == |r'| && r' == r[top + 1 := w]
    ensures StackOf(base, sh, ids, r', top, bottom)
         == StackOf(base, sh, ids, r, top + 1, bottom) + [ValOf(base, sh, ids, w)]
  {
  }

  lemma StackPopped(base: nat, sh: Shape, ids: seq<nat>, r: seq<Word>, top: nat, bottom: nat)
    requires sh.Valid() && |ids| == sh.N() && top + 1 < bottom < |r|
    ensures var s := StackOf(base, sh, ids, r, top, bottom);
            StackOf(base, sh, ids, r, top + 1, bottom) == s[..|s| - 1] && s[|s| - 1] == ValOf(base, sh, ids, r[top + 1])
  {
  }

  /** A word that has been taken off the stack and the value it has. */
  ghost predicate Held(g: Process, w: Word, v: Val)
    reads g, g.mem, g.ram
  {
    Active(g) && Good(g.base, g.sh, g.outside, w) && ValOf(g.base, g.sh, g.ids, w) == v
  }

  /** The word just above `__gc_stack_top`. */
  lemma TopValue(g: Process)
    requires Active(g) && g.top + 1 < g.bottom
    ensures |View(g).stack| > 0 && Held(g, g.ram[g.top + 1], S.Newest(View(g), 0))
  {
  }

  /** Moving `__gc_stack_top` past one operand. */
  method Shrink(g: Process)
    requires Active(g) && g.top < g.stackBegin
    modifies g`top
    ensures Active(g) && g.top == old(g.top) + 1 && View(g) == S.Dropped(old(View(g)), 1)
  {
    StackPopped(g.base, g.sh, g.ids, g.ram[..], g.top, g.bottom);
    g.top := g.top + 1;
  }

  /** `pop` with its underflow check. */
  method Pop(g: Process) returns (r: Option<Word>)
    requires Active(g)
    modifies g`top
    ensures Active(g) && (r.None? ==> g.top == old(g.top))
    ensures r.Some? <==> S.Has(old(View(g)), 1)
    ensures r.Some? ==> View(g) == S.Dropped(old(View(g)), 1) && Held(g, r.value, S.Newest(old(View(g)), 0))
  {
    if g.top == g.stackBegin {
      return None;
    }
    TopValue(g);
    Shrink(g);
    r := Some(g.ram[g.top]);
  }

  /** Two pops. */
  method Pop2(g: Process) returns (ok: bool, a: Word, b: Word)
    requires Active(g)
    modifies g`top
    ensures ok <==> S.Has(old(View(g)), 2)
    ensures ok ==> Active(g) && View(g) == S.Dropped(old(View(g)), 2)
    ensures ok ==> Held(g, a, S.Newest(old(View(g)), 0)) && Held(g, b, S.Newest(old(View(g)), 1))
  {
    ghost var m := View(g);
    a, b, ok := 0, 0, false;
    var x := Pop(g);
    if x.Some? {
      S.DroppedAgain(m, 1);
      a := x.value;
      var y := Pop(g);
      if y.Some? {
        b, ok := y.value, true;
      }
    }
  }

  /** A push that completes what the abstract machine does. */
  method PushHeld(g: Process, w: Word, ghost v: Val, ghost o: S.Outcome) returns (st: Status)
    requires Held(g, w, v) && o == S.Done(S.Push(View(g), v))
    modifies g`top, g.ram
    ensures st.Running? || (st.Overflow? && Exceeds(g, o) && old(g.top) == g.floor)
    ensures st.Running? ==> Active(g) && o == S.Done(View(g))
  {
    var ok := Push(g, w);
    st := if ok then Running else Overflow;
  }

  // ----- objects named by words ------------------------------------------------------------

  lemma IntOrObject(g: Process, w: Word)
    requires Active(g) && Good(g.base, g.sh, g.outside, w)
    ensures S.IsInt(ValOf(g.base, g.sh, g.ids, w)) <==> Unboxed(w)
    ensures Unboxed(w) ==> ValOf(g.base, g.sh, g.ids, w) == Imm(w)
  {
    if Unboxed(w) {
      ValOfImm(g.base, g.sh, g.ids, w);
    } else if ContentPtr(g.base, g.sh, w) {
      var i :| 0 <= i < g.sh.N() && w == Ptr(g.base, g.sh.st[i]);
      ValOfPtr(g.base, g.sh, g.ids, w, i);
    }
  }

  /** The object that w points to. */
  lemma Pointee(g: Process, w: Word) returns (i: nat)
    requires Active(g) && ValOf(g.base, g.sh, g.ids, w).Ref?
    ensures i < g.sh.N() && w == Ptr(g.base, g.sh.st[i]) && ValOf(g.base, g.sh, g.ids, w) == Ref(g.ids[i])
    ensures g.ids[i] < |g.store| && g.store[g.ids[i]] == ObjOf(g.mem[..], g.base, g.sh, g.ids, i)
  {
    i :| 0 <= i < g.sh.N() && w == Ptr(g.base, g.sh.st[i]);
    ValOfPtr(g.base, g.sh, g.ids, w, i);
  }

  /** `TO_DATA(p)->data_header` */
  method ReadHeader(g: Process, w: Word, ghost i: nat) returns (off: nat, h: Word)
    requires Active(g) && i < g.sh.N() && w == Ptr(g.base, g.sh.st[i])
    ensures off == g.sh.st[i] && h == g.sh.hd[i] && off + 2 <= g.mem.Length
  {
    g.sh.Ordered(i, i + 1);
    HeaderAtPtr(g.base, g.sh.st[i], w);
    off := HeaderAt(g.base, w);
    h := g.mem[off];
  }

  method PushInt(g: Process, i: int) returns (st: Status)
    requires Active(g)
    modifies g`top, g.ram
    ensures st.Running? || (st.Overflow? && old(g.top) == g.floor)
    ensures st.Running? ==> Active(g) && View(g) == S.Push(old(View(g)), Imm(Box(i)))
  {
    BoxIsUnboxed(i);
    IntOrObject(g, Box(i));
    var ok := Push(g, Box(i));
    st := if ok then Running else Overflow;
  }

  // ----- observers -------------------------------------------------------------------------

  /** The length that `Llength` reads. */
  method ReadLength(g: Process, w: Word) returns (len: nat)
    requires Active(g) && S.Known(View(g), ValOf(g.base, g.sh, g.ids, w))
    ensures len == Len(g.store[ValOf(g.base, g.sh, g.ids, w).id].header)
  {
    ghost var i := Pointee(g, w);
    var _, h := ReadHeader(g, w, i);
    len := Len(h);
  }

  /** `Llength` on the operand just popped. */
  method Llength(g: Process, w: Word, ghost v: Val) returns (st: Status)
    requires Held(g, w, v) && (S.IsInt(v) || S.Known(View(g), v))
    modifies g`top, g.ram
    ensures st.Error? <==> S.IsInt(v)
    ensures st.Running? ==> Active(g) && View(g) == S.Push(old(View(g)), Imm(Box(Len(old(g.store)[v.id].header))))
    ensures !st.OutOfMemory? && (st.Overflow? ==> old(g.top) == g.floor)
  {
    IntOrObject(g, w);
    if Unboxed(w) {
      return Error;
    }
    var len := ReadLength(g, w);
    st := PushInt(g, len);
  }

  /** `CALL Llength` */
  method VisitLength(g: Process) returns (st: Status)
    requires Active(g) && S.LengthStep(View(g)) != S.Stuck
    modifies g`top, g.ram
    ensures st.Running? ==> Active(g) && S.LengthStep(old(View(g))) == S.Done(View(g))
    ensures st.Error? ==> S.LengthStep(old(View(g))) == S.Exit
    ensures !st.OutOfMemory? && (st.Overflow? ==> Exceeds(g, S.LengthStep(old(View(g)))))
  {
    ghost var m := View(g);
    var p := Pop(g);
    if p.None? {
      return Error;
    }
    st := Llength(g, p.value, S.Newest(m, 0));
  }

  ghost function TestResult(o: Obj, tag: nat, len: int, first: Word): bool {
    Tag(o.header) == tag && Len(o.header) == len && (tag == SEXP_TAG ==> o.first == first)
  }

  /** What `Btag` and `Barray_patt` compute on an object. */
  method TestObject(g: Process, w: Word, tag: nat, len: int, first: Word) returns (r: bool)
    requires Active(g) && S.Known(View(g), ValOf(g.base, g.sh, g.ids, w))
    ensures r == TestResult(g.store[ValOf(g.base, g.sh, g.ids, w).id], tag, len, first)
  {
    ghost var i := Pointee(g, w);
    var off, h := ReadHeader(g, w, i);
    r := Tag(h) == tag && Len(h) == len;
    if r && tag == SEXP_TAG {
      SexpHasFirst(g.sh, i);
      r := g.mem[off + 2] == first;
    }
  }

  /** `Btag` and `Barray_patt` on the operand that has just been popped. */
  method Tested(g: Process, w: Word, tag: nat, len: int, first: Word, ghost v: Val) returns (st: Status)
    requires Active(g) && Good(g.base, g.sh, g.outside, w) && v == ValOf(g.base, g.sh, g.ids, w)
    requires S.Test(View(g), v, tag, len, first) != S.Stuck
    modifies g`top, g.ram
    ensures st.Running? || (st.Overflow? && old(g.top) == g.floor)
    ensures st.Running? ==> Active(g) && S.Test(old(View(g)), v, tag, len, first) == S.Done(View(g))
  {
    IntOrObject(g, w);
    var r := false;
    if !Unboxed(w) {
      r := TestObject(g, w, tag, len, first);
    }
    st := PushInt(g, if r then 1 else 0);
  }

  lemma SexpHasFirst(sh: Shape, i: nat)
    requires sh.Valid() && i < sh.N() && Tag(sh.hd[i]) == SEXP_TAG
    ensures HasFirst(sh.hd[i]) && sh.st[i] + 2 < sh.st[i + 1] <= sh.End()
  {
    assert sh.Tile(i);
    sh.Last(i + 1);
  }

  /** The common part of `TAG`, with the unboxed hash as `first`, and `ARRAY`. */
  method VisitTest(g: Process, tag: nat, len: int, first: Word) returns (st: Status)
    requires Active(g) && S.TestStep(View(g), tag, len, first) != S.Stuck
    modifies g`top, g.ram
    ensures st.Running? ==> Active(g) && S.TestStep(old(View(g)), tag, len, first) == S.Done(View(g))
    ensures st.Error? ==> S.TestStep(old(View(g)), tag, len, first) == S.Exit
    ensures !st.OutOfMemory? && (st.Overflow? ==> Exceeds(g, S.TestStep(old(View(g)), tag, len, first)))
  {
    var p := Pop(g);
    if p.None? {
      return Error;
    }
    st := Tested(g, p.value, tag, Unbox(Box(len)), first, ValOf(g.base, g.sh, g.ids, p.value));
  }

  /** `TAG` */
  method VisitTag(g: Process, tag: string, len: int) returns (st: Status)
    requires Active(g) && S.TagStep(View(g), tag, len) != S.Stuck
    modifies g`top, g.ram
    ensures st.Running? ==> Active(g) && S.TagStep(old(View(g)), tag, len) == S.Done(View(g))
    ensures st.Error? ==> S.TagStep(old(View(g)), tag, len) == S.Exit
    ensures !st.OutOfMemory? && (st.Overflow? ==> Exceeds(g, S.TagStep(old(View(g)), tag, len)))
  {
    var h := TagHash.UnboxedHash(tag);
    if h.None? {
      return Error;
    }
    st := VisitTest(g, SEXP_TAG, len, h.value);
  }

  // ----- loads and stores ------------------------------------------------------------------

  /** Where `Belem` and `Bsta` find element d of object i. */
  lemma FieldPlace(g: Process, i: nat, d: nat)
    requires Active(g) && i < g.sh.N() && d < |FieldWords(g.mem[..], g.sh, i)|
    ensures Tag(g.sh.hd[i]) != STRING_TAG
    ensures g.sh.lo[i] == g.sh.st[i] + 2 + if Tag(g.sh.hd[i]) == ARRAY_TAG then 0 else 1
    ensures g.sh.lo[i] + d < g.mem.Length && IsField(g.sh, i, g.sh.lo[i] + d)
    ensures FieldWords(g.mem[..], g.sh, i)[d] == g.mem[g.sh.lo[i] + d]
  {
    FieldWordAt(g.mem[..], g.sh, i, d);
    NoString(g.sh, i);
    assert g.sh.Tile(i);
  }

  /** `((int *) a->contents)[i]`, one further on in an s-expression. */
  method ReadField(g: Process, off: nat, h: Word, index: int, ghost i: nat, ghost d: nat) returns (w: Word)
    requires Active(g) && i < g.sh.N() && off == g.sh.st[i] && h == g.sh.hd[i]
    requires d < |FieldWords(g.mem[..], g.sh, i)| && index == d + if Tag(h) == CLOSURE_TAG then 1 else 0
    ensures Good(g.base, g.sh, g.outside, w)
    ensures ValOf(g.base, g.sh, g.ids, w) == ObjOf(g.mem[..], g.base, g.sh, g.ids, i).fields[d]
  {
    FieldPlace(g, i, d);
    assert g.sh.Tile(i);
    w := if Tag(h) == SEXP_TAG then g.mem[off + 2 + index + 1] else g.mem[off + 2 + index];
  }

  /** `a->contents[i]` as an unsigned byte. */
  method ReadByte(g: Process, off: nat, j: nat, ghost i: nat) returns (b: nat)
    requires Active(g) && i < g.sh.N() && off == g.sh.st[i] && j < |StringBytes(g.mem[..], g.sh, i)|
    ensures b == StringBytes(g.mem[..], g.sh, i)[j]
  {
    StringPlace(g, i, j);
    b := ByteOf(g.mem[off + 2 + j / 4], j % 4);
  }

  lemma StringPlace(g: Process, i: nat, j: nat)
    requires Active(g) && i < g.sh.N() && j < |StringBytes(g.mem[..], g.sh, i)|
    ensures Tag(g.sh.hd[i]) == STRING_TAG && j <= Len(g.sh.hd[i])
    ensures g.sh.st[i] + 2 + j / 4 < g.mem.Length
    ensures StringBytes(g.mem[..], g.sh, i)[j] == ByteOf(g.mem[g.sh.st[i] + 2 + j / 4], j % 4)
  {
    if Tag(g.sh.hd[i]) == STRING_TAG {
      ByteInside(g.sh, i, j);
      g.sh.Last(i + 1);
    }
  }

  /** w refers to object id, which has an element with this index. */
  ghost predicate HasElement(g: Process, w: Word, id: nat, index: int)
    reads g, g.mem, g.ram
  {
    Held(g, w, Ref(id)) && id < |g.store| && InBounds(g.store[id], index)
  }

  lemma ElementFound(g: Process, w: Word, v: Val, index: Val)
    requires Held(g, w, v) && !S.IsInt(v) && S.IsInt(index) && S.Element(View(g), v, index) != S.Stuck
    ensures v.Ref? && HasElement(g, w, v.id, Unbox(index.w))
    ensures S.Element(View(g), v, index) == S.Done(S.Push(View(g), ElementOf(g.store[v.id], Unbox(index.w))))
  {
  }

  /** The case distinction of `Belem` on an object: the word to push. */
  method LoadElement(g: Process, w: Word, index: int, ghost id: nat) returns (r: Word)
    requires HasElement(g, w, id, index)
    ensures Held(g, r, ElementOf(g.store[id], index))
  {
    ghost var i := Pointee(g, w);
    var off, h := ReadHeader(g, w, i);
    if Tag(h) == STRING_TAG {
      var b := ReadByte(g, off, index, i);
      r := Box(S.CharValue(b));
      BoxIsUnboxed(S.CharValue(b));
      IntOrObject(g, r);
    } else {
      ghost var d := Position(h, index);
      r := ReadField(g, off, h, index, i, d);
    }
  }

  /** Index of a field: slot 0 of a closure is its code offset. */
  ghost function Position(h: Word, index: int): int { if Tag(h) == CLOSURE_TAG then index - 1 else index }

  ghost predicate InBounds(o: Obj, index: int) {
    if Tag(o.header) == STRING_TAG then 0 <= index < |o.bytes| else 0 <= Position(o.header, index) < |o.fields|
  }

  ghost function ElementOf(o: Obj, index: int): Val
    requires InBounds(o, index)
  {
    if Tag(o.header) == STRING_TAG then Imm(Box(S.CharValue(o.bytes[index]))) else o.fields[Position(o.header, index)]
  }

  /** `Belem` on operands just popped. */
  method Belem(g: Process, w: Word, x: Word, ghost v: Val, ghost index: Val) returns (st: Status)
    requires Held(g, w, v) && Held(g, x, index) && S.Element(View(g), v, index) != S.Stuck
    modifies g`top, g.ram
    ensures st.Running? ==> Active(g) && S.Element(old(View(g)), v, index) == S.Done(View(g))
    ensures st.Error? ==> S.Element(old(View(g)), v, index) == S.Exit
    ensures !st.OutOfMemory? && (st.Overflow? ==> old(g.top) == g.floor)
  {
    IntOrObject(g, x);
    IntOrObject(g, w);
    if Unboxed(w) || !Unboxed(x) {
      return Error;
    }
    ElementFound(g, w, v, index);
    ghost var o := S.Element(View(g), v, index);
    var r := LoadElement(g, w, Unbox(x), v.id);
    st := PushHeld(g, r, ElementOf(g.store[v.id], Unbox(x)), o);
  }

  /** `ELEM` */
  method VisitElem(g: Process) returns (st: Status)
    requires Active(g) && S.ElemStep(View(g)) != S.Stuck
    modifies g`top, g.ram
    ensures st.Running? ==> Active(g) && S.ElemStep(old(View(g))) == S.Done(View(g))
    ensures st.Error? ==> S.ElemStep(old(View(g))) == S.Exit
    ensures !st.OutOfMemory? && (st.Overflow? ==> Exceeds(g, S.ElemStep(old(View(g)))))
  {
    ghost var m := View(g);
    var ok, x, p := Pop2(g);
    if !ok {
      return Error;
    }
    st := Belem(g, p, x, S.Newest(m, 1), S.Newest(m, 0));
  }

  // ----- Bsta ------------------------------------------------------------------------------

  ghost function Stored(o: Obj, index: int, v: Val): Obj
    requires InBounds(o, index) && (Tag(o.header) == STRING_TAG ==> v.Imm?)
  {
    if Tag(o.header) == STRING_TAG then o.(bytes := o.bytes[index := Unbox(v.w) % 256])
    else o.(fields := o.fields[Position(o.header, index) := v])
  }

  /** `((char *) x)[index] = UNBOX(v)` on a string. */
  method StoreByte(g: Process, off: nat, index: nat, v: Word, ghost i: nat)
    requires Active(g) && i < g.sh.N() && off == g.sh.st[i] && index < |StringBytes(g.mem[..], g.sh, i)|
    modifies g`store, g.mem
    ensures Active(g) && g.ids[i] < |old(g.store)| && index < |old(g.store)[g.ids[i]].bytes|
    ensures var o := old(g.store)[g.ids[i]];
            g.store == old(g.store)[g.ids[i] := WithByteAt(o, index, Unbox(v) % 256)]
  {
    StringPlace(g, i, index);
    WriteByte(g, index, Unbox(v) % 256, off + 2, i);
  }

  /** `((int *) x)[index] = v` on the other kinds of objects. */
  method StoreField(g: Process, off: nat, h: Word, index: int, v: Word, ghost i: nat, ghost d: nat)
    requires Active(g) && i < g.sh.N() && off == g.sh.st[i] && h == g.sh.hd[i]
    requires d < |FieldWords(g.mem[..], g.sh, i)| && index == d + if Tag(h) == CLOSURE_TAG then 1 else 0
    requires Good(g.base, g.sh, g.outside, v)
    modifies g`store, g.mem
    ensures Active(g) && g.ids[i] < |old(g.store)| && d < |old(g.store)[g.ids[i]].fields|
    ensures var o, val := old(g.store)[g.ids[i]], ValOf(g.base, g.sh, g.ids, v);
            g.store == old(g.store)[g.ids[i] := WithField(o, d, val)]
  {
    FieldPlace(g, i, d);
    var a := off + 2 + if Tag(h) == SEXP_TAG then index + 1 else index;
    assert g.sh.Tile(i);
    WriteField(g, v, a, i, d, ValOf(g.base, g.sh, g.ids, v));
  }

  /** The case distinction of `Bsta` on an object. */
  method StoreElement(g: Process, w: Word, index: int, v: Word, ghost id: nat)
    requires HasElement(g, w, id, index) && Good(g.base, g.sh, g.outside, v)
    requires Tag(g.store[id].header) == STRING_TAG ==> Unboxed(v)
    modifies g`store, g.mem
    ensures Active(g)
    ensures var o, val := old(g.store)[id], ValOf(g.base, g.sh, g.ids, v);
            && (Tag(o.header) == STRING_TAG ==> val.Imm?)
            && g.store == old(g.store)[id := Stored(o, index, val)]
  {
    IntOrObject(g, v);
    ghost var i := Pointee(g, w);
    var off, h := ReadHeader(g, w, i);
    if Tag(h) == STRING_TAG {
      StoreByte(g, off, index, v, i);
    } else {
      StoreField(g, off, h, index, v, i, Position(h, index));
    }
  }

  /** Three pops. */
  method Pop3(g: Process) returns (ok: bool, a: Word, b: Word, c: Word)
    requires Active(g)
    modifies g`top
    ensures ok <==> S.Has(old(View(g)), 3)
    ensures ok ==> Active(g) && View(g) == S.Dropped(old(View(g)), 3)
    ensures ok ==> Held(g, a, S.Newest(old(View(g)), 0)) && Held(g, b, S.Newest(old(View(g)), 1))
    ensures ok ==> Held(g, c, S.Newest(old(View(g)), 2))
  {
    ghost var m := View(g);
    c := 0;
    ok, a, b := Pop2(g);
    if ok {
      S.DroppedAgain(m, 2);
      var x := Pop(g);
      ok := x.Some?;
      if ok {
        c := x.value;
      }
    }
  }

  lemma PlaceFound(g: Process, w: Word, val: Val, index: Val, obj: Val)
    requires Held(g, w, obj) && !S.IsInt(obj) && S.Store(View(g), val, index, obj) != S.Stuck
    ensures S.IsInt(index) && obj.Ref? && HasElement(g, w, obj.id, Unbox(index.w))
    ensures var o, i := g.store[obj.id], Unbox(index.w);
            && (Tag(o.header) == STRING_TAG ==> S.IsInt(val))
            && S.Store(View(g), val, index, obj)
               == S.Done(S.Push(View(g).(store := g.store[obj.id := Stored(o, i, val)]), val))
  {
  }

  /** `Bsta` on operands just popped; it returns the value that it stores. */
  method Bsta(g: Process, v: Word, x: Word, w: Word, ghost val: Val, ghost index: Val, ghost obj: Val)
    returns (st: Status)
    requires Held(g, v, val) && Held(g, x, index) && Held(g, w, obj) && S.Store(View(g), val, index, obj) != S.Stuck
    modifies g`top, g`store, g.mem, g.ram
    ensures st.Running? ==> Active(g) && S.Store(old(View(g)), val, index, obj) == S.Done(View(g))
    ensures st.Error? ==> S.Store(old(View(g)), val, index, obj) == S.Exit
    ensures !st.OutOfMemory? && (st.Overflow? ==> old(g.top) == g.floor)
  {
    IntOrObject(g, x);
    IntOrObject(g, w);
    IntOrObject(g, v);
    if Unboxed(w) {
      return Error;
    }
    PlaceFound(g, w, val, index, obj);
    ghost var o := S.Store(View(g), val, index, obj);
    StoreElement(g, w, Unbox(x), v, obj.id);
    st := PushHeld(g, v, val, o);
  }

  /** `STA` with an index. */
  method VisitSta(g: Process) returns (st: Status)
    requires Active(g) && S.StaStep(View(g)) != S.Stuck
    modifies g`top, g`store, g.mem, g.ram
    ensures st.Running? ==> Active(g) && S.StaStep(old(View(g))) == S.Done(View(g))
    ensures st.Error? ==> S.StaStep(old(View(g))) == S.Exit
    ensures !st.OutOfMemory? && (st.Overflow? ==> Exceeds(g, S.StaStep(old(View(g)))))
  {
    ghost var m := View(g);
    var ok, v, x, w := Pop3(g);
    if !ok {
      return Error;
    }
    st := Bsta(g, v, x, w, S.Newest(m, 0), S.Newest(m, 1), S.Newest(m, 2));
  }

  // ----- moving operands -------------------------------------------------------------------

  /** `DROP` */
  method VisitDrop(g: Process) returns (st: Status)
    requires Active(g)
    modifies g`top
    ensures st.Running? ==> Active(g) && S.DropStep(old(View(g))) == S.Done(View(g))
    ensures st.Error? ==> S.DropStep(old(View(g))) == S.Exit
    ensures st.Running? || st.Error?
  {
    var p := Pop(g);
    st := if p.Some? then Running else Error;
  }

  /** What slot p of the stack denotes. */
  lemma SlotValue(g: Process, p: nat)
    requires Active(g) && g.top < p < g.bottom
    ensures Held(g, g.ram[p], Stack(g)[g.bottom - 1 - p])
  {
  }

  /** `DUP`; `top` has no underflow check and reads the global area when there is no operand. */
  method VisitDup(g: Process) returns (st: Status)
    requires Active(g) && S.DupStep(View(g)) != S.Stuck
    modifies g`top, g.ram
    ensures st.Running? ==> Active(g) && S.DupStep(old(View(g))) == S.Done(View(g))
    ensures st.Running? || (st.Overflow? && Exceeds(g, S.DupStep(old(View(g)))))
  {
    TopValue(g);
    st := PushHeld(g, g.ram[g.top + 1], S.Newest(View(g), 0), S.DupStep(View(g)));
  }

  /** `SWAP` */
  method VisitSwap(g: Process) returns (st: Status)
    requires Active(g)
    modifies g`top, g.ram
    ensures st.Running? ==> Active(g) && S.SwapStep(old(View(g))) == S.Done(View(g))
    ensures st.Error? ==> S.SwapStep(old(View(g))) == S.Exit
    ensures !st.OutOfMemory? && (st.Overflow? ==> Exceeds(g, S.SwapStep(old(View(g)))))
  {
    ghost var m := View(g);
    var ok, a, b := Pop2(g);
    if !ok {
      return Error;
    }
    var ok1 := Push(g, a);
    if !ok1 {
      return Overflow;
    }
    var ok2 := Push(g, b);
    st := if ok2 then Running else Overflow;
  }

  /** `LD` of a global. */
  method VisitLd(g: Process, index: nat) returns (st: Status)
    requires Active(g) && S.LdStep(View(g), index) != S.Stuck
    modifies g`top, g.ram
    ensures st.Running? ==> Active(g) && S.LdStep(old(View(g)), index) == S.Done(View(g))
    ensures st.Running? || (st.Overflow? && Exceeds(g, S.LdStep(old(View(g)), index)))
  {
    var p := g.stackBegin + 1 + index;
    SlotValue(g, p);
    st := PushHeld(g, g.ram[p], Stack(g)[g.bottom - 1 - p], S.LdStep(View(g), index));
  }

  /** `ST` to a global. */
  method VisitSt(g: Process, index: nat)
    requires Active(g) && S.StStep(View(g), index) != S.Stuck
    modifies g.ram
    ensures Active(g) && S.StStep(old(View(g)), index) == S.Done(View(g))
  {
    var p := g.stackBegin + 1 + index;
    TopValue(g);
    ghost var r := g.ram[..];
    g.ram[p] := g.ram[g.top + 1];
    StackWritten(g.base, g.sh, g.ids, r, g.top, g.bottom, p, g.ram[p]);
    assert g.ram[..] == r[p := g.ram[p]];
  }

  lemma StackWritten(base: nat, sh: Shape, ids: seq<nat>, r: seq<Word>, top: nat, bottom: nat, p: nat, w: Word)
    requires sh.Valid() && |ids| == sh.N() && top < p < bottom < |r|
    ensures StackOf(base, sh, ids, r[p := w], top, bottom)
         == StackOf(base, sh, ids, r, top, bottom)[bottom - 1 - p := ValOf(base, sh, ids, w)]
  {
  }
}
