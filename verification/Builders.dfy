/** `myBarray`, `myBsexp`, `myBclosure` and `Bstring`: operations that allocate. */
module Builders {
  import opened Words
  import opened Layout
  import opened Options
  import opened ProcessState
  import opened Abstraction
  import opened Settled
  import opened Allocation
  import opened Mutation
  import opened Liveness
  import opened Relocation
  import opened Runtime
  import TagHash
  import S = Semantics

  // ----- myBarray, myBsexp, myBclosure -----------------------------------------------------

  /** Object o with its last fields replaced by vs. */
  ghost function Filled(o: Obj, vs: seq<Val>): Obj
    requires |vs| <= |o.fields|
  {
    o.(fields := o.fields[..|o.fields| - |vs|] + vs)
  }

  /** The machine after the d newest operands have gone into the last fields of object id. */
  ghost function FilledMachine(m: S.Machine, id: nat, d: nat): S.Machine
    requires S.Has(m, d) && id < |m.store| && d <= |m.store[id].fields|
  {
    S.Dropped(m, d).(store := m.store[id := Filled(m.store[id], m.stack[|m.stack| - d..])])
  }

  lemma FilledNone(m: S.Machine, id: nat)
    requires S.Has(m, 0) && id < |m.store|
    ensures FilledMachine(m, id, 0) == m
  {
    assert m.stack[..|m.stack|] == m.stack;
    assert Filled(m.store[id], []) == m.store[id];
  }

  /** One more operand goes into the field before those already filled. */
  lemma FilledMore(m: S.Machine, id: nat, d: nat)
    requires S.Has(m, d + 1) && id < |m.store| && d < |m.store[id].fields|
    ensures var p, o, k := FilledMachine(m, id, d), m.store[id], |m.store[id].fields| - d - 1;
            && S.Has(p, 1) && S.Newest(p, 0) == S.Newest(m, d) && k < |p.store[id].fields|
            && S.Dropped(p, 1).(store := p.store[id := WithField(p.store[id], k, S.Newest(m, d))])
               == FilledMachine(m, id, d + 1)
  {
    var vs, v := m.stack[|m.stack| - d..], S.Newest(m, d);
    assert m.stack[|m.stack| - (d + 1)..] == [v] + vs;
    var o, k := m.store[id], |m.store[id].fields| - d - 1;
    assert WithField(Filled(o, vs), k, v) == Filled(o, [v] + vs);
  }

  /** Field k of object i, seen from the store and from memory. */
  lemma FieldSpot(g: Process, i: nat, k: nat)
    requires Active(g) && i < g.sh.N() && g.ids[i] < |g.store| && k < |g.store[g.ids[i]].fields|
    ensures k < |FieldWords(g.mem[..], g.sh, i)|
  {
    assert g.store[g.ids[i]] == ObjOf(g.mem[..], g.base, g.sh, g.ids, i);
  }

  /** `((int *) r->contents)[...] = w` on the object being filled. */
  method StoreOperand(g: Process, w: Word, a: nat, ghost i: nat, ghost k: nat, ghost v: Val)
    requires Held(g, w, v) && i < g.sh.N() && g.ids[i] < |g.store| && k < |g.store[g.ids[i]].fields|
    requires a == g.sh.lo[i] + k
    modifies g`store, g.mem
    ensures Active(g)
    ensures var m := old(View(g)); View(g) == m.(store := m.store[g.ids[i] := WithField(m.store[g.ids[i]], k, v)])
  {
    FieldSpot(g, i, k);
    WriteField(g, w, a, i, k, v);
  }

  /** One turn of the loops below: pop an operand and store it into field k - 1. */
  method FillOne(g: Process, a: nat, k: nat, ghost m: S.Machine, ghost i: nat, ghost d: nat) returns (ok: bool)
    requires Active(g) && i < g.sh.N() && a == g.sh.lo[i] && S.Has(m, d) && g.ids[i] < |m.store|
    requires d + k == |m.store[g.ids[i]].fields| && 0 < k && View(g) == FilledMachine(m, g.ids[i], d)
    modifies g`top, g`store, g.mem
    ensures ok <==> S.Has(m, d + 1)
    ensures ok ==> Active(g) && View(g) == FilledMachine(m, g.ids[i], d + 1)
  {
    var x := Pop(g);
    ok := x.Some?;
    if ok {
      FilledMore(m, g.ids[i], d);
      StoreOperand(g, x.value, a + (k - 1), i, k - 1, S.Newest(m, d));
    }
  }

  /** The loop that moves the n newest operands into the fields of an object, last field first, so
      that the fields end up in push order. */
  method FillFields(g: Process, a: nat, n: nat, ghost i: nat) returns (ok: bool)
    requires Active(g) && i < g.sh.N() && g.ids[i] < |g.store|
    requires n == |g.store[g.ids[i]].fields| && a == g.sh.lo[i]
    modifies g`top, g`store, g.mem
    ensures ok <==> S.Has(old(View(g)), n)
    ensures ok ==> Active(g) && View(g) == FilledMachine(old(View(g)), g.ids[i], n)
  {
    ghost var m := View(g);
    FilledNone(m, g.ids[i]);
    var k := n;
    ok := true;
    while k > 0
      invariant 0 <= k <= n && g.ids == old(g.ids) && g.sh == old(g.sh) && S.Has(m, n - k)
      invariant Active(g) && View(g) == FilledMachine(m, g.ids[i], n - k)
    {
      ok := FillOne(g, a, k, m, i, n - k);
      if !ok {
        return;
      }
      k := k - 1;
    }
  }

  // ----- the allocating operations ---------------------------------------------------------

  /** The word offset of the newest object and where its fields start. */
  lemma NewestPlace(g: Process, r: Word, h: Word, id: nat)
    requires Active(g) && Newest(g, r, h, id) && id < |g.store|
    ensures var i := g.sh.N() - 1;
            && HeaderAt(g.base, r) == g.sh.st[i] && g.sh.lo[i] == g.sh.st[i] + FieldOffset(h)
    ensures Held(g, r, Ref(id))
  {
    var i := g.sh.N() - 1;
    HeaderAtPtr(g.base, g.sh.st[i], r);
    assert g.sh.Tile(i);
    ValOfPtr(g.base, g.sh, g.ids, r, i);
  }

  /** Filling a new object with n operands is what the abstract machine does. */
  lemma FilledIsGathered(m: S.Machine, h: Word, f: Word, n: nat)
    requires WellTagged(h) && Tag(h) != STRING_TAG && FieldCount(h) == n && S.Has(m, n)
    ensures n == |ZeroObj(h).fields|
    ensures FilledMachine(m.(store := m.store + [ZeroObj(h).(first := f)]), |m.store|, n)
         == S.Dropped(m, n).(store := m.store + [Obj(h, f, m.stack[|m.stack| - n..], [])])
  {
    var vs, z := m.stack[|m.stack| - n..], ZeroObj(h).(first := f);
    assert Filled(z, vs) == Obj(h, f, vs, []);
    assert (m.store + [z])[|m.store| := Obj(h, f, vs, [])] == m.store + [Obj(h, f, vs, [])];
  }

  lemma WordsOf(k: nat)
    ensures BytesToWords(8 + 4 * k) == k + 2
  {
  }

  lemma FieldsOfHeader(h: Word)
    requires WellTagged(h) && Tag(h) != STRING_TAG
    ensures FieldCount(h) == if Tag(h) == CLOSURE_TAG && Len(h) > 0 then Len(h) - 1 else Len(h)
    ensures FieldOffset(h) == if Tag(h) == ARRAY_TAG then 2 else 3
    ensures HasFirst(h) <==> Tag(h) == SEXP_TAG || (Tag(h) == CLOSURE_TAG && Len(h) > 0)
  {
    WordsOf(Len(h));
    WordsOf(Len(h) + 1);
  }

  lemma HeaderParts(tag: nat, len: nat)
    requires tag < 8 && len < MAX_LEN
    ensures Tag(Header(tag, len)) == tag && Len(Header(tag, len)) == len
  {
  }

  /** The new object r of g: header h, first word f, and the operands of m as its fields; the
      operands are gone from the stack of g. */
  ghost predicate Built(g: Process, r: Word, m: S.Machine, h: Word, f: Word, n: nat)
    reads g, g.mem, g.ram
  {
    Held(g, r, Ref(|m.store|)) && S.Gathered(m, h, f, n) == S.Done(S.Push(View(g), Ref(|m.store|)))
  }

  /** The state after the allocation and before the loop. */
  ghost predicate Empty(g: Process, r: Word, m: S.Machine, h: Word, f: Word)
    reads g, g.mem, g.ram
  {
    && Active(g) && WellTagged(h) && Tag(h) != STRING_TAG && Newest(g, r, h, |m.store|)
    && View(g) == m.(store := m.store + [ZeroObj(h).(first := f)])
  }

  /** `alloc_array`, `alloc_sexp` and `alloc_closure`: where the object is, and the address of its
      contents. */
  method NewObject(g: Process, h: Word) returns (ok: bool, obj: nat, r: Word)
    requires Active(g) && WellTagged(h) && Tag(h) != STRING_TAG
    modifies g`base, g`mem, g`current, g`calls, g`sh, g`ids, g`store, g.mem, g.ram
    ensures ok ==> Served(g, old(LiveOf(g)), ObjWords(h)) && Empty(g, r, old(View(g)), h, 0)
    ensures ok ==> obj == HeaderAt(g.base, r)
    ensures !ok ==> Denied(g, old(LiveOf(g)), ObjWords(h))
  {
    ghost var id := |g.store|;
    var p := AllocObject(g, h);
    ok, obj, r := p.Some?, 0, 0;
    if ok {
      r := p.value;
      NewestPlace(g, r, h, id);
      obj := HeaderAt(g.base, r);
    }
  }

  /** The loop of the three functions: the operands become the fields. */
  method TakeOperands(g: Process, r: Word, a: nat, n: nat, ghost m: S.Machine, ghost h: Word, ghost f: Word)
    returns (ok: bool)
    requires Empty(g, r, m, h, f) && FieldCount(h) == n && a == HeaderAt(g.base, r) + FieldOffset(h)
    modifies g`top, g`store, g.mem
    ensures ok <==> S.Has(m, n)
    ensures ok ==> Built(g, r, m, h, f, n) && Newest(g, r, h, |m.store|)
  {
    NewestPlace(g, r, h, |m.store|);
    ok := FillFields(g, a, n, g.sh.N() - 1);
    if ok {
      FilledIsGathered(m, h, f, n);
      NewestPlace(g, r, h, |m.store|);
    }
  }

  /** The code offset of a closure, or the tag of an s-expression, of the object just allocated. */
  method SetFirst(g: Process, r: Word, f: Word, ghost m: S.Machine, ghost h: Word)
    requires Empty(g, r, m, h, 0) && HasFirst(h)
    modifies g`store, g.mem
    ensures Empty(g, r, m, h, f)
  {
    NewestPlace(g, r, h, |m.store|);
    WriteFirst(g, f, g.sh.N() - 1, HeaderAt(g.base, r) + 2);
  }

  /** A new object whose first word is f. */
  method NewTagged(g: Process, h: Word, f: Word) returns (ok: bool, obj: nat, r: Word)
    requires Active(g) && WellTagged(h) && Tag(h) != STRING_TAG && HasFirst(h)
    modifies g`base, g`mem, g`current, g`calls, g`sh, g`ids, g`store, g.mem, g.ram
    ensures ok ==> Served(g, old(LiveOf(g)), ObjWords(h)) && Empty(g, r, old(View(g)), h, f)
    ensures ok ==> obj == HeaderAt(g.base, r)
    ensures !ok ==> Denied(g, old(LiveOf(g)), ObjWords(h))
  {
    ghost var m := View(g);
    ok, obj, r := NewObject(g, h);
    if ok {
      SetFirst(g, r, f, m, h);
    }
  }

  /** The tag of an s-expression whose fields have been filled. */
  method SetTag(g: Process, r: Word, f: Word, ghost m: S.Machine, ghost h: Word, ghost n: nat)
    requires Built(g, r, m, h, 0, n) && Newest(g, r, h, |m.store|) && HasFirst(h)
    modifies g`store, g.mem
    ensures Built(g, r, m, h, f, n)
  {
    NewestPlace(g, r, h, |m.store|);
    WriteFirst(g, f, g.sh.N() - 1, HeaderAt(g.base, r) + 2);
    NewestPlace(g, r, h, |m.store|);
  }

  /** The loop and the tag of an s-expression, which `LtagHash` may refuse. */
  method TakeAndTag(g: Process, r: Word, a: nat, tag: string, n: nat, ghost m: S.Machine, ghost h: Word,
                    ghost code: Option<Word>)
    returns (ok: bool)
    requires code == TagHash.TagCode(tag)
    requires Empty(g, r, m, h, 0) && FieldCount(h) == n && a == HeaderAt(g.base, r) + FieldOffset(h) && HasFirst(h)
    modifies g`top, g`store, g.mem
    ensures ok <==> S.Has(m, n) && code.Some?
    ensures ok ==> Built(g, r, m, h, code.value, n)
  {
    ok := TakeOperands(g, r, a, n, m, h, 0);
    if !ok {
      return;
    }
    var c := TagHash.UnboxedHash(tag);
    ok := c.Some?;
    if ok {
      SetTag(g, r, c.value, m, h, n);
    }
  }

  /** The body of `myBarray` for the header h. */
  method ArrayFrom(g: Process, h: Word, n: nat) returns (st: Status, r: Word)
    requires Active(g) && WellTagged(h) && Tag(h) == ARRAY_TAG && FieldCount(h) == n && FieldOffset(h) == 2
    modifies g`base, g`mem, g`current, g`calls, g`sh, g`ids, g`store, g`top, g.mem, g.ram
    ensures st.Running? ==> Built(g, r, old(View(g)), h, 0, n)
    ensures st.Error? ==> !S.Has(old(View(g)), n)
    ensures st.OutOfMemory? ==> Denied(g, old(LiveOf(g)), ObjWords(h))
    ensures !st.Overflow? && (st.Running? ==> Served(g, old(LiveOf(g)), ObjWords(h)))
  {
    ghost var m := View(g);
    var ok, obj;
    ok, obj, r := NewObject(g, h);
    if ok {
      ok := TakeOperands(g, r, obj + 2, n, m, h, 0);
      st := if ok then Running else Error;
    } else {
      st, r := OutOfMemory, 0;
    }
  }

  /** The body of `myBsexp`: the tag is written when the operands have been taken. */
  method SexpFrom(g: Process, h: Word, tag: string, n: nat, ghost code: Option<Word>) returns (st: Status, r: Word)
    requires Active(g) && WellTagged(h) && Tag(h) == SEXP_TAG && HasFirst(h) && FieldCount(h) == n
    requires FieldOffset(h) == 3 && code == TagHash.TagCode(tag)
    modifies g`base, g`mem, g`current, g`calls, g`sh, g`ids, g`store, g`top, g.mem, g.ram
    ensures st.Running? ==> code.Some? && Built(g, r, old(View(g)), h, code.value, n)
    ensures st.Error? ==> !(S.Has(old(View(g)), n) && code.Some?)
    ensures st.OutOfMemory? ==> Denied(g, old(LiveOf(g)), ObjWords(h))
    ensures !st.Overflow? && (st.Running? ==> Served(g, old(LiveOf(g)), ObjWords(h)))
  {
    ghost var m := View(g);
    var ok, obj;
    ok, obj, r := NewObject(g, h);
    if ok {
      ok := TakeAndTag(g, r, obj + 3, tag, n, m, h, code);
      st := if ok then Running else Error;
    } else {
      st, r := OutOfMemory, 0;
    }
  }

  /** The body of `myBclosure`: the code offset is written before the operands are taken. */
  method ClosureFrom(g: Process, h: Word, addr: Word, n: nat) returns (st: Status, r: Word)
    requires Active(g) && WellTagged(h) && Tag(h) == CLOSURE_TAG && HasFirst(h) && FieldCount(h) == n
    requires FieldOffset(h) == 3
    modifies g`base, g`mem, g`current, g`calls, g`sh, g`ids, g`store, g`top, g.mem, g.ram
    ensures st.Running? ==> Built(g, r, old(View(g)), h, addr, n)
    ensures st.Error? ==> !S.Has(old(View(g)), n)
    ensures st.OutOfMemory? ==> Denied(g, old(LiveOf(g)), ObjWords(h))
    ensures !st.Overflow? && (st.Running? ==> Served(g, old(LiveOf(g)), ObjWords(h)))
  {
    ghost var m := View(g);
    var ok, obj;
    ok, obj, r := NewTagged(g, h, addr);
    if ok {
      ok := TakeOperands(g, r, obj + 3, n, m, h, addr);
      st := if ok then Running else Error;
    } else {
      st, r := OutOfMemory, 0;
    }
  }

  /** `myBarray` */
  method MyArray(g: Process, n: nat) returns (st: Status, r: Word)
    requires Active(g) && n + 1 < MAX_LEN
    modifies g`base, g`mem, g`current, g`calls, g`sh, g`ids, g`store, g`top, g.mem, g.ram
    ensures st.Running? ==> Built(g, r, old(View(g)), Header(ARRAY_TAG, n), 0, n)
    ensures st.Error? ==> !S.Has(old(View(g)), n)
    ensures st.OutOfMemory? ==> Denied(g, old(LiveOf(g)), ObjWords(Header(ARRAY_TAG, n)))
    ensures !st.Overflow? && (st.Running? ==> Served(g, old(LiveOf(g)), ObjWords(Header(ARRAY_TAG, n))))
  {
    HeaderParts(ARRAY_TAG, n);
    FieldsOfHeader(Header(ARRAY_TAG, n));
    st, r := ArrayFrom(g, Header(ARRAY_TAG, n), n);
  }

  /** `myBsexp` */
  method MySexp(g: Process, tag: string, n: nat) returns (st: Status, r: Word)
    requires Active(g) && n + 1 < MAX_LEN
    modifies g`base, g`mem, g`current, g`calls, g`sh, g`ids, g`store, g`top, g.mem, g.ram
    ensures st.Running? ==> TagHash.TagCode(tag).Some?
    ensures st.Running? ==> Built(g, r, old(View(g)), Header(SEXP_TAG, n), TagHash.TagCode(tag).value, n)
    ensures st.Error? ==> !(S.Has(old(View(g)), n) && TagHash.TagCode(tag).Some?)
    ensures st.OutOfMemory? ==> Denied(g, old(LiveOf(g)), ObjWords(Header(SEXP_TAG, n)))
    ensures !st.Overflow? && (st.Running? ==> Served(g, old(LiveOf(g)), ObjWords(Header(SEXP_TAG, n))))
  {
    HeaderParts(SEXP_TAG, n);
    FieldsOfHeader(Header(SEXP_TAG, n));
    st, r := SexpFrom(g, Header(SEXP_TAG, n), tag, n, TagHash.TagCode(tag));
  }

  /** `myBclosure` */
  method MyClosure(g: Process, addr: Word, n: nat) returns (st: Status, r: Word)
    requires Active(g) && n + 1 < MAX_LEN
    modifies g`base, g`mem, g`current, g`calls, g`sh, g`ids, g`store, g`top, g.mem, g.ram
    ensures st.Running? ==> Built(g, r, old(View(g)), Header(CLOSURE_TAG, n + 1), addr, n)
    ensures st.Error? ==> !S.Has(old(View(g)), n)
    ensures st.OutOfMemory? ==> Denied(g, old(LiveOf(g)), ObjWords(Header(CLOSURE_TAG, n + 1)))
    ensures !st.Overflow? && (st.Running? ==> Served(g, old(LiveOf(g)), ObjWords(Header(CLOSURE_TAG, n + 1))))
  {
    HeaderParts(CLOSURE_TAG, n + 1);
    FieldsOfHeader(Header(CLOSURE_TAG, n + 1));
    st, r := ClosureFrom(g, Header(CLOSURE_TAG, n + 1), addr, n);
  }

  // ----- strings ---------------------------------------------------------------------------

  const MAX_EXTRA_ROOTS_NUMBER: nat := 32

  /** `push_extra_root` */
  method PushExtraRoot(g: Process, p: nat) returns (ok: bool)
    requires Ready(g) && p < g.ram.Length && p != g.top && p != g.bottom && p !in g.extra
    requires Good(g.base, g.sh, g.outside, g.ram[p])
    modifies g`extra
    ensures Ready(g) && (ok <==> |old(g.extra)| < MAX_EXTRA_ROOTS_NUMBER)
    ensures g.extra == (if ok then old(g.extra) + [p] else old(g.extra)) && Stack(g) == old(Stack(g))
  {
    ok := |g.extra| < MAX_EXTRA_ROOTS_NUMBER;
    if ok {
      g.extra := g.extra + [p];
    }
  }

  /** `pop_extra_root`: the slot must be the one registered last. */
  method PopExtraRoot(g: Process, p: nat) returns (ok: bool)
    requires Ready(g)
    modifies g`extra
    ensures Ready(g) && (ok <==> old(g.extra) != [] && old(g.extra)[|old(g.extra)| - 1] == p)
    ensures g.extra == (if ok then old(g.extra)[..|old(g.extra)| - 1] else old(g.extra)) && Stack(g) == old(Stack(g))
  {
    ok := g.extra != [] && g.extra[|g.extra| - 1] == p;
    if ok {
      g.extra := g.extra[..|g.extra| - 1];
    }
  }

  /** The parameter of `Bstring` is put into its slot, below the operand array. */
  method SetLocal(g: Process, w: Word)
    requires Active(g) && Good(g.base, g.sh, g.outside, w)
    modifies g.ram
    ensures Active(g) && Stack(g) == old(Stack(g))
    ensures g.local < g.ram.Length && g.ram[g.local] == w && Good(g.base, g.sh, g.outside, g.ram[g.local])
  {
    ghost var r := g.ram[..];
    g.ram[g.local] := w;
    assert StackOf(g.base, g.sh, g.ids, g.ram[..], g.top, g.bottom) == StackOf(g.base, g.sh, g.ids, r, g.top, g.bottom);
  }

  /** Inside `Bstring`: the slot that holds the literal is the only extra root. */
  ghost predicate Rooted(g: Process, literal: Word)
    reads g, g.mem, g.ram
  {
    && Ready(g) && g.extra == [g.local] && g.local < g.floor <= g.top <= g.stackBegin < g.bottom
    && g.ram[g.local] == literal && (Unboxed(literal) || g.outside(literal))
  }

  method RegisterLocal(g: Process)
    requires Active(g) && g.local < g.ram.Length && Good(g.base, g.sh, g.outside, g.ram[g.local])
    modifies g`extra
    ensures Ready(g) && g.extra == [g.local] && Stack(g) == old(Stack(g))
  {
    var ok := PushExtraRoot(g, g.local);
    assert ok;
  }

  /** What the registered literal denotes is itself, before and after a collection. */
  lemma LiteralDenoted(g: Process, literal: Word)
    requires Rooted(g, literal)
    ensures Extras(g) == [Imm(literal)]
  {
    ValOfImm(g.base, g.sh, g.ids, literal);
    assert Gather(g.ram[..], g.extra) == [literal];
  }

  method RegisterLiteral(g: Process, literal: Word)
    requires Active(g) && (Unboxed(literal) || g.outside(literal))
    modifies g`extra, g.ram
    ensures Rooted(g, literal) && Stack(g) == old(Stack(g)) && LiveOf(g) == old(LiveOf(g))
  {
    ghost var vs := Stack(g) + Extras(g);
    SetLocal(g, literal);
    RegisterLocal(g);
    LiteralDenoted(g, literal);
    LiteralAddsNothing(g.store, vs, Stack(g) + Extras(g));
  }

  /** Values that are no references reach nothing. */
  lemma LiteralAddsNothing(store: seq<Obj>, vs: seq<Val>, vs': seq<Val>)
    requires forall v: Val :: v.Ref? ==> (v in vs <==> v in vs')
    ensures LiveWords(store, vs, |store|) == LiveWords(store, vs', |store|)
  {
    LiveWordsAmong(store, vs, vs', |store|);
    LiveWordsAmong(store, vs', vs, |store|);
  }

  lemma LiteralKept(g: Process, literal: Word)
    requires Ready(g) && g.extra == [g.local] && g.local < g.ram.Length && Extras(g) == [Imm(literal)]
    ensures g.ram[g.local] == literal
  {
    var ws := Gather(g.ram[..], g.extra);
    assert |ws| == 1 && ws[0] == g.ram[g.local];
    assert Extras(g)[0] == ValOf(g.base, g.sh, g.ids, ws[0]);
  }

  method AllocRooted(g: Process, h: Word, ghost literal: Word) returns (r: Option<Word>)
    requires Rooted(g, literal) && WellTagged(h)
    modifies g`base, g`mem, g`current, g`calls, g`sh, g`ids, g`store, g.mem, g.ram
    ensures r.Some? ==> Rooted(g, literal) && Served(g, old(LiveOf(g)), ObjWords(h))
    ensures r.Some? ==> Newest(g, r.value, h, |old(g.store)|)
    ensures r.Some? ==> g.store == old(g.store) + [ZeroObj(h)] && Stack(g) == old(Stack(g))
    ensures r.None? ==> Denied(g, old(LiveOf(g)), ObjWords(h))
  {
    LiteralDenoted(g, literal);
    r := AllocObject(g, h);
    if r.Some? {
      LiteralKept(g, literal);
    }
  }

  method UnregisterLiteral(g: Process, ghost literal: Word)
    requires Rooted(g, literal)
    modifies g`extra
    ensures Active(g) && Stack(g) == old(Stack(g)) && g.ram[g.local] == literal
  {
    var ok := PopExtraRoot(g, g.local);
    assert ok && g.extra == [];
  }

  /** `alloc_string` and `pop_extra_root` */
  method AllocString(g: Process, h: Word, ghost literal: Word) returns (r: Option<Word>)
    requires Rooted(g, literal) && WellTagged(h)
    modifies g`base, g`mem, g`current, g`calls, g`sh, g`ids, g`store, g`extra, g.mem, g.ram
    ensures r.Some? ==> Active(g) && Served(g, old(LiveOf(g)), ObjWords(h)) && Newest(g, r.value, h, |old(g.store)|)
    ensures r.Some? ==> g.store == old(g.store) + [ZeroObj(h)] && Stack(g) == old(Stack(g)) && g.ram[g.local] == literal
    ensures r.None? ==> Denied(g, old(LiveOf(g)), ObjWords(h))
  {
    r := AllocRooted(g, h, literal);
    if r.Some? {
      UnregisterLiteral(g, literal);
    }
  }

  /** `push_extra_root`, `alloc_string`, `pop_extra_root` */
  method NewString(g: Process, h: Word, literal: Word) returns (ok: bool, obj: nat, r: Word)
    requires Active(g) && WellTagged(h) && (Unboxed(literal) || g.outside(literal))
    modifies g`base, g`mem, g`current, g`calls, g`sh, g`ids, g`store, g`extra, g.mem, g.ram
    ensures ok ==> Active(g) && Served(g, old(LiveOf(g)), ObjWords(h)) && Newest(g, r, h, |old(g.store)|)
    ensures ok ==> View(g) == old(View(g)).(store := old(g.store) + [ZeroObj(h)])
    ensures ok ==> g.ram[g.local] == literal && obj == HeaderAt(g.base, r)
    ensures !ok ==> Denied(g, old(LiveOf(g)), ObjWords(h))
  {
    ghost var m := View(g);
    RegisterLiteral(g, literal);
    var p := AllocString(g, h, literal);
    ok, obj, r := p.Some?, 0, 0;
    if ok {
      r := p.value;
      NewestPlace(g, r, h, |m.store|);
      obj := HeaderAt(g.base, r);
    }
  }

  /** o after the first k bytes of src have been copied over its own. */
  ghost function Copying(o: Obj, src: seq<nat>, k: nat): Obj
    requires k <= |src| == |o.bytes|
  {
    o.(bytes := src[..k] + o.bytes[k..])
  }

  lemma CopiedMore(o: Obj, src: seq<nat>, k: nat)
    requires k < |src| == |o.bytes|
    ensures k < |Copying(o, src, k).bytes| && WithByteAt(Copying(o, src, k), k, src[k]) == Copying(o, src, k + 1)
  {
  }

  lemma CopiedAll(o: Obj, src: seq<nat>)
    requires |src| == |o.bytes|
    ensures Copying(o, src, 0) == o && Copying(o, src, |src|) == o.(bytes := src)
  {
  }

  /** `strncpy(contents, p, n + 1)` where src is the C string at p with its final 0. */
  method CopyBytes(g: Process, a: nat, src: seq<nat>, ghost i: nat)
    requires Ready(g) && i < g.sh.N() && Tag(g.sh.hd[i]) == STRING_TAG && |src| == Len(g.sh.hd[i]) + 1
    requires a == g.sh.st[i] + 2 && g.ids[i] < |g.store| && |g.store[g.ids[i]].bytes| == |src|
    requires forall k :: 0 <= k < |src| ==> src[k] < 256
    modifies g`store, g.mem
    ensures Ready(g)
    ensures var id := g.ids[i]; g.store == old(g.store)[id := old(g.store)[id].(bytes := src)]
  {
    ghost var s := g.store;
    ghost var o := s[g.ids[i]];
    CopiedAll(o, src);
    var j := 0;
    while j < |src|
      invariant j <= |src| && Ready(g) && g.sh == old(g.sh) && g.ids == old(g.ids)
      invariant g.store == s[g.ids[i] := Copying(o, src, j)]
    {
      CopiedMore(o, src, j);
      WriteByte(g, j, src[j], a, i);
      j := j + 1;
    }
  }

  lemma StringBuilt(store: seq<Obj>, h: Word, src: seq<nat>)
    requires Tag(h) == STRING_TAG && Len(h) + 1 == |src|
    ensures |ZeroObj(h).bytes| == |src|
    ensures (store + [ZeroObj(h)])[|store| := ZeroObj(h).(bytes := src)] == store + [Obj(h, 0, [], src)]
  {
    assert FieldCount(h) == 0;
    assert ZeroObj(h).(bytes := src) == Obj(h, 0, [], src);
  }

  /** The new string gets its bytes. */
  method FillString(g: Process, obj: nat, r: Word, src: seq<nat>, ghost m: S.Machine, ghost h: Word)
    requires Active(g) && Newest(g, r, h, |m.store|) && obj == HeaderAt(g.base, r)
    requires Tag(h) == STRING_TAG && Len(h) + 1 == |src| && View(g) == m.(store := m.store + [ZeroObj(h)])
    requires forall k :: 0 <= k < |src| ==> src[k] < 256
    modifies g`store, g.mem
    ensures Held(g, r, Ref(|m.store|)) && View(g) == m.(store := m.store + [Obj(h, 0, [], src)])
  {
    NewestPlace(g, r, h, |m.store|);
    StringBuilt(m.store, h, src);
    CopyBytes(g, obj + 2, src, g.sh.N() - 1);
    NewestPlace(g, r, h, |m.store|);
  }

  /** The body of `Bstring` for the header h. */
  method StringFrom(g: Process, h: Word, text: seq<nat>, literal: Word) returns (st: Status, r: Word)
    requires Active(g) && S.WellFormed(S.Str(text, literal)) && (Unboxed(literal) || g.outside(literal))
    requires h == Header(STRING_TAG, |text|) && Tag(h) == STRING_TAG && Len(h) == |text|
    modifies g`base, g`mem, g`current, g`calls, g`sh, g`ids, g`store, g`extra, g.mem, g.ram
    ensures st.Running? ==> Held(g, r, Ref(|old(g.store)|)) && g.ram[g.local] == literal
    ensures st.Running? ==> Served(g, old(LiveOf(g)), ObjWords(h))
    ensures st.Running? ==> S.StrStep(old(View(g)), text) == S.Done(S.Push(View(g), Ref(|old(g.store)|)))
    ensures st.Running? || (st.OutOfMemory? && Denied(g, old(LiveOf(g)), ObjWords(h)))
  {
    ghost var m := View(g);
    var ok, obj;
    ok, obj, r := NewString(g, h, literal);
    st := if ok then Running else OutOfMemory;
    if ok {
      FillString(g, obj, r, text + [0], m, h);
    }
  }

  /** `Bstring`: the text is read through the slot after the collection that may have happened. */
  method BString(g: Process, text: seq<nat>, literal: Word) returns (st: Status, r: Word)
    requires Active(g) && S.WellFormed(S.Str(text, literal)) && (Unboxed(literal) || g.outside(literal))
    modifies g`base, g`mem, g`current, g`calls, g`sh, g`ids, g`store, g`extra, g.mem, g.ram
    ensures st.Running? ==> Held(g, r, Ref(|old(g.store)|)) && g.ram[g.local] == literal
    ensures st.Running? ==> Served(g, old(LiveOf(g)), ObjWords(Header(STRING_TAG, |text|)))
    ensures st.Running? ==> S.StrStep(old(View(g)), text) == S.Done(S.Push(View(g), Ref(|old(g.store)|)))
    ensures st.Running? || (st.OutOfMemory? && Denied(g, old(LiveOf(g)), ObjWords(Header(STRING_TAG, |text|))))
  {
    UnboxBox(|text|);
    HeaderParts(STRING_TAG, |text|);
    st, r := StringFrom(g, Header(STRING_TAG, Unbox(Box(|text|))), text, literal);
  }

  /** `CALL Barray` */
  method VisitArray(g: Process, n: nat) returns (st: Status)
    requires Active(g) && n + 1 < MAX_LEN
    modifies g`base, g`mem, g`current, g`calls, g`sh, g`ids, g`store, g`top, g.mem, g.ram
    ensures st.Running? ==> Active(g) && S.Gathered(old(View(g)), Header(ARRAY_TAG, n), 0, n) == S.Done(View(g))
    ensures st.Error? ==> S.Gathered(old(View(g)), Header(ARRAY_TAG, n), 0, n) == S.Exit
    ensures st.Overflow? ==> Exceeds(g, S.Gathered(old(View(g)), Header(ARRAY_TAG, n), 0, n))
    ensures st.OutOfMemory? ==> Denied(g, old(LiveOf(g)), ObjWords(Header(ARRAY_TAG, n)))
    ensures st.Running? ==> Served(g, old(LiveOf(g)), ObjWords(Header(ARRAY_TAG, n)))
  {
    ghost var m := View(g);
    var r;
    st, r := MyArray(g, n);
    if st.Running? {
      st := PushHeld(g, r, Ref(|m.store|), S.Gathered(m, Header(ARRAY_TAG, n), 0, n));
    }
  }

  /** `SEXP` */
  method VisitSexp(g: Process, tag: string, n: nat) returns (st: Status)
    requires Active(g) && n + 1 < MAX_LEN
    modifies g`base, g`mem, g`current, g`calls, g`sh, g`ids, g`store, g`top, g.mem, g.ram
    ensures st.Running? ==> Active(g) && S.SexpStep(old(View(g)), tag, n) == S.Done(View(g))
    ensures st.Error? ==> S.SexpStep(old(View(g)), tag, n) == S.Exit
    ensures st.Overflow? ==> Exceeds(g, S.SexpStep(old(View(g)), tag, n))
    ensures st.OutOfMemory? ==> Denied(g, old(LiveOf(g)), ObjWords(Header(SEXP_TAG, n)))
    ensures st.Running? ==> Served(g, old(LiveOf(g)), ObjWords(Header(SEXP_TAG, n)))
  {
    ghost var m := View(g);
    var r;
    st, r := MySexp(g, tag, n);
    if st.Running? {
      st := PushHeld(g, r, Ref(|m.store|), S.SexpStep(m, tag, n));
    }
  }

  /** `CLOSURE`, when its captured values are on the stack */
  method VisitClosure(g: Process, addr: Word, n: nat) returns (st: Status)
    requires Active(g) && n + 1 < MAX_LEN
    modifies g`base, g`mem, g`current, g`calls, g`sh, g`ids, g`store, g`top, g.mem, g.ram
    ensures st.Running? ==> Active(g)
    ensures st.Running? ==> S.Gathered(old(View(g)), Header(CLOSURE_TAG, n + 1), addr, n) == S.Done(View(g))
    ensures st.Error? ==> S.Gathered(old(View(g)), Header(CLOSURE_TAG, n + 1), addr, n) == S.Exit
    ensures st.Overflow? ==> Exceeds(g, S.Gathered(old(View(g)), Header(CLOSURE_TAG, n + 1), addr, n))
    ensures st.OutOfMemory? ==> Denied(g, old(LiveOf(g)), ObjWords(Header(CLOSURE_TAG, n + 1)))
    ensures st.Running? ==> Served(g, old(LiveOf(g)), ObjWords(Header(CLOSURE_TAG, n + 1)))
  {
    ghost var m := View(g);
    var r;
    st, r := MyClosure(g, addr, n);
    if st.Running? {
      st := PushHeld(g, r, Ref(|m.store|), S.Gathered(m, Header(CLOSURE_TAG, n + 1), addr, n));
    }
  }

  /** `STRING` */
  method VisitStr(g: Process, text: seq<nat>, literal: Word) returns (st: Status)
    requires Active(g) && S.WellFormed(S.Str(text, literal)) && (Unboxed(literal) || g.outside(literal))
    modifies g`base, g`mem, g`current, g`calls, g`sh, g`ids, g`store, g`extra, g`top, g.mem, g.ram
    ensures st.Running? ==> Active(g) && S.StrStep(old(View(g)), text) == S.Done(View(g))
    ensures !st.Error? && (st.Overflow? ==> Exceeds(g, S.StrStep(old(View(g)), text)))
    ensures st.OutOfMemory? ==> Denied(g, old(LiveOf(g)), ObjWords(Header(STRING_TAG, |text|)))
    ensures st.Running? ==> Served(g, old(LiveOf(g)), ObjWords(Header(STRING_TAG, |text|)))
  {
    ghost var m := View(g);
    var r;
    st, r := BString(g, text, literal);
    if st.Running? {
      st := PushHeld(g, r, Ref(|m.store|), S.StrStep(m, text));
    }
  }
}
