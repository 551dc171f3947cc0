/** Stores into objects, and loads from them, as the program sees them. */
module Mutation {
  import opened Words
  import opened Layout
  import opened ProcessState
  import opened Abstraction
  import opened Relocation
  import opened Settled
  import opened Allocation

  /** m' is m except for content words of object i. */
  ghost predicate SameOutside(m: seq<Word>, m': seq<Word>, sh: Shape, i: nat)
    requires sh.Valid() && i < sh.N()
  {
    |m'| == |m| && forall a :: 0 <= a < |m| && (a < sh.st[i] + 2 || sh.st[i + 1] <= a) ==> m'[a] == m[a]
  }

  /** Writing the contents of one object touches no other object and no header. */
  lemma OthersKept(m: seq<Word>, m': seq<Word>, base: nat, sh: Shape, ids: seq<nat>, i: nat)
    requires sh.Valid() && Fits(m, sh) && i < sh.N() && |ids| == sh.N() && SameOutside(m, m', sh, i)
    ensures Fits(m', sh) && BitsOf(m', sh) == BitsOf(m, sh)
    ensures forall k :: 0 <= k < sh.N() && k != i ==> ObjOf(m', base, sh, ids, k) == ObjOf(m, base, sh, ids, k)
  {
    sh.AllOrdered();
    forall k | 0 <= k < sh.N() ensures m'[sh.st[k]] == m[sh.st[k]] && m'[sh.st[k] + 1] == m[sh.st[k] + 1] {
      HeaderElsewhere(sh, i, k);
    }
    BitsFrame(m, m', sh, sh.N());
    forall k | 0 <= k < sh.N() && k != i ensures ObjOf(m', base, sh, ids, k) == ObjOf(m, base, sh, ids, k) {
      Elsewhere(sh, i, k);
      SameObject(m, m', base, sh, ids, k);
    }
  }

  lemma Elsewhere(sh: Shape, i: nat, k: nat)
    requires sh.Valid() && i < sh.N() && k < sh.N() && k != i
    ensures sh.st[k + 1] <= sh.st[i] || sh.st[i + 1] <= sh.st[k]
  {
    if k < i {
      sh.Ordered(k, i);
    } else {
      sh.Ordered(i, k);
    }
  }

  lemma HeaderElsewhere(sh: Shape, i: nat, k: nat)
    requires sh.Valid() && i < sh.N() && k < sh.N()
    ensures sh.st[k] + 1 < sh.st[i] + 2 || sh.st[i + 1] <= sh.st[k]
  {
    if k != i {
      Elsewhere(sh, i, k);
      sh.Ordered(k, k + 1);
    }
  }

  /** The store after object ids[i] has become o. */
  lemma StoreUpdated(m: seq<Word>, m': seq<Word>, base: nat, sh: Shape, ids: seq<nat>, store: seq<Obj>, i: nat)
    requires sh.Valid() && Fits(m, sh) && i < sh.N() && SameOutside(m, m', sh, i)
    requires Represents(m, base, sh, ids, store)
    ensures Fits(m', sh) && BitsOf(m', sh) == BitsOf(m, sh)
    ensures ids[i] < |store| && Represents(m', base, sh, ids, store[ids[i] := ObjOf(m', base, sh, ids, i)])
  {
    OthersKept(m, m', base, sh, ids, i);
    var store' := store[ids[i] := ObjOf(m', base, sh, ids, i)];
    forall k | 0 <= k < sh.N() ensures ids[k] < |store'| && store'[ids[k]] == ObjOf(m', base, sh, ids, k) {
      if k != i {
        assert ids[k] != ids[i];
        assert store[ids[k]] == ObjOf(m, base, sh, ids, k);
      }
    }
  }

  /** Writing field d of object i. */
  lemma FieldWritten(m: seq<Word>, base: nat, sh: Shape, ids: seq<nat>, i: nat, d: nat, w: Word)
    requires sh.Valid() && Fits(m, sh) && i < sh.N() && |ids| == sh.N() && d < |FieldWords(m, sh, i)|
    ensures sh.st[i] + 2 <= sh.lo[i] + d < sh.st[i + 1] <= |m|
    ensures var o := ObjOf(m, base, sh, ids, i);
            ObjOf(m[sh.lo[i] + d := w], base, sh, ids, i) == o.(fields := o.fields[d := ValOf(base, sh, ids, w)])
  {
    var m' := m[sh.lo[i] + d := w];
    FieldWordAt(m, sh, i, d);
    sh.FieldsAreWords(i);
    if HasFirst(sh.hd[i]) {
      FirstInside(sh, i);
    }
    assert FieldWords(m', sh, i) == FieldWords(m, sh, i)[d := w];
    NoString(sh, i);
    assert StringBytes(m', sh, i) == StringBytes(m, sh, i);
  }

  /** Objects with fields are not strings. */
  lemma NoString(sh: Shape, i: nat)
    requires sh.Valid() && i < sh.N() && sh.lo[i] < sh.st[i + 1]
    ensures Tag(sh.hd[i]) != STRING_TAG
  {
    assert sh.Tile(i);
  }

  ghost function WithField(o: Obj, d: nat, v: Val): Obj
    requires d < |o.fields|
  {
    o.(fields := o.fields[d := v])
  }

  ghost predicate WritesBelow(m: seq<Word>, m': seq<Word>, sh: Shape)
    requires sh.Valid() && Fits(m, sh)
  {
    Fits(m', sh) && BitsOf(m', sh) == BitsOf(m, sh) && |m'| == |m|
  }

  lemma FieldStored(m: seq<Word>, base: nat, sh: Shape, ids: seq<nat>, store: seq<Obj>, outside: Word -> bool,
                    i: nat, d: nat, w: Word)
    requires sh.Valid() && Fits(m, sh) && i < sh.N() && Represents(m, base, sh, ids, store)
    requires FieldsGood(m, base, sh, outside)
    requires d < |FieldWords(m, sh, i)| && Good(base, sh, outside, w)
    ensures sh.lo[i] + d < |m| && ids[i] < |store| && d < |store[ids[i]].fields|
    ensures var m' := m[sh.lo[i] + d := w];
            && WritesBelow(m, m', sh) && FieldsGood(m', base, sh, outside)
            && Represents(m', base, sh, ids, store[ids[i] := WithField(store[ids[i]], d, ValOf(base, sh, ids, w))])
  {
    FieldWritten(m, base, sh, ids, i, d, w);
    assert store[ids[i]] == ObjOf(m, base, sh, ids, i);
    StoreUpdated(m, m[sh.lo[i] + d := w], base, sh, ids, store, i);
    FieldsStayGood(m, base, sh, outside, sh.lo[i] + d, w);
  }

  /** A store into the contents of an object: the store afterwards is `store`. */
  method WriteWord(g: Process, a: nat, w: Word, ghost store: seq<Obj>)
    requires Ready(g) && a < g.mem.Length
    requires WritesBelow(g.mem[..], g.mem[..][a := w], g.sh) && FieldsGood(g.mem[..][a := w], g.base, g.sh, g.outside)
    requires Represents(g.mem[..][a := w], g.base, g.sh, g.ids, store)
    modifies g`store, g.mem
    ensures Ready(g) && g.store == store
  {
    ghost var m := g.mem[..];
    g.mem[a] := w;
    assert g.mem[..] == m[a := w];
    g.store := store;
  }

  /** `((int *) contents)[...] = v` */
  method WriteField(g: Process, w: Word, a: nat, ghost i: nat, ghost d: nat, ghost v: Val)
    requires Ready(g) && i < g.sh.N() && d < |FieldWords(g.mem[..], g.sh, i)| && a == g.sh.lo[i] + d
    requires Good(g.base, g.sh, g.outside, w) && v == ValOf(g.base, g.sh, g.ids, w)
    modifies g`store, g.mem
    ensures Ready(g)
    ensures g.ids[i] < |old(g.store)| && d < |old(g.store)[g.ids[i]].fields|
    ensures g.store == old(g.store)[g.ids[i] := WithField(old(g.store)[g.ids[i]], d, v)]
  {
    FieldStored(g.mem[..], g.base, g.sh, g.ids, g.store, g.outside, i, d, w);
    WriteWord(g, a, w, g.store[g.ids[i] := WithField(g.store[g.ids[i]], d, v)]);
  }

  lemma FieldsStayGood(m: seq<Word>, base: nat, sh: Shape, outside: Word -> bool, a: nat, w: Word)
    requires sh.Valid() && FieldsGood(m, base, sh, outside) && a < |m| && Good(base, sh, outside, w)
    ensures FieldsGood(m[a := w], base, sh, outside)
  {
    forall i: nat, b: nat | b < |m| && IsField(sh, i, b) ensures Good(base, sh, outside, m[a := w][b]) {
    }
  }

  /** The code offset of a closure, the tag of an s-expression. */
  lemma FirstStored(m: seq<Word>, base: nat, sh: Shape, ids: seq<nat>, store: seq<Obj>, outside: Word -> bool,
                    i: nat, w: Word)
    requires sh.Valid() && Fits(m, sh) && i < sh.N() && Represents(m, base, sh, ids, store)
    requires FieldsGood(m, base, sh, outside)
    requires HasFirst(sh.hd[i])
    ensures sh.st[i] + 2 < |m| && ids[i] < |store|
    ensures var m' := m[sh.st[i] + 2 := w];
            && WritesBelow(m, m', sh) && FieldsGood(m', base, sh, outside)
            && Represents(m', base, sh, ids, store[ids[i] := store[ids[i]].(first := w)])
  {
    FirstInside(sh, i);
    sh.Last(i + 1);
    var a := sh.st[i] + 2;
    var m' := m[a := w];
    assert FieldWords(m', sh, i) == FieldWords(m, sh, i);
    assert StringBytes(m', sh, i) == StringBytes(m, sh, i);
    assert store[ids[i]] == ObjOf(m, base, sh, ids, i);
    StoreUpdated(m, m', base, sh, ids, store, i);
    forall k: nat, b: nat | b < |m| && IsField(sh, k, b) ensures m'[b] == m[b] {
      FieldInside(sh, k, b);
      if b == a {
        OwnerOf(sh, i, k, b);
      }
    }
  }

  method WriteFirst(g: Process, w: Word, ghost i: nat, a: nat)
    requires Ready(g) && i < g.sh.N() && HasFirst(g.sh.hd[i]) && a == g.sh.st[i] + 2
    modifies g`store, g.mem
    ensures Ready(g)
    ensures var id := g.ids[i]; id < |old(g.store)| && g.store == old(g.store)[id := old(g.store)[id].(first := w)]
  {
    FirstStored(g.mem[..], g.base, g.sh, g.ids, g.store, g.outside, i, w);
    WriteWord(g, a, w, g.store[g.ids[i] := g.store[g.ids[i]].(first := w)]);
  }

  // ----- bytes -----------------------------------------------------------------------------

  /** Byte j of string i becomes b. */
  lemma ByteStored(m: seq<Word>, base: nat, sh: Shape, ids: seq<nat>, store: seq<Obj>, outside: Word -> bool, i: nat,
                   j: nat, b: nat)
    requires sh.Valid() && Fits(m, sh) && i < sh.N() && Represents(m, base, sh, ids, store)
    requires FieldsGood(m, base, sh, outside)
    requires Tag(sh.hd[i]) == STRING_TAG && j <= Len(sh.hd[i]) && b < 256
    ensures sh.st[i] + 2 + j / 4 < |m| && ids[i] < |store| && j < |store[ids[i]].bytes|
    ensures var a := sh.st[i] + 2 + j / 4;
            var m' := m[a := WithByte(m[a], j % 4, b)];
            && WritesBelow(m, m', sh) && FieldsGood(m', base, sh, outside)
            && Represents(m', base, sh, ids, store[ids[i] := WithByteAt(store[ids[i]], j, b)])
  {
    ByteInside(sh, i, j);
    sh.Last(i + 1);
    var a := sh.st[i] + 2 + j / 4;
    var m' := m[a := WithByte(m[a], j % 4, b)];
    BytesWritten(m, sh, i, j, b);
    assert FieldWords(m', sh, i) == FieldWords(m, sh, i);
    assert store[ids[i]] == ObjOf(m, base, sh, ids, i);
    StoreUpdated(m, m', base, sh, ids, store, i);
    forall k: nat, c: nat | c < |m| && IsField(sh, k, c) ensures m'[c] == m[c] {
      FieldInside(sh, k, c);
      if c == a {
        OwnerOf(sh, i, k, c);
      }
    }
  }

  ghost function WithByteAt(o: Obj, j: nat, b: nat): Obj
    requires j < |o.bytes|
  {
    o.(bytes := o.bytes[j := b])
  }

  lemma BytesWritten(m: seq<Word>, sh: Shape, i: nat, j: nat, b: nat)
    requires sh.Valid() && i < sh.N() && sh.End() <= |m| && Tag(sh.hd[i]) == STRING_TAG && j <= Len(sh.hd[i]) && b < 256
    ensures sh.st[i] + 2 + j / 4 < |m| && j < |StringBytes(m, sh, i)|
    ensures var a := sh.st[i] + 2 + j / 4;
            StringBytes(m[a := WithByte(m[a], j % 4, b)], sh, i) == StringBytes(m, sh, i)[j := b]
  {
    ByteInside(sh, i, j);
    sh.Last(i + 1);
    var a := sh.st[i] + 2 + j / 4;
    var m' := m[a := WithByte(m[a], j % 4, b)];
    forall l | 0 <= l <= Len(sh.hd[i])
      ensures StringBytes(m', sh, i)[l] == if l == j then b else StringBytes(m, sh, i)[l]
    {
      ByteInside(sh, i, l);
      OneByte(m, sh.st[i], j, b, l);
    }
  }

  /** What a store of byte j does to byte l. */
  lemma OneByte(m: seq<Word>, s: nat, j: nat, b: nat, l: nat)
    requires s + 2 + j / 4 < |m| && s + 2 + l / 4 < |m| && b < 256
    ensures var a := s + 2 + j / 4;
            StringByte(m[a := WithByte(m[a], j % 4, b)], s, l) == if l == j then b else StringByte(m, s, l)
  {
    var a := s + 2 + j / 4;
    WithByteBytes(m[a], j % 4, b, l % 4);
    SamePlace(l, j);
  }

  lemma SamePlace(l: nat, j: nat)
    ensures l / 4 == j / 4 && l % 4 == j % 4 <==> l == j
  {
  }

  /** `((char *) x)[j] = b` */
  method WriteByte(g: Process, j: nat, b: nat, a: nat, ghost i: nat)
    requires Ready(g) && i < g.sh.N() && Tag(g.sh.hd[i]) == STRING_TAG && j <= Len(g.sh.hd[i]) && b < 256
    requires a == g.sh.st[i] + 2
    modifies g`store, g.mem
    ensures Ready(g)
    ensures g.ids[i] < |old(g.store)| && j < |old(g.store)[g.ids[i]].bytes|
    ensures g.store == old(g.store)[g.ids[i] := WithByteAt(old(g.store)[g.ids[i]], j, b)]
  {
    ByteStored(g.mem[..], g.base, g.sh, g.ids, g.store, g.outside, i, j, b);
    WriteWord(g, a + j / 4, WithByte(g.mem[a + j / 4], j % 4, b),
              g.store[g.ids[i] := WithByteAt(g.store[g.ids[i]], j, b)]);
  }
}
