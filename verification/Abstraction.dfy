/** What a heap means: objects with identities that never move.  The identity of an object is the
    number of objects allocated before it (`cur_id` of the debug build). */
module Abstraction {
  import opened Words
  import opened Layout
  import opened Compaction

  datatype Val = Imm(w: Word) | Ref(id: nat)

  /** Header, code offset or tag (0 if there is none), fields, and string bytes with their final 0. */
  datatype Obj = Obj(header: Word, first: Word, fields: seq<Val>, bytes: seq<nat>)

  ghost function ValOf(base: nat, sh: Shape, ids: seq<nat>, w: Word): Val
    requires sh.Valid() && |ids| == sh.N()
  {
    if exists i :: 0 <= i < sh.N() && w == Ptr(base, sh.st[i])
    then var i :| 0 <= i < sh.N() && w == Ptr(base, sh.st[i]); Ref(ids[i])
    else Imm(w)
  }

  lemma ValOfPtr(base: nat, sh: Shape, ids: seq<nat>, w: Word, i: nat)
    requires sh.Valid() && |ids| == sh.N() && i < sh.N() && w == Ptr(base, sh.st[i])
    ensures ValOf(base, sh, ids, w) == Ref(ids[i])
  {
    forall k | 0 <= k < sh.N() && w == Ptr(base, sh.st[k]) ensures k == i {
      PtrUnique(base, sh, k, i);
    }
  }

  lemma ValOfImm(base: nat, sh: Shape, ids: seq<nat>, w: Word)
    requires sh.Valid() && |ids| == sh.N() && base % 4 == 0 && !InHeap(base, sh.End(), w)
    ensures ValOf(base, sh, ids, w) == Imm(w)
  {
    forall j | 0 <= j < sh.N() ensures w != Ptr(base, sh.st[j]) {
      PtrUnique(base, sh, j, j);
    }
  }

  ghost function ValsOf(base: nat, sh: Shape, ids: seq<nat>, ws: seq<Word>): (vs: seq<Val>)
    requires sh.Valid() && |ids| == sh.N()
    ensures |vs| == |ws| && forall k :: 0 <= k < |ws| ==> vs[k] == ValOf(base, sh, ids, ws[k])
  {
    seq(|ws|, k requires 0 <= k < |ws| => ValOf(base, sh, ids, ws[k]))
  }

  ghost function FieldWords(m: seq<Word>, sh: Shape, i: nat): seq<Word>
    requires sh.Valid() && i < sh.N() && sh.End() <= |m|
  {
    sh.Last(i + 1);
    if sh.lo[i] < sh.st[i + 1] then m[sh.lo[i]..sh.st[i + 1]] else []
  }

  lemma FieldWordAt(m: seq<Word>, sh: Shape, i: nat, d: nat)
    requires sh.Valid() && i < sh.N() && sh.End() <= |m| && d < |FieldWords(m, sh, i)|
    ensures sh.lo[i] + d < sh.st[i + 1] <= |m| && FieldWords(m, sh, i)[d] == m[sh.lo[i] + d]
  {
    sh.Last(i + 1);
  }

  predicate HasFirst(h: Word) { (Tag(h) == CLOSURE_TAG || Tag(h) == SEXP_TAG) && ObjBytes(h) > 8 }

  ghost function First(m: seq<Word>, sh: Shape, i: nat): Word
    requires sh.Valid() && i < sh.N() && sh.End() <= |m|
  {
    sh.Last(i + 1);
    assert sh.Tile(i);
    if HasFirst(sh.hd[i]) then m[sh.st[i] + 2] else 0
  }

  /** Byte j of the content of the string at offset s. */
  ghost function StringByte(m: seq<Word>, s: nat, j: nat): nat
    requires s + 2 + j / 4 < |m|
  {
    ByteOf(m[s + 2 + j / 4], j % 4)
  }

  lemma StringInside(h: Word, j: nat)
    requires Tag(h) == STRING_TAG && j <= Len(h)
    ensures 2 + j / 4 < ObjWords(h)
    ensures 2 + j / 4 < ObjBytes(h) / 4 || (2 + j / 4 == ObjBytes(h) / 4 && j % 4 < ObjBytes(h) % 4)
  {
  }

  ghost function StringBytes(m: seq<Word>, sh: Shape, i: nat): (b: seq<nat>)
    requires sh.Valid() && i < sh.N() && sh.End() <= |m|
  {
    sh.Last(i + 1);
    assert sh.Tile(i);
    var h := sh.hd[i];
    if Tag(h) != STRING_TAG then []
    else
      seq(Len(h) + 1, j requires 0 <= j <= Len(h) => (StringInside(h, j); StringByte(m, sh.st[i], j)))
  }

  ghost function ObjOf(m: seq<Word>, base: nat, sh: Shape, ids: seq<nat>, i: nat): Obj
    requires sh.Valid() && i < sh.N() && sh.End() <= |m| && |ids| == sh.N()
  {
    Obj(sh.hd[i], First(m, sh, i), ValsOf(base, sh, ids, FieldWords(m, sh, i)), StringBytes(m, sh, i))
  }

  ghost predicate Increasing(ids: seq<nat>) { forall i, j :: 0 <= i < j < |ids| ==> ids[i] < ids[j] }

  /** The objects in memory are the objects of the store with the identities ids; address order is
      allocation order.  The store may hold more: objects already collected. */
  ghost predicate Represents(m: seq<Word>, base: nat, sh: Shape, ids: seq<nat>, store: seq<Obj>)
    requires sh.Valid() && Fits(m, sh)
  {
    && |ids| == sh.N() && Increasing(ids)
    && (forall i :: 0 <= i < sh.N() ==> ids[i] < |store|)
    && forall i {:trigger ObjOf(m, base, sh, ids, i)} :: 0 <= i < sh.N() ==> store[ids[i]] == ObjOf(m, base, sh, ids, i)
  }
}
