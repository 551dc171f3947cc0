/** Which objects of a store can be reached from given values, and that what marking keeps is no more
    than that. */
module Liveness {
  import opened Words
  import opened Layout
  import opened ProcessState
  import opened Compaction
  import opened Abstraction
  import opened Settled

  /** A way from one of the values vs through fields of objects. */
  ghost predicate Way(store: seq<Obj>, vs: seq<Val>, p: seq<nat>) {
    |p| > 0 && Ref(p[0]) in vs && forall k: nat {:trigger Leg(store, p, k)} :: k + 1 < |p| ==> Leg(store, p, k)
  }

  ghost predicate Leg(store: seq<Obj>, p: seq<nat>, k: nat)
    requires k + 1 < |p|
  {
    p[k] < |store| && Ref(p[k + 1]) in store[p[k]].fields
  }

  /** The object can be reached. */
  ghost predicate Alive(store: seq<Obj>, vs: seq<Val>, id: nat) { exists p :: Way(store, vs, p) && p[|p| - 1] == id }

  lemma AliveRoot(store: seq<Obj>, vs: seq<Val>, id: nat)
    requires Ref(id) in vs
    ensures Alive(store, vs, id)
  {
    assert Way(store, vs, [id]);
  }

  lemma AliveNext(store: seq<Obj>, vs: seq<Val>, id: nat, next: nat)
    requires Alive(store, vs, id) && id < |store| && Ref(next) in store[id].fields
    ensures Alive(store, vs, next)
  {
    var p :| Way(store, vs, p) && p[|p| - 1] == id;
    var q := p + [next];
    forall k: nat | k + 1 < |q| ensures Leg(store, q, k) {
      assert k + 1 < |p| ==> Leg(store, p, k);
    }
    assert Way(store, vs, q);
  }

  /** Only the references among the values matter. */
  lemma AliveAmong(store: seq<Obj>, vs: seq<Val>, vs': seq<Val>, id: nat)
    requires Alive(store, vs, id) && forall v :: v in vs && v.Ref? ==> v in vs'
    ensures Alive(store, vs', id)
  {
    var p :| Way(store, vs, p) && p[|p| - 1] == id;
    assert Way(store, vs', p);
  }

  /** The words of the first n objects of the store that can be reached. */
  ghost function LiveWords(store: seq<Obj>, vs: seq<Val>, n: nat): nat
    requires n <= |store|
  {
    if n == 0 then 0
    else LiveWords(store, vs, n - 1) + if Alive(store, vs, n - 1) then ObjWords(store[n - 1].header) else 0
  }

  lemma {:induction false} LiveWordsGrow(store: seq<Obj>, vs: seq<Val>, j: nat, k: nat)
    requires j <= k <= |store|
    ensures LiveWords(store, vs, j) <= LiveWords(store, vs, k)
    decreases k
  {
    if j < k {
      LiveWordsGrow(store, vs, j, k - 1);
    }
  }

  lemma {:induction false} LiveWordsAmong(store: seq<Obj>, vs: seq<Val>, vs': seq<Val>, n: nat)
    requires n <= |store| && forall v :: v in vs && v.Ref? ==> v in vs'
    ensures LiveWords(store, vs, n) <= LiveWords(store, vs', n)
  {
    if n > 0 {
      LiveWordsAmong(store, vs, vs', n - 1);
      if Alive(store, vs, n - 1) {
        AliveAmong(store, vs, vs', n - 1);
      }
    }
  }

  // ----- the heap --------------------------------------------------------------------------

  /** A pointer field of object i is a field of the object it stands for. */
  lemma EdgeField(m: seq<Word>, base: nat, sh: Shape, ids: seq<nat>, store: seq<Obj>, i: nat, j: nat)
    requires sh.Valid() && Fits(m, sh) && Represents(m, base, sh, ids, store) && i < sh.N() && Edge(m, base, sh, i, j)
    ensures ids[i] < |store| && j < sh.N() && Ref(ids[j]) in store[ids[i]].fields
  {
    var a: nat :| a < |m| && IsField(sh, i, a) && m[a] == Ptr(base, sh.st[j]);
    FieldInside(sh, i, a);
    var d := a - sh.lo[i];
    FieldWordAt(m, sh, i, d);
    ValOfPtr(base, sh, ids, m[a], j);
    assert store[ids[i]] == ObjOf(m, base, sh, ids, i);
    assert ValsOf(base, sh, ids, FieldWords(m, sh, i))[d] == Ref(ids[j]);
  }

  lemma {:induction false} PathAlive(m: seq<Word>, base: nat, sh: Shape, ids: seq<nat>, store: seq<Obj>, vs: seq<Val>,
                                    p: seq<nat>, k: nat, i: nat)
    requires sh.Valid() && Fits(m, sh) && Represents(m, base, sh, ids, store)
    requires Path(m, base, sh, p) && k < |p| && p[k] == i && Ref(ids[p[0]]) in vs
    ensures i < sh.N() && Alive(store, vs, ids[i])
    decreases k
  {
    if k == 0 {
      AliveRoot(store, vs, ids[i]);
    } else {
      PathAlive(m, base, sh, ids, store, vs, p, k - 1, p[k - 1]);
      assert Step(m, base, sh, p, k - 1);
      EdgeField(m, base, sh, ids, store, p[k - 1], i);
      AliveNext(store, vs, ids[p[k - 1]], ids[i]);
    }
  }

  lemma RootDenotes(base: nat, sh: Shape, ids: seq<nat>, ws: seq<Word>, w: Word, i: nat)
    requires sh.Valid() && |ids| == sh.N() && w in ws && i < sh.N() && w == Ptr(base, sh.st[i])
    ensures Ref(ids[i]) in ValsOf(base, sh, ids, ws)
  {
    var k :| 0 <= k < |ws| && ws[k] == w;
    ValOfPtr(base, sh, ids, ws[k], i);
    assert ValsOf(base, sh, ids, ws)[k] == Ref(ids[i]);
  }

  /** What can be reached in the heap can be reached in the store. */
  lemma ReachAlive(m: seq<Word>, base: nat, sh: Shape, ids: seq<nat>, store: seq<Obj>, ws: seq<Word>, vs: seq<Val>,
                   w: Word, i: nat)
    requires sh.Valid() && Fits(m, sh) && Represents(m, base, sh, ids, store) && vs == ValsOf(base, sh, ids, ws)
    requires i < sh.N() && w in ws && Reach(m, base, sh, w, i)
    ensures Alive(store, vs, ids[i])
  {
    var p :| Path(m, base, sh, p) && w == Ptr(base, sh.st[p[0]]) && p[|p| - 1] == i;
    RootDenotes(base, sh, ids, ws, w, p[0]);
    PathAlive(m, base, sh, ids, store, vs, p, |p| - 1, i);
  }

  /** The identities of the first i objects are below this one. */
  function Below(ids: seq<nat>, i: nat): nat
    requires i <= |ids|
  {
    if i == 0 then 0 else ids[i - 1] + 1
  }

  lemma ObjectInStore(m: seq<Word>, base: nat, sh: Shape, ids: seq<nat>, store: seq<Obj>, i: nat)
    requires sh.Valid() && Fits(m, sh) && Represents(m, base, sh, ids, store) && i < sh.N()
    ensures ids[i] < |store| && sh.Size(i) == ObjWords(store[ids[i]].header)
    ensures sh.st[i + 1] == sh.st[i] + ObjWords(store[ids[i]].header) && Below(ids, i) <= ids[i]
  {
    assert sh.Tile(i) && store[ids[i]] == ObjOf(m, base, sh, ids, i);
  }

  /** The marked objects take no more room than those that can be reached in the store. */
  lemma {:induction false} LiveBound(m: seq<Word>, base: nat, sh: Shape, mk: seq<bool>, ids: seq<nat>, store: seq<Obj>,
                                    ws: seq<Word>, i: nat)
    requires sh.Valid() && Fits(m, sh) && Represents(m, base, sh, ids, store) && |mk| == sh.N() && i <= sh.N()
    requires MarkedExactly(m, base, sh, mk, ws)
    ensures Below(ids, i) <= |store|
    ensures LiveBefore(sh, mk, i) <= LiveWords(store, ValsOf(base, sh, ids, ws), Below(ids, i))
  {
    if i > 0 {
      var vs := ValsOf(base, sh, ids, ws);
      LiveBound(m, base, sh, mk, ids, store, ws, i - 1);
      ObjectInStore(m, base, sh, ids, store, i - 1);
      LiveWordsGrow(store, vs, Below(ids, i - 1), ids[i - 1]);
      if mk[i - 1] {
        assert ReachAny(m, base, sh, ws, i - 1);
        var k: nat :| k < |ws| && Reach(m, base, sh, ws[k], i - 1);
        ReachAlive(m, base, sh, ids, store, ws, vs, ws[k], i - 1);
      }
    }
  }

  /** All of it. */
  lemma LiveKept(m: seq<Word>, base: nat, sh: Shape, mk: seq<bool>, ids: seq<nat>, store: seq<Obj>, ws: seq<Word>)
    requires sh.Valid() && Fits(m, sh) && Represents(m, base, sh, ids, store) && |mk| == sh.N()
    requires MarkedExactly(m, base, sh, mk, ws)
    ensures LiveBefore(sh, mk, sh.N()) <= LiveWords(store, ValsOf(base, sh, ids, ws), |store|)
  {
    LiveBound(m, base, sh, mk, ids, store, ws, sh.N());
    LiveWordsGrow(store, ValsOf(base, sh, ids, ws), Below(ids, sh.N()), |store|);
  }
}
