/** Machine words, object headers and the two low bits of a forward-address word
    (src/runtime/runtime_common.h and the macros at the top of src/runtime/gc.h).
    The program is built for 32 bits, so a word is an unsigned 32-bit number; the
    masks `x & 1`, `x & 3`, `x & 7` are written as remainders. */
module Words {

  type Word = w: int | 0 <= w < 0x1_0000_0000

  const STRING_TAG: nat := 1
  const ARRAY_TAG: nat := 3
  const SEXP_TAG: nat := 5
  const CLOSURE_TAG: nat := 7

  /** Largest length for which `len << 3` stays a positive 32-bit `int`. */
  const MAX_LEN: nat := 0x1000_0000

  // ----- object headers ----------------------------------------------------------

  function Tag(h: Word): nat { h % 8 }

  function Len(h: Word): nat { h / 8 }

  /** `TAG | (len << 3)` */
  function Header(tag: nat, len: nat): Word
    requires tag < 8 && len < MAX_LEN
  {
    8 * len + tag
  }

  /** The four tags that `get_type_header_ptr` accepts; any other header stops the program. */
  predicate WellTagged(h: Word) {
    Tag(h) == STRING_TAG || Tag(h) == ARRAY_TAG || Tag(h) == SEXP_TAG || Tag(h) == CLOSURE_TAG
  }

  /** Header word and forward-address word (DATA_HEADER_SZ), in words. */
  const HEADER_WORDS: nat := 2

  /** `obj_size_header_ptr`: size in bytes, header included. */
  function ObjBytes(h: Word): (bytes: nat)
    ensures bytes >= 8
  {
    if Tag(h) == STRING_TAG then 8 + Len(h) + 1
    else if Tag(h) == SEXP_TAG then 8 + 4 * (Len(h) + 1)
    else 8 + 4 * Len(h)
  }

  /** `BYTES_TO_WORDS` */
  function BytesToWords(bytes: nat): nat
    requires bytes > 0
  {
    (bytes - 1) / 4 + 1
  }

  lemma WholeWords(bytes: nat)
    requires bytes >= 8
    ensures 2 <= bytes / 4 && BytesToWords(bytes) == bytes / 4 + if bytes % 4 == 0 then 0 else 1
  {
  }

  function ObjWords(h: Word): nat { BytesToWords(ObjBytes(h)) }

  /** Offset, from the header, of the first word that `field_begin_iterator` yields.  A string has
      no fields; the first content word of a closure or s-expression is a code offset or tag. */
  function FieldOffset(h: Word): nat {
    if Tag(h) == STRING_TAG then ObjWords(h)
    else if Tag(h) == ARRAY_TAG then HEADER_WORDS
    else HEADER_WORDS + 1
  }

  // ----- boxing ------------------------------------------------------------------

  predicate Unboxed(w: Word) { w % 2 == 1 }

  /** UNBOX: an arithmetic shift of the word taken as a signed number. */
  function Unbox(w: Word): int { (if w >= 0x8000_0000 then w - 0x1_0000_0000 else w) / 2 }

  /** BOX: the high bit is lost. */
  function Box(i: int): Word { (2 * i + 1) % 0x1_0000_0000 }

  lemma BoxIsUnboxed(i: int)
    ensures Unboxed(Box(i))
  {
  }

  /** Boxed integers are 31 bits wide. */
  lemma UnboxBox(i: int)
    requires -0x4000_0000 <= i < 0x4000_0000
    ensures Unbox(Box(i)) == i
  {
  }

  // ----- the forward-address word ------------------------------------------------

  predicate Marked(f: Word) { f % 4 == 1 || f % 4 == 3 }

  predicate Enqueued(f: Word) { f % 4 >= 2 }

  /** Neither bit is set. */
  predicate Clear(f: Word) { f % 4 == 0 }

  /** GET_FORWARD_ADDRESS */
  function Forward(f: Word): Word { f - f % 4 }

  /** SET_FORWARD_ADDRESS: keeps the two low bits. */
  function WithForward(f: Word, addr: Word): Word
    requires addr % 4 == 0
  {
    addr + f % 4
  }

  function WithMark(f: Word): Word { if Marked(f) then f else f + 1 }

  function WithoutMark(f: Word): Word { if Marked(f) then f - 1 else f }

  function WithEnqueued(f: Word): Word { if Enqueued(f) then f else f + 2 }

  function WithoutEnqueued(f: Word): Word { if Enqueued(f) then f - 2 else f }

  // ----- the bit operations of the source --------------------------------------------------

  /** `x & y` */
  function BitAnd(x: nat, y: nat): nat {
    if x == 0 || y == 0 then 0
    else 2 * BitAnd(x / 2, y / 2) + if x % 2 == 1 && y % 2 == 1 then 1 else 0
  }

  /** `x | y` */
  function BitOr(x: nat, y: nat): nat {
    if x == 0 then y else if y == 0 then x
    else 2 * BitOr(x / 2, y / 2) + if x % 2 == 1 || y % 2 == 1 then 1 else 0
  }

  lemma AndStep(x: nat, y: nat)
    ensures BitAnd(x, y) == 2 * BitAnd(x / 2, y / 2) + if x % 2 == 1 && y % 2 == 1 then 1 else 0
  {
  }

  lemma OrStep(x: nat, y: nat)
    ensures BitOr(x, y) == 2 * BitOr(x / 2, y / 2) + if x % 2 == 1 || y % 2 == 1 then 1 else 0
  {
  }

  /** 2 to the power of k, less 1: k ones. */
  function Ones(k: nat): nat { if k == 0 then 0 else 2 * Ones(k - 1) + 1 }

  lemma {:induction false} AndOnes(x: nat, k: nat)
    requires x <= Ones(k)
    ensures BitAnd(x, Ones(k)) == x
    decreases k
  {
    if k > 0 {
      AndOnes(x / 2, k - 1);
      AndStep(x, Ones(k));
    }
  }

  lemma ManyOnes()
    ensures Ones(8) == 0xFF && Ones(16) == 0xFFFF && Ones(24) == 0xFF_FFFF
    ensures Ones(29) == 0x1FFF_FFFF && Ones(30) == 0x3FFF_FFFF && Ones(31) == 0x7FFF_FFFF
  {
    assert Ones(4) == 0xF;
    assert Ones(8) == 0xFF;
    assert Ones(12) == 0xFFF;
    assert Ones(16) == 0xFFFF;
    assert Ones(20) == 0xF_FFFF;
    assert Ones(24) == 0xFF_FFFF;
    assert Ones(28) == 0xFFF_FFFF;
  }

  /** The masks for the low bits. */
  lemma LowBit(x: nat)
    ensures BitAnd(x, 1) == x % 2
  {
    AndStep(x, 1);
  }

  lemma LowTwoBits(x: nat)
    ensures BitAnd(x, 3) == x % 4
  {
    AndStep(x, 3);
    LowBit(x / 2);
  }

  lemma LowThreeBits(x: nat)
    ensures BitAnd(x, 7) == x % 8
  {
    AndStep(x, 7);
    LowTwoBits(x / 2);
    LowThree(x);
  }

  lemma LowThree(x: nat)
    ensures 2 * (x / 2 % 4) + x % 2 == x % 8
  {
  }

  /** The masks for the other bits, of which there are k. */
  lemma ButLowBit(x: nat, k: nat)
    requires x / 2 <= Ones(k)
    ensures BitAnd(x, 2 * Ones(k)) == x - x % 2
  {
    var y := Ones(k);
    assert 2 * y / 2 == y && 2 * y % 2 == 0;
    AndStep(x, 2 * y);
    AndOnes(x / 2, k);
  }

  lemma ButLowTwoBits(x: nat, k: nat)
    requires x / 4 <= Ones(k)
    ensures BitAnd(x, 4 * Ones(k)) == x - x % 4
  {
    var y := 2 * Ones(k);
    assert 2 * y / 2 == y && 2 * y % 2 == 0 && x / 2 / 2 == x / 4;
    AndStep(x, 2 * y);
    ButLowBit(x / 2, k);
  }

  lemma Doubled(x: nat)
    ensures 2 * (x / 2 - x / 2 % 4) == x - x % 8
  {
  }

  lemma ButLowThreeBits(x: nat, k: nat)
    requires x / 8 <= Ones(k)
    ensures BitAnd(x, 8 * Ones(k)) == x - x % 8
  {
    var y := 4 * Ones(k);
    assert 2 * y / 2 == y && 2 * y % 2 == 0 && x / 2 / 4 == x / 8;
    AndStep(x, 2 * y);
    ButLowTwoBits(x / 2, k);
    Doubled(x);
  }

  lemma ButSecondBit(x: nat, k: nat)
    requires x / 4 <= Ones(k)
    ensures BitAnd(x, 4 * Ones(k) + 1) == x - x % 4 + x % 2
  {
    var y := 2 * Ones(k);
    assert (2 * y + 1) / 2 == y && (2 * y + 1) % 2 == 1 && x / 2 / 2 == x / 4;
    AndStep(x, 2 * y + 1);
    ButLowBit(x / 2, k);
  }

  /** `TAG` and `LEN` */
  lemma HeaderBits(h: Word)
    ensures Tag(h) == BitAnd(h, 7) && Len(h) == BitAnd(h, 0xFFFF_FFF8) / 8
  {
    LowThreeBits(h);
    ManyOnes();
    ButLowThreeBits(h, 29);
    assert (h - h % 8) / 8 == h / 8;
  }

  lemma SecondBit(x: nat)
    ensures BitAnd(x, 2) == x % 4 - x % 2
  {
    AndStep(x, 2);
    LowBit(x / 2);
  }

  /** GET_MARK_BIT and IS_ENQUEUED */
  lemma FlagBits(f: Word)
    ensures (Marked(f) <==> BitAnd(f, 1) != 0) && (Enqueued(f) <==> BitAnd(f, 2) != 0)
  {
    LowBit(f);
    SecondBit(f);
  }

  lemma OrLowBits(k: nat, addr: nat)
    requires k < 4 && addr % 4 == 0
    ensures BitOr(k, addr) == k + addr
  {
    OrStep(k, addr);
    OrStep(k / 2, addr / 2);
  }

  /** GET_FORWARD_ADDRESS and SET_FORWARD_ADDRESS */
  lemma ForwardBits(f: Word, addr: Word)
    requires addr % 4 == 0
    ensures Forward(f) == BitAnd(f, 0xFFFF_FFFC) && WithForward(f, addr) == BitOr(BitAnd(f, 3), addr)
  {
    ManyOnes();
    LowTwoBits(f);
    ButLowTwoBits(f, 30);
    OrLowBits(f % 4, addr);
  }

  /** SET_MARK_BIT and RESET_MARK_BIT; the other bits are as before. */
  lemma MarkBits(f: Word)
    ensures WithMark(f) == BitOr(f, 1) && WithoutMark(f) == BitAnd(f, 0xFFFF_FFFE)
    ensures !Marked(WithoutMark(f)) && Enqueued(WithoutMark(f)) == Enqueued(f) && Forward(WithoutMark(f)) == Forward(f)
  {
    ManyOnes();
    OrStep(f, 1);
    ButLowBit(f, 31);
  }

  /** MAKE_ENQUEUED */
  lemma EnqueuedBits(f: Word)
    ensures WithEnqueued(f) == BitOr(f, 2)
  {
    OrStep(f, 2);
    OrStep(f / 2, 1);
  }

  /** MAKE_DEQUEUED */
  lemma DequeuedBits(f: Word)
    ensures WithoutEnqueued(f) == BitAnd(f, 0xFFFF_FFFD)
  {
    ManyOnes();
    ButSecondBit(f, 30);
  }

  // ----- bytes of a word, least significant first --------------------------------

  function Pow256(k: nat): nat
    requires k <= 4
  {
    if k == 0 then 1 else if k == 1 then 0x100 else if k == 2 then 0x1_0000
    else if k == 3 then 0x100_0000 else 0x1_0000_0000
  }

  function ByteOf(w: Word, k: nat): (b: nat)
    requires k < 4
    ensures b < 256
  {
    w / Pow256(k) % 256
  }

  /** `src` in the `k` low bytes, `dst` above: the last word of a copy that is not a whole
      number of words long. */
  function Splice(src: Word, dst: Word, k: nat): Word
    requires k <= 4
  {
    src % Pow256(k) + dst / Pow256(k) * Pow256(k)
  }

  lemma ByteShift(w: int, t: int, j: nat)
    requires j < 4 && 0 <= w && 0 <= w + Pow256(j + 1) * t
    ensures (w + Pow256(j + 1) * t) / Pow256(j) % 256 == w / Pow256(j) % 256
  {
    assert (w + Pow256(j + 1) * t) / Pow256(j) == w / Pow256(j) + 256 * t;
  }

  /** Each power is a multiple of the lower ones. */
  lemma PowerRatio(j: nat, k: nat) returns (c: int)
    requires j < k <= 4
    ensures Pow256(k) == Pow256(j + 1) * c
  {
    c := if k == j + 1 then 1 else if k == j + 2 then 0x100 else if k == j + 3 then 0x1_0000 else 0x100_0000;
  }

  /** A change above byte j leaves byte j alone. */
  lemma HigherChange(w: int, t: int, j: nat, k: nat)
    requires j < k <= 4 && 0 <= w && 0 <= w + Pow256(k) * t
    ensures (w + Pow256(k) * t) / Pow256(j) % 256 == w / Pow256(j) % 256
  {
    var c := PowerRatio(j, k);
    assert Pow256(k) * t == Pow256(j + 1) * (c * t);
    ByteShift(w, c * t, j);
  }

  lemma SpliceBytes(src: Word, dst: Word, k: nat, j: nat)
    requires j < k <= 4
    ensures ByteOf(Splice(src, dst, k), j) == ByteOf(src, j)
  {
    var t := dst / Pow256(k) - src / Pow256(k);
    assert Splice(src, dst, k) == src + Pow256(k) * t;
    HigherChange(src, t, j, k);
  }

  /** The word w with its k-th byte replaced by b: a `char` store. */
  function WithByte(w: Word, k: nat, b: nat): Word
    requires k < 4 && b < 256
  {
    WithByteFits(w, k, b);
    w % Pow256(k) + b * Pow256(k) + w / Pow256(k + 1) * Pow256(k + 1)
  }

  lemma WithByteFits(w: Word, k: nat, b: nat)
    requires k < 4 && b < 256
    ensures 0 <= w % Pow256(k) + b * Pow256(k) + w / Pow256(k + 1) * Pow256(k + 1) < 0x1_0000_0000
  {
    var lo, hi := w % Pow256(k), w / Pow256(k + 1);
    assert 0 <= lo < Pow256(k);
    assert Pow256(k + 1) == 256 * Pow256(k);
  }

  lemma ByteAbove(lo: int, b: int, hi: int, k: nat)
    requires k < 4 && 0 <= b < 256 && 0 <= lo < Pow256(k) && 0 <= hi
    ensures (lo + b * Pow256(k) + hi * Pow256(k + 1)) / Pow256(k) == b + 256 * hi
    ensures (lo + b * Pow256(k) + hi * Pow256(k + 1)) / Pow256(k + 1) == hi
  {
  }

  lemma WithByteBelow(w: Word, k: nat, b: nat, j: nat)
    requires j < k < 4 && b < 256
    ensures ByteOf(WithByte(w, k, b), j) == ByteOf(w, j)
  {
    var t := b + 256 * (w / Pow256(k + 1)) - w / Pow256(k);
    assert WithByte(w, k, b) == w + Pow256(k) * t;
    HigherChange(w, t, j, k);
  }

  lemma WithByteAbove(w: Word, k: nat, b: nat, j: nat)
    requires k < j < 4 && b < 256
    ensures ByteOf(WithByte(w, k, b), j) == ByteOf(w, j)
  {
    ByteAbove(w % Pow256(k), b, w / Pow256(k + 1), k);
    HighByte(w, k, j);
    HighByte(WithByte(w, k, b), k, j);
  }

  lemma WithByteBytes(w: Word, k: nat, b: nat, j: nat)
    requires k < 4 && b < 256 && j < 4
    ensures ByteOf(WithByte(w, k, b), j) == if j == k then b else ByteOf(w, j)
  {
    if j == k {
      ByteAbove(w % Pow256(k), b, w / Pow256(k + 1), k);
    } else if j < k {
      WithByteBelow(w, k, b, j);
    } else {
      WithByteAbove(w, k, b, j);
    }
  }

  lemma HighByte(w: Word, k: nat, j: nat)
    requires k < j < 4
    ensures w / Pow256(j) == w / Pow256(k + 1) / Pow256(j - k - 1)
  {
  }
}
