/** The hash of s-expression tags, `LtagHash`, and its inverse `de_hash` (src/runtime/runtime.c).  A C
    string is the sequence of its characters before the final 0. */
module TagHash {
  import opened Words
  import opened Options

  // ----- the alphabet ----------------------------------------------------------------------

  const LOWER := "abcdefghijklm" + "nopqrstuvwxyz"
  const UPPER := "ABCDEFGHIJKLM" + "NOPQRSTUVWXYZ"
  const DIGITS := "0123456789"

  /** `chars` */
  const CHARS: string := "_" + LOWER + UPPER + DIGITS + "'"

  /** The code of the k-th character. */
  function Letter(k: int): int {
    if k == 0 then 95 else if k < 27 then 96 + k else if k < 53 then 38 + k else if k < 63 then k - 5 else 39
  }

  lemma LowerAt(k: nat)
    requires k < 26
    ensures LOWER[k] as int == 97 + k
  {
    if k < 13 {
      assert LOWER[k] == "abcdefghijklm"[k];
    } else {
      assert LOWER[k] == "nopqrstuvwxyz"[k - 13];
    }
  }

  lemma UpperAt(k: nat)
    requires k < 26
    ensures UPPER[k] as int == 65 + k
  {
    if k < 13 {
      assert UPPER[k] == "ABCDEFGHIJKLM"[k];
    } else {
      assert UPPER[k] == "NOPQRSTUVWXYZ"[k - 13];
    }
  }

  lemma LetterAt(k: nat)
    requires k < 64
    ensures |CHARS| == 64 && CHARS[k] as int == Letter(k)
  {
    if 1 <= k < 27 {
      LowerAt(k - 1);
      assert CHARS[k] == LOWER[k - 1];
    } else if 27 <= k < 53 {
      UpperAt(k - 27);
      assert CHARS[k] == UPPER[k - 27];
    } else if 53 <= k < 63 {
      assert CHARS[k] == DIGITS[k - 53];
    }
  }

  /** 64 characters, none of them twice. */
  predicate Alphabet(chars: string) {
    |chars| == 64 && forall i, j :: 0 <= i < 64 && 0 <= j < 64 && chars[i] == chars[j] ==> i == j
  }

  lemma CharsAlphabet()
    ensures Alphabet(CHARS) && CHARS[0] == '_'
  {
    LetterAt(0);
    forall i: nat, j: nat | i < 64 && j < 64 && CHARS[i] == CHARS[j] ensures i == j {
      LetterAt(i);
      LetterAt(j);
    }
  }

  // ----- the hash and its inverse, for any alphabet ----------------------------------------

  /** Where the search for c that has come to k ends; at the end of the string if c is not there. */
  function SearchFrom(chars: string, c: char, k: nat): (p: nat)
    requires k <= |chars|
    ensures k <= p <= |chars| && (p < |chars| ==> chars[p] == c) && forall i :: k <= i < p ==> chars[i] != c
    decreases |chars| - k
  {
    if k == |chars| || chars[k] == c then k else SearchFrom(chars, c, k + 1)
  }

  function Position(chars: string, c: char): (p: nat)
    ensures p <= |chars| && (p < |chars| ==> chars[p] == c) && (p < |chars| <==> c in chars)
  {
    SearchFrom(chars, c, 0)
  }

  lemma PositionOf(chars: string, k: nat)
    requires Alphabet(chars) && k < 64
    ensures Position(chars, chars[k]) == k
  {
  }

  predicate Within(chars: string, s: string) { forall k :: 0 <= k < |s| ==> s[k] in chars }

  /** Six bits a character, the last one lowest. */
  function Hash(chars: string, s: string): (h: nat)
    requires Alphabet(chars) && Within(chars, s)
  {
    if s == "" then 0 else 64 * Hash(chars, s[..|s| - 1]) + Position(chars, s[|s| - 1])
  }

  /** The digits of n in base 64, without leading zeros. */
  function Text(chars: string, n: nat): (s: string)
    requires Alphabet(chars)
    ensures Within(chars, s)
  {
    if n == 0 then "" else Text(chars, n / 64) + [chars[n % 64]]
  }

  function Power64(k: nat): (n: nat)
    ensures n > 0
  {
    if k == 0 then 1 else 64 * Power64(k - 1)
  }

  lemma {:induction false} HashBound(chars: string, s: string)
    requires Alphabet(chars) && Within(chars, s)
    ensures Hash(chars, s) < Power64(|s|)
  {
    if s != "" {
      HashBound(chars, s[..|s| - 1]);
      assert Position(chars, s[|s| - 1]) < 64;
    }
  }

  lemma {:induction false} PowerGrows(j: nat, k: nat)
    requires j <= k
    ensures Power64(j) <= Power64(k)
    decreases k
  {
    if j < k {
      PowerGrows(j, k - 1);
    }
  }

  lemma FivePlaces()
    ensures Power64(5) == 0x4000_0000 && Power64(0) == 1
  {
    assert Power64(1) == 64 && Power64(2) == 64 * 64 && Power64(3) == 64 * 64 * 64;
    assert Power64(4) == 64 * 64 * 64 * 64;
  }

  /** The first character is the digit 0: leading ones are lost. */
  function Stripped(zero: char, s: string): string {
    if s != "" && s[0] == zero then Stripped(zero, s[1..]) else s
  }

  lemma {:induction false} StrippedShorter(zero: char, s: string)
    ensures |Stripped(zero, s)| <= |s|
  {
    if s != "" && s[0] == zero {
      StrippedShorter(zero, s[1..]);
    }
  }

  lemma NothingStripped(zero: char, s: string)
    ensures Stripped(zero, s) == s <==> s == "" || s[0] != zero
  {
    if s != "" {
      StrippedShorter(zero, s[1..]);
    }
  }

  lemma {:induction false} StrippedInit(zero: char, s: string)
    requires s != ""
    ensures var init, c := s[..|s| - 1], s[|s| - 1];
            Stripped(zero, s) == if Stripped(zero, init) == "" && c == zero then "" else Stripped(zero, init) + [c]
  {
    if s[0] == zero && |s| > 1 {
      assert s[1..][..|s| - 2] == s[..|s| - 1][1..];
      StrippedInit(zero, s[1..]);
    } else if |s| == 1 {
      assert s[..0] == "" && s[1..] == "";
    }
  }

  /** The text of the hash of s is s without its leading zeros. */
  lemma {:induction false} TextOfHash(chars: string, s: string)
    requires Alphabet(chars) && Within(chars, s)
    ensures Text(chars, Hash(chars, s)) == Stripped(chars[0], s)
  {
    if s != "" {
      var init, c := s[..|s| - 1], s[|s| - 1];
      TextOfHash(chars, init);
      StrippedInit(chars[0], s);
      PositionOf(chars, 0);
      var h, p := Hash(chars, init), Position(chars, c);
      assert p < 64 && chars[p] == c && Hash(chars, s) == 64 * h + p;
      assert (64 * h + p) / 64 == h && (64 * h + p) % 64 == p;
    }
  }

  /** And the hash of a text is the number it came from. */
  lemma {:induction false} HashOfText(chars: string, n: nat)
    requires Alphabet(chars)
    ensures Hash(chars, Text(chars, n)) == n
  {
    if n != 0 {
      HashOfText(chars, n / 64);
      PositionOf(chars, n % 64);
      var t := Text(chars, n);
      assert t[..|t| - 1] == Text(chars, n / 64);
    }
  }

  // ----- de_hash ---------------------------------------------------------------------------

  lemma DigitLess(m: nat, k: nat)
    requires 0 < m < Power64(k)
    ensures k > 0 && m / 64 < Power64(k - 1)
  {
  }

  lemma TextStep(chars: string, m: nat, rest: string)
    requires Alphabet(chars) && m != 0
    ensures Text(chars, m) + rest == Text(chars, m / 64) + ([chars[m % 64]] + rest)
  {
  }

  /** `de_hash`: it writes into a buffer of six characters from the end; numbers below 2^30 fit. */
  method DeHash(chars: string, n: nat) returns (s: string)
    requires Alphabet(chars) && n < 0x4000_0000
    ensures s == Text(chars, n)
  {
    var buf := new char[6](_ => '\0');
    FivePlaces();
    var p := 5;
    buf[p] := '\0';
    p := p - 1;
    var m: nat := n;
    while m != 0
      invariant -1 <= p <= 4 && m < Power64(p + 1) && buf[5] == '\0'
      invariant Text(chars, n) == Text(chars, m) + buf[p + 1..5]
    {
      ghost var rest := buf[p + 1..5];
      DigitLess(m, p + 1);
      TextStep(chars, m, rest);
      buf[p] := chars[m % 64];
      p := p - 1;
      assert buf[p + 1..5] == [chars[m % 64]] + rest;
      m := m / 64;
    }
    s := buf[p + 1..5];
  }

  // ----- LtagHash --------------------------------------------------------------------------

  function FirstFive(s: string): (t: string)
    ensures |t| <= 5
  {
    if |s| <= 5 then s else s[..5]
  }

  /** The inner loop of `LtagHash`. */
  method Find(chars: string, c: char) returns (pos: nat)
    ensures pos == Position(chars, c)
  {
    pos := 0;
    while pos < |chars| && chars[pos] != c
      invariant pos <= |chars| && SearchFrom(chars, c, 0) == SearchFrom(chars, c, pos)
    {
      pos := pos + 1;
    }
  }

  lemma Foreign(chars: string, s: string, i: nat)
    requires i < |FirstFive(s)| && s[i] !in chars
    ensures !Within(chars, FirstFive(s))
  {
    assert FirstFive(s)[i] == s[i];
  }

  /** sum is the hash of the first i characters. */
  ghost predicate Hashed(chars: string, s: string, i: nat, sum: nat) {
    Alphabet(chars) && i <= |s| && Within(chars, s[..i]) && sum == Hash(chars, s[..i])
  }

  lemma HashSnoc(chars: string, s: string, i: nat, sum: nat, pos: nat)
    requires i < |s| && Hashed(chars, s, i, sum) && pos == Position(chars, s[i]) < 64
    ensures Hashed(chars, s, i + 1, 64 * sum + pos)
  {
    assert s[..i + 1][..i] == s[..i];
  }

  lemma HashedFive(chars: string, s: string, i: nat, sum: nat)
    requires Hashed(chars, s, i, sum) && i == |FirstFive(s)|
    ensures Within(chars, FirstFive(s)) && sum == Hash(chars, FirstFive(s))
  {
    assert s[..i] == FirstFive(s);
  }

  /** What `LtagHash` computes before its check; it fails at a foreign character. */
  method HashFive(chars: string, s: string) returns (h: Option<nat>)
    requires Alphabet(chars)
    ensures h.Some? <==> Within(chars, FirstFive(s))
    ensures h.Some? ==> h.value == Hash(chars, FirstFive(s))
  {
    var sum, i, limit := 0, 0, 0;
    while i < |s| && limit <= 4
      invariant i == limit <= |FirstFive(s)| && Hashed(chars, s, i, sum)
    {
      var pos := Find(chars, s[i]);
      if pos == |chars| {
        Foreign(chars, s, i);
        return None;
      }
      HashSnoc(chars, s, i, sum, pos);
      sum := 64 * sum + pos;
      i, limit := i + 1, limit + 1;
    }
    HashedFive(chars, s, i, sum);
    h := Some(sum);
  }

  /** The tags that `LtagHash` accepts. */
  predicate Accepted(chars: string, s: string)
    requires Alphabet(chars)
  {
    Within(chars, FirstFive(s)) && (s == "" || s[0] != chars[0])
  }

  lemma HashBelow(chars: string, s: string)
    requires Alphabet(chars) && Within(chars, s) && |s| <= 5
    ensures Hash(chars, s) < 0x4000_0000 && |Stripped(chars[0], s)| <= 5
  {
    HashBound(chars, s);
    FivePlaces();
    PowerGrows(|s|, 5);
    StrippedShorter(chars[0], s);
  }

  /** `LtagHash` with its check that `de_hash` restores the tag. */
  method CheckedHash(chars: string, s: string) returns (r: Option<Word>)
    requires Alphabet(chars)
    ensures r.Some? <==> Accepted(chars, s)
    ensures r.Some? ==> Unboxed(r.value) && 0 <= Unbox(r.value) < 0x4000_0000
    ensures r.Some? ==> Unbox(r.value) == Hash(chars, FirstFive(s)) && Text(chars, Unbox(r.value)) == FirstFive(s)
  {
    var h := HashFive(chars, s);
    if h.None? {
      return None;
    }
    HashBelow(chars, FirstFive(s));
    TextOfHash(chars, FirstFive(s));
    NothingStripped(chars[0], FirstFive(s));
    var t := DeHash(chars, h.value);
    if FirstFive(s) != FirstFive(t) {
      return None;
    }
    BoxIsUnboxed(h.value);
    UnboxBox(h.value);
    r := Some(Box(h.value));
  }

  /** The number that the tag s has in an s-expression, `UNBOX(LtagHash(s))`; None if `LtagHash` refuses it. */
  function TagCode(s: string): (c: Option<Word>)
    ensures c.Some? ==> c.value < 0x4000_0000
  {
    CharsAlphabet();
    if Accepted(CHARS, s) then
      HashBelow(CHARS, FirstFive(s));
      Some(Hash(CHARS, FirstFive(s)))
    else None
  }

  /** `LtagHash`: it ends the program exactly for tags with a foreign character among the first five
      or a leading underscore; the hash of any other tag is below 2^30, survives boxing, and
      `de_hash` gives the first five characters back. */
  method LtagHash(s: string) returns (r: Option<Word>)
    ensures Alphabet(CHARS) && (r.Some? <==> Within(CHARS, FirstFive(s)) && (s == "" || s[0] != '_'))
    ensures r.Some? ==> Unboxed(r.value) && 0 <= Unbox(r.value) < 0x4000_0000
    ensures r.Some? ==> Unbox(r.value) == Hash(CHARS, FirstFive(s)) && Text(CHARS, Unbox(r.value)) == FirstFive(s)
    ensures (r.Some? <==> TagCode(s).Some?) && (r.Some? ==> Unbox(r.value) == TagCode(s).value)
  {
    CharsAlphabet();
    r := CheckedHash(CHARS, s);
  }

  /** `UNBOX(LtagHash(s))` */
  method UnboxedHash(s: string) returns (r: Option<Word>)
    ensures r == TagCode(s)
  {
    var h := LtagHash(s);
    r := if h.Some? then Some(Unbox(h.value)) else None;
  }

  /** Two accepted tags have the same hash exactly when their first five characters agree. */
  lemma SameHash(chars: string, s: string, t: string)
    requires Alphabet(chars) && Accepted(chars, s) && Accepted(chars, t)
    ensures Hash(chars, FirstFive(s)) == Hash(chars, FirstFive(t)) <==> FirstFive(s) == FirstFive(t)
  {
    TextOfHash(chars, FirstFive(s));
    TextOfHash(chars, FirstFive(t));
    NothingStripped(chars[0], FirstFive(s));
    NothingStripped(chars[0], FirstFive(t));
  }

  /** The tags that are not refused, and when two of them are taken for the same. */
  lemma SameCode(s: string, t: string)
    ensures TagCode(s).Some? <==> Within(CHARS, FirstFive(s)) && (s == "" || s[0] != '_')
    ensures TagCode(s).Some? && TagCode(t).Some? ==> (TagCode(s) == TagCode(t) <==> FirstFive(s) == FirstFive(t))
  {
    CharsAlphabet();
    if Accepted(CHARS, s) && Accepted(CHARS, t) {
      SameHash(CHARS, s, t);
    }
  }

  /** Why a leading underscore has to be refused: it is lost. */
  lemma UnderscoreLost(chars: string)
    requires Alphabet(chars)
    ensures Within(chars, [chars[0], chars[1]]) && Within(chars, [chars[1]])
    ensures Hash(chars, [chars[0], chars[1]]) == Hash(chars, [chars[1]])
  {
    var s, t := [chars[0], chars[1]], [chars[1]];
    PositionOf(chars, 0);
    assert s[..1] == [chars[0]] && s[..1][..0] == "" && t[..0] == "";
    assert Hash(chars, s[..1]) == 0;
  }
}
