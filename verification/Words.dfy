/** shared/util/byteSerializer: numbers as bytes, and the 64-bit numbers that are
    split through their binary text. */
module Words {

  type Byte = x: int | 0 <= x < 256

  type Bytes = seq<Byte>

  // ---------- big-endian bytes ----------

  function Pow256(w: nat): (p: nat)
    ensures p > 0
  {
    if w == 0 then 1 else 256 * Pow256(w - 1)
  }

  function BigEndian(n: nat, w: nat): (s: Bytes)
    ensures |s| == w
  {
    if w == 0 then [] else BigEndian(n / 256, w - 1) + [n % 256]
  }

  function FromBigEndian(s: Bytes): nat {
    if s == [] then 0 else FromBigEndian(s[..|s| - 1]) * 256 + s[|s| - 1]
  }

  /** Reading back what was written, for every number that fits. */
  lemma {:induction false} BigEndianBack(n: nat, w: nat)
    requires n < Pow256(w)
    ensures FromBigEndian(BigEndian(n, w)) == n
  {
    if w > 0 {
      BigEndianBack(n / 256, w - 1);
      var s := BigEndian(n, w);
      assert s[..w - 1] == BigEndian(n / 256, w - 1);
    }
  }

  lemma {:induction false} FromBigEndianBound(s: Bytes)
    ensures FromBigEndian(s) < Pow256(|s|)
  {
    if s != [] {
      FromBigEndianBound(s[..|s| - 1]);
    }
  }

  lemma WidthBounds()
    ensures Pow256(1) == 0x100 && Pow256(2) == 0x1_0000 && Pow256(4) == 0x1_0000_0000
  {
    assert Pow256(2) == 256 * Pow256(1);
    assert Pow256(3) == 256 * Pow256(2);
    assert Pow256(4) == 256 * Pow256(3);
  }

  // ---------- binary text ----------

  const WORD := 0x1_0000_0000
  const BODY_BINARY_LENGTH := 64
  const BODY_BINARY_ALLOCATION := 32

  function Digit(c: char): nat {
    if c == '1' then 1 else 0
  }

  /** The binary text of a number, "0" for zero. */
  function BinaryText(n: nat): string {
    if n < 2 then [if n == 1 then '1' else '0'] else BinaryText(n / 2) + [if n % 2 == 1 then '1' else '0']
  }

  function ParseBinary(s: string): nat {
    if s == [] then 0 else 2 * ParseBinary(s[..|s| - 1]) + Digit(s[|s| - 1])
  }

  function Zeros(count: int): string
    decreases if count < 0 then 0 else count
  {
    if count <= 0 then "" else ['0'] + Zeros(count - 1)
  }

  function Padded(s: string, width: nat): string {
    Zeros(width - |s|) + s
  }

  function Pow2(k: nat): (p: nat)
    ensures p > 0
  {
    if k == 0 then 1 else 2 * Pow2(k - 1)
  }

  lemma {:induction false} ParseText(n: nat)
    ensures ParseBinary(BinaryText(n)) == n
  {
    var s := BinaryText(n);
    if n < 2 {
      assert s[..|s| - 1] == [];
    } else {
      ParseText(n / 2);
      assert s[..|s| - 1] == BinaryText(n / 2);
    }
  }

  lemma {:induction false} TextLength(n: nat, k: nat)
    requires n < Pow2(k) && k > 0
    ensures 0 < |BinaryText(n)| <= k
  {
    if n >= 2 {
      TextLength(n / 2, k - 1);
    }
  }

  lemma {:induction false} ParseConcat(a: string, b: string)
    ensures ParseBinary(a + b) == ParseBinary(a) * Pow2(|b|) + ParseBinary(b)
  {
    if b == [] {
      assert a + b == a;
    } else {
      var init := b[..|b| - 1];
      assert (a + b)[..|a + b| - 1] == a + init;
      ParseConcat(a, init);
      assert ParseBinary(a) * Pow2(|b|) == 2 * (ParseBinary(a) * Pow2(|init|)) by {
        Doubling(ParseBinary(a), Pow2(|init|));
      }
    }
  }

  lemma Doubling(x: nat, y: nat)
    ensures x * (2 * y) == 2 * (x * y)
  {
  }

  lemma {:induction false} ParseZeros(count: int)
    ensures |Zeros(count)| == if count < 0 then 0 else count
    ensures ParseBinary(Zeros(count)) == 0
    decreases if count < 0 then 0 else count
  {
    if count > 0 {
      ParseZeros(count - 1);
      ParseConcat(['0'], Zeros(count - 1));
      assert ParseBinary(['0']) == 0;
    }
  }

  lemma {:induction false} ParseBound(s: string)
    ensures ParseBinary(s) < Pow2(|s|)
  {
    if s != [] {
      ParseBound(s[..|s| - 1]);
    }
  }

  lemma PaddedIs(n: nat, width: nat)
    requires n < Pow2(width) && width > 0
    ensures |Padded(BinaryText(n), width)| == width
    ensures ParseBinary(Padded(BinaryText(n), width)) == n
  {
    hide BinaryText, ParseBinary, Zeros, Pow2;
    var s := BinaryText(n);
    TextLength(n, width);
    ParseText(n);
    ParseZeros(width - |s|);
    ParseConcat(Zeros(width - |s|), s);
    assert 0 * Pow2(|s|) == 0;
  }

  lemma {:induction false} Pow2Sum(i: nat, j: nat)
    ensures Pow2(i + j) == Pow2(i) * Pow2(j)
  {
    if j > 0 {
      Pow2Sum(i, j - 1);
      Doubling(Pow2(i), Pow2(j - 1));
    }
  }

  lemma Pow2One()
    ensures Pow2(1) == 2
  {
  }

  lemma WordPow()
    ensures Pow2(32) == WORD && Pow2(64) == WORD * WORD
  {
    hide Pow2;
    Pow2One();
    Pow2Sum(1, 1);
    Pow2Sum(2, 2);
    Pow2Sum(4, 4);
    Pow2Sum(8, 8);
    Pow2Sum(16, 16);
    Pow2Sum(32, 32);
  }

  lemma QuotientIs(n: nat, hi: nat, lo: nat)
    requires n == hi * WORD + lo && lo < WORD
    ensures hi == n / WORD && lo == n % WORD
  {
  }

  function HighWord(n: nat): nat {
    var bin := Padded(BinaryText(n), BODY_BINARY_LENGTH);
    ParseBinary(if |bin| <= BODY_BINARY_ALLOCATION then bin else bin[..BODY_BINARY_ALLOCATION])
  }

  function LowWord(n: nat): nat {
    var bin := Padded(BinaryText(n), BODY_BINARY_LENGTH);
    if |bin| <= BODY_BINARY_ALLOCATION then 0
    else ParseBinary(bin[BODY_BINARY_ALLOCATION..if |bin| < BODY_BINARY_LENGTH then |bin| else BODY_BINARY_LENGTH])
  }

  /** MAIN: slicing the padded binary text in two is dividing by 2 to the 32. */
  lemma SplitIsDivision(n: nat)
    requires n < WORD * WORD
    ensures HighWord(n) == n / WORD && LowWord(n) == n % WORD
    ensures HighWord(n) < WORD && LowWord(n) < WORD
  {
    hide Padded, BinaryText, ParseBinary, Pow2;
    WordPow();
    PaddedIs(n, BODY_BINARY_LENGTH);
    var bin := Padded(BinaryText(n), BODY_BINARY_LENGTH);
    assert bin == bin[..32] + bin[32..];
    assert bin[32..] == bin[32..64];
    ParseConcat(bin[..32], bin[32..]);
    ParseBound(bin[..32]);
    ParseBound(bin[32..]);
    QuotientIs(n, ParseBinary(bin[..32]), ParseBinary(bin[32..]));
  }

  /** The number that reading puts together from two words. */
  function Joined(hi: nat, lo: nat): nat {
    ParseBinary(Padded(BinaryText(hi), BODY_BINARY_ALLOCATION) + Padded(BinaryText(lo), BODY_BINARY_ALLOCATION))
  }

  /** MAIN: reading puts the two words together again. */
  lemma JoinIsSum(hi: nat, lo: nat)
    requires hi < WORD && lo < WORD
    ensures Joined(hi, lo) == hi * WORD + lo
  {
    hide Padded, BinaryText, ParseBinary, Pow2;
    WordPow();
    PaddedIs(hi, BODY_BINARY_ALLOCATION);
    PaddedIs(lo, BODY_BINARY_ALLOCATION);
    ParseConcat(Padded(BinaryText(hi), BODY_BINARY_ALLOCATION), Padded(BinaryText(lo), BODY_BINARY_ALLOCATION));
  }

  lemma JoinSplit(n: nat)
    requires n < WORD * WORD
    ensures Joined(HighWord(n), LowWord(n)) == n
  {
    hide Joined, HighWord, LowWord;
    SplitIsDivision(n);
    JoinIsSum(n / WORD, n % WORD);
  }
}
