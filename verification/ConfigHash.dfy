/** The 64-bit FNV-1a hash of a configuration text (section 2 of draft-eastlake-fnv), with
    which a running bridge notices that its configuration changed. */
module ConfigHash {

  type Byte = n: nat | n < 256

  const WORD: nat := 0x1_0000_0000_0000_0000

  /** A 64-bit machine word. */
  type Word = n: nat | n < WORD

  const OFFSET_BASIS: Word := 0xcbf2_9ce4_8422_2325
  const PRIME: nat := 0x100_0000_01b3

  /** The inverse of the prime modulo 2^64, and the quotient that shows it. */
  const PRIME_INVERSE: nat := 0xce96_5057_aff6_957b
  const INVERSE_QUOTIENT: nat := 887285111055

  function Power2(width: nat): nat {
    if width == 0 then 1 else 2 * Power2(width - 1)
  }

  /** Bitwise exclusive or of the `width` low bits. */
  function Xor(a: nat, b: nat, width: nat): (r: nat)
    ensures r < Power2(width)
  {
    if width == 0 then 0
    else (if a % 2 != b % 2 then 1 else 0) + 2 * Xor(a / 2, b / 2, width - 1)
  }

  lemma WordWidth()
    ensures Power2(64) == WORD
  {
    assert Power2(8) == 256;
    assert Power2(16) == 0x1_0000 by { assert Power2(12) == 4096; }
    assert Power2(24) == 0x100_0000 by { assert Power2(20) == 0x10_0000; }
    assert Power2(32) == 0x1_0000_0000 by { assert Power2(28) == 0x1000_0000; }
    assert Power2(40) == 0x100_0000_0000 by { assert Power2(36) == 0x10_0000_0000; }
    assert Power2(48) == 0x1_0000_0000_0000 by { assert Power2(44) == 0x1000_0000_0000; }
    assert Power2(56) == 0x100_0000_0000_0000 by { assert Power2(52) == 0x10_0000_0000_0000; }
    assert Power2(60) == 0x1000_0000_0000_0000;
  }

  function XorByte(word: Word, byte: Byte): Word {
    WordWidth();
    Xor(word, byte, 64)
  }

  function WrappingMul(word: Word, factor: nat): Word {
    word * factor % WORD
  }

  function Absorb(hash: Word, byte: Byte): Word {
    WrappingMul(XorByte(hash, byte), PRIME)
  }

  /** The hash state after more bytes. */
  function HashFrom(hash: Word, bytes: seq<Byte>): Word {
    if bytes == [] then hash else Absorb(HashFrom(hash, bytes[..|bytes| - 1]), bytes[|bytes| - 1])
  }

  function HexChar(nibble: nat): char
    requires nibble < 16
  {
    "0123456789abcdef"[nibble]
  }

  /** The low 4 * width bits in lower-case hexadecimal. */
  function Hex(value: nat, width: nat): string {
    if width == 0 then "" else Hex(value / 16, width - 1) + [HexChar(value % 16)]
  }

  method StableHashHex(bytes: seq<Byte>) returns (text: string)
    ensures text == Hex(HashFrom(OFFSET_BASIS, bytes), 16)
  {
    var hash := OFFSET_BASIS;
    for i := 0 to |bytes|
      invariant hash == HashFrom(OFFSET_BASIS, bytes[..i])
    {
      hash := XorByte(hash, bytes[i]);
      hash := WrappingMul(hash, PRIME);
      assert bytes[..i + 1][..i] == bytes[..i];
    }
    assert bytes[..|bytes|] == bytes;
    text := Hex(hash, 16);
  }

  // ------------------------------------------------ published values

  lemma XorStep(a: nat, b: nat, width: nat)
    ensures Xor(a, b, width + 1) == (if a % 2 != b % 2 then 1 else 0) + 2 * Xor(a / 2, b / 2, width)
  {
  }

  lemma {:induction false} XorZero(a: nat, width: nat)
    requires a < Power2(width)
    ensures Xor(a, 0, width) == a
  {
    if width > 0 {
      XorZero(a / 2, width - 1);
    }
  }

  lemma HexDigit(high: nat, digit: nat, width: nat)
    requires digit < 16
    ensures Hex(16 * high + digit, width + 1) == Hex(high, width) + [HexChar(digit)]
  {
    hide HexChar;
    assert (16 * high + digit) / 16 == high && (16 * high + digit) % 16 == digit;
  }

  lemma HexDigits()
    ensures forall n: nat | n < 16 ::
      HexChar(n) == if n < 10 then ('0' as int + n) as char else ('a' as int + n - 10) as char
  {
  }

  /** The exclusive or of the offset basis with the letter a. */
  lemma BasisXorA()
    ensures XorByte(OFFSET_BASIS, 97) == 0xcbf2_9ce4_8422_2344
  {
    hide Xor, Power2;
    PowerSteps();
    XorZero(0x0197_e539_c908_4446, 57);
    XorStep(0x032f_ca73_9210_888c, 1, 57);
    assert Xor(0x032f_ca73_9210_888c, 1, 58) == 0x032f_ca73_9210_888d;
    XorStep(0x065f_94e7_2421_1119, 3, 58);
    assert Xor(0x065f_94e7_2421_1119, 3, 59) == 0x065f_94e7_2421_111a;
    XorStep(0x0cbf_29ce_4842_2232, 6, 59);
    assert Xor(0x0cbf_29ce_4842_2232, 6, 60) == 0x0cbf_29ce_4842_2234;
    XorStep(0x197e_539c_9084_4464, 12, 60);
    assert Xor(0x197e_539c_9084_4464, 12, 61) == 0x197e_539c_9084_4468;
    XorStep(0x32fc_a739_2108_88c9, 24, 61);
    assert Xor(0x32fc_a739_2108_88c9, 24, 62) == 0x32fc_a739_2108_88d1;
    XorStep(0x65f9_4e72_4211_1192, 48, 62);
    assert Xor(0x65f9_4e72_4211_1192, 48, 63) == 0x65f9_4e72_4211_11a2;
    XorStep(0xcbf2_9ce4_8422_2325, 97, 63);
    assert Xor(0xcbf2_9ce4_8422_2325, 97, 64) == 0xcbf2_9ce4_8422_2344;
  }

  lemma PowerSteps()
    ensures 128 * Power2(57) == WORD
  {
    WordWidth();
    assert Power2(60) == 8 * Power2(57) by { assert Power2(60) == 4 * Power2(58); }
    assert Power2(64) == 16 * Power2(60) by { assert Power2(64) == 4 * Power2(62); }
  }

  lemma EmptyTextHead()
    ensures Hex(0xcbf2_9ce4, 8) == "cbf29ce4"
  {
    hide Hex, HexChar;
    HexDigits();
    NoDigits();
    HexDigit(0, 12, 0);
    assert Hex(0xc, 1) == "c";
    HexDigit(0xc, 11, 1);
    assert Hex(0xcb, 2) == "cb";
    HexDigit(0xcb, 15, 2);
    assert Hex(0xcbf, 3) == "cbf";
    HexDigit(0xcbf, 2, 3);
    assert Hex(0xcbf2, 4) == "cbf2";
    HexDigit(0xcbf2, 9, 4);
    assert Hex(0xc_bf29, 5) == "cbf29";
    HexDigit(0xc_bf29, 12, 5);
    assert Hex(0xcb_f29c, 6) == "cbf29c";
    HexDigit(0xcb_f29c, 14, 6);
    assert Hex(0xcbf_29ce, 7) == "cbf29ce";
    HexDigit(0xcbf_29ce, 4, 7);
    assert Hex(0xcbf2_9ce4, 8) == "cbf29ce4";
  }

  lemma EmptyText()
    ensures Hex(0xcbf2_9ce4_8422_2325, 16) == "cbf29ce484222325"
  {
    hide Hex, HexChar;
    HexDigits();
    EmptyTextHead();
    HexDigit(0xcbf2_9ce4, 8, 8);
    assert Hex(0xc_bf29_ce48, 9) == "cbf29ce48";
    HexDigit(0xc_bf29_ce48, 4, 9);
    assert Hex(0xcb_f29c_e484, 10) == "cbf29ce484";
    HexDigit(0xcb_f29c_e484, 2, 10);
    assert Hex(0xcbf_29ce_4842, 11) == "cbf29ce4842";
    HexDigit(0xcbf_29ce_4842, 2, 11);
    assert Hex(0xcbf2_9ce4_8422, 12) == "cbf29ce48422";
    HexDigit(0xcbf2_9ce4_8422, 2, 12);
    assert Hex(0xc_bf29_ce48_4222, 13) == "cbf29ce484222";
    HexDigit(0xc_bf29_ce48_4222, 3, 13);
    assert Hex(0xcb_f29c_e484_2223, 14) == "cbf29ce4842223";
    HexDigit(0xcb_f29c_e484_2223, 2, 14);
    assert Hex(0xcbf_29ce_4842_2232, 15) == "cbf29ce48422232";
    HexDigit(0xcbf_29ce_4842_2232, 5, 15);
    assert Hex(0xcbf2_9ce4_8422_2325, 16) == "cbf29ce484222325";
  }

  lemma LetterTextHead()
    ensures Hex(0xaf63_dc4c, 8) == "af63dc4c"
  {
    hide Hex, HexChar;
    HexDigits();
    NoDigits();
    HexDigit(0, 10, 0);
    assert Hex(0xa, 1) == "a";
    HexDigit(0xa, 15, 1);
    assert Hex(0xaf, 2) == "af";
    HexDigit(0xaf, 6, 2);
    assert Hex(0xaf6, 3) == "af6";
    HexDigit(0xaf6, 3, 3);
    assert Hex(0xaf63, 4) == "af63";
    HexDigit(0xaf63, 13, 4);
    assert Hex(0xa_f63d, 5) == "af63d";
    HexDigit(0xa_f63d, 12, 5);
    assert Hex(0xaf_63dc, 6) == "af63dc";
    HexDigit(0xaf_63dc, 4, 6);
    assert Hex(0xaf6_3dc4, 7) == "af63dc4";
    HexDigit(0xaf6_3dc4, 12, 7);
    assert Hex(0xaf63_dc4c, 8) == "af63dc4c";
  }

  lemma LetterText()
    ensures Hex(0xaf63_dc4c_8601_ec8c, 16) == "af63dc4c8601ec8c"
  {
    hide Hex, HexChar;
    HexDigits();
    LetterTextHead();
    HexDigit(0xaf63_dc4c, 8, 8);
    assert Hex(0xa_f63d_c4c8, 9) == "af63dc4c8";
    HexDigit(0xa_f63d_c4c8, 6, 9);
    assert Hex(0xaf_63dc_4c86, 10) == "af63dc4c86";
    HexDigit(0xaf_63dc_4c86, 0, 10);
    assert Hex(0xaf6_3dc4_c860, 11) == "af63dc4c860";
    HexDigit(0xaf6_3dc4_c860, 1, 11);
    assert Hex(0xaf63_dc4c_8601, 12) == "af63dc4c8601";
    HexDigit(0xaf63_dc4c_8601, 14, 12);
    assert Hex(0xa_f63d_c4c8_601e, 13) == "af63dc4c8601e";
    HexDigit(0xa_f63d_c4c8_601e, 12, 13);
    assert Hex(0xaf_63dc_4c86_01ec, 14) == "af63dc4c8601ec";
    HexDigit(0xaf_63dc_4c86_01ec, 8, 14);
    assert Hex(0xaf6_3dc4_c860_1ec8, 15) == "af63dc4c8601ec8";
    HexDigit(0xaf6_3dc4_c860_1ec8, 12, 15);
    assert Hex(0xaf63_dc4c_8601_ec8c, 16) == "af63dc4c8601ec8c";
  }

  lemma LetterHash()
    ensures HashFrom(OFFSET_BASIS, [97]) == 0xaf63_dc4c_8601_ec8c
  {
    hide XorByte;
    BasisXorA();
    assert [97][..0] == [];
  }

  /** Two published values: the hashes of the empty text and of the letter a, in the examples of
      draft-eastlake-fnv. */
  lemma PublishedValues()
    ensures Hex(HashFrom(OFFSET_BASIS, []), 16) == "cbf29ce484222325"
    ensures Hex(HashFrom(OFFSET_BASIS, [97]), 16) == "af63dc4c8601ec8c"
  {
    hide Hex, Absorb;
    EmptyText();
    LetterText();
    LetterHash();
  }

  lemma NoDigits()
    ensures Hex(0, 0) == ""
  {
  }

  // ------------------------------------------------ every step is a bijection

  lemma {:induction false} XorInvolution(a: nat, b: nat, width: nat)
    requires a < Power2(width) && b < Power2(width)
    ensures Xor(Xor(a, b, width), b, width) == a && Xor(a, Xor(a, b, width), width) == b
  {
    if width > 0 {
      XorInvolution(a / 2, b / 2, width - 1);
    }
  }

  lemma XorByteInvolution(word: Word, byte: Byte)
    ensures XorByte(XorByte(word, byte), byte) == word
    ensures Xor(word, XorByte(word, byte), 64) == byte
  {
    WordWidth();
    XorInvolution(word, byte, 64);
  }

  lemma RemainderUnique(n: int, q: int, r: Word)
    requires n == q * WORD + r
    ensures n % WORD == r
  {
  }

  lemma MulInverse(word: Word)
    ensures WrappingMul(WrappingMul(word, PRIME), PRIME_INVERSE) == word
    ensures WrappingMul(WrappingMul(word, PRIME_INVERSE), PRIME) == word
  {
    assert PRIME * PRIME_INVERSE == 1 + INVERSE_QUOTIENT * WORD;
    var q := word * PRIME / WORD;
    RemainderUnique(WrappingMul(word, PRIME) * PRIME_INVERSE,
                    INVERSE_QUOTIENT * word - q * PRIME_INVERSE, word);
    var p := word * PRIME_INVERSE / WORD;
    RemainderUnique(WrappingMul(word, PRIME_INVERSE) * PRIME,
                    INVERSE_QUOTIENT * word - p * PRIME, word);
  }

  /** The state before a step, recovered from the state after it. */
  function Unabsorb(hash: Word, byte: Byte): Word {
    XorByte(WrappingMul(hash, PRIME_INVERSE), byte)
  }

  lemma AbsorbBijective(hash: Word, byte: Byte)
    ensures Unabsorb(Absorb(hash, byte), byte) == hash
    ensures Absorb(Unabsorb(hash, byte), byte) == hash
  {
    MulInverse(XorByte(hash, byte));
    XorByteInvolution(hash, byte);
    XorByteInvolution(WrappingMul(hash, PRIME_INVERSE), byte);
    MulInverse(hash);
  }

  lemma AbsorbSeparates(hash: Word, a: Byte, b: Byte)
    requires Absorb(hash, a) == Absorb(hash, b)
    ensures a == b
  {
    MulInverse(XorByte(hash, a));
    MulInverse(XorByte(hash, b));
    XorByteInvolution(hash, a);
    XorByteInvolution(hash, b);
  }

  lemma {:induction false} HashConcat(hash: Word, a: seq<Byte>, b: seq<Byte>)
    ensures HashFrom(hash, a + b) == HashFrom(HashFrom(hash, a), b)
  {
    if b == [] {
      assert a + b == a;
    } else {
      assert (a + b)[..|a + b| - 1] == a + b[..|b| - 1];
      HashConcat(hash, a, b[..|b| - 1]);
    }
  }

  /** A common suffix never merges or splits hash states. */
  lemma {:induction false} SuffixKeepsDistinction(h1: Word, h2: Word, suffix: seq<Byte>)
    ensures HashFrom(h1, suffix) == HashFrom(h2, suffix) <==> h1 == h2
  {
    if suffix != [] {
      var rest, last := suffix[..|suffix| - 1], suffix[|suffix| - 1];
      SuffixKeepsDistinction(h1, h2, rest);
      AbsorbBijective(HashFrom(h1, rest), last);
      AbsorbBijective(HashFrom(h2, rest), last);
    }
  }

  // ------------------------------------------------ the printed hash

  lemma {:induction false} HexInjective(a: nat, b: nat, width: nat, bound: nat)
    requires bound == Power16(width) && a < bound && b < bound
    requires Hex(a, width) == Hex(b, width)
    ensures a == b
  {
    if width > 0 {
      var x, y := Hex(a, width), Hex(b, width);
      assert x[..|x| - 1] == Hex(a / 16, width - 1) && y[..|y| - 1] == Hex(b / 16, width - 1);
      HexInjective(a / 16, b / 16, width - 1, bound / 16);
      assert HexChar(a % 16) == x[|x| - 1] == y[|y| - 1] == HexChar(b % 16);
      HexCharInjective(a % 16, b % 16);
    }
  }

  lemma HexCharInjective(a: nat, b: nat)
    requires a < 16 && b < 16 && HexChar(a) == HexChar(b)
    ensures a == b
  {
    var digits := "0123456789abcdef";
    assert forall i, j :: 0 <= i < j < 16 ==> digits[i] != digits[j];
  }

  function Power16(width: nat): nat {
    if width == 0 then 1 else 16 * Power16(width - 1)
  }

  lemma WordIsSixteenDigits()
    ensures Power16(16) == WORD
  {
    assert Power16(4) == 0x1_0000 by { assert Power16(2) == 256; }
    assert Power16(8) == 0x1_0000_0000 by { assert Power16(6) == 0x100_0000; }
    assert Power16(12) == 0x1_0000_0000_0000 by { assert Power16(10) == 0x100_0000_0000; }
    assert Power16(14) == 0x100_0000_0000_0000;
  }

  function HashText(bytes: seq<Byte>): string {
    Hex(HashFrom(OFFSET_BASIS, bytes), 16)
  }

  /** Two texts that share a suffix have the same printed hash exactly when what comes
      before the suffix has the same printed hash. */
  lemma CommonSuffix(a: seq<Byte>, b: seq<Byte>, suffix: seq<Byte>)
    ensures HashText(a + suffix) == HashText(b + suffix) <==> HashText(a) == HashText(b)
  {
    WordIsSixteenDigits();
    HashConcat(OFFSET_BASIS, a, suffix);
    HashConcat(OFFSET_BASIS, b, suffix);
    SuffixKeepsDistinction(HashFrom(OFFSET_BASIS, a), HashFrom(OFFSET_BASIS, b), suffix);
    if HashText(a + suffix) == HashText(b + suffix) {
      HexInjective(HashFrom(OFFSET_BASIS, a + suffix), HashFrom(OFFSET_BASIS, b + suffix), 16, WORD);
    }
    if HashText(a) == HashText(b) {
      HexInjective(HashFrom(OFFSET_BASIS, a), HashFrom(OFFSET_BASIS, b), 16, WORD);
    }
  }

  /** A change of exactly one byte always changes the printed hash. */
  lemma OneByteChangeShows(before: seq<Byte>, after: seq<Byte>, i: nat)
    requires |before| == |after| && i < |before| && before[i] != after[i]
    requires forall j :: 0 <= j < |before| && j != i ==> before[j] == after[j]
    ensures HashText(before) != HashText(after)
  {
    var prefix, suffix := before[..i], before[i + 1..];
    var x, y := prefix + [before[i]], prefix + [after[i]];
    assert before == x + suffix && after == y + suffix;
    CommonSuffix(x, y, suffix);
    if HashText(x) == HashText(y) {
      WordIsSixteenDigits();
      HexInjective(HashFrom(OFFSET_BASIS, x), HashFrom(OFFSET_BASIS, y), 16, WORD);
      assert x[..|x| - 1] == prefix && y[..|y| - 1] == prefix;
      AbsorbSeparates(HashFrom(OFFSET_BASIS, prefix), before[i], after[i]);
    }
  }
}
