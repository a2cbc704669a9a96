/** Character-level text handling: trimming, prefixes, and decimal numbers, with the
    meaning the Rust standard library gives to `trim`, `strip_prefix`, `split_once`
    and `parse::<uN>()`. */
module Text {

  datatype Option<+T> = None | Some(value: T)

  datatype Result<+T, +E> = Success(value: T) | Failure(error: E)

  const U8_MAX: nat := 255
  const U16_MAX: nat := 65535
  const U32_MAX: nat := 0xFFFF_FFFF
  const U64_MAX: nat := 0xFFFF_FFFF_FFFF_FFFF

  /** An addition that stops at the largest 64-bit value. */
  function SaturatingAdd(a: nat, b: nat): (r: nat)
    ensures a + b < 0x1_0000_0000_0000_0000 ==> r == a + b
    ensures r <= 0xFFFF_FFFF_FFFF_FFFF && (r < 0xFFFF_FFFF_FFFF_FFFF ==> r == a + b)
  {
    if a + b > U64_MAX then U64_MAX else a + b
  }

  // ---------------------------------------------------------------- white space

  /** The Unicode property White_Space. */
  predicate IsSpace(c: char) {
    || '\U{0009}' <= c <= '\U{000D}'
    || c == ' ' || c == '\U{0085}' || c == '\U{00A0}' || c == '\U{1680}'
    || '\U{2000}' <= c <= '\U{200A}'
    || c == '\U{2028}' || c == '\U{2029}' || c == '\U{202F}' || c == '\U{205F}' || c == '\U{3000}'
  }

  predicate AllSpace(s: string) {
    forall i :: 0 <= i < |s| ==> IsSpace(s[i])
  }

  function TrimStart(s: string): string {
    if s != "" && IsSpace(s[0]) then TrimStart(s[1..]) else s
  }

  function TrimEnd(s: string): string {
    if s != "" && IsSpace(s[|s| - 1]) then TrimEnd(s[..|s| - 1]) else s
  }

  function Trim(s: string): string {
    TrimEnd(TrimStart(s))
  }

  /** No white space at either end. */
  predicate Trimmed(s: string) {
    s == "" || (!IsSpace(s[0]) && !IsSpace(s[|s| - 1]))
  }

  lemma {:induction false} TrimStartPad(a: string, s: string)
    requires AllSpace(a)
    ensures TrimStart(a + s) == TrimStart(s)
  {
    if a == "" {
      assert a + s == s;
    } else {
      assert (a + s)[1..] == a[1..] + s;
      TrimStartPad(a[1..], s);
    }
  }

  lemma {:induction false} TrimEndPad(s: string, b: string)
    requires AllSpace(b)
    ensures TrimEnd(s + b) == TrimEnd(s)
  {
    if b == "" {
      assert s + b == s;
    } else {
      assert (s + b)[..|s + b| - 1] == s + b[..|b| - 1];
      TrimEndPad(s, b[..|b| - 1]);
    }
  }

  lemma TrimPadded(a: string, s: string, b: string)
    requires AllSpace(a) && AllSpace(b) && Trimmed(s)
    ensures Trim(a + s + b) == s
  {
    assert a + s + b == a + (s + b);
    TrimStartPad(a, s + b);
    if s == "" {
      assert s + b == b + "";
      TrimStartPad(b, "");
    } else {
      TrimEndPad(s, b);
    }
  }

  lemma TrimOfTrimmed(s: string)
    requires Trimmed(s)
    ensures Trim(s) == s
  {
    TrimPadded("", s, "");
    assert "" + s + "" == s;
  }

  lemma {:induction false} TrimStartSplits(s: string) returns (a: string)
    ensures AllSpace(a) && s == a + TrimStart(s)
    ensures TrimStart(s) == "" || !IsSpace(TrimStart(s)[0])
  {
    a := "";
    if s != "" && IsSpace(s[0]) {
      a := TrimStartSplits(s[1..]);
      a := [s[0]] + a;
    }
  }

  lemma {:induction false} TrimEndSplits(s: string) returns (b: string)
    ensures AllSpace(b) && s == TrimEnd(s) + b
    ensures TrimEnd(s) == "" || !IsSpace(TrimEnd(s)[|TrimEnd(s)| - 1])
  {
    b := "";
    if s != "" && IsSpace(s[|s| - 1]) {
      b := TrimEndSplits(s[..|s| - 1]);
      b := b + [s[|s| - 1]];
    }
  }

  /** Trimming removes exactly a run of white space from each end. */
  lemma TrimSplits(s: string) returns (a: string, b: string)
    ensures AllSpace(a) && AllSpace(b) && Trimmed(Trim(s))
    ensures s == a + Trim(s) + b
  {
    a := TrimStartSplits(s);
    b := TrimEndSplits(TrimStart(s));
  }

  // ---------------------------------------------------------------- prefixes

  predicate StartsWith(s: string, prefix: string) {
    |prefix| <= |s| && s[..|prefix|] == prefix
  }

  predicate EndsWith(s: string, c: char) {
    s != "" && s[|s| - 1] == c
  }

  /** What remains between a prefix and a closing semicolon. */
  function Field(s: string, prefix: string): Option<string> {
    if StartsWith(s, prefix) && EndsWith(s[|prefix|..], ';')
    then Some(s[|prefix|..|s| - 1])
    else None
  }

  /** The character of a line at a place inside a prefix. */
  lemma StartsAt(line: string, prefix: string, k: nat)
    requires k < |prefix| && k < |line|
    ensures StartsWith(line, prefix) ==> line[k] == prefix[k]
  {
    if StartsWith(line, prefix) {
      assert line[..|prefix|][k] == line[k];
    }
  }

  lemma FieldOf(prefix: string, body: string)
    ensures Field(prefix + body + ";", prefix) == Some(body)
  {
    var line := prefix + body + ";";
    assert line[..|prefix|] == prefix && line[|prefix|..] == body + ";";
  }

  /** A line made of a prefix, a body and a semicolon. */
  lemma ReportLine(prefix: string, body: string)
    requires |prefix| >= 2 && !IsSpace(prefix[0])
    ensures var line := prefix + body + ";";
            && Trim(line) == line && Field(line, prefix) == Some(body)
            && |line| > |prefix| && forall k :: 0 <= k < |prefix| ==> line[k] == prefix[k]
  {
    var line := prefix + body + ";";
    assert line[0] == prefix[0] && line[|line| - 1] == ';';
    TrimOfTrimmed(line);
    FieldOf(prefix, body);
  }

  lemma FieldShape(s: string, prefix: string)
    requires Field(s, prefix).Some?
    ensures StartsWith(s, prefix) && EndsWith(s, ';')
  {
  }

  /** The text before and after the first occurrence of c. */
  function SplitOnce(s: string, c: char): Option<(string, string)> {
    if s == "" then None
    else if s[0] == c then Some(("", s[1..]))
    else match SplitOnce(s[1..], c)
      case None => None
      case Some((left, right)) => Some(([s[0]] + left, right))
  }

  lemma {:induction false} SplitOnceAt(left: string, c: char, right: string)
    requires c !in left
    ensures SplitOnce(left + [c] + right, c) == Some((left, right))
  {
    var s := left + [c] + right;
    if left == "" {
      assert s[1..] == right;
    } else {
      assert s[1..] == left[1..] + [c] + right;
      SplitOnceAt(left[1..], c, right);
      assert [left[0]] + left[1..] == left;
    }
  }

  lemma {:induction false} SplitOnceParts(s: string, c: char)
    ensures SplitOnce(s, c).Some? ==>
      var (left, right) := SplitOnce(s, c).value;
      c !in left && s == left + [c] + right
    ensures SplitOnce(s, c).None? ==> c !in s
  {
    if s != "" && s[0] != c {
      SplitOnceParts(s[1..], c);
    }
  }

  // ---------------------------------------------------------------- decimal numbers

  predicate IsDigit(c: char) {
    '0' <= c <= '9'
  }

  predicate AllDigits(s: string) {
    forall i :: 0 <= i < |s| ==> IsDigit(s[i])
  }

  function DigitChar(d: nat): (c: char)
    requires d < 10
  {
    ('0' as int + d) as char
  }

  function Value(s: string): nat
    requires AllDigits(s)
  {
    if s == "" then 0
    else 10 * Value(s[..|s| - 1]) + (s[|s| - 1] as int - '0' as int)
  }

  /** The usual decimal notation, without leading zeros. */
  function Decimal(n: nat): (s: string)
    ensures s != "" && AllDigits(s) && Value(s) == n
  {
    if n < 10 then
      assert [DigitChar(n)][..0] == "";
      [DigitChar(n)]
    else
      var s := Decimal(n / 10) + [DigitChar(n % 10)];
      assert s[..|s| - 1] == Decimal(n / 10);
      s
  }

  /** An unsigned integer as Rust parses it: an optional plus sign, then at least one
      digit, and no value above the type's maximum. */
  function ParseUnsigned(s: string, max: nat): Option<nat> {
    var digits := if StartsWith(s, "+") then s[1..] else s;
    if digits != "" && AllDigits(digits) && Value(digits) <= max then Some(Value(digits)) else None
  }

  /** A signed integer: the same with an optional minus sign. */
  function ParseSigned(s: string, min: int, max: nat): Option<int> {
    if StartsWith(s, "-") then
      var digits := s[1..];
      if digits != "" && AllDigits(digits) && min <= 0 - Value(digits) then Some(0 - Value(digits)) else None
    else
      ParseUnsigned(s, max)
  }

  /** Exactly the texts that name a number: digits, with a plus sign or without, of a value that the
      type holds. */
  lemma ParsesExactly(s: string, max: nat, n: nat)
    ensures ParseUnsigned(s, max) == Some(n) <==>
      exists digits: string ::
        digits != "" && AllDigits(digits) && Value(digits) == n && n <= max && (s == digits || s == "+" + digits)
  {
    if ParseUnsigned(s, max) == Some(n) {
      var digits := if StartsWith(s, "+") then s[1..] else s;
      assert s == digits || s == "+" + digits by {
        if StartsWith(s, "+") { assert s == s[..1] + s[1..]; }
      }
    }
    forall digits: string | digits != "" && AllDigits(digits) && (s == digits || s == "+" + digits)
      ensures (if StartsWith(s, "+") then s[1..] else s) == digits
    {
      assert IsDigit(digits[0]);
      assert ("+" + digits)[1..] == digits && ("+" + digits)[..1] == "+";
      StartsAt(digits, "+", 0);
    }
  }

  lemma ParseDecimal(n: nat, max: nat)
    requires n <= max
    ensures ParseUnsigned(Decimal(n), max) == Some(n)
  {
    assert IsDigit(Decimal(n)[0]);
  }

  lemma DecimalInjective(m: nat, n: nat)
    requires Decimal(m) == Decimal(n)
    ensures m == n
  {
    assert Value(Decimal(m)) == m;
  }
}
