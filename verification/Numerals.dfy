/** Numbers as text: sio_ltoa of csapp.c, which fills a buffer with digits from the last one and
    reverses it in place, and getchunksize and hex2num of proxy.c. */
module Numerals {

  const INT_MAX: int := 0x7fff_ffff
  const LONG_MIN: int := -0x8000_0000_0000_0000
  const LONG_MAX: int := 0x7fff_ffff_ffff_ffff

  predicate IsInt(n: int) {
    -INT_MAX - 1 <= n <= INT_MAX
  }

  // ---------------------------------------------------------------- numerals

  /** The digit line 248 stores for c. */
  function Digit(c: nat): char
    requires c < 36
  {
    if c < 10 then '0' + c as char else 'a' + (c - 10) as char
  }

  function DigitValue(c: char): nat {
    if '0' <= c <= '9' then (c - '0') as nat
    else if 'a' <= c <= 'z' then (c - 'a') as nat + 10
    else 36
  }

  /** The value of a string of digits, the first one weighing most. */
  function Value(s: string, b: nat): nat {
    if s == "" then 0 else Value(s[..|s| - 1], b) * b + DigitValue(s[|s| - 1])
  }

  /** The numeral of v without superfluous zeros. */
  function Numeral(v: nat, b: nat): (s: string)
    requires 2 <= b <= 36
    ensures s != ""
  {
    if v < b then [Digit(v)] else Numeral(v / b, b) + [Digit(v % b)]
  }

  lemma DigitHasValue(c: nat)
    requires c < 36
    ensures DigitValue(Digit(c)) == c && Digit(c) != '\0' && Digit(c) != '-'
  {
  }

  predicate IsDigitOf(c: char, b: nat) {
    DigitValue(c) < b
  }

  lemma {:induction false} NumeralValue(v: nat, b: nat)
    requires 2 <= b <= 36
    ensures Value(Numeral(v, b), b) == v
    ensures forall i :: 0 <= i < |Numeral(v, b)| ==> IsDigitOf(Numeral(v, b)[i], b)
    ensures v > 0 ==> Numeral(v, b)[0] != '0'
    decreases v
  {
    DigitHasValue(v % b);
    if v < b {
      assert Numeral(v, b)[..0] == "";
      DigitHasValue(v);
    } else {
      Quotient(v, b);
      NumeralValue(v / b, b);
      var s := Numeral(v / b, b);
      assert (s + [Digit(v % b)])[..|s|] == s;
    }
  }

  lemma {:induction false} TimesAtLeastTwo(q: nat, b: nat)
    requires 2 <= b
    ensures q * 2 <= q * b
  {
    if q > 0 {
      TimesAtLeastTwo(q - 1, b);
      assert q * b == (q - 1) * b + b;
    }
  }

  lemma DivMod(v: nat, b: nat)
    requires 0 < b
    ensures v == (v / b) * b + v % b && v % b < b
  {
  }

  lemma Quotient(v: nat, b: nat)
    requires 2 <= b <= v
    ensures 0 < v / b < v && v / b <= v / 2 && v == (v / b) * b + v % b
  {
    DivMod(v, b);
    var q := v / b;
    TimesAtLeastTwo(q, b);
    if q <= 0 {
      assert false;
    }
  }

  function Pow2(k: nat): nat {
    if k == 0 then 1 else 2 * Pow2(k - 1)
  }

  /** A number below 2^k has at most k digits, in every base. */
  lemma {:induction false} NumeralLength(v: nat, b: nat, k: nat)
    requires 2 <= b <= 36 && 0 < k && v < Pow2(k)
    ensures |Numeral(v, b)| <= k
    decreases v
  {
    if v >= b {
      Quotient(v, b);
      assert k > 1;
      NumeralLength(v / b, b, k - 1);
    }
  }

  lemma LongLength(v: nat, b: nat)
    requires 2 <= b <= 36 && v <= LONG_MAX
    ensures |Numeral(v, b)| <= 63
  {
    assert Pow2(8) == 256;
    assert Pow2(16) == 0x1_0000;
    assert Pow2(24) == 0x100_0000;
    assert Pow2(32) == 0x1_0000_0000;
    assert Pow2(40) == 0x100_0000_0000;
    assert Pow2(48) == 0x1_0000_0000_0000;
    assert Pow2(56) == 0x100_0000_0000_0000;
    assert Pow2(63) == 0x8000_0000_0000_0000;
    NumeralLength(v, b, 63);
  }

  /** The text of a long. */
  function Text(v: int, b: nat): string
    requires 2 <= b <= 36
  {
    if v < 0 then "-" + Numeral(-v, b) else Numeral(v, b)
  }

  function TextValue(s: string, b: nat): int {
    if s != "" && s[0] == '-' then -(Value(s[1..], b) as int) else Value(s, b)
  }

  /** The text determines the number, and with its NUL takes at most 65 bytes. */
  lemma TextRoundTrip(v: int, b: nat)
    requires 2 <= b <= 36 && LONG_MIN < v <= LONG_MAX
    ensures TextValue(Text(v, b), b) == v && |Text(v, b)| + 1 <= 65
    ensures '\0' !in Text(v, b)
  {
    var m := if v < 0 then -v else v;
    NumeralValue(m, b);
    LongLength(m, b);
    forall i | 0 <= i < |Numeral(m, b)| ensures Numeral(m, b)[i] != '\0' && Numeral(m, b)[i] != '-' {
      assert IsDigitOf(Numeral(m, b)[i], b);
    }
    if v < 0 {
      assert Text(v, b)[1..] == Numeral(m, b);
    }
  }

  // ---------------------------------------------------------------- sio_ltoa

  function Reversed(s: string): (r: string)
    ensures |r| == |s|
  {
    if s == "" then "" else Reversed(s[1..]) + [s[0]]
  }

  lemma {:induction false} ReversedAt(s: string, k: nat)
    requires k < |s|
    ensures Reversed(s)[k] == s[|s| - 1 - k]
  {
    if |s| > 1 {
      ReversedAt(s[1..], if k < |s| - 1 then k else 0);
    }
  }

  lemma {:induction false} ReversedSnoc(s: string, c: char)
    ensures Reversed(s + [c]) == [c] + Reversed(s)
  {
    if s == "" {
      assert "" + [c] == [c];
    } else {
      ReversedSnoc(s[1..], c);
      assert (s + [c])[1..] == s[1..] + [c];
    }
  }

  /** s holds a C string of n characters. */
  ghost predicate HoldsString(s: array<char>, n: nat)
    reads s
  {
    n < s.Length && s[n] == '\0' && forall i :: 0 <= i < n ==> s[i] != '\0'
  }

  /** sio_strlen. */
  method StrLen(s: array<char>, ghost n: nat) returns (i: nat)
    requires HoldsString(s, n)
    ensures i == n
  {
    i := 0;
    while s[i] != '\0'
      invariant i <= n
      decreases n - i
    {
      i := i + 1;
    }
  }

  /** sio_reverse. */
  method Reverse(s: array<char>, ghost n: nat)
    requires HoldsString(s, n)
    modifies s
    ensures s[..n] == Reversed(old(s[..n])) && s[n] == '\0'
    ensures forall k :: n < k < s.Length ==> s[k] == old(s[k])
  {
    var len: int := StrLen(s, n);
    var i: int, j: int := 0, len - 1;
    while i < j
      invariant 0 <= i && j == n - 1 - i && i <= j + 2
      invariant forall k :: 0 <= k < i ==> s[k] == old(s[n - 1 - k]) && s[n - 1 - k] == old(s[k])
      invariant forall k :: i <= k <= j ==> s[k] == old(s[k])
      invariant forall k :: n <= k < s.Length ==> s[k] == old(s[k])
    {
      var c := s[i];
      s[i] := s[j];
      s[j] := c;
      i := i + 1;
      j := j - 1;
    }
    ghost var was := old(s[..n]);
    forall k | 0 <= k < n ensures s[k] == Reversed(was)[k] {
      ReversedAt(was, k);
    }
  }

  /** One round of the loop of sio_ltoa: the last digit of what is left moves to the front of
      the digits stored so far. */
  lemma OneDigit(left: nat, b: nat, stored: string)
    requires 2 <= b <= 36
    ensures Numeral(left, b) + Reversed(stored) ==
      (if left < b then "" else Numeral(left / b, b)) + Reversed(stored + [Digit(left % b)])
    ensures left < b <==> left / b == 0
    ensures left >= b ==> left / b < left
  {
    ReversedSnoc(stored, Digit(left % b));
    if left >= b {
      Quotient(left, b);
      var front, last := Numeral(left / b, b), [Digit(left % b)];
      assert front + last + Reversed(stored) == front + (last + Reversed(stored));
    } else {
      SmallQuotient(left, b);
      assert "" + ([Digit(left)] + Reversed(stored)) == [Digit(left)] + Reversed(stored);
    }
  }

  lemma SmallQuotient(v: nat, b: nat)
    requires v < b
    ensures v / b == 0 && v % b == v
  {
  }

  /** The digit loop of sio_ltoa, lines 246-249. */
  method StoreDigits(v: nat, s: array<char>, b: nat) returns (i: nat)
    requires v <= LONG_MAX && 2 <= b <= 36 && 63 <= s.Length
    modifies s
    ensures i == |Numeral(v, b)| && i <= 63 && Reversed(s[..i]) == Numeral(v, b)
  {
    LongLength(v, b);
    var left: nat := v;
    i := 0;
    ghost var stored := "";
    assert Numeral(v, b) + "" == Numeral(v, b);
    while true
      invariant |Numeral(v, b)| <= 63 && i == |stored| && i < |Numeral(v, b)| && s[..i] == stored
      invariant Numeral(v, b) == Numeral(left, b) + Reversed(stored)
      decreases left
    {
      OneDigit(left, b, stored);
      s[i] := Digit(left % b);
      assert s[..i + 1] == s[..i] + [Digit(left % b)];
      stored := stored + [Digit(left % b)];
      i := i + 1;
      left := left / b;
      if left <= 0 {
        break;
      }
    }
    assert "" + Reversed(stored) == Reversed(stored);
  }

  lemma ReversedHasNoNul(s: string)
    requires '\0' !in Reversed(s)
    ensures '\0' !in s
  {
    forall k | 0 <= k < |s| ensures s[k] != '\0' {
      ReversedAt(s, |s| - 1 - k);
      assert Reversed(s)[|s| - 1 - k] in Reversed(s);
    }
  }

  /** sio_ltoa: for every long but the least, whose negation overflows. */
  method Ltoa(v: int, s: array<char>, b: nat)
    requires LONG_MIN < v <= LONG_MAX && 2 <= b <= 36 && 65 <= s.Length
    modifies s
    ensures var t := Text(v, b); |t| <= 64 && HoldsString(s, |t|) && s[..|t|] == t
  {
    TextRoundTrip(v, b);
    var neg := v < 0;
    var i := StoreDigits(if neg then -v else v, s, b);
    if neg {
      i := StoreSign(s, i, Numeral(-v, b));
    }
    Terminate(s, i, Text(v, b));
  }

  /** Lines 250-251. */
  method StoreSign(s: array<char>, i: nat, ghost digits: string) returns (j: nat)
    requires i < s.Length && Reversed(s[..i]) == digits
    modifies s
    ensures j == i + 1 && Reversed(s[..j]) == "-" + digits
  {
    ghost var stored := s[..i];
    ReversedSnoc(stored, '-');
    s[i] := '-';
    j := i + 1;
    assert s[..j] == stored + ['-'];
  }

  method Terminate(s: array<char>, i: nat, ghost text: string)
    requires i < s.Length && Reversed(s[..i]) == text && '\0' !in text
    modifies s
    ensures i == |text| && HoldsString(s, i) && s[..i] == text
  {
    ghost var backwards := s[..i];
    ReversedHasNoNul(backwards);
    s[i] := '\0';
    assert s[..i] == backwards;
    assert forall k :: 0 <= k < i ==> s[k] == backwards[k];
    Reverse(s, i);
    assert forall k :: 0 <= k < i ==> s[..i][k] in text;
  }

  // ---------------------------------------------------------------- getchunksize

  predicate IsHexDigit(c: char) {
    '0' <= c <= '9' || 'a' <= c <= 'f' || 'A' <= c <= 'F'
  }

  /** hex2num: -1 exactly for what isxdigit rejects. */
  function HexToNum(ch: char): (r: int)
    ensures r == -1 <==> !IsHexDigit(ch)
    ensures -1 <= r < 16
  {
    if '0' <= ch <= '9' then (ch - '0') as int
    else if 'a' <= ch <= 'f' then 10 + (ch - 'a') as int
    else if 'A' <= ch <= 'F' then 10 + (ch - 'A') as int
    else -1
  }

  /** The hexadecimal digits a text begins with. */
  function HexPrefix(s: string): (r: string)
    ensures |r| <= |s| && r == s[..|r|]
    ensures forall i :: 0 <= i < |r| ==> IsHexDigit(r[i])
    ensures |r| < |s| ==> !IsHexDigit(s[|r|])
  {
    if s == "" || !IsHexDigit(s[0]) then "" else [s[0]] + HexPrefix(s[1..])
  }

  function HexValue(s: string): nat
    requires forall i :: 0 <= i < |s| ==> IsHexDigit(s[i])
  {
    if s == "" then 0 else HexValue(s[..|s| - 1]) * 16 + HexToNum(s[|s| - 1])
  }

  lemma {:induction false} HexValueGrows(s: string, k: nat)
    requires k <= |s| && forall i :: 0 <= i < |s| ==> IsHexDigit(s[i])
    ensures HexValue(s[..k]) <= HexValue(s)
  {
    if k < |s| {
      assert s[..|s| - 1][..k] == s[..k];
      HexValueGrows(s[..|s| - 1], k);
    } else {
      assert s[..k] == s;
    }
  }

  lemma HexStep(digits: string, i: nat)
    requires i < |digits| && forall k :: 0 <= k < |digits| ==> IsHexDigit(digits[k])
    ensures HexValue(digits[..i + 1]) == HexValue(digits[..i]) * 16 + HexToNum(digits[i])
    ensures HexValue(digits[..i + 1]) <= HexValue(digits)
  {
    assert digits[..i + 1][..i] == digits[..i];
    HexValueGrows(digits, i + 1);
  }

  /** getchunksize: the value of the leading digits. As long as that value is an int, so are all
      intermediate results; and -1 is never returned. */
  method GetChunkSize(buf: array<char>) returns (num: int)
    requires HexValue(HexPrefix(buf[..])) <= INT_MAX
    ensures num == HexValue(HexPrefix(buf[..]))
  {
    num := 0;
    ghost var digits := HexPrefix(buf[..]);
    assert digits[..0] == "";
    var i := 0;
    while i < buf.Length
      invariant i <= |digits| && num == HexValue(digits[..i])
    {
      var ch := buf[i];
      if !IsHexDigit(ch) {
        break;
      }
      HexStep(digits, i);
      assert num * 16 <= INT_MAX;
      num := num * 16;
      var digit := HexToNum(ch);
      if digit == -1 {
        return -1;
      }
      assert num + digit <= INT_MAX;
      num := num + digit;
      i := i + 1;
    }
    assert digits[..|digits|] == digits;
  }

  lemma {:induction false} HexValueIsValue(s: string)
    requires forall i :: 0 <= i < |s| ==> IsDigitOf(s[i], 16)
    ensures forall i :: 0 <= i < |s| ==> IsHexDigit(s[i])
    ensures HexValue(s) == Value(s, 16)
  {
    if s != "" {
      assert IsDigitOf(s[|s| - 1], 16);
      HexValueIsValue(s[..|s| - 1]);
      forall i | 0 <= i < |s| ensures IsHexDigit(s[i]) {
        assert IsDigitOf(s[i], 16);
      }
    }
  }

  lemma {:induction false} HexPrefixOf(digits: string, rest: string)
    requires forall i :: 0 <= i < |digits| ==> IsHexDigit(digits[i])
    requires rest == "" || !IsHexDigit(rest[0])
    ensures HexPrefix(digits + rest) == digits
  {
    if digits == "" {
      assert digits + rest == rest;
    } else {
      assert (digits + rest)[1..] == digits[1..] + rest;
      HexPrefixOf(digits[1..], rest);
    }
  }

  // ---------------------------------------------------------------- digits in both spellings

  const LOWER_DIGITS := "0123456789abcdef"
  const UPPER_DIGITS := "0123456789ABCDEF"

  /** A digit has the value of its place in either alphabet, and nothing else is a digit. */
  lemma HexToNumIs(ch: char)
    ensures forall c :: 0 <= c < 16 && (ch == LOWER_DIGITS[c] || ch == UPPER_DIGITS[c]) ==> HexToNum(ch) == c
    ensures ch !in LOWER_DIGITS && ch !in UPPER_DIGITS ==> HexToNum(ch) == -1
  {
    var r := HexToNum(ch);
    if r >= 0 {
      assert r == 0 || r == 1 || r == 2 || r == 3 || r == 4 || r == 5 || r == 6 || r == 7
          || r == 8 || r == 9 || r == 10 || r == 11 || r == 12 || r == 13 || r == 14 || r == 15;
      assert LOWER_DIGITS[r] == ch || UPPER_DIGITS[r] == ch;
    }
  }

  /** t is s with some of the letters in capitals. */
  predicate IsSpelling(t: string, s: string) {
    |t| == |s| && forall i :: 0 <= i < |s| ==> IsSpelled(t[i], s[i])
  }

  predicate IsSpelled(t: char, s: char) {
    exists c :: 0 <= c < 16 && s == LOWER_DIGITS[c] && (t == s || t == UPPER_DIGITS[c])
  }

  lemma {:induction false} SpellingValue(t: string, s: string)
    requires IsSpelling(t, s)
    ensures forall i :: 0 <= i < |s| ==> IsHexDigit(t[i]) && IsHexDigit(s[i])
    ensures HexValue(t) == HexValue(s)
  {
    hide IsSpelled, HexToNum, IsHexDigit;
    forall i | 0 <= i < |s| ensures IsHexDigit(t[i]) && IsHexDigit(s[i]) {
      SpelledAlike(t[i], s[i]);
    }
    if s != "" {
      var n := |s| - 1;
      SpelledAlike(t[n], s[n]);
      SpellingValue(t[..n], s[..n]);
    }
  }

  lemma SpelledAlike(t: char, s: char)
    requires IsSpelled(t, s)
    ensures HexToNum(t) == HexToNum(s) >= 0
  {
    HexToNumIs(t);
    HexToNumIs(s);
  }

  lemma HexDigitIsSpelled(ch: char)
    requires DigitValue(ch) < 16
    ensures IsSpelled(ch, ch)
  {
    var r := DigitValue(ch);
    assert r == 0 || r == 1 || r == 2 || r == 3 || r == 4 || r == 5 || r == 6 || r == 7
        || r == 8 || r == 9 || r == 10 || r == 11 || r == 12 || r == 13 || r == 14 || r == 15;
    assert LOWER_DIGITS[r] == ch;
  }

  /** A number in base 16, in whatever spelling, is read back by getchunksize. */
  lemma SpellingRoundTrip(t: string, v: nat, rest: string)
    requires IsSpelling(t, Text(v, 16)) && (rest == "" || !IsHexDigit(rest[0]))
    ensures HexValue(HexPrefix(t + rest)) == v
  {
    NumeralValue(v, 16);
    HexValueIsValue(Numeral(v, 16));
    SpellingValue(t, Numeral(v, 16));
    HexPrefixOf(t, rest);
  }

  /** As sio_ltoa prints it, for example. */
  lemma ChunkSizeRoundTrip(v: nat, rest: string)
    requires rest == "" || !IsHexDigit(rest[0])
    ensures HexValue(HexPrefix(Text(v, 16) + rest)) == v
  {
    NumeralValue(v, 16);
    forall i | 0 <= i < |Text(v, 16)| ensures IsSpelled(Text(v, 16)[i], Text(v, 16)[i]) {
      assert IsDigitOf(Numeral(v, 16)[i], 16);
      HexDigitIsSpelled(Text(v, 16)[i]);
    }
    SpellingRoundTrip(Text(v, 16), v, rest);
  }
}
