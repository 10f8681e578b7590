/**
 * The JavaScript string operations the modelled code relies on: `String(n)` on whole
 * numbers, `parseFloat` on integer text, ASCII `toLowerCase`, `includes`, `join` and `split`.
 */
module Text {
  import opened Wrappers
  import opened Seqs

  predicate IsDigit(c: char) {
    '0' <= c <= '9'
  }

  predicate AllDigits(s: string) {
    forall i :: 0 <= i < |s| ==> IsDigit(s[i])
  }

  function DigitChar(d: nat): (c: char)
    requires d < 10
    ensures IsDigit(c)
  {
    ('0' as int + d) as char
  }

  function DigitValue(c: char): (d: nat)
    requires IsDigit(c)
    ensures d < 10 && DigitChar(d) == c
  {
    c as int - '0' as int
  }

  /** `String(n)` for a whole number `n >= 0`: decimal digits, most significant first, no leading zero. */
  function NatToString(n: nat): (s: string)
    ensures 1 <= |s| && AllDigits(s)
    ensures |s| > 1 ==> s[0] != '0'
    decreases n
  {
    if n < 10 then [DigitChar(n)] else NatToString(n / 10) + [DigitChar(n % 10)]
  }

  /** `String(n)` for a whole number: a minus sign for negative numbers, then the digits. */
  function IntToString(n: int): string
  {
    if n < 0 then "-" + NatToString(-n) else NatToString(n)
  }

  /** The value of a run of decimal digits. */
  function DigitsValue(s: string): nat
    requires AllDigits(s)
  {
    if s == [] then 0 else DigitsValue(s[..|s| - 1]) * 10 + DigitValue(s[|s| - 1])
  }

  lemma {:induction false} DigitsValueOfNatToString(n: nat)
    ensures DigitsValue(NatToString(n)) == n
    decreases n
  {
    if n >= 10 {
      var s := NatToString(n);
      assert s[..|s| - 1] == NatToString(n / 10);
      DigitsValueOfNatToString(n / 10);
    }
  }

  /** The number of decimal digits at the start of `s`. */
  function DigitRun(s: string): (k: nat)
    ensures k <= |s| && AllDigits(s[..k])
    ensures k < |s| ==> !IsDigit(s[k])
    decreases |s|
  {
    if s == [] || !IsDigit(s[0]) then 0
    else
      var k := 1 + DigitRun(s[1..]);
      assert s[..k] == [s[0]] + s[1..][..k - 1];
      k
  }

  lemma {:induction false} DigitRunOfDigits(s: string)
    requires AllDigits(s)
    ensures DigitRun(s) == |s|
    decreases |s|
  {
    if s != [] {
      DigitRunOfDigits(s[1..]);
    }
  }

  /**
   * The white space `parseFloat` skips: tab, line feed, vertical tab, form feed, carriage return,
   * space, no-break space, the byte order mark, the other Unicode space separators and the line
   * and paragraph separators.
   */
  predicate IsSpace(c: char) {
    var n := c as int;
    9 <= n <= 13 || n == 0x20 || n == 0xA0 || n == 0x1680 || 0x2000 <= n <= 0x200A
    || n == 0x2028 || n == 0x2029 || n == 0x202F || n == 0x205F || n == 0x3000 || n == 0xFEFF
  }

  function TrimStart(s: string): (r: string)
    ensures |r| <= |s| && r == s[|s| - |r|..]
    ensures r != [] ==> !IsSpace(r[0])
    decreases |s|
  {
    if s != [] && IsSpace(s[0]) then TrimStart(s[1..]) else s
  }

  /** The value of the leading run of digits, or `None` when `u` does not start with a digit. */
  function ParseDigits(u: string): Option<nat>
  {
    var k := DigitRun(u);
    if k == 0 then None else Some(DigitsValue(u[..k]))
  }

  /**
   * `parseFloat(text)` on integer text: leading white space is skipped, an optional sign is
   * read, then the longest run of digits; without a digit the result is NaN, here `None`.
   */
  function ParseCash(text: string): Option<int>
  {
    var t := TrimStart(text);
    if t != [] && t[0] == '-' then
      match ParseDigits(t[1..])
      case None => None
      case Some(v) => Some(-(v as int))
    else
      var unsigned := if t != [] && t[0] == '+' then t[1..] else t;
      match ParseDigits(unsigned)
      case None => None
      case Some(v) => Some(v as int)
  }

  lemma {:induction false} ParseDigitsOfDigits(digits: string)
    requires digits != [] && AllDigits(digits)
    ensures ParseDigits(digits) == Some(DigitsValue(digits))
  {
    DigitRunOfDigits(digits);
    assert digits[..|digits|] == digits;
  }

  lemma {:induction false} ParseCashUnsigned(digits: string)
    requires digits != [] && AllDigits(digits)
    ensures ParseCash(digits) == Some(DigitsValue(digits) as int)
  {
    ParseDigitsOfDigits(digits);
    assert IsDigit(digits[0]);
    assert digits[0] != '-' && digits[0] != '+';
    assert TrimStart(digits) == digits;
  }

  lemma {:induction false} ParseCashNegative(digits: string)
    requires digits != [] && AllDigits(digits)
    ensures ParseCash("-" + digits) == Some(-(DigitsValue(digits) as int))
  {
    ParseDigitsOfDigits(digits);
    var s := "-" + digits;
    assert s[0] == '-' && s[1..] == digits;
    assert TrimStart(s) == s;
  }

  /** Reading back the text `String(n)` gives `n`: the two are inverse on whole numbers. */
  lemma {:induction false} ParseCashIntToString(n: int)
    ensures ParseCash(IntToString(n)) == Some(n)
  {
    var m: nat := if n < 0 then -n else n;
    var digits := NatToString(m);
    DigitsValueOfNatToString(m);
    if n < 0 {
      ParseCashNegative(digits);
      assert IntToString(n) == "-" + digits;
    } else {
      ParseCashUnsigned(digits);
      assert IntToString(n) == digits;
    }
  }

  /** `String(n)` never contains a comma or a line break. */
  lemma IntToStringHasNoSeparator(n: int)
    ensures ',' !in IntToString(n) && '\n' !in IntToString(n)
  {
    var s := IntToString(n);
    forall i | 0 <= i < |s| ensures s[i] != ',' && s[i] != '\n' {
      if n < 0 && i > 0 { assert s[i] == NatToString(-n)[i - 1]; }
    }
  }

  function ToLowerChar(c: char): char {
    if 'A' <= c <= 'Z' then (c as int + 32) as char else c
  }

  /** `toLowerCase()` on ASCII letters. */
  function ToLower(s: string): (r: string)
    ensures |r| == |s|
  {
    MapSeq(s, ToLowerChar)
  }

  /** `s.includes(part)`: `part` occurs in `s` at some position. */
  function Includes(s: string, part: string): bool
    decreases |s|
  {
    part <= s || (s != [] && Includes(s[1..], part))
  }

  /** `parts.join(sep)`. */
  function Join(parts: seq<string>, sep: string): string
    decreases |parts|
  {
    if parts == [] then ""
    else if |parts| == 1 then parts[0]
    else parts[0] + sep + Join(parts[1..], sep)
  }

  /** `s.split(sep)` for a one-character separator. */
  function Split(s: string, sep: char): (parts: seq<string>)
    ensures |parts| >= 1
    decreases |s|
  {
    if s == [] then [""]
    else
      var rest := Split(s[1..], sep);
      if s[0] == sep then [""] + rest else [[s[0]] + rest[0]] + rest[1..]
  }

  lemma {:induction false} SplitWithoutSeparator(s: string, sep: char)
    requires sep !in s
    ensures Split(s, sep) == [s]
    decreases |s|
  {
    if s != [] {
      assert s[0] != sep;
      SplitWithoutSeparator(s[1..], sep);
      assert [s[0]] + s[1..] == s;
    }
  }

  lemma {:induction false} SplitAfterPart(p: string, sep: char, rest: string)
    requires sep !in p
    ensures Split(p + [sep] + rest, sep) == [p] + Split(rest, sep)
    decreases |p|
  {
    if p == [] {
      assert p + [sep] + rest == [sep] + rest;
      assert ([sep] + rest)[1..] == rest;
    } else {
      var s := p + [sep] + rest;
      assert s[0] == p[0];
      assert s[1..] == p[1..] + [sep] + rest;
      SplitAfterPart(p[1..], sep, rest);
      assert [p[0]] + p[1..] == p;
    }
  }

  /** Splitting a join on the same separator gives back the parts when no part holds it. */
  lemma {:induction false} SplitJoin(parts: seq<string>, sep: char)
    requires |parts| >= 1
    requires forall i :: 0 <= i < |parts| ==> sep !in parts[i]
    ensures Split(Join(parts, [sep]), sep) == parts
    decreases |parts|
  {
    if |parts| == 1 {
      SplitWithoutSeparator(parts[0], sep);
    } else {
      SplitJoin(parts[1..], sep);
      SplitAfterPart(parts[0], sep, Join(parts[1..], [sep]));
      assert [parts[0]] + parts[1..] == parts;
    }
  }

  /** The first field of a split is a prefix of the text holding no separator. */
  lemma {:induction false} SplitHead(s: string, sep: char)
    ensures Split(s, sep)[0] <= s && sep !in Split(s, sep)[0]
    decreases |s|
  {
    if s != [] {
      SplitHead(s[1..], sep);
      if s[0] != sep {
        var head := Split(s[1..], sep)[0];
        assert Split(s, sep)[0] == [s[0]] + head;
        assert s == [s[0]] + s[1..];
      }
    }
  }
}
