/** C strings as the parsers read them: fields, numbers, digits. A string is what stands before its NUL. */
module Text {
  import Arith
  import opened Options

  const LONG_MAX: int := 0x7FFF_FFFF

  /** What is left to read; End once the last field has been taken. */
  datatype Cursor = End | At(text: string)

  // ---- fields ----

  function IndexOf(s: string, c: char): (i: nat)
    ensures i <= |s| && c !in s[..i]
    ensures i < |s| ==> s[i] == c
  {
    if s == [] || s[0] == c then 0 else 1 + IndexOf(s[1..], c)
  }

  function TrimLeft(s: string): string {
    if s != [] && s[0] == ' ' then TrimLeft(s[1..]) else s
  }

  function TrimRight(s: string): string {
    if s != [] && s[|s| - 1] == ' ' then TrimRight(s[..|s| - 1]) else s
  }

  /** The next field, trimmed of spaces, and the rest; None when it doesn't fit `outLen` bytes with its NUL. */
  function Field(s: Cursor, sep: char, outLen: nat): Option<(string, Cursor)> {
    if s.End? then Some(("", End))
    else
      var len := IndexOf(s.text, sep);
      var field := TrimRight(TrimLeft(s.text[..len]));
      if |field| >= outLen then None
      else Some((field, if len < |s.text| then At(s.text[len + 1..]) else End))
  }

  method NextField(s: Cursor, sep: char, outLen: nat) returns (r: Option<(string, Cursor)>)
    ensures r == Field(s, sep, outLen)
  {
    if s.End? {
      return Some(("", End));
    }
    var text := s.text;
    var end := IndexOf(text, sep);
    var start, len := TrimmedPart(text[..end]);
    if len >= outLen {
      return None;
    }
    assert text[..end][start..start + len] == text[start..start + len];
    r := Some((text[start..start + len], if end < |text| then At(text[end + 1..]) else End));
  }

  /** What is left of a field without the spaces around it. */
  method TrimmedPart(field: string) returns (start: nat, len: nat)
    ensures start + len <= |field| && field[start..start + len] == TrimRight(TrimLeft(field))
  {
    start, len := 0, |field|;
    assert field[0..] == field;
    while len > 0 && field[start] == ' '
      invariant start + len == |field| && TrimLeft(field) == TrimLeft(field[start..])
    {
      assert field[start..][1..] == field[start + 1..];
      start := start + 1;
      len := len - 1;
    }
    ghost var left := field[start..];
    assert TrimLeft(field) == left && left[..len] == left;
    while len > 0 && field[start + len - 1] == ' '
      invariant len <= |left| && TrimRight(left) == TrimRight(left[..len])
    {
      assert left[..len][..len - 1] == left[..len - 1];
      len := len - 1;
    }
    assert field[start..start + len] == left[..len];
  }

  /** Text a field takes unchanged: without its separator, and without spaces. */
  predicate Plain(s: string, sep: char) {
    ' ' !in s && sep !in s
  }

  lemma PlainTrims(s: string, sep: char)
    requires Plain(s, sep)
    ensures TrimRight(TrimLeft(s)) == s
  {
  }

  lemma {:induction false} IndexOfHead(a: string, sep: char, rest: string)
    requires sep !in a
    ensures IndexOf(a + [sep] + rest, sep) == |a|
    ensures IndexOf(a, sep) == |a|
  {
    if a == [] {
    } else {
      assert (a + [sep] + rest)[1..] == a[1..] + [sep] + rest;
      IndexOfHead(a[1..], sep, rest);
    }
  }

  /** A plain field in front of a separator is taken as it is, and so is the last one. */
  lemma FieldHead(a: string, sep: char, rest: string, outLen: nat)
    requires Plain(a, sep) && |a| < outLen
    ensures Field(At(a + [sep] + rest), sep, outLen) == Some((a, At(rest)))
    ensures Field(At(a), sep, outLen) == Some((a, End))
  {
    IndexOfHead(a, sep, rest);
    PlainTrims(a, sep);
    assert (a + [sep] + rest)[..|a|] == a;
    assert (a + [sep] + rest)[|a| + 1..] == rest;
    assert a[..|a|] == a;
  }

  function Spaces(n: nat): (s: string)
    ensures |s| == n
  {
    if n == 0 then "" else " " + Spaces(n - 1)
  }

  lemma {:induction false} TrimSpacesLeft(n: nat, s: string)
    ensures TrimLeft(Spaces(n) + s) == TrimLeft(s)
  {
    if n == 0 {
      assert Spaces(0) + s == s;
    } else {
      assert (Spaces(n) + s)[1..] == Spaces(n - 1) + s;
      TrimSpacesLeft(n - 1, s);
    }
  }

  lemma {:induction false} TrimSpacesRight(s: string, n: nat)
    ensures TrimRight(s + Spaces(n)) == TrimRight(s)
  {
    if n == 0 {
      assert s + Spaces(0) == s;
    } else {
      SpacesAlike(n);
      assert (s + Spaces(n))[..|s| + n - 1] == s + Spaces(n - 1);
      TrimSpacesRight(s, n - 1);
    }
  }

  lemma {:induction false} SpacesAlike(n: nat)
    ensures forall i | 0 <= i < n :: Spaces(n)[i] == ' '
    ensures n > 0 ==> Spaces(n)[..n - 1] == Spaces(n - 1)
  {
    if n > 0 {
      SpacesAlike(n - 1);
    }
  }

  lemma TrimBoth(m: nat, a: string, n: nat, sep: char)
    requires Plain(a, sep) && a != "" && sep != ' '
    ensures sep !in Spaces(m) + a + Spaces(n) && TrimRight(TrimLeft(Spaces(m) + a + Spaces(n))) == a
  {
    SpacesAlike(m);
    SpacesAlike(n);
    hide Spaces, TrimLeft, TrimRight;
    var t := a + Spaces(n);
    assert Spaces(m) + a + Spaces(n) == Spaces(m) + t;
    TrimSpacesLeft(m, t);
    assert t[0] == a[0];
    NothingToTrim(t);
    TrimSpacesRight(a, n);
    NothingToTrim(a);
  }

  lemma NothingToTrim(s: string)
    requires s != ""
    ensures s[0] != ' ' ==> TrimLeft(s) == s
    ensures s[|s| - 1] != ' ' ==> TrimRight(s) == s
  {
  }

  /** Spaces around a field don't count, not even for its length. */
  lemma FieldTrimmed(m: nat, a: string, n: nat, sep: char, rest: string, outLen: nat)
    requires Plain(a, sep) && a != "" && sep != ' '
    ensures Field(At(Spaces(m) + a + Spaces(n) + [sep] + rest), sep, outLen)
         == if |a| < outLen then Some((a, At(rest))) else None
  {
    var field := Spaces(m) + a + Spaces(n);
    TrimBoth(m, a, n, sep);
    IndexOfHead(field, sep, rest);
    hide Spaces, IndexOf, TrimLeft, TrimRight;
    assert (field + [sep] + rest)[..|field|] == field;
    assert (field + [sep] + rest)[|field| + 1..] == rest;
  }

  // ---- numbers ----

  predicate IsDigit(c: char) {
    '0' <= c <= '9'
  }

  predicate IsSpace(c: char) {
    c == ' ' || ('\t' <= c <= '\r')
  }

  function DigitOf(d: nat): (c: char)
    requires d < 10
    ensures IsDigit(c) && c as int - '0' as int == d
  {
    ('0' as int + d) as char
  }

  function SpaceLen(s: string): (n: nat)
    ensures n <= |s|
  {
    if s != [] && IsSpace(s[0]) then 1 + SpaceLen(s[1..]) else 0
  }

  function DigitLen(s: string): (n: nat)
    ensures n <= |s| && forall i | 0 <= i < n :: IsDigit(s[i])
  {
    if s != [] && IsDigit(s[0]) then 1 + DigitLen(s[1..]) else 0
  }

  function DigitsValue(s: string): nat
    requires forall i | 0 <= i < |s| :: IsDigit(s[i])
  {
    if s == [] then 0
    else
      assert IsDigit(s[|s| - 1]);
      DigitsValue(s[..|s| - 1]) * 10 + (s[|s| - 1] as int - '0' as int)
  }

  function Clamp(v: int, low: int, high: int): int
    requires low <= high
  {
    Arith.Max(low, Arith.Min(v, high))
  }

  /** strtol in base 10: the number at the start of s and how much of s it takes, 0 for none. */
  function Strtol(s: string): (r: (int, nat))
    ensures r.1 <= |s|
  {
    var sp := SpaceLen(s);
    var sign := if sp < |s| && (s[sp] == '-' || s[sp] == '+') then 1 else 0;
    var t := s[sp + sign..];
    var n := DigitLen(t);
    if n == 0 then (0, 0)
    else
      var v: int := DigitsValue(t[..n]);
      (Clamp(if sign == 1 && s[sp] == '-' then -v else v, -LONG_MAX - 1, LONG_MAX), sp + sign + n)
  }

  /** A number that takes up the whole text and is within bounds. */
  function Number(s: string, min: int, max: int): (r: Option<int>)
    ensures r.Some? ==> min <= r.value <= max
  {
    var (v, used) := Strtol(s);
    if used == 0 || used != |s| || v < min || v > max then None else Some(v)
  }

  /** A number printed with %u. */
  function Decimal(n: nat): (s: string)
    ensures |s| > 0 && forall i | 0 <= i < |s| :: IsDigit(s[i])
    ensures DigitsValue(s) == n
    ensures n > 0 ==> s[0] != '0'
  {
    if n < 10 then
      assert DigitsValue([]) == 0;
      [DigitOf(n)]
    else
      var s := Decimal(n / 10) + [DigitOf(n % 10)];
      assert s[..|s| - 1] == Decimal(n / 10);
      s
  }

  lemma {:induction false} DecimalLength(n: nat)
    ensures n < 10 ==> |Decimal(n)| == 1
    ensures n < 100 ==> |Decimal(n)| <= 2
    ensures n < 1000 ==> |Decimal(n)| <= 3
    ensures n < 10000 ==> |Decimal(n)| <= 4
    ensures n < 100000 ==> |Decimal(n)| <= 5
  {
    if n >= 10 {
      DecimalLength(n / 10);
    }
  }

  lemma {:induction false} DigitLenOf(s: string, rest: string)
    requires forall i | 0 <= i < |s| :: IsDigit(s[i])
    requires rest == [] || !IsDigit(rest[0])
    ensures DigitLen(s + rest) == |s|
  {
    if s == [] {
      assert s + rest == rest;
    } else {
      assert (s + rest)[1..] == s[1..] + rest;
      DigitLenOf(s[1..], rest);
    }
  }

  /** Reading a printed number gives it back, up to the first character that isn't a digit. */
  lemma StrtolDecimal(n: nat, rest: string)
    requires n <= LONG_MAX && (rest == [] || !IsDigit(rest[0]))
    ensures Strtol(Decimal(n) + rest) == (n, |Decimal(n)|)
  {
    var s := Decimal(n) + rest;
    assert s[0] == Decimal(n)[0];
    assert s[0..] == s;
    DigitLenOf(Decimal(n), rest);
    assert s[..|Decimal(n)|] == Decimal(n);
  }

  lemma {:induction false} SpaceLenOf(n: nat, s: string)
    requires s == "" || !IsSpace(s[0])
    ensures SpaceLen(Spaces(n) + s) == n
  {
    if n == 0 {
      assert Spaces(0) + s == s;
    } else {
      var t := Spaces(n - 1) + s;
      SpaceLenOf(n - 1, s);
      assert Spaces(n) + s == [' '] + t;
      hide Spaces;
      assert ([' '] + t)[1..] == t;
    }
  }

  /** Spaces and a sign in front of a number are taken with it; the minus makes it negative. */
  lemma StrtolSigned(spaces: nat, sign: string, n: nat, rest: string)
    requires sign in {"", "+", "-"} && n <= (if sign == "-" then LONG_MAX + 1 else LONG_MAX)
    requires rest == [] || !IsDigit(rest[0])
    ensures var value: int := if sign == "-" then 0 - n else n;
            Strtol(Spaces(spaces) + (sign + (Decimal(n) + rest))) == (value, spaces + |sign| + |Decimal(n)|)
  {
    hide Spaces, SpaceLen, DigitLen, DigitsValue, Decimal, Strtol, Clamp;
    var digits := Decimal(n);
    var t := digits + rest;
    var s := Spaces(spaces) + (sign + t);
    assert t[0] == digits[0];
    SpaceLenOf(spaces, sign + t);
    DigitLenOf(digits, rest);
    assert t[..|digits|] == digits;
    BehindSign(Spaces(spaces), sign, t);
    StrtolOf(s, spaces, sign, |digits|);
    ClampInside(n);
  }

  lemma ClampInside(n: nat)
    requires n <= LONG_MAX + 1
    ensures n <= LONG_MAX ==> Clamp(n, -LONG_MAX - 1, LONG_MAX) == n
    ensures Clamp(0 - n, -LONG_MAX - 1, LONG_MAX) == 0 - n
  {
  }

  lemma StrtolOf(s: string, spaces: nat, sign: string, n: nat)
    requires SpaceLen(s) == spaces && spaces + |sign| < |s| && DigitLen(s[spaces + |sign|..]) == n > 0
    requires if sign == "" then s[spaces] != '-' && s[spaces] != '+' else sign in {"+", "-"} && s[spaces] == sign[0]
    ensures var v: int := DigitsValue(s[spaces + |sign|..][..n]);
            Strtol(s) == (Clamp(if sign == "-" then -v else v, -LONG_MAX - 1, LONG_MAX), spaces + |sign| + n)
  {
    hide SpaceLen, DigitLen, DigitsValue, Clamp;
  }

  lemma BehindSign(spaces: string, sign: string, t: string)
    requires t != ""
    ensures (spaces + (sign + t))[|spaces|] == if sign == "" then t[0] else sign[0]
    ensures (spaces + (sign + t))[|spaces| + |sign|..] == t
  {
  }

  lemma NumberDecimal(n: nat, min: int, max: int)
    requires min <= n <= max <= LONG_MAX
    ensures Number(Decimal(n), min, max) == Some(n)
  {
    StrtolDecimal(n, "");
    assert Decimal(n) + "" == Decimal(n);
  }

  lemma DecimalPlain(n: nat)
    ensures Plain(Decimal(n), ':') && Plain(Decimal(n), ',')
  {
  }
}
