/** The JavaScript string operations the loaders rely on, on strings as
    sequences of characters: `trim`, `split` on one character,
    `toLowerCase` (ASCII letters), `includes`, `parseInt` and `parseFloat`
    as section 19.2 of ECMA-262 defines them, and the decimal rendering of
    an integer in a template literal. */
module Text {
  import opened Wrappers

  /** `parseFloat`'s result: a number, an infinity, or NaN. */
  datatype JsNumber = NaN | Num(value: real) | Inf(negative: bool)

  /** The characters `trim` removes: WhiteSpace (tab, vertical tab, form
      feed, space, no-break space, the byte order mark and the Unicode
      space separators) and LineTerminator. */
  predicate IsWhiteSpace(c: char) {
    var u := c as int;
    || 0x09 <= u <= 0x0D || u == 0x20 || u == 0xA0 || u == 0x1680
    || 0x2000 <= u <= 0x200A || u == 0x2028 || u == 0x2029 || u == 0x202F
    || u == 0x205F || u == 0x3000 || u == 0xFEFF
  }

  /** Leading white space removed. */
  function TrimStart(s: string): (r: string)
    ensures |r| <= |s| && r == s[|s| - |r|..]
    ensures r == [] || !IsWhiteSpace(r[0])
    ensures forall i :: 0 <= i < |s| - |r| ==> IsWhiteSpace(s[i])
  {
    if s == [] || !IsWhiteSpace(s[0]) then s else TrimStart(s[1..])
  }

  /** Trailing white space removed. */
  function TrimEnd(s: string): (r: string)
    ensures |r| <= |s| && r == s[..|r|]
    ensures r == [] || !IsWhiteSpace(r[|r| - 1])
    ensures forall i :: |r| <= i < |s| ==> IsWhiteSpace(s[i])
  {
    if s == [] || !IsWhiteSpace(s[|s| - 1]) then s else TrimEnd(s[..|s| - 1])
  }

  /** `s.trim()`. */
  function Trim(s: string): string {
    TrimEnd(TrimStart(s))
  }

  /** `s.split(sep)` for a one-character separator: the pieces between
      separators, an empty piece where two separators meet or at an end. */
  function Split(s: string, sep: char): (r: seq<string>)
    ensures |r| > 0
    ensures forall k :: 0 <= k < |r| ==> sep !in r[k]
    decreases |s|
  {
    if sep !in s then [s]
    else
      var i := FirstIndex(s, sep);
      [s[..i]] + Split(s[i + 1..], sep)
  }

  function FirstIndex(s: string, c: char): (i: nat)
    requires c in s
    ensures i < |s| && s[i] == c && c !in s[..i]
  {
    if s[0] == c then 0 else 1 + FirstIndex(s[1..], c)
  }

  /** `pieces.join(sep)`. */
  function Join(pieces: seq<string>, sep: char): string
    requires |pieces| > 0
  {
    if |pieces| == 1 then pieces[0] else pieces[0] + [sep] + Join(pieces[1..], sep)
  }

  /** Splitting loses nothing: joining the pieces gives the string back. */
  lemma {:induction false} SplitJoin(s: string, sep: char)
    ensures Join(Split(s, sep), sep) == s
    decreases |s|
  {
    if sep in s {
      var i := FirstIndex(s, sep);
      SplitJoin(s[i + 1..], sep);
      assert s == s[..i] + [sep] + s[i + 1..];
    }
  }

  /** `s[k]` for a piece that may be missing (`undefined`). */
  function Field(pieces: seq<string>, k: nat): Option<string> {
    if k < |pieces| then Some(pieces[k]) else None
  }

  /** `toLowerCase` on the ASCII letters; other characters are kept. */
  function ToLower(s: string): (r: string)
    ensures |r| == |s|
  {
    seq(|s|, i requires 0 <= i < |s| => if 'A' <= s[i] <= 'Z' then (s[i] as int + 32) as char else s[i])
  }

  predicate IsPrefix(p: string, s: string) {
    |p| <= |s| && s[..|p|] == p
  }

  /** `s.includes(t)`. */
  predicate Contains(s: string, t: string) {
    exists i :: 0 <= i <= |s| && IsPrefix(t, s[i..])
  }

  predicate IsDigit(c: char) {
    '0' <= c <= '9'
  }

  function DigitValue(c: char): nat
    requires IsDigit(c)
  {
    c as int - '0' as int
  }

  /** The longest prefix of decimal digits. */
  function DigitRun(s: string): (r: string)
    ensures IsPrefix(r, s)
    ensures forall i :: 0 <= i < |r| ==> IsDigit(r[i])
    ensures |r| == |s| || !IsDigit(s[|r|])
  {
    if s == [] || !IsDigit(s[0]) then [] else [s[0]] + DigitRun(s[1..])
  }

  /** The value of a string of decimal digits. */
  function DecimalValue(d: string): nat
    requires forall i :: 0 <= i < |d| ==> IsDigit(d[i])
  {
    if d == [] then 0 else 10 * DecimalValue(d[..|d| - 1]) + DigitValue(d[|d| - 1])
  }

  predicate IsHexDigit(c: char) {
    IsDigit(c) || 'a' <= c <= 'f' || 'A' <= c <= 'F'
  }

  function HexDigitValue(c: char): nat
    requires IsHexDigit(c)
  {
    if IsDigit(c) then DigitValue(c)
    else if 'a' <= c <= 'f' then c as int - 'a' as int + 10
    else c as int - 'A' as int + 10
  }

  /** The longest prefix of hexadecimal digits. */
  function HexRun(s: string): (r: string)
    ensures IsPrefix(r, s)
    ensures forall i :: 0 <= i < |r| ==> IsHexDigit(r[i])
  {
    if s == [] || !IsHexDigit(s[0]) then [] else [s[0]] + HexRun(s[1..])
  }

  function HexValue(d: string): nat
    requires forall i :: 0 <= i < |d| ==> IsHexDigit(d[i])
  {
    if d == [] then 0 else 16 * HexValue(d[..|d| - 1]) + HexDigitValue(d[|d| - 1])
  }

  /** The radix argument of the `parseInt` calls: `10`, or left out. */
  datatype Radix = Decimal | Unspecified

  /** An optional sign: whether it was `-`, and what follows it. */
  function Sign(s: string): (bool, string) {
    if |s| > 0 && s[0] == '-' then (true, s[1..])
    else if |s| > 0 && s[0] == '+' then (false, s[1..])
    else (false, s)
  }

  /** `parseInt(s, radix)`: `None` is NaN. Leading white space and a sign
      are skipped; without a radix a `0x`/`0X` prefix selects base 16; the
      digits run to the first character that is not one. */
  function ParseInt(s: string, radix: Radix): Option<int> {
    var (negative, body) := Sign(TrimStart(s));
    var hex := radix == Unspecified && |body| >= 2 && body[0] == '0' && (body[1] == 'x' || body[1] == 'X');
    var magnitude :=
      if hex then
        var digits := HexRun(body[2..]);
        if digits == [] then None else Some(HexValue(digits) as int)
      else
        var digits := DigitRun(body);
        if digits == [] then None else Some(DecimalValue(digits) as int);
    match magnitude
    case None => None
    case Some(m) => Some(if negative then -m else m)
  }

  function Pow10(k: nat): (r: nat)
    ensures r > 0
  {
    if k == 0 then 1 else 10 * Pow10(k - 1)
  }

  /** `m × 10^e`. */
  function Scale(m: real, e: int): real {
    if e >= 0 then m * (Pow10(e) as real) else m / (Pow10(-e) as real)
  }

  /** The exponent of an `ExponentPart` at the start of `s`, or 0 when `s`
      does not start with one (a bare `e` is not part of the number). */
  function Exponent(s: string): int {
    if |s| > 0 && (s[0] == 'e' || s[0] == 'E') then
      var (negative, body) := Sign(s[1..]);
      var digits := DigitRun(body);
      if digits == [] then 0
      else if negative then -(DecimalValue(digits) as int)
      else DecimalValue(digits) as int
    else 0
  }

  /** `parseFloat(s)`: the longest prefix of the trimmed string that reads
      as a decimal literal (`Infinity`, digits with an optional fraction
      and exponent), or NaN when there is none. */
  function ParseFloat(s: string): JsNumber {
    var (negative, body) := Sign(TrimStart(s));
    if IsPrefix("Infinity", body) then Inf(negative)
    else
      match UnsignedDecimal(body)
      case None => NaN
      case Some(magnitude) => Num(if negative then -magnitude else magnitude)
  }

  /** The value of the longest prefix of `s` of the form `digits`,
      `digits.digits` or `.digits` (each part optional but not both),
      followed by an optional exponent. */
  function UnsignedDecimal(s: string): Option<real> {
    var whole := DigitRun(s);
    var rest := s[|whole|..];
    var hasPoint := |rest| > 0 && rest[0] == '.';
    var fraction := if hasPoint then DigitRun(rest[1..]) else [];
    if whole == [] && fraction == [] then None
    else
      var after := if hasPoint then rest[1 + |fraction|..] else rest;
      var mantissa := (DecimalValue(whole + fraction) as real) / (Pow10(|fraction|) as real);
      Some(Scale(mantissa, Exponent(after)))
  }

  /** A plain run of digits reads as its value. */
  lemma UnsignedDecimalOfDigits(digits: string)
    requires |digits| > 0 && forall i :: 0 <= i < |digits| ==> IsDigit(digits[i])
    ensures UnsignedDecimal(digits) == Some(DecimalValue(digits) as real)
  {
    DigitRunAll(digits);
    UnsignedDecimalWhole(digits);
    assert digits + [] == digits;
    assert Exponent([]) == 0;
    assert Pow10(0) == 1;
    ScaleZero(DecimalValue(digits) as real);
  }

  lemma ScaleZero(m: real)
    ensures Scale(m, 0) == m
  {
    assert Pow10(0) == 1;
  }

  lemma UnsignedDecimalWhole(digits: string)
    requires |digits| > 0 && DigitRun(digits) == digits
    ensures UnsignedDecimal(digits)
      == Some(Scale((DecimalValue(digits + []) as real) / (Pow10(0) as real), Exponent([])))
  {
    assert digits[|digits|..] == [];
  }

  /** The digits of a natural number, most significant first. */
  function NatString(n: nat): (r: string)
    ensures |r| > 0
    ensures forall i :: 0 <= i < |r| ==> IsDigit(r[i])
    ensures r[0] != '0' || n == 0
  {
    if n < 10 then ['0' + n as char]
    else NatString(n / 10) + ['0' + (n % 10) as char]
  }

  /** `${n}` for an integer `n`. */
  function DecimalString(n: int): string {
    if n < 0 then "-" + NatString(-n) else NatString(n)
  }

  lemma {:induction false} NatStringValue(n: nat)
    ensures DecimalValue(NatString(n)) == n
  {
    if n >= 10 {
      NatStringValue(n / 10);
      var r := NatString(n);
      assert r[..|r| - 1] == NatString(n / 10);
    }
  }

  /** `parseInt` reads back the integer a template literal wrote, with or
      without a radix. */
  lemma ParseIntDecimalString(n: int, radix: Radix)
    ensures ParseInt(DecimalString(n), radix) == Some(n)
  {
    var m := if n < 0 then -n else n;
    var digits := NatString(m);
    NatStringValue(m);
    DigitRunAll(digits);
    DecimalStringSign(n);
    assert |digits| >= 2 ==> digits[0] != '0';
  }

  /** A template literal starts with `-` or a digit, so nothing is trimmed,
      and the sign splits off exactly the digits of the magnitude. */
  lemma DecimalStringSign(n: int)
    ensures TrimStart(DecimalString(n)) == DecimalString(n)
    ensures Sign(DecimalString(n)) == (n < 0, NatString(if n < 0 then -n else n))
  {
    var s := DecimalString(n);
    assert !IsWhiteSpace(s[0]);
  }

  /** `parseFloat` reads back the integer a template literal wrote. */
  lemma ParseFloatDecimalString(n: int)
    ensures ParseFloat(DecimalString(n)) == Num(n as real)
  {
    var m := if n < 0 then -n else n;
    NatStringValue(m);
    DecimalStringSign(n);
    ParseFloatSignedDigits(DecimalString(n), n < 0, NatString(m));
  }

  /** A string that starts, after its sign, with a run of digits and
      nothing else reads as that signed value. */
  lemma ParseFloatSignedDigits(s: string, negative: bool, digits: string)
    requires Sign(TrimStart(s)) == (negative, digits)
    requires |digits| > 0 && forall i :: 0 <= i < |digits| ==> IsDigit(digits[i])
    ensures var v := DecimalValue(digits) as real;
      ParseFloat(s) == Num(if negative then -v else v)
  {
    UnsignedDecimalOfDigits(digits);
    assert IsDigit(digits[0]);
    FirstCharacterDiffers("Infinity", digits);
  }

  /** A string is not a prefix of one that starts with another character. */
  lemma FirstCharacterDiffers(p: string, s: string)
    requires |p| > 0 && |s| > 0 && p[0] != s[0]
    ensures !IsPrefix(p, s)
  {
    if |p| <= |s| {
      assert s[..|p|][0] == s[0];
    }
  }

  lemma {:induction false} DigitRunAll(d: string)
    requires forall i :: 0 <= i < |d| ==> IsDigit(d[i])
    ensures DigitRun(d) == d
  {
    if d != [] {
      DigitRunAll(d[1..]);
    }
  }
}
