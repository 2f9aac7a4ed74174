/** JavaScript's `parseInt(string)` (radix left undefined) and `Number.prototype.toString`
    on natural numbers, as the booking form and the pitch listing use them. `NaN` is `None`. */
module JsNumber {
  import opened Options

  /** The characters `parseInt` skips before the number: the WhiteSpace and
      LineTerminator code points of the ECMAScript grammar. */
  predicate IsWhiteSpace(c: char) {
    c == '\t' || c == '\n' || c == '\U{000B}' || c == '\U{000C}' || c == '\r' || c == ' '
    || c == '\U{00A0}' || c == '\U{1680}' || ('\U{2000}' <= c <= '\U{200A}')
    || c == '\U{2028}' || c == '\U{2029}' || c == '\U{202F}' || c == '\U{205F}'
    || c == '\U{3000}' || c == '\U{FEFF}'
  }

  /** The value of `c` as a digit in any radix up to 36, or -1 when `c` is no digit at all. */
  function DigitValue(c: char): (d: int)
    ensures -1 <= d < 36
    ensures d < 10 <==> !('a' <= c <= 'z' || 'A' <= c <= 'Z')
    ensures 0 <= d < 10 <==> '0' <= c <= '9'
  {
    if '0' <= c <= '9' then c as int - '0' as int
    else if 'a' <= c <= 'z' then c as int - 'a' as int + 10
    else if 'A' <= c <= 'Z' then c as int - 'A' as int + 10
    else -1
  }

  predicate IsDigit(c: char, radix: nat) {
    0 <= DigitValue(c) < radix
  }

  predicate AllDigits(s: string, radix: nat) {
    forall i :: 0 <= i < |s| ==> IsDigit(s[i], radix)
  }

  /** `s` with its leading white space removed. */
  function TrimStart(s: string): (r: string)
    ensures |r| <= |s| && r == s[|s| - |r|..]
    ensures forall i :: 0 <= i < |s| - |r| ==> IsWhiteSpace(s[i])
    ensures r == [] || !IsWhiteSpace(r[0])
  {
    if s != [] && IsWhiteSpace(s[0]) then
      var r := TrimStart(s[1..]);
      assert s[1..][|s| - 1 - |r|..] == s[|s| - |r|..];
      assert forall i :: 0 < i < |s| - |r| ==> s[i] == s[1..][i - 1];
      r
    else s
  }

  /** The longest prefix of `s` made of digits of the given radix. */
  function DigitPrefix(s: string, radix: nat): (r: string)
    ensures |r| <= |s| && r == s[..|r|]
    ensures AllDigits(r, radix)
    ensures |r| == |s| || !IsDigit(s[|r|], radix)
  {
    if s != [] && IsDigit(s[0], radix) then [s[0]] + DigitPrefix(s[1..], radix) else []
  }

  /** The number a string of digits denotes in the given radix (most significant first). */
  function ValueOf(z: string, radix: nat): nat
    requires AllDigits(z, radix)
  {
    if z == [] then 0 else ValueOf(z[..|z| - 1], radix) * radix + DigitValue(z[|z| - 1])
  }

  /** `parseInt(s)`: skip white space, take an optional sign, then an optional `0x`/`0X`
      prefix that switches to radix 16, then as many digits as follow; no digit at all
      gives `NaN`. A negative zero is an ordinary 0 here. */
  function ParseInt(s: string): Option<int> {
    ParseSigned(TrimStart(s))
  }

  /** The sign step of `parseInt`, on a string whose white space is already removed. */
  function ParseSigned(t: string): Option<int> {
    if t != [] && t[0] == '-' then
      match ParseUnsigned(t[1..])
      case None => None
      case Some(v) => Some(-v)
    else if t != [] && t[0] == '+' then ParseUnsigned(t[1..])
    else ParseUnsigned(t)
  }

  /** The radix and digit steps of `parseInt`, after the sign. */
  function ParseUnsigned(u: string): (r: Option<int>)
    ensures r.Some? ==> r.value >= 0
  {
    var hex := |u| >= 2 && u[0] == '0' && (u[1] == 'x' || u[1] == 'X');
    var radix := if hex then 16 else 10;
    var z := DigitPrefix(if hex then u[2..] else u, radix);
    if z == [] then None else Some(ValueOf(z, radix))
  }

  function DigitChar(d: nat): (c: char)
    requires d < 10
    ensures IsDigit(c, 10) && DigitValue(c) == d
  {
    ('0' as int + d) as char
  }

  /** `n.toString()` for a natural number `n`: its decimal digits, without leading zeros. */
  function Decimal(n: nat): (r: string)
    ensures r != [] && AllDigits(r, 10)
    ensures ValueOf(r, 10) == n
    ensures r[0] == '0' ==> n == 0 && r == "0"
  {
    if n < 10 then [DigitChar(n)]
    else
      var r := Decimal(n / 10) + [DigitChar(n % 10)];
      assert r[..|r| - 1] == Decimal(n / 10);
      r
  }

  lemma DigitPrefixOfDigits(s: string, radix: nat)
    requires AllDigits(s, radix)
    ensures DigitPrefix(s, radix) == s
  {
  }

  /** A non-empty string of decimal digits parses to the number it denotes: no white
      space or sign is skipped, and a leading "0" is never read as a hexadecimal prefix. */
  lemma ParseIntOfDigits(s: string)
    requires s != [] && AllDigits(s, 10)
    ensures ParseInt(s) == Some(ValueOf(s, 10))
  {
    assert !IsWhiteSpace(s[0]) && s[0] != '-' && s[0] != '+';
    assert TrimStart(s) == s;
    ParseUnsignedOfDigits(s);
  }

  lemma ParseUnsignedOfDigits(s: string)
    requires s != [] && AllDigits(s, 10)
    ensures ParseUnsigned(s) == Some(ValueOf(s, 10))
  {
    assert |s| >= 2 ==> s[1] != 'x' && s[1] != 'X';
    DigitPrefixOfDigits(s, 10);
  }

  /** Round trip: `parseInt(n.toString()) == n` for every natural number. */
  lemma ParseIntOfDecimal(n: nat)
    ensures ParseInt(Decimal(n)) == Some(n)
  {
    ParseIntOfDigits(Decimal(n));
  }

  /** Leading white space never changes what `parseInt` reads. */
  lemma {:induction false} ParseIntSkipsWhiteSpace(w: string, s: string)
    requires forall i :: 0 <= i < |w| ==> IsWhiteSpace(w[i])
    ensures ParseInt(w + s) == ParseInt(s)
  {
    TrimStartSkipsWhiteSpace(w, s);
  }

  lemma {:induction false} TrimStartSkipsWhiteSpace(w: string, s: string)
    requires forall i :: 0 <= i < |w| ==> IsWhiteSpace(w[i])
    ensures TrimStart(w + s) == TrimStart(s)
  {
    if w == [] {
      assert w + s == s;
    } else {
      assert (w + s)[0] == w[0];
      assert (w + s)[1..] == w[1..] + s;
      TrimStartSkipsWhiteSpace(w[1..], s);
    }
  }

  /** A minus sign in front of decimal digits negates the value. */
  lemma ParseIntOfNegativeDecimal(n: nat)
    ensures ParseInt("-" + Decimal(n)) == Some(-(n as int))
  {
    var d := Decimal(n);
    var s := "-" + d;
    assert s[0] == '-' && !IsWhiteSpace(s[0]);
    assert TrimStart(s) == s;
    assert s[1..] == d;
    ParseUnsignedOfDigits(d);
  }

  /** A string with no digit where the number should start is `NaN`. */
  lemma ParseIntWithoutDigits(s: string)
    requires s == [] || (!IsDigit(s[0], 10) && !IsWhiteSpace(s[0]) && s[0] != '-' && s[0] != '+')
    ensures ParseInt(s) == None
  {
    assert TrimStart(s) == s;
    assert ParseSigned(s) == ParseUnsigned(s);
    assert s != [] ==> s[0] != '0';
    assert DigitPrefix(s, 10) == [];
  }
}
