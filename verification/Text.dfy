/** Text building blocks: joining, decimal numbers, trimming, UTF-8 length. */
module Text {
  import opened Basics

  function Join(parts: seq<string>, sep: string): string {
    if parts == [] then ""
    else if |parts| == 1 then parts[0]
    else parts[0] + sep + Join(parts[1..], sep)
  }

  lemma JoinCons(parts: seq<string>, sep: string)
    requires |parts| > 1
    ensures Join(parts, sep) == parts[0] + (sep + Join(parts[1..], sep))
  {
  }

  lemma Assoc(a: string, b: string, c: string)
    ensures a + b + c == a + (b + c)
  {
  }

  function DigitChar(d: nat): char
    requires d < 10
  {
    "0123456789"[d]
  }

  predicate IsDigit(c: char) {
    '0' <= c <= '9'
  }

  function DigitValue(c: char): nat
    requires IsDigit(c)
  {
    c as int - '0' as int
  }

  function Digits(n: nat): (s: string)
    ensures s != []
  {
    if n < 10 then [DigitChar(n)] else Digits(n / 10) + [DigitChar(n % 10)]
  }

  function Decimal(n: int): string {
    if n < 0 then "-" + Digits(-n) else Digits(n)
  }

  function ParseDigits(s: string): Option<nat> {
    if s == [] then None
    else
      var last := s[|s| - 1];
      if !IsDigit(last) then None
      else if |s| == 1 then Some(DigitValue(last))
      else
        match ParseDigits(s[..|s| - 1])
        case None => None
        case Some(n) => Some(10 * n + DigitValue(last))
  }

  function ParseDecimal(s: string): Option<int> {
    if s != [] && s[0] == '-' then
      var d := ParseDigits(s[1..]);
      if d.None? then None else Some(0 - d.value as int)
    else
      var d := ParseDigits(s);
      if d.None? then None else Some(d.value as int)
  }

  lemma DigitRoundTrip(d: nat)
    requires d < 10
    ensures IsDigit(DigitChar(d)) && DigitValue(DigitChar(d)) == d
  {
  }

  lemma {:induction false} DigitsRoundTrip(n: nat)
    ensures ParseDigits(Digits(n)) == Some(n)
    ensures forall i :: 0 <= i < |Digits(n)| ==> IsDigit(Digits(n)[i])
  {
    if n < 10 {
      DigitRoundTrip(n);
    } else {
      DigitsRoundTrip(n / 10);
      DigitRoundTrip(n % 10);
      var init, last := Digits(n / 10), DigitChar(n % 10);
      assert Digits(n) == init + [last];
      assert (init + [last])[..|init|] == init;
    }
  }

  lemma ParseSigned(d: string, k: int)
    requires k >= 0 && d != [] && IsDigit(d[0]) && ParseDigits(d) == Some(k)
    ensures ParseDecimal(d) == Some(k) && ParseDecimal("-" + d) == Some(-k)
  {
    assert ("-" + d)[1..] == d;
  }

  lemma DecimalRoundTrip(n: int)
    ensures ParseDecimal(Decimal(n)) == Some(n)
  {
    var k := if n < 0 then -n else n;
    DigitsRoundTrip(k);
    ParseSigned(Digits(k), k);
  }

  /** The characters of a decimal number. */
  lemma DecimalChars(n: int)
    ensures forall i :: 0 <= i < |Decimal(n)| ==> IsDigit(Decimal(n)[i]) || Decimal(n)[i] == '-'
    ensures Decimal(n) != []
  {
    DigitsRoundTrip(if n < 0 then -n else n);
  }

  lemma DecimalIsInjective(m: int, n: int)
    requires Decimal(m) == Decimal(n)
    ensures m == n
  {
    DecimalRoundTrip(m);
    DecimalRoundTrip(n);
  }

  /** Unicode White_Space, as `str::trim` and `char::is_whitespace` use it. */
  predicate IsWhitespace(c: char) {
    var n := c as int;
    || 0x09 <= n <= 0x0D || n == 0x20 || n == 0x85 || n == 0xA0 || n == 0x1680
    || 0x2000 <= n <= 0x200A || n == 0x2028 || n == 0x2029 || n == 0x202F || n == 0x205F || n == 0x3000
  }

  function TrimStart(s: string): string {
    if s != [] && IsWhitespace(s[0]) then TrimStart(s[1..]) else s
  }

  function TrimEnd(s: string): string {
    if s != [] && IsWhitespace(s[|s| - 1]) then TrimEnd(s[..|s| - 1]) else s
  }

  function Trim(s: string): string {
    TrimEnd(TrimStart(s))
  }

  predicate IsBlank(s: string) {
    Trim(s) == ""
  }

  function CharBytes(c: char): nat {
    var n := c as int;
    if n < 0x80 then 1 else if n < 0x800 then 2 else if n < 0x10000 then 3 else 4
  }

  /** `str::len`: the number of UTF-8 bytes. */
  function ByteLen(s: string): nat {
    if s == [] then 0 else CharBytes(s[0]) + ByteLen(s[1..])
  }
}
