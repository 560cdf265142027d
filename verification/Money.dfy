/** Money as whole minor units: the parser (src/adapters/metakocka/values.ts) and the two printers
    (src/adapters/metakocka/documents.ts, src/adapters/shopify/variant-prices.ts). */
module Money {
  import opened Prelude
  import opened JsText

  const MAX_SAFE := 9_007_199_254_740_991

  datatype Amount = Minor(n: int) | NotDecimal | OutOfRange

  /* Digits. */

  predicate IsDigit(c: char) {
    '0' <= c <= '9'
  }

  predicate Digits(s: string) {
    forall k :: 0 <= k < |s| ==> IsDigit(s[k])
  }

  function DigitOf(m: nat): (c: char)
    ensures IsDigit(c) && c as int - '0' as int == m % 10
  {
    ('0' as int + m % 10) as char
  }

  function Value(s: string): nat
    requires Digits(s)
  {
    if s == [] then 0 else 10 * Value(s[..|s| - 1]) + (s[|s| - 1] as int - '0' as int)
  }

  function Pow10(k: nat): (p: nat)
    ensures p >= 1
  {
    if k == 0 then 1 else 10 * Pow10(k - 1)
  }

  /** A natural number in decimal, no zeros in front. */
  function Decimal(m: nat): (s: string)
    ensures Digits(s) && s != []
  {
    if m < 10 then [DigitOf(m)] else Decimal(m / 10) + [DigitOf(m)]
  }

  function PadStart(s: string, width: nat): (r: string)
    ensures |r| == if |s| >= width then |s| else width
    ensures Digits(s) ==> Digits(r)
    decreases width - |s|
  {
    if |s| >= width then s else PadStart(['0'] + s, width)
  }

  function PadEnd(s: string, width: nat): (r: string)
    ensures |r| >= width && s <= r && (Digits(s) ==> Digits(r))
    ensures |r| == if |s| >= width then |s| else width
    ensures forall k :: |s| <= k < |r| ==> r[k] == '0'
    decreases width - |s|
  {
    if |s| >= width then s else PadEnd(s + ['0'], width)
  }

  /* The parser. */

  function WithoutDots(s: string): string {
    if s == [] then [] else (if s[0] == '.' then [] else [s[0]]) + WithoutDots(s[1..])
  }

  function FirstCommaToDot(s: string): string {
    if s == [] then [] else if s[0] == ',' then ['.'] + s[1..] else [s[0]] + FirstCommaToDot(s[1..])
  }

  function Normalised(raw: string): string {
    var value := Trim(raw);
    if '.' in value && ',' in value then FirstCommaToDot(WithoutDots(value)) else FirstCommaToDot(value)
  }

  /** The first character that is not a digit. */
  function DigitsEnd(s: string): (k: nat)
    ensures k <= |s| && Digits(s[..k]) && (k < |s| ==> !IsDigit(s[k]))
  {
    if s != [] && IsDigit(s[0]) then 1 + DigitsEnd(s[1..]) else 0
  }

  datatype Parts = Parts(negative: bool, whole: string, fraction: string)

  /** Digits or none, and a dot with digits or without. */
  function Unsigned(v: string): (r: Option<(string, string)>)
    ensures r.Some? ==> Digits(r.value.0) && Digits(r.value.1)
  {
    var k := DigitsEnd(v);
    if k == |v| then Some((v, []))
    else if v[k] == '.' && DigitsEnd(v[k + 1..]) == |v[k + 1..]| then Some((v[..k], v[k + 1..]))
    else None
  }

  /** A minus or none, and a number of which every piece may be missing. */
  function Match(v: string): (r: Option<Parts>)
    ensures r.Some? ==> Digits(r.value.whole) && Digits(r.value.fraction)
  {
    var negative := v != [] && v[0] == '-';
    match Unsigned(if negative then v[1..] else v)
    case None => None
    case Some((whole, fraction)) => Some(Parts(negative, whole, fraction))
  }

  /** The digits kept, rounded by the first one dropped. */
  function Magnitude(whole: string, fraction: string, decimals: nat): nat
    requires Digits(whole) && Digits(fraction)
  {
    var padded := PadEnd(fraction, decimals + 1);
    Value((if whole == [] then ['0'] else whole) + padded[..decimals]) + if padded[decimals] >= '5' then 1 else 0
  }

  function Signed(negative: bool, magnitude: int): int {
    if negative then -magnitude else magnitude
  }

  function ToMinorUnits(raw: string, decimals: nat): Amount {
    match Match(Normalised(raw))
    case None => NotDecimal
    case Some(p) =>
      var signed := Signed(p.negative, Magnitude(p.whole, p.fraction, decimals));
      if signed > MAX_SAFE || signed < -MAX_SAFE then OutOfRange else Minor(signed)
  }

  /* The printers. */

  function Abs(n: int): nat {
    if n < 0 then -n else n
  }

  function Sign(n: int): string {
    if n < 0 then "-" else ""
  }

  function MinorToDecimalString(minor: int, decimals: nat): string {
    var digits := PadStart(Decimal(Abs(minor)), decimals + 1);
    var whole := digits[..|digits| - decimals];
    var fraction := if decimals > 0 then "." + digits[|digits| - decimals..] else "";
    Sign(minor) + whole + fraction
  }

  function Quotient(m: nat, p: nat): nat
    requires p >= 1
  {
    m / p
  }

  function Remainder(m: nat, p: nat): nat
    requires p >= 1
  {
    m % p
  }

  function FromMinorUnits(minor: int, decimals: nat): string {
    var magnitude, unit := Abs(minor), Pow10(decimals);
    Sign(minor) + Decimal(Quotient(magnitude, unit)) + ("." + PadStart(Decimal(Remainder(magnitude, unit)), decimals))
  }
}
