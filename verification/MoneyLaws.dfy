/** What the money parser and printers promise one another (src/adapters/metakocka/values.ts,
    src/adapters/metakocka/documents.ts, src/adapters/shopify/variant-prices.ts). */
module MoneyLaws {
  import opened Prelude
  import opened JsText
  import opened Money

  /* Digit strings and what they stand for. */

  /** x with k zeros behind it. */
  function Scale(x: int, k: nat): int {
    if k == 0 then x else 10 * Scale(x, k - 1)
  }

  lemma {:induction false} ValueAppend(a: string, b: string)
    requires Digits(a) && Digits(b)
    ensures Digits(a + b) && Value(a + b) == Scale(Value(a), |b|) + Value(b)
  {
    if b == [] {
      assert a + b == a;
    } else {
      assert (a + b)[..|a + b| - 1] == a + b[..|b| - 1];
      ValueAppend(a, b[..|b| - 1]);
    }
  }

  lemma {:induction false} DecimalValue(m: nat)
    ensures Value(Decimal(m)) == m
  {
    if m >= 10 {
      DecimalValue(m / 10);
      assert Decimal(m)[..|Decimal(m)| - 1] == Decimal(m / 10);
    }
  }

  /** Without the last d digits. */
  function Cut(m: nat, d: nat): nat {
    if d == 0 then m else Cut(m / 10, d - 1)
  }

  /** What the last d digits stand for. */
  function Low(m: nat, d: nat): nat {
    if d == 0 then 0 else 10 * Low(m / 10, d - 1) + m % 10
  }

  /** The last d digits. */
  function Fixed(m: nat, d: nat): (s: string)
    ensures Digits(s) && |s| == d
  {
    if d == 0 then [] else Fixed(m / 10, d - 1) + [DigitOf(m)]
  }

  lemma {:induction false} CutAndLow(m: nat, d: nat)
    ensures m == Scale(Cut(m, d), d) + Low(m, d) && Low(m, d) < Pow10(d)
  {
    if d > 0 {
      CutAndLow(m / 10, d - 1);
    }
  }

  lemma {:induction false} ScaleIsTimes(x: int, k: nat)
    ensures Scale(x, k) == x * Pow10(k)
  {
    if k > 0 {
      ScaleIsTimes(x, k - 1);
      TimesTen(x, Pow10(k - 1));
    }
  }

  lemma TimesTen(x: int, p: int)
    ensures 10 * (x * p) == x * (10 * p)
  {}

  lemma DivideIsUnique(m: nat, p: nat, q: nat, r: nat)
    requires r < p && m == q * p + r
    ensures m / p == q && m % p == r
  {
    var q1, r1 := m / p, m % p;
    assert q1 * p + r1 == q * p + r && 0 <= r1 < p;
    if q1 > q {
      AtLeastOne(q1 - q, p);
    } else if q1 < q {
      AtLeastOne(q - q1, p);
    }
  }

  lemma AtLeastOne(x: int, p: int)
    requires x >= 1 && p >= 0
    ensures x * p >= p
  {}

  /** Dividing by a power of ten cuts digits off. */
  lemma DivideIsCut(m: nat, d: nat)
    ensures Quotient(m, Pow10(d)) == Cut(m, d) && Remainder(m, Pow10(d)) == Low(m, d)
  {
    CutAndLow(m, d);
    ScaleIsTimes(Cut(m, d), d);
    DivideIsUnique(m, Pow10(d), Cut(m, d), Low(m, d));
  }

  lemma {:induction false} FixedValue(m: nat, d: nat)
    ensures Value(Fixed(m, d)) == Low(m, d)
  {
    if d > 0 {
      FixedValue(m / 10, d - 1);
      assert Fixed(m, d)[..d - 1] == Fixed(m / 10, d - 1);
    }
  }

  lemma {:induction false} FixedOfLow(m: nat, d: nat)
    ensures Fixed(Low(m, d), d) == Fixed(m, d)
  {
    if d > 0 {
      assert Low(m, d) / 10 == Low(m / 10, d - 1) && Low(m, d) % 10 == m % 10;
      FixedOfLow(m / 10, d - 1);
    }
  }

  lemma {:induction false} PadAppend(s: string, c: char, width: nat)
    ensures PadStart(s + [c], width + 1) == PadStart(s, width) + [c]
    decreases width - |s|
  {
    if |s| < width {
      assert ['0'] + (s + [c]) == (['0'] + s) + [c];
      PadAppend(['0'] + s, c, width);
    }
  }

  /** One digit more, whether the number has it or the padding gives it. */
  lemma PadDecimal(m: nat, width: nat)
    requires width >= 1
    ensures PadStart(Decimal(m), width + 1) == PadStart(Decimal(m / 10), width) + [DigitOf(m)]
  {
    PadAppend(Decimal(m / 10), DigitOf(m), width);
    if m < 10 {
      assert ['0'] + [DigitOf(m)] == Decimal(m / 10) + [DigitOf(m)];
    }
  }

  /** Padding to d digits and one, and cutting the last d off, is dividing by the power of ten. */
  lemma {:induction false} PadSplits(m: nat, d: nat)
    ensures PadStart(Decimal(m), d + 1) == Decimal(Cut(m, d)) + Fixed(m, d)
  {
    if d > 0 {
      PadDecimal(m, d);
      PadSplits(m / 10, d - 1);
      assert Decimal(Cut(m, d)) + Fixed(m, d) == (Decimal(Cut(m, d)) + Fixed(m / 10, d - 1)) + [DigitOf(m)];
    } else {
      assert Decimal(m) + [] == Decimal(m);
    }
  }

  lemma {:induction false} PadFixed(m: nat, d: nat)
    requires d >= 1 && m < Pow10(d)
    ensures PadStart(Decimal(m), d) == Fixed(m, d)
  {
    if d == 1 {
      assert Fixed(m / 10, 0) == [];
      assert [] + [DigitOf(m)] == [DigitOf(m)];
    } else {
      PadDecimal(m, d - 1);
      PadFixed(m / 10, d - 1);
    }
  }

  /* The printers agree. */

  /** What both printers mean. */
  function Printed(n: int, d: nat): string {
    Sign(n) + Decimal(Cut(Abs(n), d)) + if d > 0 then "." + Fixed(Abs(n), d) else ""
  }

  lemma MinorIsPrinted(n: int, d: nat)
    ensures MinorToDecimalString(n, d) == Printed(n, d)
  {
    PadSplits(Abs(n), d);
    var digits := PadStart(Decimal(Abs(n)), d + 1);
    var whole := Decimal(Cut(Abs(n), d));
    assert digits[..|digits| - d] == whole && digits[|digits| - d..] == Fixed(Abs(n), d);
  }

  /** The two printers give the same text exactly when there are decimals. */
  lemma PrintersAgree(n: int, d: nat)
    ensures FromMinorUnits(n, d) == MinorToDecimalString(n, d) <==> d >= 1
  {
    MinorIsPrinted(n, d);
    if d >= 1 {
      DivideIsCut(Abs(n), d);
      CutAndLow(Abs(n), d);
      PadFixed(Low(Abs(n), d), d);
      FixedOfLow(Abs(n), d);
    } else {
      assert |FromMinorUnits(n, 0)| > |MinorToDecimalString(n, 0)|;
    }
  }

  /* The parser. */

  function Body(whole: string, fraction: string, dotted: bool): string {
    whole + if dotted then "." + fraction else ""
  }

  /** A decimal as the parser takes it apart. */
  function Written(p: Parts, dotted: bool): string {
    (if p.negative then "-" else "") + Body(p.whole, p.fraction, dotted)
  }

  ghost predicate GoodParts(p: Parts, dotted: bool) {
    Digits(p.whole) && Digits(p.fraction) && (!dotted ==> p.fraction == [])
  }

  lemma {:induction false} DigitsEndAt(w: string, rest: string)
    requires Digits(w) && (rest == [] || !IsDigit(rest[0]))
    ensures DigitsEnd(w + rest) == |w|
  {
    if w == [] {
      assert w + rest == rest;
    } else {
      assert (w + rest)[1..] == w[1..] + rest;
      DigitsEndAt(w[1..], rest);
    }
  }

  lemma MatchesBody(whole: string, fraction: string, dotted: bool)
    requires Digits(whole) && Digits(fraction) && (!dotted ==> fraction == [])
    ensures Unsigned(Body(whole, fraction, dotted)) == Some((whole, fraction))
  {
    var v := Body(whole, fraction, dotted);
    if dotted {
      DigitsEndAt(whole, "." + fraction);
      DigitsEndAt(fraction, []);
      assert fraction + [] == fraction;
      assert v[..|whole|] == whole && v[|whole| + 1..] == fraction;
    } else {
      DigitsEndAt(whole, []);
      assert v == whole && whole + [] == whole;
    }
  }

  lemma MatchesWritten(p: Parts, dotted: bool)
    requires GoodParts(p, dotted)
    ensures Match(Written(p, dotted)) == Some(p)
  {
    var v, rest := Written(p, dotted), Body(p.whole, p.fraction, dotted);
    MatchesBody(p.whole, p.fraction, dotted);
    if p.negative {
      assert v[1..] == rest;
    } else {
      assert v == rest;
      assert rest != [] ==> rest[0] == '.' || IsDigit(rest[0]);
    }
  }

  lemma MatchedIsBody(v: string) returns (dotted: bool)
    requires Unsigned(v).Some?
    ensures var (whole, fraction) := Unsigned(v).value;
            v == Body(whole, fraction, dotted) && (!dotted ==> fraction == [])
  {
    var k := DigitsEnd(v);
    dotted := k < |v|;
    if dotted {
      assert v == v[..k] + ("." + v[k + 1..]);
    }
  }

  lemma MatchedIsWritten(v: string) returns (dotted: bool)
    requires Match(v).Some?
    ensures GoodParts(Match(v).value, dotted) && v == Written(Match(v).value, dotted)
  {
    var p := Match(v).value;
    var rest := if p.negative then v[1..] else v;
    dotted := MatchedIsBody(rest);
    assert v == (if p.negative then "-" else "") + rest;
  }

  /** Exactly the texts of an optional minus, digits, and an optional dot with digits are decimals. */
  lemma DecimalIff(v: string)
    ensures Match(v).Some? <==> exists p: Parts, dotted: bool :: GoodParts(p, dotted) && v == Written(p, dotted)
  {
    if Match(v).Some? {
      var dotted := MatchedIsWritten(v);
    }
    forall p: Parts, dotted: bool | GoodParts(p, dotted) && v == Written(p, dotted) ensures Match(v).Some? {
      MatchesWritten(p, dotted);
    }
  }

  /* Rounding. */

  lemma {:induction false} ScaleTwice(x: int, a: nat, b: nat)
    ensures Scale(Scale(x, a), b) == Scale(x, a + b)
  {
    if b > 0 {
      ScaleTwice(x, a, b - 1);
    }
  }

  lemma {:induction false} ScaleSum(x: int, y: int, k: nat)
    ensures Scale(x + y, k) == Scale(x, k) + Scale(y, k)
  {
    if k > 0 {
      ScaleSum(x, y, k - 1);
    }
  }

  lemma {:induction false} ScaleGrows(x: int, y: int, k: nat)
    requires x <= y
    ensures Scale(x, k) <= Scale(y, k) && (x < y ==> Scale(x, k) < Scale(y, k))
  {
    if k > 0 {
      ScaleGrows(x, y, k - 1);
    }
  }

  lemma {:induction false} ScaleOne(k: nat)
    ensures Scale(1, k) == Pow10(k)
  {
    if k > 0 {
      ScaleOne(k - 1);
    }
  }

  lemma {:induction false} ZerosValue(s: string)
    requires Digits(s) && forall k :: 0 <= k < |s| ==> s[k] == '0'
    ensures Value(s) == 0
  {
    if s != [] {
      ZerosValue(s[..|s| - 1]);
    }
  }

  lemma {:induction false} ValueIsShort(s: string)
    requires Digits(s)
    ensures Value(s) < Pow10(|s|)
  {
    if s != [] {
      ValueIsShort(s[..|s| - 1]);
    }
  }

  /** The whole number m is nearest to x / 10^k, and the upper one of two equally near. */
  predicate Rounds(m: int, x: int, k: nat) {
    2 * x - Pow10(k) < 2 * Scale(m, k) <= 2 * x + Pow10(k)
  }

  /** There is one such number. */
  lemma RoundsToOne(m: int, n: int, x: int, k: nat)
    requires Rounds(m, x, k) && Rounds(n, x, k)
    ensures m == n
  {
    ScaleOne(k);
    if m < n {
      ScaleSum(m, 1, k);
      ScaleGrows(m + 1, n, k);
    } else if n < m {
      ScaleSum(n, 1, k);
      ScaleGrows(n + 1, m, k);
    }
  }

  lemma RoundsScaled(m: int, x: int, k: nat, d: nat)
    requires Rounds(m, x, k)
    ensures Rounds(m, Scale(x, d), k + d)
  {
    var p := Pow10(k);
    ScaleTwice(m, k, d);
    ScaleOne(k);
    ScaleOne(k + d);
    ScaleTwice(1, k, d);
    ScaleGrows(2 * x - p, 2 * Scale(m, k), d);
    ScaleGrows(2 * Scale(m, k), 2 * x + p, d);
    ScaleSum(x, x, d);
    ScaleSum(Scale(m, k), Scale(m, k), d);
    ScaleSum(2 * x, p, d);
    ScaleSum(2 * x - p, p, d);
  }

  /** The first digit dropped says which way the rest rounds. */
  lemma TailRounds(tail: string)
    requires Digits(tail) && tail != []
    ensures Rounds(if tail[0] >= '5' then 1 else 0, Value(tail), |tail|)
  {
    var c, rest := tail[..1], tail[1..];
    assert tail == c + rest;
    ValueAppend(c, rest);
    ValueIsShort(rest);
    var v, j := Value(c), |tail| - 1;
    assert c[..0] == [] && v == tail[0] as int - '0' as int;
    ScaleOne(j);
    ScaleOne(|tail|);
    if tail[0] >= '5' {
      ScaleGrows(5, v, j);
      ScaleFew(j);
      ValueIsShort(tail);
    } else {
      ScaleGrows(v, 4, j);
      ScaleFew(j);
      ScaleZero(|tail|);
    }
  }

  lemma {:induction false} ScaleFew(j: nat)
    ensures Scale(5, j) == 5 * Pow10(j) && Scale(4, j) == 4 * Pow10(j)
  {
    if j > 0 {
      ScaleFew(j - 1);
    }
  }

  lemma {:induction false} ScaleZero(j: nat)
    ensures Scale(0, j) == 0
  {
    if j > 0 {
      ScaleZero(j - 1);
    }
  }

  lemma ExactRounds(m: int, x: int, k: nat)
    requires Scale(m, k) == x
    ensures Rounds(m, x, k)
  {}

  lemma PaddedValue(w: string, fraction: string, padded: string)
    requires Digits(w) && Digits(padded) && fraction <= padded
    requires forall k :: |fraction| <= k < |padded| ==> padded[k] == '0'
    ensures Digits(w + fraction) && Digits(w + padded)
    ensures Value(w + padded) == Scale(Value(w + fraction), |padded| - |fraction|)
  {
    var zeros := padded[|fraction|..];
    assert w + padded == (w + fraction) + zeros;
    ZerosValue(zeros);
    ValueAppend(w + fraction, zeros);
  }

  lemma ShortFractionRounds(w: string, fraction: string, d: nat)
    requires Digits(w) && Digits(fraction) && |fraction| <= d
    ensures var padded := PadEnd(fraction, d + 1);
            && padded[d] == '0' && Digits(w + fraction) && Digits(w + padded[..d])
            && Rounds(Value(w + padded[..d]), Scale(Value(w + fraction), d), |fraction|)
  {
    var kept := PadEnd(fraction, d + 1)[..d];
    PaddedValue(w, fraction, kept);
    ScaleTwice(Value(w + fraction), d - |fraction|, |fraction|);
    ExactRounds(Value(w + kept), Scale(Value(w + fraction), d), |fraction|);
  }

  lemma KeptRounds(w: string, fraction: string, d: nat)
    requires Digits(w) && Digits(fraction)
    ensures var padded := PadEnd(fraction, d + 1);
            && Digits(w + fraction) && Digits(w + padded[..d])
            && Rounds(Value(w + padded[..d]) + (if padded[d] >= '5' then 1 else 0), Scale(Value(w + fraction), d),
                |fraction|)
  {
    if |fraction| <= d {
      ShortFractionRounds(w, fraction, d);
    } else {
      assert PadEnd(fraction, d + 1) == fraction;
      LongFractionRounds(w, fraction, d);
    }
  }

  /** The magnitude is the written amount times 10^decimals, to the nearest, an exact half away from zero. */
  lemma MagnitudeRounds(whole: string, fraction: string, d: nat)
    requires Digits(whole) && Digits(fraction)
    ensures Digits(whole + fraction)
    ensures Rounds(Magnitude(whole, fraction, d), Scale(Value(whole + fraction), d), |fraction|)
  {
    var w := if whole == [] then ['0'] else whole;
    if whole == [] {
      ZerosValue(w);
    }
    KeptRounds(w, fraction, d);
    ValueAppend(whole, fraction);
    ValueAppend(w, fraction);
  }

  lemma LongFractionRounds(w: string, fraction: string, d: nat)
    requires Digits(w) && Digits(fraction) && d < |fraction|
    ensures Digits(w + fraction) && Digits(w + fraction[..d])
    ensures Rounds(Value(w + fraction[..d]) + (if fraction[d] >= '5' then 1 else 0), Scale(Value(w + fraction), d),
            |fraction|)
  {
    var kept, tail := w + fraction[..d], fraction[d..];
    var up, j := if fraction[d] >= '5' then 1 else 0, |fraction| - d;
    assert w + fraction == kept + tail;
    ValueAppend(kept, tail);
    TailRounds(tail);
    ScaleSum(Value(kept), up, j);
    assert Rounds(Value(kept) + up, Value(w + fraction), j);
    RoundsScaled(Value(kept) + up, Value(w + fraction), j, d);
  }

  /** The parser refuses exactly what is not a decimal. */
  lemma RefusesExactly(raw: string, d: nat)
    ensures ToMinorUnits(raw, d).NotDecimal?
            <==> !exists p: Parts, dotted: bool :: GoodParts(p, dotted) && Normalised(raw) == Written(p, dotted)
  {
    DecimalIff(Normalised(raw));
  }

  /** A decimal becomes the amount rounded exactly, a half away from zero, whatever its number of fraction digits;
      it is out of range exactly when that is not a safe integer. */
  lemma ParsesExactly(raw: string, p: Parts, dotted: bool, d: nat) returns (m: nat)
    requires GoodParts(p, dotted) && Normalised(raw) == Written(p, dotted)
    ensures Digits(p.whole + p.fraction) && Rounds(m, Scale(Value(p.whole + p.fraction), d), |p.fraction|)
    ensures ToMinorUnits(raw, d) == if m <= MAX_SAFE then Minor(Signed(p.negative, m)) else OutOfRange
  {
    MatchesWritten(p, dotted);
    MagnitudeRounds(p.whole, p.fraction, d);
    m := Magnitude(p.whole, p.fraction, d);
  }

  /** A blank text and a lone minus or dot are decimals too: they are worth nothing. */
  lemma BlankIsZero(raw: string, d: nat)
    requires Trim(raw) in {"", "-", ".", ",", "-.", "-,"}
    ensures ToMinorUnits(raw, d) == Minor(0)
  {
    var v := Normalised(raw);
    var p, dotted := Parts(v != [] && v[0] == '-', "", ""), v != [] && v[|v| - 1] == '.';
    assert v == Written(p, dotted) by {
      var t := Trim(raw);
      assert t != [] ==> FirstCommaToDot(t) == if t[0] == ',' then ['.'] + t[1..] else [t[0]] + FirstCommaToDot(t[1..]);
    }
    var m := ParsesExactly(raw, p, dotted, d);
    ZerosValue([]);
    ScaleZero(d);
    assert Scale(m, 0) == m;
  }

  /* Round trips. */

  function Safe(n: int): Amount {
    if Abs(n) <= MAX_SAFE then Minor(n) else OutOfRange
  }

  lemma {:induction false} NoCommaStays(s: string)
    requires ',' !in s
    ensures FirstCommaToDot(s) == s
  {
    if s != [] {
      NoCommaStays(s[1..]);
    }
  }

  /** Text made of digits, minus and dots is read as it stands. */
  predicate Plain(s: string) {
    s != [] && forall k :: 0 <= k < |s| ==> IsDigit(s[k]) || s[k] == '-' || s[k] == '.'
  }

  lemma PlainStays(s: string)
    requires Plain(s)
    ensures Normalised(s) == s
  {
    TrimmedStays(s);
    NoCommaStays(s);
  }

  lemma PrintedIsWritten(n: int, d: nat)
    ensures Printed(n, d) == Written(Parts(n < 0, Decimal(Cut(Abs(n), d)), Fixed(Abs(n), d)), d > 0)
    ensures Plain(Printed(n, d))
  {
    assert d == 0 ==> Fixed(Abs(n), d) == [];
  }

  lemma PrintedMagnitude(m: nat, d: nat)
    ensures Magnitude(Decimal(Cut(m, d)), Fixed(m, d), d) == m
  {
    var w, f := Decimal(Cut(m, d)), Fixed(m, d);
    var padded := PadEnd(f, d + 1);
    assert padded[..d] == f;
    ValueAppend(w, f);
    DecimalValue(Cut(m, d));
    FixedValue(m, d);
    CutAndLow(m, d);
  }

  /** Every amount survives printing and parsing, as long as it is a safe integer. */
  lemma RoundTrip(n: int, d: nat)
    ensures ToMinorUnits(MinorToDecimalString(n, d), d) == Safe(n)
  {
    MinorIsPrinted(n, d);
    PrintedIsWritten(n, d);
    PlainStays(Printed(n, d));
    MatchesWritten(Parts(n < 0, Decimal(Cut(Abs(n), d)), Fixed(Abs(n), d)), d > 0);
    PrintedMagnitude(Abs(n), d);
  }

  /** So it does through the other printer, with decimals or without. */
  lemma RoundTripShopify(n: int, d: nat)
    ensures ToMinorUnits(FromMinorUnits(n, d), d) == Safe(n)
  {
    if d >= 1 {
      PrintersAgree(n, d);
      RoundTrip(n, d);
    } else {
      RoundTripWhole(n);
    }
  }

  lemma RoundTripWhole(n: int)
    ensures ToMinorUnits(FromMinorUnits(n, 0), 0) == Safe(n)
  {
    var w := Decimal(Abs(n));
    var p := Parts(n < 0, w, "0");
    DivideIsCut(Abs(n), 0);
    assert Decimal(0) == "0";
    assert FromMinorUnits(n, 0) == Sign(n) + w + ("." + "0");
    assert Sign(n) + w + ("." + "0") == Sign(n) + (w + ("." + "0"));
    PlainStays(Written(p, true));
    MatchesWritten(p, true);
    WholeMagnitude(Abs(n));
  }

  lemma WholeMagnitude(m: nat)
    ensures Magnitude(Decimal(m), "0", 0) == m
  {
    assert PadEnd("0", 1) == "0" && "0"[..0] == [] && Decimal(m) + [] == Decimal(m);
    DecimalValue(m);
  }

  /* Amounts grouped by dots, with a decimal comma. */

  function Group(s: string): string {
    if |s| <= 3 then s else Group(s[..|s| - 3]) + ("." + s[|s| - 3..])
  }

  function Grouped(n: int, d: nat): string {
    Sign(n) + Group(Decimal(Cut(Abs(n), d))) + if d > 0 then "," + Fixed(Abs(n), d) else ""
  }

  lemma {:induction false} WithoutDotsAppend(a: string, b: string)
    ensures WithoutDots(a + b) == WithoutDots(a) + WithoutDots(b)
  {
    if a == [] {
      assert a + b == b;
    } else {
      assert (a + b)[1..] == a[1..] + b;
      WithoutDotsAppend(a[1..], b);
    }
  }

  lemma {:induction false} DotlessStays(s: string)
    requires '.' !in s
    ensures WithoutDots(s) == s
  {
    if s != [] {
      DotlessStays(s[1..]);
    }
  }

  lemma DottedStays(s: string)
    requires Digits(s)
    ensures WithoutDots("." + s) == s
  {
    DotlessStays(s);
    assert ("." + s)[1..] == s;
  }

  lemma {:induction false} GroupIsUndone(s: string)
    requires Digits(s)
    ensures WithoutDots(Group(s)) == s
  {
    if |s| <= 3 {
      DotlessStays(s);
    } else {
      var a, b := s[..|s| - 3], s[|s| - 3..];
      GroupIsUndone(a);
      DottedStays(b);
      WithoutDotsAppend(Group(a), "." + b);
      assert WithoutDots(Group(s)) == a + b;
    }
  }

  lemma {:induction false} GroupIsPlain(s: string)
    requires Digits(s) && s != []
    ensures Plain(Group(s)) && Group(s)[0] == s[0] && IsDigit(Group(s)[|Group(s)| - 1])
  {
    if |s| > 3 {
      GroupIsPlain(s[..|s| - 3]);
    }
  }

  lemma {:induction false} CommaBecomesDot(a: string, b: string)
    requires ',' !in a
    ensures FirstCommaToDot(a + ("," + b)) == a + ("." + b)
  {
    if a == [] {
      assert a + ("," + b) == "," + b && ("," + b)[1..] == b;
    } else {
      assert (a + ("," + b))[1..] == a[1..] + ("," + b);
      CommaBecomesDot(a[1..], b);
    }
  }

  lemma GroupedIsTrimmed(n: int, d: nat)
    ensures Trim(Grouped(n, d)) == Grouped(n, d)
  {
    GroupIsPlain(Decimal(Cut(Abs(n), d)));
    TrimmedStays(Grouped(n, d));
  }

  /** Dots go and the comma becomes the dot. */
  lemma CommaReads(front: string, behind: string)
    requires ',' !in front && '.' !in behind && Trim(front + ("," + behind)) == front + ("," + behind)
    requires ',' !in WithoutDots(front)
    ensures Normalised(front + ("," + behind)) == WithoutDots(front) + ("." + behind)
  {
    var v := front + ("," + behind);
    assert v[|front|] == ',';
    WithoutDotsAppend(front, "," + behind);
    DotlessStays("," + behind);
    CommaBecomesDot(WithoutDots(front), behind);
    if '.' !in v {
      assert '.' !in front by { assert forall k :: 0 <= k < |front| ==> front[k] == v[k]; }
      DotlessStays(front);
    }
  }

  lemma {:induction false} NoNewComma(s: string)
    requires ',' !in s
    ensures ',' !in WithoutDots(s)
  {
    if s != [] {
      NoNewComma(s[1..]);
    }
  }

  lemma {:induction false} NoDotLeft(s: string)
    ensures '.' !in WithoutDots(s)
  {
    if s != [] {
      NoDotLeft(s[1..]);
    }
  }

  /** The first comma becomes the decimal point, and beside a comma every dot is taken for a grouping one; without a
      comma the text is read as it stands. */
  lemma NormalisesExactly(raw: string, a: string, b: string)
    requires ',' !in a
    ensures Trim(raw) == a ==> Normalised(raw) == a
    ensures Trim(raw) == a + ("," + b) ==>
              Normalised(raw) == if '.' in a + b then WithoutDots(a) + ("." + WithoutDots(b)) else a + ("." + b)
    ensures '.' !in WithoutDots(a) && '.' !in WithoutDots(b)
  {
    NoDotLeft(a);
    NoDotLeft(b);
    if Trim(raw) == a {
      NoCommaStays(a);
    }
    if Trim(raw) == a + ("," + b) {
      NormalisesAround(a, b);
    }
  }

  lemma NormalisesAround(a: string, b: string)
    requires ',' !in a
    ensures FirstCommaToDot(a + ("," + b)) == a + ("." + b)
    ensures FirstCommaToDot(WithoutDots(a + ("," + b))) == WithoutDots(a) + ("." + WithoutDots(b))
    ensures '.' in a + ("," + b) <==> '.' in a + b
  {
    CommaBecomesDot(a, b);
    NoNewComma(a);
    WithoutDotsAppend(a, "," + b);
    assert ("," + b)[1..] == b;
    CommaBecomesDot(WithoutDots(a), WithoutDots(b));
  }

  lemma GroupedFront(sign: string, w: string)
    requires Digits(w) && w != [] && sign in {"", "-"}
    ensures ',' !in sign + Group(w) && WithoutDots(sign + Group(w)) == sign + w
  {
    GroupIsUndone(w);
    GroupIsPlain(w);
    WithoutDotsAppend(sign, Group(w));
    DotlessStays(sign);
  }

  lemma GroupedReadsAsPrinted(n: int, d: nat)
    requires d > 0
    ensures Normalised(Grouped(n, d)) == Printed(n, d)
  {
    var w, f := Decimal(Cut(Abs(n), d)), Fixed(Abs(n), d);
    GroupedIsTrimmed(n, d);
    GroupedFront(Sign(n), w);
    CommaReads(Sign(n) + Group(w), f);
  }

  /** A text with two dots is no decimal. */
  lemma TwoDots(v: string, i: nat, j: nat)
    requires i < j < |v| && v[i] == '.' && v[j] == '.'
    ensures Match(v).None?
  {
    if Match(v).Some? {
      var dotted := MatchedIsWritten(v);
    }
  }

  lemma {:induction false} DecimalLength(m: nat)
    ensures |Decimal(m)| <= 3 <==> m < 1000
  {
    assert m >= 10 ==> |Decimal(m)| == 1 + |Decimal(m / 10)|;
    assert m >= 100 ==> |Decimal(m / 10)| == 1 + |Decimal(m / 10 / 10)|;
    assert m >= 1000 ==> |Decimal(m / 10 / 10)| == 1 + |Decimal(m / 10 / 10 / 10)|;
  }

  lemma OneGroupMagnitude(a: string, b: string)
    requires Digits(a) && Digits(b) && |b| == 3
    ensures Digits(a + b) && (Value(a + b) >= 1000 ==> Magnitude(a, b, 0) < Value(a + b))
  {
    ValueAppend(a, b);
    ValueIsShort(b);
    assert Pow10(3) == 1000 && Scale(Value(a), 1) == 10 * Value(a);
    assert PadEnd(b, 1) == b && b[..0] == [];
    assert a + [] == a && ['0'] + [] == ['0'];
    ZerosValue(['0']);
  }

  /** Without decimals a number with one group is read as a fraction. */
  lemma OneGroupIsMisread(n: int, raw: string, a: string, b: string)
    requires Digits(a) && Digits(b) && |b| == 3 && Value(a + b) == Abs(n) >= 1000
    requires Normalised(raw) == Written(Parts(n < 0, a, b), true)
    ensures ToMinorUnits(raw, 0) != Minor(n)
  {
    MatchesWritten(Parts(n < 0, a, b), true);
    OneGroupMagnitude(a, b);
  }

  lemma GroupedWholeText(n: int, a: string, b: string)
    requires Digits(a + b) && Decimal(Abs(n)) == a + b && |b| == 3 && a != []
    ensures Normalised(Grouped(n, 0)) == Sign(n) + (Group(a) + ("." + b))
  {
    var s, v := a + b, Grouped(n, 0);
    GroupedIsTrimmed(n, 0);
    GroupIsPlain(s);
    NoCommaStays(v);
    assert s[..|s| - 3] == a && s[|s| - 3..] == b;
    assert v == Sign(n) + Group(s);
  }

  /** And with more groups it is no decimal. */
  lemma MoreGroupsAreNoDecimal(sign: string, a: string, b: string)
    requires |a| > 3
    ensures Match(sign + (Group(a) + ("." + b))).None?
  {
    var first := Group(a[..|a| - 3]);
    assert Group(a) == first + ("." + a[|a| - 3..]);
    TwoDots(sign + (Group(a) + ("." + b)), |sign| + |first|, |sign| + |Group(a)|);
  }

  lemma GroupedWholeIsMisread(n: int)
    requires Abs(n) >= 1000
    ensures ToMinorUnits(Grouped(n, 0), 0) != Minor(n)
  {
    var s := Decimal(Abs(n));
    DecimalLength(Abs(n));
    DecimalValue(Abs(n));
    assert |s| > 3;
    var k := |s| - 3;
    var a, b := s[..k], s[k..];
    assert s == a + b;
    GroupedWholeText(n, a, b);
    if |a| <= 3 {
      assert Group(a) == a;
      OneGroupIsMisread(n, Grouped(n, 0), a, b);
    } else {
      MoreGroupsAreNoDecimal(Sign(n), a, b);
    }
  }

  /** An amount grouped by dots with a decimal comma parses back exactly when it has decimals or no group. */
  lemma RoundTripGrouped(n: int, d: nat)
    requires Abs(n) <= MAX_SAFE
    ensures ToMinorUnits(Grouped(n, d), d) == Minor(n) <==> d >= 1 || Abs(n) < 1000
  {
    MinorIsPrinted(n, d);
    RoundTrip(n, d);
    if d >= 1 {
      GroupedReadsAsPrinted(n, d);
      PrintedIsWritten(n, d);
      PlainStays(Printed(n, d));
    } else if Abs(n) < 1000 {
      DecimalLength(Abs(n));
      assert Grouped(n, 0) == Printed(n, 0);
    } else {
      GroupedWholeIsMisread(n);
    }
  }
}
