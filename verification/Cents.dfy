/** `toCents`: the text of an amount as integer cents. */
module Cents {
  import opened Prelude
  import opened Json
  import opened Digits

  const MAX_EXACT := 9_007_199_254_740_992   // 2^53

  datatype AmountError = NotAnAmount | Unparseable(text: string)

  predicate IsSpace(c: char) {
    || '\t' <= c <= '\r' || c == ' ' || c == '\U{00A0}' || c == '\U{1680}' || '\U{2000}' <= c <= '\U{200A}'
    || c == '\U{2028}' || c == '\U{2029}' || c == '\U{202F}' || c == '\U{205F}' || c == '\U{3000}' || c == '\U{FEFF}'
  }

  predicate IsNoise(c: char) {
    c == '$' || c == ',' || IsSpace(c)
  }

  /** `value.replace(/[$,\s]/g, '')` */
  function Strip(s: string): string
    decreases |s|
  {
    if s == "" then "" else (if IsNoise(s[0]) then "" else [s[0]]) + Strip(s[1..])
  }

  /** Where the first '.' is, or the length. */
  function DotAt(s: string): (k: nat)
    ensures k <= |s| && (k < |s| ==> s[k] == '.') && forall i :: 0 <= i < k ==> s[i] != '.'
    decreases |s|
  {
    if s == "" || s[0] == '.' then 0 else 1 + DotAt(s[1..])
  }

  function Unsigned(s: string): string {
    if s != "" && s[0] == '-' then s[1..] else s
  }

  /** `/^-?\d+(\.\d{1,2})?$/` */
  predicate IsAmountText(s: string) {
    var body := Unsigned(s);
    var whole, rest := body[..DotAt(body)], body[DotAt(body)..];
    && whole != "" && AllDigits(whole)
    && (rest == "" || (2 <= |rest| <= 3 && AllDigits(rest[1..])))
  }

  function PadTwo(frac: string): string
    requires |frac| <= 2
  {
    if |frac| == 0 then "00" else if |frac| == 1 then frac + "0" else frac
  }

  /** `fl` is what double arithmetic makes of an integer: exact up to 2^53. */
  ghost predicate IsDoubleRounding(fl: int -> int) {
    forall x :: -MAX_EXACT <= x <= MAX_EXACT ==> fl(x) == x
  }

  /** The digits before and after the point. */
  function Whole(s: string): string {
    Unsigned(s)[..DotAt(Unsigned(s))]
  }

  function Frac(s: string): string {
    var body := Unsigned(s);
    if DotAt(body) < |body| then body[DotAt(body) + 1..] else ""
  }

  function PartsToCents(fl: int -> int, negative: bool, whole: string, frac: string): int
    requires AllDigits(whole) && AllDigits(frac) && |frac| <= 2
  {
    assert AllDigits(PadTwo(frac));
    var cents := fl(fl(fl(NumberOf(whole)) * 100) + NumberOf(PadTwo(frac)));
    if negative then -cents else cents
  }

  function TextToCents(fl: int -> int, s: string): Result<int, AmountError> {
    if !IsAmountText(s) then Err(Unparseable(s))
    else Ok(PartsToCents(fl, s[0] == '-', Whole(s), Frac(s)))
  }

  function ToCents(fl: int -> int, value: Json): Result<int, AmountError> {
    match value
    case Num(repr) => TextToCents(fl, repr)
    case Str(s) => TextToCents(fl, Strip(s))
    case _ => Err(NotAnAmount)
  }

  // ---- the amounts the grammar describes ----

  datatype Amount = Amount(negative: bool, whole: string, frac: string)
  {
    predicate Valid() {
      whole != "" && AllDigits(whole) && AllDigits(frac) && |frac| <= 2
    }

    function Text(): string {
      (if negative then "-" else "") + whole + (if frac == "" then "" else "." + frac)
    }

    /** The decimal number written. */
    ghost function Value(): real
      requires Valid()
    {
      var v := NumberOf(whole) as real + NumberOf(frac) as real / Scale();
      if negative then -v else v
    }

    ghost function Scale(): real {
      if |frac| == 0 then 1.0 else if |frac| == 1 then 10.0 else 100.0
    }
  }

  lemma DotAtText(whole: string, rest: string)
    requires AllDigits(whole) && (rest == "" || rest[0] == '.')
    ensures DotAt(whole + rest) == |whole|
    ensures (whole + rest)[..|whole|] == whole && (whole + rest)[|whole|..] == rest
  {
    DotComesAfter(whole, rest);
  }

  lemma {:induction false} DotComesAfter(whole: string, rest: string)
    requires AllDigits(whole) && (rest == "" || rest[0] == '.')
    ensures DotAt(whole + rest) == |whole|
    decreases |whole|
  {
    var s := whole + rest;
    if whole == "" {
      assert s == rest;
    } else {
      assert s[0] == whole[0] && s[1..] == whole[1..] + rest;
      DotComesAfter(whole[1..], rest);
    }
  }

  lemma TextParts(a: Amount)
    requires a.Valid()
    ensures (a.Text()[0] == '-' <==> a.negative)
    ensures Unsigned(a.Text()) == a.whole + (if a.frac == "" then "" else "." + a.frac)
  {
    var body := a.whole + (if a.frac == "" then "" else "." + a.frac);
    assert a.Text() == (if a.negative then "-" else "") + body;
    assert body[0] == a.whole[0];
  }

  lemma TextIsAmount(a: Amount)
    requires a.Valid()
    ensures IsAmountText(a.Text()) && Whole(a.Text()) == a.whole && Frac(a.Text()) == a.frac
  {
    TextParts(a);
    var rest := if a.frac == "" then "" else "." + a.frac;
    DotAtText(a.whole, rest);
    var body := a.whole + rest;
    assert rest != "" ==> rest[1..] == a.frac && body[DotAt(body) + 1..] == rest[1..];
  }

  /** The conversion takes an amount apart again. */
  lemma ReadsParts(fl: int -> int, a: Amount)
    requires a.Valid()
    ensures TextToCents(fl, a.Text()) == Ok(PartsToCents(fl, a.negative, a.whole, a.frac))
  {
    TextIsAmount(a);
    TextParts(a);
  }

  lemma AmountIsText(s: string) returns (a: Amount)
    requires IsAmountText(s)
    ensures a.Valid() && a.Text() == s
  {
    var body := Unsigned(s);
    var k := DotAt(body);
    a := Amount(s[0] == '-', body[..k], if k < |body| then body[k + 1..] else "");
    SplitsAtDot(body, k);
    HasText(a, s);
  }

  lemma SplitsAtDot(body: string, k: nat)
    requires k <= |body| && (k < |body| ==> body[k] == '.')
    ensures body == body[..k] + if k < |body| then "." + body[k + 1..] else ""
  {
    if k < |body| {
      assert body[k..] == [body[k]] + body[k + 1..];
    }
    assert body == body[..k] + body[k..];
  }

  lemma HasText(a: Amount, s: string)
    requires s != "" && Unsigned(s) == a.whole + (if a.frac == "" then "" else "." + a.frac) && a.negative == (s[0] == '-')
    ensures a.Text() == s
  {
    var body := Unsigned(s);
    assert s == (if a.negative then "-" else "") + body;
  }

  lemma OneDigit(c: char)
    requires IsDigit(c)
    ensures NumberOf([c]) == DigitValue(c)
  {
    assert [c][..0] == "";
  }

  lemma TwoDigits(c: char, d: char)
    requires IsDigit(c) && IsDigit(d)
    ensures AllDigits([c, d]) && NumberOf([c, d]) == 10 * DigitValue(c) + DigitValue(d) < 100
  {
    assert [c, d][..1] == [c];
    OneDigit(c);
  }

  lemma PaddedValue(frac: string)
    requires AllDigits(frac) && |frac| <= 2
    ensures AllDigits(PadTwo(frac))
    ensures NumberOf(PadTwo(frac)) == (if |frac| == 0 then 0 else if |frac| == 1 then 10 * NumberOf(frac) else NumberOf(frac))
    ensures NumberOf(PadTwo(frac)) < 100
  {
    if |frac| == 0 {
      TwoDigits('0', '0');
    } else if |frac| == 1 {
      assert frac == [frac[0]] && PadTwo(frac) == [frac[0], '0'];
      OneDigit(frac[0]);
      TwoDigits(frac[0], '0');
    } else {
      assert frac == [frac[0], frac[1]];
      TwoDigits(frac[0], frac[1]);
    }
  }

  /** The cents of an amount, without rounding or sign. */
  function Magnitude(a: Amount): nat
    requires a.Valid()
  {
    assert AllDigits(PadTwo(a.frac));
    NumberOf(a.whole) * 100 + NumberOf(PadTwo(a.frac))
  }

  /** A string of the grammar converts to exactly 100 times the number it writes, up to 2^53 cents. */
  lemma CentsAreHundredths(fl: int -> int, a: Amount)
    requires IsDoubleRounding(fl) && a.Valid() && Magnitude(a) <= MAX_EXACT
    ensures TextToCents(fl, a.Text()).Ok? && TextToCents(fl, a.Text()).value as real == 100.0 * a.Value()
  {
    ReadsParts(fl, a);
    PaddedValue(a.frac);
  }

  /** The conversion succeeds on the strings of the grammar and on nothing else. */
  lemma ConvertsExactlyTheGrammar(fl: int -> int, s: string)
    ensures ToCents(fl, Str(s)).Ok? <==> exists a: Amount :: a.Valid() && a.Text() == Strip(s)
  {
    if IsAmountText(Strip(s)) {
      var a := AmountIsText(Strip(s));
    }
    forall a: Amount | a.Valid() && a.Text() == Strip(s) ensures IsAmountText(Strip(s)) {
      TextIsAmount(a);
    }
  }

  lemma {:induction false} StripSkips(u: string, noise: string, w: string)
    requires forall i :: 0 <= i < |noise| ==> IsNoise(noise[i])
    ensures Strip(u + noise + w) == Strip(u + w)
    decreases |u| + |noise|
  {
    if u != "" {
      assert (u + noise + w)[1..] == u[1..] + noise + w && (u + w)[1..] == u[1..] + w;
      StripSkips(u[1..], noise, w);
    } else if noise != "" {
      assert (u + noise + w)[1..] == u + noise[1..] + w;
      StripSkips(u, noise[1..], w);
    } else {
      assert u + noise + w == u + w;
    }
  }

  /** The code points that `\s` stands for in ECMAScript. */
  lemma SpaceCodes(c: char)
    ensures IsSpace(c) <==>
            || c as int in {0x09, 0x0A, 0x0B, 0x0C, 0x0D, 0x20, 0xA0, 0x1680, 0x2028, 0x2029, 0x202F, 0x205F, 0x3000, 0xFEFF}
            || 0x2000 <= c as int <= 0x200A
  {
  }

  /** '$', ',' and white space anywhere in the text change nothing. */
  lemma NoiseIsIgnored(fl: int -> int, u: string, noise: string, w: string)
    requires forall i | 0 <= i < |noise| :: noise[i] == '$' || noise[i] == ',' || IsSpace(noise[i])
    ensures ToCents(fl, Str(u + noise + w)) == ToCents(fl, Str(u + w))
  {
    StripSkips(u, noise, w);
  }

  function Abs(n: int): nat {
    if n < 0 then -n else n
  }

  /** Cents as a decimal amount with two places. */
  function Printed(cents: int): Amount {
    Amount(cents < 0, Dec(Abs(cents) / 100), [Digit(Abs(cents) / 10 % 10), Digit(Abs(cents) % 10)])
  }

  lemma {:induction false} StripKeeps(s: string)
    requires forall i :: 0 <= i < |s| ==> !IsNoise(s[i])
    ensures Strip(s) == s
    decreases |s|
  {
    if s != "" {
      StripKeeps(s[1..]);
    }
  }

  lemma CentsOfPrinted(cents: int)
    ensures Printed(cents).Valid()
    ensures NumberOf(Printed(cents).whole) == Abs(cents) / 100
    ensures NumberOf(PadTwo(Printed(cents).frac)) == Abs(cents) % 100
  {
    NumberOfDec(Abs(cents) / 100);
    TwoDigits(Digit(Abs(cents) / 10 % 10), Digit(Abs(cents) % 10));
    var n := Abs(cents);
    assert n % 100 == 10 * (n / 10 % 10) + n % 10;
  }

  /** Printing an amount and reading it back gives the amount. */
  lemma PrintThenRead(fl: int -> int, cents: int)
    requires IsDoubleRounding(fl) && -MAX_EXACT <= cents <= MAX_EXACT
    ensures ToCents(fl, Str(Printed(cents).Text())) == Ok(cents)
  {
    var text := Printed(cents).Text();
    PrintedIsClean(cents);
    StripKeeps(text);
    assert ToCents(fl, Str(text)) == TextToCents(fl, text);
    PrintedReads(fl, cents);
  }

  lemma PrintedReads(fl: int -> int, cents: int)
    requires IsDoubleRounding(fl) && -MAX_EXACT <= cents <= MAX_EXACT
    ensures TextToCents(fl, Printed(cents).Text()) == Ok(cents)
  {
    var a := Printed(cents);
    CentsOfPrinted(cents);
    ExactParts(fl, a.negative, a.whole, a.frac, Abs(cents));
    ReadsParts(fl, a);
  }

  lemma ExactParts(fl: int -> int, negative: bool, whole: string, frac: string, n: nat)
    requires IsDoubleRounding(fl) && AllDigits(whole) && AllDigits(frac) && |frac| <= 2 && n <= MAX_EXACT
    requires AllDigits(PadTwo(frac)) && NumberOf(whole) == n / 100 && NumberOf(PadTwo(frac)) == n % 100
    ensures var c: int := n; PartsToCents(fl, negative, whole, frac) == if negative then -c else c
  {
    assert n / 100 * 100 + n % 100 == n;
  }

  lemma PrintedIsClean(cents: int)
    ensures forall i :: 0 <= i < |Printed(cents).Text()| ==> !IsNoise(Printed(cents).Text()[i])
  {
    CentsOfPrinted(cents);
    var a := Printed(cents);
    assert forall c :: IsDigit(c) ==> !IsNoise(c);
  }
}
