/** The text form of decimals: `parseDecimal` and `formatDecimal`. */
module DecimalText {
  import opened Decimals
  import opened Outcome
  import opened Rounding

  predicate IsDigit(c: char) {
    '0' <= c <= '9'
  }

  predicate AllDigits(s: string) {
    forall i :: 0 <= i < |s| ==> IsDigit(s[i])
  }

  function DigitValue(c: char): int
    requires IsDigit(c)
  {
    c as int - '0' as int
  }

  function DigitChar(d: int): (c: char)
    requires 0 <= d <= 9
    ensures IsDigit(c) && DigitValue(c) == d
  {
    (d + '0' as int) as char
  }

  /** Digits are written in their usual order. */
  lemma DigitsAreUsual(d: int)
    requires 0 <= d <= 9
    ensures DigitChar(d) == "0123456789"[d] && DigitValue("0123456789"[d]) == d
  {
  }

  /** The number a run of digits denotes. */
  function NatOf(s: string): nat
    requires AllDigits(s)
  {
    if s == "" then 0 else NatOf(s[..|s| - 1]) * 10 + DigitValue(s[|s| - 1])
  }

  /** The shortest run of digits denoting `n`. */
  function DigitsOf(n: nat): (s: string)
    ensures |s| >= 1 && AllDigits(s)
  {
    if n < 10 then [DigitChar(n)] else DigitsOf(n / 10) + [DigitChar(n % 10)]
  }

  function PadStart(s: string, length: nat): (r: string)
    ensures |r| == if |s| >= length then |s| else length
    decreases length - |s|
  {
    if |s| >= length then s else PadStart("0" + s, length)
  }

  /** Where the first dot is, or the length of a text without one. */
  function FindDot(s: string): (i: nat)
    ensures i <= |s|
    ensures forall j :: 0 <= j < i ==> s[j] != '.'
    ensures i < |s| ==> s[i] == '.'
  {
    if s == "" || s[0] == '.' then 0 else 1 + FindDot(s[1..])
  }

  /** A decimal text cut at its sign and its dot. */
  datatype Parts = Parts(negative: bool, whole: string, fraction: string, dotted: bool)

  function Split(value: string): Parts {
    var negative := value != "" && value[0] == '-';
    var body := if negative then value[1..] else value;
    var dot := FindDot(body);
    if dot == |body| then Parts(negative, body, "", false)
    else Parts(negative, body[..dot], body[dot + 1..], true)
  }

  /** An optional sign, digits, and optionally a dot with more digits. */
  predicate MatchesPattern(value: string) {
    var p := Split(value);
    p.whole != "" && AllDigits(p.whole) && AllDigits(p.fraction) && (p.dotted ==> p.fraction != "")
  }

  function ParseDecimal(value: string): Result<Decimal> {
    if !MatchesPattern(value) then Err("not a plain decimal string")
    else
      var p := Split(value);
      var digits := p.whole + p.fraction;
      if |p.fraction| > MAX_DECIMAL_SCALE then Err("too many fractional digits")
      else Ok(Decimal(NatOf(digits) * (if p.negative then -1 else 1), |p.fraction|))
  }

  function Join(p: Parts): string {
    (if p.negative then "-" else "") + p.whole + (if p.fraction == "" then "" else "." + p.fraction)
  }

  function FormatDecimal(value: Decimal): string {
    var negative := value.unscaled < 0;
    var magnitude := PadStart(DigitsOf(Abs(value.unscaled)), value.scale + 1);
    var cut := |magnitude| - value.scale;
    Join(Parts(negative, magnitude[..cut], magnitude[cut..], false))
  }

  // ----- digits -----

  lemma {:induction false} LeadingZero(s: string)
    requires AllDigits(s)
    ensures AllDigits("0" + s) && NatOf("0" + s) == NatOf(s)
    decreases |s|
  {
    if s == "" {
      assert ("0" + s)[..0] == "";
    } else {
      var t := s[..|s| - 1];
      LeadingZero(t);
      assert ("0" + s)[..|s|] == "0" + t;
    }
  }

  lemma {:induction false} PadKeepsNumber(s: string, length: nat)
    requires AllDigits(s)
    ensures AllDigits(PadStart(s, length)) && NatOf(PadStart(s, length)) == NatOf(s)
    decreases length - |s|
  {
    if |s| < length {
      LeadingZero(s);
      PadKeepsNumber("0" + s, length);
    }
  }

  lemma {:induction false} DigitsDenote(n: nat)
    ensures NatOf(DigitsOf(n)) == n
  {
    if n < 10 {
      assert [DigitChar(n)][..0] == "";
    } else {
      DigitsDenote(n / 10);
      assert DigitsOf(n)[..|DigitsOf(n)| - 1] == DigitsOf(n / 10);
    }
  }

  lemma {:induction false} NoLeadingZero(s: string)
    requires AllDigits(s) && s != "" && (s[0] != '0' || |s| == 1)
    ensures DigitsOf(NatOf(s)) == s && (s[0] != '0' ==> NatOf(s) > 0)
    decreases |s|
  {
    var t := s[..|s| - 1];
    assert s == t + [s[|s| - 1]];
    if t == "" {
      assert DigitChar(DigitValue(s[0])) == s[0];
    } else {
      NoLeadingZero(t);
      assert DigitChar(DigitValue(s[|s| - 1])) == s[|s| - 1];
    }
  }

  lemma {:induction false} PadPrepends(s: string, length: nat)
    requires |s| <= length
    ensures PadStart(s, length + 1) == "0" + PadStart(s, length)
    decreases length - |s|
  {
    if |s| < length {
      PadPrepends("0" + s, length);
    }
  }

  lemma {:induction false} DigitsFit(s: string)
    requires AllDigits(s) && s != ""
    ensures |DigitsOf(NatOf(s))| <= |s|
    decreases |s|
  {
    if s[0] != '0' || |s| == 1 {
      NoLeadingZero(s);
    } else {
      LeadingZero(s[1..]);
      assert s == "0" + s[1..];
      DigitsFit(s[1..]);
    }
  }

  /** Padding the shortest form back to the length of a run of digits restores the run. */
  lemma {:induction false} PadRestores(s: string)
    requires AllDigits(s) && s != ""
    ensures PadStart(DigitsOf(NatOf(s)), |s|) == s
    decreases |s|
  {
    if s[0] != '0' || |s| == 1 {
      NoLeadingZero(s);
    } else {
      var t := s[1..];
      assert s == "0" + t;
      LeadingZero(t);
      PadRestores(t);
      DigitsFit(t);
      PadPrepends(DigitsOf(NatOf(t)), |t|);
    }
  }

  /** Surplus leading zeros dropped, at least `keep` digits kept. */
  function StripZeros(s: string, keep: nat): string {
    if |s| > keep && s[0] == '0' then StripZeros(s[1..], keep) else s
  }

  lemma {:induction false} PadStrips(s: string, keep: nat)
    requires AllDigits(s) && |s| >= keep >= 1
    ensures PadStart(DigitsOf(NatOf(s)), keep) == StripZeros(s, keep)
    decreases |s|
  {
    if |s| > keep && s[0] == '0' {
      assert s == "0" + s[1..];
      LeadingZero(s[1..]);
      PadStrips(s[1..], keep);
    } else if |s| == keep {
      PadRestores(s);
    } else {
      NoLeadingZero(s);
    }
  }

  lemma {:induction false} StripOfWhole(whole: string, fraction: string)
    requires whole != ""
    ensures StripZeros(whole + fraction, |fraction| + 1) == StripZeros(whole, 1) + fraction
    decreases |whole|
  {
    if |whole| > 1 && whole[0] == '0' {
      assert (whole + fraction)[1..] == whole[1..] + fraction;
      StripOfWhole(whole[1..], fraction);
    }
  }

  // ----- cutting and joining -----

  lemma {:induction false} DotAfterDigits(whole: string, rest: string)
    requires AllDigits(whole) && (rest == "" || rest[0] == '.')
    ensures FindDot(whole + rest) == |whole|
    decreases |whole|
  {
    if whole == "" {
      assert whole + rest == rest;
    } else {
      assert (whole + rest)[1..] == whole[1..] + rest;
      DotAfterDigits(whole[1..], rest);
    }
  }

  /** The digits and fraction of a decimal text, after its sign. */
  function Body(p: Parts): string {
    p.whole + if p.fraction == "" then "" else "." + p.fraction
  }

  lemma BodyCuts(p: Parts)
    requires AllDigits(p.whole) && p.whole != "" && AllDigits(p.fraction)
    ensures var body := Body(p);
      FindDot(body) == |p.whole| && IsDigit(body[0])
      && (p.fraction == "" ==> body == p.whole)
      && (p.fraction != "" ==>
            |p.whole| < |body| && body[..|p.whole|] == p.whole && body[|p.whole| + 1..] == p.fraction)
  {
    var rest := if p.fraction == "" then "" else "." + p.fraction;
    DotAfterDigits(p.whole, rest);
  }

  lemma SplitSigned(negative: bool, body: string)
    requires body != "" && body[0] != '-'
    ensures var dot := FindDot(body);
      Split((if negative then "-" else "") + body)
        == if dot == |body| then Parts(negative, body, "", false)
        else Parts(negative, body[..dot], body[dot + 1..], true)
  {
    SignedTail(negative, body);
    hide FindDot, Split;
    SplitIs((if negative then "-" else "") + body, negative, body);
  }

  lemma SplitIs(value: string, negative: bool, body: string)
    requires value != "" && (value[0] == '-' <==> negative) && body == if negative then value[1..] else value
    ensures var dot := FindDot(body);
      Split(value) == if dot == |body| then Parts(negative, body, "", false)
                      else Parts(negative, body[..dot], body[dot + 1..], true)
  {
    hide FindDot;
  }

  lemma SignedTail(negative: bool, body: string)
    requires body != "" && body[0] != '-'
    ensures var value := (if negative then "-" else "") + body;
      value != "" && (value[0] == '-' <==> negative) && (if negative then value[1..] else value) == body
  {
  }

  /** Cutting a joined text gives back its parts. */
  lemma SplitOfJoin(p: Parts)
    requires AllDigits(p.whole) && p.whole != "" && AllDigits(p.fraction)
    ensures Split(Join(p)) == p.(dotted := p.fraction != "")
    ensures MatchesPattern(Join(p))
  {
    hide FindDot, AllDigits, Split;
    BodyCuts(p);
    SplitSigned(p.negative, Body(p));
    SignedBody(p);
  }

  lemma SignedBody(p: Parts)
    requires p.whole != "" && IsDigit(p.whole[0])
    ensures Join(p) == (if p.negative then "-" else "") + Body(p)
    ensures Body(p) != "" && Body(p)[0] != '-'
  {
  }

  lemma ParseOfJoin(p: Parts)
    requires AllDigits(p.whole) && p.whole != "" && AllDigits(p.fraction) && |p.fraction| <= MAX_DECIMAL_SCALE
    ensures ParseDecimal(Join(p))
            == Ok(Decimal(NatOf(p.whole + p.fraction) * (if p.negative then -1 else 1), |p.fraction|))
  {
    hide Split, Join;
    SplitOfJoin(p);
  }

  // ----- main results -----

  /** Parsing the text of a decimal gives back the identical mantissa and scale. */
  lemma ParseOfFormat(d: Decimal)
    requires d.scale <= MAX_DECIMAL_SCALE
    ensures ParseDecimal(FormatDecimal(d)) == Ok(d)
  {
    hide ParseDecimal, NatOf, DigitsOf, PadStart, Join;
    var shortest := DigitsOf(Abs(d.unscaled));
    var magnitude := PadStart(shortest, d.scale + 1);
    PadKeepsNumber(shortest, d.scale + 1);
    DigitsDenote(Abs(d.unscaled));
    var cut := |magnitude| - d.scale;
    ParseOfJoin(Parts(d.unscaled < 0, magnitude[..cut], magnitude[cut..], false));
    assert magnitude[..cut] + magnitude[cut..] == magnitude;
  }

  /** Different decimals have different texts. */
  lemma FormatIsInjective(a: Decimal, b: Decimal)
    requires a.scale <= MAX_DECIMAL_SCALE && b.scale <= MAX_DECIMAL_SCALE
    requires FormatDecimal(a) == FormatDecimal(b)
    ensures a == b
  {
    hide ParseDecimal, FormatDecimal;
    ParseOfFormat(a);
    ParseOfFormat(b);
  }

  /** A text with surplus leading zeros dropped, and the sign dropped when every digit is zero. */
  function Canonical(value: string): string
    requires MatchesPattern(value)
  {
    var p := Split(value);
    Join(Parts(p.negative && NatOf(p.whole + p.fraction) != 0, StripZeros(p.whole, 1), p.fraction, false))
  }

  /** What parsing keeps of the parts of a text. */
  lemma ParsedParts(value: string)
    requires ParseDecimal(value).Ok?
    ensures MatchesPattern(value) && var p := Split(value); var digits := p.whole + p.fraction;
      AllDigits(digits) && p.whole != ""
      && var d := ParseDecimal(value).value;
         d.scale == |p.fraction| && Abs(d.unscaled) == NatOf(digits)
         && (d.unscaled < 0 <==> p.negative && NatOf(digits) != 0)
  {
    hide Split, NatOf;
  }

  lemma FormatJoins(d: Decimal, whole: string, fraction: string)
    requires PadStart(DigitsOf(Abs(d.unscaled)), d.scale + 1) == whole + fraction && |fraction| == d.scale
    ensures FormatDecimal(d) == Join(Parts(d.unscaled < 0, whole, fraction, false))
  {
    hide PadStart, DigitsOf, Join;
    assert (whole + fraction)[..|whole|] == whole && (whole + fraction)[|whole|..] == fraction;
  }

  /** Formatting a parsed text changes nothing but surplus leading zeros and the sign of zero. */
  lemma FormatOfParse(value: string)
    requires ParseDecimal(value).Ok?
    ensures FormatDecimal(ParseDecimal(value).value) == Canonical(value)
  {
    hide ParseDecimal, FormatDecimal, MatchesPattern, Split, Join, PadStart, StripZeros, DigitsOf, NatOf, AllDigits;
    ParsedParts(value);
    var p, d := Split(value), ParseDecimal(value).value;
    PadStrips(p.whole + p.fraction, d.scale + 1);
    StripOfWhole(p.whole, p.fraction);
    FormatJoins(d, StripZeros(p.whole, 1), p.fraction);
  }
  /** A plain decimal number as written: an optional minus, digits, and a dot with more digits if there are any. */
  predicate Spells(value: string, negative: bool, whole: string, fraction: string) {
    whole != "" && AllDigits(whole) && AllDigits(fraction)
    && value == (if negative then "-" else "") + (whole + if fraction == "" then "" else "." + fraction)
  }

  /** A plain decimal number is read unless it has more than eighteen fractional digits, and as what it denotes. */
  lemma SpelledIsRead(value: string, negative: bool, whole: string, fraction: string)
    requires Spells(value, negative, whole, fraction)
    ensures ParseDecimal(value).Ok? <==> |fraction| <= 18
    ensures |fraction| <= 18 ==>
              ParseDecimal(value).value == Decimal(NatOf(whole + fraction) * (if negative then -1 else 1), |fraction|)
  {
    var p := Parts(negative, whole, fraction, false);
    SignedBody(p);
    SplitOfJoin(p);
    hide Split, NatOf, Join, AllDigits;
  }

  lemma CutAtDot(body: string)
    requires FindDot(body) < |body|
    ensures body == body[..FindDot(body)] + ("." + body[FindDot(body) + 1..])
  {
  }

  lemma SplitCovers(value: string)
    ensures var p := Split(value);
      value == (if p.negative then "-" else "") + (p.whole + if p.dotted then "." + p.fraction else "")
      && (p.dotted || p.fraction == "")
  {
    SignCovers(value);
    var body := if value != "" && value[0] == '-' then value[1..] else value;
    if FindDot(body) < |body| {
      CutAtDot(body);
    }
    hide FindDot;
  }

  lemma SignCovers(value: string)
    ensures var negative := value != "" && value[0] == '-';
      value == (if negative then "-" else "") + if negative then value[1..] else value
  {
  }

  /** Nothing but a plain decimal number is read. */
  lemma ReadIsSpelled(value: string)
    requires ParseDecimal(value).Ok?
    ensures var p := Split(value); Spells(value, p.negative, p.whole, p.fraction) && |p.fraction| <= 18
  {
    SplitCovers(value);
    hide Split, NatOf, AllDigits;
  }
}
