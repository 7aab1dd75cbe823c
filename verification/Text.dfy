// String operations of the Rust standard library the source leans on: trimming, decimal
// printing and parsing, substring search.
module Text {
  import opened Wrappers

  /** `char::is_whitespace`: the Unicode White_Space property. */
  predicate IsSpace(c: char) {
    || '\U{0009}' <= c <= '\U{000D}' || c == ' ' || c == '\U{0085}' || c == '\U{00A0}' || c == '\U{1680}'
    || '\U{2000}' <= c <= '\U{200A}' || c == '\U{2028}' || c == '\U{2029}' || c == '\U{202F}'
    || c == '\U{205F}' || c == '\U{3000}'
  }

  function TrimStart(s: string): string {
    if s != [] && IsSpace(s[0]) then TrimStart(s[1..]) else s
  }

  function TrimEnd(s: string): string {
    if s != [] && IsSpace(s[|s| - 1]) then TrimEnd(s[..|s| - 1]) else s
  }

  /** `str::trim`. */
  function Trim(s: string): string {
    TrimEnd(TrimStart(s))
  }

  /** `s.trim().is_empty()`. */
  predicate Blank(s: string) {
    Trim(s) == []
  }

  predicate Trimmed(s: string) {
    s != [] ==> !IsSpace(s[0]) && !IsSpace(s[|s| - 1])
  }

  lemma {:induction false} TrimStartFacts(s: string)
    ensures TrimStart(s) != [] ==> !IsSpace(TrimStart(s)[0])
    ensures |TrimStart(s)| <= |s|
  {
    if s != [] && IsSpace(s[0]) {
      TrimStartFacts(s[1..]);
    }
  }

  lemma {:induction false} TrimEndFacts(s: string)
    ensures TrimEnd(s) <= s
    ensures TrimEnd(s) != [] ==> !IsSpace(TrimEnd(s)[|TrimEnd(s)| - 1])
  {
    if s != [] && IsSpace(s[|s| - 1]) {
      TrimEndFacts(s[..|s| - 1]);
    }
  }

  /** Trimming leaves no outer whitespace, and leaves a trimmed string alone. */
  lemma TrimFacts(s: string)
    ensures Trimmed(Trim(s))
    ensures Trimmed(s) ==> Trim(s) == s
    ensures Trim(Trim(s)) == Trim(s)
    ensures |Trim(s)| <= |s|
  {
    TrimStartFacts(s);
    TrimEndFacts(TrimStart(s));
  }

  predicate AllSpace(s: string) {
    forall c | c in s :: IsSpace(c)
  }

  lemma {:induction false} LeadDropped(lead: string, s: string)
    requires AllSpace(lead)
    ensures TrimStart(lead + s) == TrimStart(s)
  {
    if lead == [] {
      assert lead + s == s;
    } else {
      assert lead[0] in lead && (lead + s)[1..] == lead[1..] + s;
      LeadDropped(lead[1..], s);
    }
  }

  lemma {:induction false} TrailDropped(s: string, trail: string)
    requires AllSpace(trail)
    ensures TrimEnd(s + trail) == TrimEnd(s)
  {
    if trail == [] {
      assert s + trail == s;
    } else {
      var n := |trail| - 1;
      assert trail[n] in trail && (s + trail)[..|s| + n] == s + trail[..n];
      TrailDropped(s, trail[..n]);
    }
  }

  lemma {:induction false} TrailKept(s: string, trail: string)
    requires AllSpace(trail)
    ensures TrimEnd(TrimStart(s + trail)) == TrimEnd(TrimStart(s))
  {
    if s == [] {
      LeadDropped(trail, []);
      assert s + trail == trail + [];
    } else if IsSpace(s[0]) {
      assert (s + trail)[1..] == s[1..] + trail;
      TrailKept(s[1..], trail);
    } else {
      TrailDropped(s, trail);
    }
  }

  /** Whitespace around a text is trimmed away, however much there is. */
  lemma TrimPadding(lead: string, s: string, trail: string)
    requires AllSpace(lead) && AllSpace(trail)
    ensures Trim(lead + s + trail) == Trim(s)
  {
    assert lead + s + trail == lead + (s + trail);
    LeadDropped(lead, s + trail);
    TrailKept(s, trail);
  }

  function UpperChar(c: char): char {
    if 'a' <= c <= 'z' then (c as int - 32) as char else c
  }

  /** ASCII letters in capitals. */
  function Upper(s: string): (r: string)
    ensures |r| == |s|
  {
    seq(|s|, i requires 0 <= i < |s| => UpperChar(s[i]))
  }

  lemma {:induction false} UpperStart(s: string)
    ensures TrimStart(Upper(s)) == Upper(TrimStart(s))
  {
    if s != [] {
      assert Upper(s)[1..] == Upper(s[1..]);
      UpperStart(s[1..]);
    }
  }

  lemma {:induction false} UpperEnd(s: string)
    ensures TrimEnd(Upper(s)) == Upper(TrimEnd(s))
  {
    if s != [] {
      assert Upper(s)[..|s| - 1] == Upper(s[..|s| - 1]);
      UpperEnd(s[..|s| - 1]);
    }
  }

  /** Capitals trim like the text they come from. */
  lemma UpperTrims(s: string)
    ensures Trim(Upper(s)) == Upper(Trim(s))
  {
    UpperStart(s);
    UpperEnd(TrimStart(s));
  }

  /** `str::contains`. */
  predicate HasSubstring(s: string, needle: string) {
    exists i | 0 <= i <= |s| :: StartsWith(s[i..], needle)
  }

  predicate StartsWith(s: string, prefix: string) {
    prefix <= s
  }

  // -------------------------------------------------------------------------
  // Decimal digits
  // -------------------------------------------------------------------------

  predicate IsDigit(c: char) {
    '0' <= c <= '9'
  }

  predicate AllDigits(s: string) {
    forall c | c in s :: IsDigit(c)
  }

  function DigitValue(c: char): nat
    requires IsDigit(c)
  {
    c as int - '0' as int
  }

  function DigitChar(d: nat): (c: char)
    requires d < 10
    ensures IsDigit(c) && DigitValue(c) == d
  {
    ('0' as int + d) as char
  }

  function NatOf(s: string): nat
    requires AllDigits(s)
  {
    if s == [] then 0 else 10 * NatOf(s[..|s| - 1]) + DigitValue(s[|s| - 1])
  }

  function DigitsOf(n: nat): (s: string)
    ensures AllDigits(s) && s != [] && NatOf(s) == n
  {
    if n < 10 then [DigitChar(n)]
    else
      var s := DigitsOf(n / 10) + [DigitChar(n % 10)];
      assert s[..|s| - 1] == DigitsOf(n / 10);
      s
  }

  /** Left-pads with zeros to at least `width` digits. */
  function Padded(s: string, width: nat): (r: string)
    requires AllDigits(s)
    ensures AllDigits(r) && |r| >= width && |r| >= |s| && NatOf(r) == NatOf(s)
    decreases width - |s|
  {
    if |s| >= width then s
    else
      LeadingZero(s);
      Padded("0" + s, width)
  }

  lemma {:induction false} LeadingZero(s: string)
    requires AllDigits(s)
    ensures AllDigits("0" + s) && NatOf("0" + s) == NatOf(s)
  {
    var t := "0" + s;
    if s == [] {
      assert t[..|t| - 1] == [];
    } else {
      LeadingZero(s[..|s| - 1]);
      assert t[..|t| - 1] == "0" + s[..|s| - 1];
    }
  }

  // -------------------------------------------------------------------------
  // Machine integers
  // -------------------------------------------------------------------------

  const I32_MAX: int := 0x7fff_ffff
  const I64_MIN: int := -0x8000_0000_0000_0000
  const I64_MAX: int := 0x7fff_ffff_ffff_ffff

  predicate IsI64(i: int) {
    I64_MIN <= i <= I64_MAX
  }

  /** `as i64` on an integral value: saturates. */
  function ClampI64(i: int): (r: int)
    ensures IsI64(r)
    ensures IsI64(i) <==> r == i
  {
    if i < I64_MIN then I64_MIN else if i > I64_MAX then I64_MAX else i
  }

  /** Splits off an optional leading sign; `true` for a minus. */
  function Unsigned(s: string): (bool, string) {
    if s != [] && (s[0] == '-' || s[0] == '+') then (s[0] == '-', s[1..]) else (false, s)
  }

  /** `str::parse::<i64>`. */
  function ParseI64(s: string): (r: Option<int>)
    ensures r.Some? ==> IsI64(r.value)
  {
    var (minus, body) := Unsigned(s);
    if body == [] || !AllDigits(body) then None
    else
      var i: int := if minus then -(NatOf(body) as int) else NatOf(body);
      if IsI64(i) then Some(i) else None
  }

  // -------------------------------------------------------------------------
  // Finite decimals, the model of `f64`
  // -------------------------------------------------------------------------

  /** `units / 10^scale`. A finite `f64` is represented by its shortest decimal, which is
      what Rust prints and what parsing that text gives back. */
  datatype RawDecimal = Decimal(units: int, scale: nat)

  predicate Shortest(d: RawDecimal) {
    d.scale > 0 ==> d.units % 10 != 0
  }

  type Decimal = d: RawDecimal | Shortest(d) witness Decimal(0, 0)

  function Normal(units: int, scale: nat): Decimal
    decreases scale
  {
    if scale > 0 && units % 10 == 0 then Normal(units / 10, scale - 1) else Decimal(units, scale)
  }

  function Pow10(n: nat): (p: nat)
    ensures p > 0
  {
    if n == 0 then 1 else 10 * Pow10(n - 1)
  }

  function RealOf(d: Decimal): real {
    d.units as real / Pow10(d.scale) as real
  }

  lemma WholeReal(i: int)
    ensures RealOf(Decimal(i, 0)) == i as real
  {
    assert Pow10(0) == 1;
  }

  /** `n.fract() == 0.0`. */
  predicate IsWhole(d: Decimal) {
    d.scale == 0
  }

  /** The whole part of a decimal, towards zero. */
  function Whole(d: Decimal): int {
    if d.units < 0 then -(-d.units / Pow10(d.scale)) else d.units / Pow10(d.scale)
  }

  /** `n as i64`: drops the fraction towards zero, then saturates. */
  function ToI64(d: Decimal): (i: int)
    ensures IsI64(i)
  {
    ClampI64(Whole(d))
  }

  lemma DividedWithin(n: nat, p: nat) returns (q: nat)
    requires p > 0
    ensures q == n / p && q * p <= n < (q + 1) * p && (q > 0 ==> n > 0)
  {
    q := n / p;
    var r := n % p;
    assert n == q * p + r;
    assert (q + 1) * p == q * p + p;
  }

  /** Within 64 bits the cast keeps the sign and drops less than one. */
  lemma ToI64Truncates(d: Decimal)
    requires IsI64(Whole(d))
    ensures Magnitude(ToI64(d)) * Pow10(d.scale) <= Magnitude(d.units) < (Magnitude(ToI64(d)) + 1) * Pow10(d.scale)
    ensures ToI64(d) > 0 ==> d.units > 0
    ensures ToI64(d) < 0 ==> d.units < 0
  {
    var q := DividedWithin(Magnitude(d.units), Pow10(d.scale));
    assert if d.units < 0 then Whole(d) + q == 0 else Whole(d) == q;
    assert Magnitude(ToI64(d)) == q;
  }

  function Sign(minus: bool): string {
    if minus then "-" else ""
  }

  function Magnitude(i: int): nat {
    if i < 0 then -i else i
  }

  /** The digits of `n / 10^scale`, with at least one before the point. */
  function DecimalBody(n: nat, scale: nat): string {
    if scale == 0 then DigitsOf(n)
    else
      var digits := Padded(DigitsOf(n), scale + 1);
      var cut := |digits| - scale;
      digits[..cut] + "." + digits[cut..]
  }

  /** `f64::to_string`. */
  function DecimalText(d: Decimal): string {
    Sign(d.units < 0) + DecimalBody(Magnitude(d.units), d.scale)
  }

  function IndexOf(s: string, c: char): (i: nat)
    ensures i <= |s| && c !in s[..i] && (i < |s| ==> s[i] == c)
  {
    if s == [] || s[0] == c then 0
    else
      var i := 1 + IndexOf(s[1..], c);
      assert s[..i] == [s[0]] + s[1..][..i - 1];
      i
  }

  function ParseBody(body: string): Option<(nat, nat)> {
    var dot := IndexOf(body, '.');
    var whole := body[..dot];
    var fraction := if dot < |body| then body[dot + 1..] else "";
    if AllDigits(whole) && AllDigits(fraction) && whole + fraction != [] then
      Some((NatOf(whole + fraction), |fraction|))
    else None
  }

  function Signed(minus: bool, n: int): int {
    if minus then -n else n
  }

  /** `str::parse::<f64>` on plain decimal notation. */
  function ParseDecimal(s: string): Option<Decimal> {
    var (minus, body) := Unsigned(s);
    var parsed := ParseBody(body);
    if parsed.None? then None else Some(Normal(Signed(minus, parsed.value.0), parsed.value.1))
  }

  lemma IndexIs(s: string, c: char, i: nat)
    requires i <= |s| && c !in s[..i] && (i < |s| ==> s[i] == c)
    ensures IndexOf(s, c) == i
  {
  }

  lemma BodyParses(n: nat, scale: nat)
    ensures ParseBody(DecimalBody(n, scale)) == Some((n, scale))
  {
    assert !IsDigit('.');
    var body := DecimalBody(n, scale);
    if scale == 0 {
      assert body[..|body|] == body;
      IndexIs(body, '.', |body|);
      assert body + "" == body;
    } else {
      var digits := Padded(DigitsOf(n), scale + 1);
      var cut := |digits| - scale;
      assert body[..cut] == digits[..cut] && body[cut + 1..] == digits[cut..];
      IndexIs(body, '.', cut);
      assert digits[..cut] + digits[cut..] == digits;
    }
  }

  lemma BodyEnds(n: nat, scale: nat)
    ensures var body := DecimalBody(n, scale); body != [] && IsDigit(body[0]) && IsDigit(body[|body| - 1])
  {
  }

  lemma SignSplits(minus: bool, body: string)
    requires body != [] && IsDigit(body[0])
    ensures Unsigned(Sign(minus) + body) == (minus, body)
  {
    if minus {
      assert (Sign(minus) + body)[1..] == body;
    } else {
      assert Sign(minus) + body == body;
    }
  }

  /** Printing a decimal and parsing the text gives the decimal back. */
  lemma DecimalRoundTrip(d: Decimal)
    ensures ParseDecimal(DecimalText(d)) == Some(d)
  {
    var n := Magnitude(d.units);
    BodyEnds(n, d.scale);
    SignSplits(d.units < 0, DecimalBody(n, d.scale));
    BodyParses(n, d.scale);
  }

  lemma UnsignedBody(minus: bool, body: string)
    requires body != [] && body[0] != '-' && body[0] != '+'
    ensures Unsigned(Sign(minus) + body) == (minus, body)
  {
    if minus {
      assert (Sign(minus) + body)[1..] == body;
    } else {
      assert Sign(minus) + body == body;
    }
  }

  lemma PointedParses(whole: string, fraction: string)
    requires AllDigits(whole) && AllDigits(fraction) && whole + fraction != []
    ensures ParseBody(whole + "." + fraction) == Some((NatOf(whole + fraction), |fraction|))
  {
    var body := whole + "." + fraction;
    assert !IsDigit('.') && body[..|whole|] == whole && body[|whole| + 1..] == fraction;
    IndexIs(body, '.', |whole|);
  }

  function Pointed(minus: bool, whole: string, fraction: string): string {
    Sign(minus) + (whole + "." + fraction)
  }

  lemma PointedText(minus: bool, whole: string, fraction: string)
    requires AllDigits(whole) && AllDigits(fraction) && whole + fraction != []
    ensures ParseDecimal(Pointed(minus, whole, fraction)) == Some(Normal(Signed(minus, NatOf(whole + fraction)), |fraction|))
  {
    assert whole != [] ==> whole[0] in whole;
    PointedParses(whole, fraction);
    UnsignedBody(minus, whole + "." + fraction);
  }

  lemma TenTimes(short: string)
    requires AllDigits(short)
    ensures AllDigits(short + "0") && NatOf(short + "0") == 10 * NatOf(short)
  {
    assert (short + "0")[..|short|] == short;
  }

  lemma NormalShifts(minus: bool, n: nat, scale: nat)
    ensures Normal(Signed(minus, 10 * n), scale + 1) == Normal(Signed(minus, n), scale)
  {
    var units := Signed(minus, n);
    assert Signed(minus, 10 * n) == 10 * units && (10 * units) % 10 == 0 && (10 * units) / 10 == units;
  }

  /** A trailing zero after the point never changes the number read. */
  lemma TrailingZero(minus: bool, whole: string, fraction: string)
    requires AllDigits(whole) && AllDigits(fraction) && whole + fraction != []
    ensures ParseDecimal(Pointed(minus, whole, fraction + "0")) == ParseDecimal(Pointed(minus, whole, fraction))
  {
    var (digits, longer) := (whole + fraction, whole + (fraction + "0"));
    assert longer == digits + "0";
    TenTimes(digits);
    var (n, m) := (NatOf(digits), NatOf(longer));
    calc {
      ParseDecimal(Pointed(minus, whole, fraction + "0"));
      { PointedText(minus, whole, fraction + "0"); }
      Some(Normal(Signed(minus, m), |fraction| + 1));
      { assert m == 10 * n; NormalShifts(minus, n, |fraction|); }
      Some(Normal(Signed(minus, n), |fraction|));
      { PointedText(minus, whole, fraction); }
      ParseDecimal(Pointed(minus, whole, fraction));
    }
  }

  /** Nor does a point with nothing behind it. */
  lemma BarePoint(minus: bool, whole: string)
    requires AllDigits(whole) && whole != []
    ensures ParseDecimal(Pointed(minus, whole, "")) == ParseDecimal(Sign(minus) + whole)
  {
    assert whole[0] in whole && !IsDigit('.') && whole[..|whole|] == whole && whole + "" == whole;
    IndexIs(whole, '.', |whole|);
    PointedParses(whole, "");
    UnsignedBody(minus, whole);
    UnsignedBody(minus, whole + "." + "");
  }

  lemma NumeralsAreNotSpace(c: char)
    requires IsDigit(c) || c == '-'
    ensures !IsSpace(c)
  {
  }

  /** Printed numbers carry no whitespace, so trimming leaves them alone. */
  lemma NumbersAreTrimmed(d: Decimal)
    ensures DecimalText(d) != [] && Trim(DecimalText(d)) == DecimalText(d)
  {
    var body := DecimalBody(Magnitude(d.units), d.scale);
    var text := DecimalText(d);
    BodyEnds(Magnitude(d.units), d.scale);
    assert text[|text| - 1] == body[|body| - 1];
    assert text[0] == if d.units < 0 then '-' else body[0];
    NumeralsAreNotSpace(text[0]);
    NumeralsAreNotSpace(text[|text| - 1]);
    TrimFacts(text);
  }
}
