/**
 The quantity text the Execution Agent sends to the broker
 (src/shrap/trading_floor/execution_agent.py, `_format_quantity`).

 A quantity is an exact decimal, `units / 10^scale`: the shortest decimal that reads back
 as the float, which is what the source truncates.
 */
module DecimalText {
  import opened Wrappers
  import opened Text

  datatype Decimal = Decimal(units: int, scale: nat)

  function Pow10(n: nat): (p: nat)
    ensures p > 0
  {
    if n == 0 then 1 else 10 * Pow10(n - 1)
  }

  lemma {:induction false} Pow10Sum(a: nat, b: nat)
    ensures Pow10(a + b) == Pow10(a) * Pow10(b)
  {
    if a > 0 {
      Pow10Sum(a - 1, b);
    }
  }

  // ----- digits -----

  predicate IsDigit(c: char) {
    '0' <= c <= '9'
  }

  predicate AllDigits(s: string) {
    forall k :: 0 <= k < |s| ==> IsDigit(s[k])
  }

  function DigitChar(n: nat): (c: char)
    requires n < 10
    ensures IsDigit(c) && (c as int) - ('0' as int) == n
  {
    (n + ('0' as int)) as char
  }

  /** The decimal numeral of `n`, without leading zeros. */
  function Digits(n: nat): (s: string)
    ensures s != "" && AllDigits(s)
  {
    if n < 10 then [DigitChar(n)] else Digits(n / 10) + [DigitChar(n % 10)]
  }

  /** The last `width` decimal digits of `n`. */
  function Fixed(n: nat, width: nat): (s: string)
    ensures |s| == width && AllDigits(s)
  {
    if width == 0 then "" else Fixed(n / 10, width - 1) + [DigitChar(n % 10)]
  }

  /** The number a run of digits denotes. */
  function Val(s: string): (n: nat)
    requires AllDigits(s)
  {
    if s == "" then 0 else Val(s[..|s| - 1]) * 10 + ((s[|s| - 1] as int) - ('0' as int))
  }

  lemma {:induction false} ValDigits(n: nat)
    ensures Val(Digits(n)) == n
  {
    if n >= 10 {
      ValDigits(n / 10);
      assert Digits(n)[..|Digits(n)| - 1] == Digits(n / 10);
    }
  }

  /** Numerals are injective. */
  lemma {:induction false} DigitsInjective(m: nat, n: nat)
    requires Digits(m) == Digits(n)
    ensures m == n
  {
    ValDigits(m);
    ValDigits(n);
  }

  lemma {:induction false} ValFixed(n: nat, width: nat)
    requires n < Pow10(width)
    ensures Val(Fixed(n, width)) == n
  {
    if width > 0 {
      ValFixed(n / 10, width - 1);
      assert Fixed(n, width)[..width - 1] == Fixed(n / 10, width - 1);
    }
  }

  lemma {:induction false} ValConcat(a: string, b: string)
    requires AllDigits(a) && AllDigits(b)
    ensures AllDigits(a + b) && Val(a + b) == Val(a) * Pow10(|b|) + Val(b)
  {
    if b == "" {
      assert a + b == a;
    } else {
      var front := b[..|b| - 1];
      ValConcat(a, front);
      assert (a + b)[..|a + b| - 1] == a + front;
      assert Pow10(|b|) == 10 * Pow10(|front|);
      assert Val(a) * Pow10(|b|) == Val(a) * Pow10(|front|) * 10;
    }
  }

  lemma {:induction false} ValZeros(s: string)
    requires forall k :: 0 <= k < |s| ==> s[k] == '0'
    ensures AllDigits(s) && Val(s) == 0
  {
    if s != "" {
      ValZeros(s[..|s| - 1]);
    }
  }

  /** Appending zeros to a numeral multiplies by a power of ten. */
  lemma {:induction false} ValPadded(s: string, padded: string)
    requires AllDigits(s) && |s| <= |padded| && s == padded[..|s|]
    requires forall k :: |s| <= k < |padded| ==> padded[k] == '0'
    ensures AllDigits(padded) && Val(padded) == Val(s) * Pow10(|padded| - |s|)
  {
    var zeros := padded[|s|..];
    assert padded == s + zeros;
    ValZeros(zeros);
    ValConcat(s, zeros);
  }

  // ----- formatting -----

  function Abs(n: int): nat {
    if n < 0 then -n else n
  }

  /** Magnitude of `d` in billionths, truncated toward zero (`quantize(..., ROUND_DOWN)`). */
  function Nanos(d: Decimal): nat {
    Abs(d.units) * Pow10(9) / Pow10(d.scale)
  }

  const BILLION: nat := 1_000_000_000

  function WholeDigits(nanos: nat): (s: string)
    ensures s != "" && AllDigits(s)
  {
    Digits(nanos / BILLION)
  }

  function NineDigits(nanos: nat): (s: string)
    ensures |s| == 9 && AllDigits(s)
  {
    Fixed(nanos % BILLION, 9)
  }

  /** `f"{floored:f}"`: sign, integer part, and always nine fraction digits. */
  function Plain(negative: bool, nanos: nat): string {
    (if negative then "-" else "") + WholeDigits(nanos) + "." + NineDigits(nanos)
  }

  function StripZeros(plain: string): string {
    var text := RStripChar(RStripChar(plain, '0'), '.');
    if text == "" || text == "-0" then "0" else text
  }

  /** The decimal context holds 28 significant digits; `quantize` raises beyond that. */
  const CONTEXT_LIMIT: nat := 10_000_000_000_000_000_000_000_000_000

  datatype FormatError = InvalidOperation

  function FormatQuantity(d: Decimal): (r: Result<string, FormatError>) {
    if Nanos(d) >= CONTEXT_LIMIT then Err(InvalidOperation) else Ok(StripZeros(Plain(d.units < 0, Nanos(d))))
  }

  // ----- reading it back -----

  /** Where `c` first occurs in `s` at or after `from`; the length of `s` when it does not. */
  function IndexOf(s: string, c: char, from: nat := 0): (i: nat)
    requires from <= |s|
    ensures from <= i <= |s|
    ensures i < |s| ==> s[i] == c
    ensures forall k :: from <= k < i ==> s[k] != c
    decreases |s| - from
  {
    if from == |s| || s[from] == c then from else IndexOf(s, c, from + 1)
  }

  /** Digits, optionally a point and more digits. No sign, no exponent. */
  function ReadUnsigned(body: string): (r: Option<Decimal>) {
    var point := IndexOf(body, '.');
    var whole, fraction := body[..point], if point < |body| then body[point + 1..] else "";
    if whole == "" || !AllDigits(whole) || !AllDigits(fraction) then
      None
    else
      assert AllDigits(whole + fraction);
      Some(Decimal(Val(whole + fraction), |fraction|))
  }

  function Negated(d: Option<Decimal>): Option<Decimal> {
    if d.None? then None else Some(Decimal(-d.value.units, d.value.scale))
  }

  /** A decimal string: an optional minus, then digits with at most one point. */
  function ReadDecimal(text: string): (r: Option<Decimal>) {
    if text != "" && text[0] == '-' then
      Negated(ReadUnsigned(text[1..]))
    else
      ReadUnsigned(text)
  }

  lemma {:induction false} IndexOfPoint(whole: string, rest: string)
    requires AllDigits(whole)
    ensures IndexOf(whole + "." + rest, '.') == |whole|
  {
    var s := whole + "." + rest;
    assert s[|whole|] == '.';
    assert forall k :: 0 <= k < |whole| ==> s[k] == whole[k];
  }

  lemma {:induction false} IndexOfNone(whole: string)
    requires AllDigits(whole)
    ensures IndexOf(whole, '.') == |whole|
  {
  }

  /** What the two `rstrip` calls leave of `sign + whole + "." + fraction`. */
  lemma {:induction false} Trimmed(head: string, fraction: string)
    requires head != "" && IsDigit(head[|head| - 1]) && AllDigits(fraction)
    ensures var kept := RStripChar(fraction, '0');
            RStripChar(RStripChar(head + "." + fraction, '0'), '.') ==
            if kept == "" then head else head + "." + kept
  {
    var kept := RStripChar(fraction, '0');
    var run := fraction[|kept|..];
    assert fraction == kept + run;
    if kept == "" {
      assert head + "." + fraction == (head + ".") + run;
      RStripIs(head + ".", run, '0');
      RStripIs(head, ".", '.');
    } else {
      var text := head + "." + kept;
      assert text[|text| - 1] == kept[|kept| - 1];
      assert head + "." + fraction == text + run;
      RStripIs(text, run, '0');
      assert text + "" == text;
      RStripIs(text, "", '.');
    }
  }

  /** Sign, whole digits, and a fraction only when it is not empty. */
  function Written(negative: bool, whole: string, kept: string): string {
    var body := if kept == "" then whole else whole + "." + kept;
    Signed(negative, body)
  }

  function Signed(negative: bool, body: string): string {
    if negative then "-" + body else body
  }

  function FractionDigits(nanos: nat): (s: string)
    ensures AllDigits(s) && |s| <= 9
    ensures s != "" ==> s[|s| - 1] != '0'
  {
    RStripChar(NineDigits(nanos), '0')
  }

  lemma {:induction false} StripIsWritten(negative: bool, nanos: nat)
    ensures var shown := Written(negative, WholeDigits(nanos), FractionDigits(nanos));
            StripZeros(Plain(negative, nanos)) == if shown == "-0" then "0" else shown
  {
    hide RStripChar;
    var sign := if negative then "-" else "";
    var whole, kept := WholeDigits(nanos), FractionDigits(nanos);
    var head := sign + whole;
    assert head[|head| - 1] == whole[|whole| - 1];
    Trimmed(head, NineDigits(nanos));
    assert head + "." + kept == sign + (whole + "." + kept);
    assert "" + whole == whole;
  }

  /** The digits shown denote the truncated magnitude. */
  lemma {:induction false} ShownValue(nanos: nat)
    ensures AllDigits(WholeDigits(nanos) + FractionDigits(nanos))
    ensures Val(WholeDigits(nanos) + FractionDigits(nanos)) * Pow10(9 - |FractionDigits(nanos)|) == nanos
  {
    hide Digits, Fixed;
    var whole, fraction, kept := WholeDigits(nanos), NineDigits(nanos), FractionDigits(nanos);
    NineDigitsValue(nanos);
    ValConcat(whole, kept);
    assert whole + kept == (whole + fraction)[..|whole + kept|];
    assert forall k :: |kept| <= k < 9 ==> fraction[k] == '0';
    ValPadded(whole + kept, whole + fraction);
  }

  lemma {:induction false} NineDigitsValue(nanos: nat)
    ensures AllDigits(WholeDigits(nanos) + NineDigits(nanos)) && Val(WholeDigits(nanos) + NineDigits(nanos)) == nanos
  {
    hide Digits, Fixed, Val;
    ValDigits(nanos / BILLION);
    assert Pow10(9) == BILLION;
    ValFixed(nanos % BILLION, 9);
    ValConcat(WholeDigits(nanos), NineDigits(nanos));
  }

  lemma {:induction false} ReadsUnsigned(whole: string, kept: string)
    requires whole != "" && AllDigits(whole) && AllDigits(kept)
    ensures AllDigits(whole + kept)
    ensures ReadUnsigned(Written(false, whole, kept)) == Some(Decimal(Val(whole + kept), |kept|))
  {
    if kept == "" {
      IndexOfNone(whole);
      assert whole[..|whole|] == whole == whole + kept;
    } else {
      var body := whole + "." + kept;
      IndexOfPoint(whole, kept);
      assert body[..|whole|] == whole;
      assert body[|whole| + 1..] == kept;
    }
  }

  /** Written text is read as the sign and digits it was written from. */
  lemma {:induction false} ReadsWritten(negative: bool, whole: string, kept: string)
    requires whole != "" && AllDigits(whole) && AllDigits(kept)
    ensures AllDigits(whole + kept)
    ensures var magnitude: int := Val(whole + kept);
            ReadDecimal(Written(negative, whole, kept))
            == if negative then Some(Decimal(-magnitude, |kept|)) else Some(Decimal(magnitude, |kept|))
  {
    hide ReadUnsigned;
    ReadsUnsigned(whole, kept);
    WrittenSigned(whole, kept);
    ReadsSigned(Written(false, whole, kept));
  }

  lemma {:induction false} WrittenSigned(whole: string, kept: string)
    requires whole != "" && AllDigits(whole)
    ensures Written(false, whole, kept) != "" && Written(false, whole, kept)[0] != '-'
    ensures Written(true, whole, kept) == "-" + Written(false, whole, kept)
  {
    assert Written(false, whole, kept)[0] == whole[0];
  }

  lemma {:induction false} ReadsSigned(body: string)
    requires body != "" && body[0] != '-'
    ensures ReadDecimal(body) == ReadUnsigned(body)
    ensures ReadDecimal("-" + body) == Negated(ReadUnsigned(body))
  {
    assert ("-" + body)[1..] == body;
  }

  lemma {:induction false} PlainWritten(negative: bool, whole: string, kept: string)
    requires whole != "" && AllDigits(whole) && AllDigits(kept)
    requires kept != "" ==> kept[|kept| - 1] != '0'
    ensures IsPlain(Written(negative, whole, kept))
  {
    var text := Written(negative, whole, kept);
    var head := if negative then "-" + whole else whole;
    if kept == "" {
      assert text == head;
    } else {
      assert text == head + "." + kept;
    }
  }

  /** No exponent, no sign but a leading minus, and no trailing zeros after a point. */
  predicate IsPlain(text: string) {
    && text != ""
    && (forall k :: 0 <= k < |text| ==> IsDigit(text[k]) || text[k] == '.' || (k == 0 && text[k] == '-'))
    && ('.' in text ==> text[|text| - 1] !in ['0', '.'])
  }

  /** The text sent to the broker is a plain decimal string. */
  lemma {:induction false} PlainText(d: Decimal)
    requires Nanos(d) < CONTEXT_LIMIT
    ensures FormatQuantity(d).Ok? && IsPlain(FormatQuantity(d).value)
  {
    StripIsWritten(d.units < 0, Nanos(d));
    PlainWritten(d.units < 0, WholeDigits(Nanos(d)), FractionDigits(Nanos(d)));
  }

  /** `text` is a decimal string of at most nine places whose value is `nanos` billionths. */
  predicate Denotes(text: string, negative: bool, nanos: nat) {
    match ReadDecimal(text)
    case None => false
    case Some(d) =>
      d.scale <= 9 && Abs(d.units) * Pow10(9 - d.scale) == nanos && (if negative then d.units <= 0 else d.units >= 0)
  }

  lemma {:induction false} WrittenDenotes(negative: bool, nanos: nat)
    ensures Denotes(StripZeros(Plain(negative, nanos)), negative, nanos)
  {
    hide StripZeros, Plain, ReadDecimal, WholeDigits, FractionDigits;
    StripIsWritten(negative, nanos);
    ShownValue(nanos);
    var whole, kept := WholeDigits(nanos), FractionDigits(nanos);
    ReadsWritten(negative, whole, kept);
    if Written(negative, whole, kept) == "-0" {
      assert negative by { assert Written(false, whole, kept)[0] == whole[0]; }
      MinusZero(whole, kept);
      ReadsUnsigned("0", "");
      ReadsSigned("0");
      assert whole + kept == "0" + "";
    }
  }

  lemma {:induction false} MinusZero(whole: string, kept: string)
    requires whole != "" && AllDigits(whole) && AllDigits(kept)
    requires Written(true, whole, kept) == "-0"
    ensures whole == "0" && kept == ""
  {
    var body := Written(false, whole, kept);
    assert body == Written(true, whole, kept)[1..] == "0";
    assert |body| == 1;
  }

  /** The printed quantity reads back as exactly the approved quantity truncated at nine places. */
  lemma {:induction false} ReadsBackTruncated(d: Decimal)
    requires Nanos(d) < CONTEXT_LIMIT
    ensures FormatQuantity(d).Ok? && Denotes(FormatQuantity(d).value, d.units < 0, Nanos(d))
  {
    WrittenDenotes(d.units < 0, Nanos(d));
  }

  /** Truncation never exceeds the quantity and loses less than one billionth. */
  lemma {:induction false} TruncationBounds(d: Decimal)
    requires d.units >= 0
    ensures Nanos(d) * Pow10(d.scale) <= d.units * Pow10(9) < (Nanos(d) + 1) * Pow10(d.scale)
  {
    var n, p := d.units * Pow10(9), Pow10(d.scale);
    assert n == p * (n / p) + n % p;
    assert (n / p + 1) * p == p * (n / p) + p;
  }

  /** Nothing of the quantity lies beyond its ninth place. */
  predicate NinePlaces(d: Decimal) {
    Abs(d.units) * Pow10(9) % Pow10(d.scale) == 0
  }

  /** The two decimals are one number. */
  predicate SameValue(c: Decimal, d: Decimal) {
    c.units * Pow10(d.scale) == d.units * Pow10(c.scale)
  }

  /** The text sent reads back as the quantity itself exactly when the quantity has nothing beyond its ninth place. */
  lemma {:induction false} NinePlacesExact(d: Decimal)
    requires Nanos(d) < CONTEXT_LIMIT
    ensures var back := ReadDecimal(FormatQuantity(d).value);
            back.Some? && (SameValue(back.value, d) <==> NinePlaces(d))
    ensures d.scale <= 9 ==> NinePlaces(d)
  {
    hide FormatQuantity, ReadDecimal, Pow10;
    ReadsBackTruncated(d);
    var c := ReadDecimal(FormatQuantity(d).value).value;
    Pow10Sum(9 - c.scale, c.scale);
    SameOverPowers(Abs(c.units), Abs(d.units), Pow10(d.scale), Pow10(c.scale), Pow10(9 - c.scale));
    assert Abs(c.units) * Pow10(d.scale) == Abs(d.units) * Pow10(c.scale) <==> SameValue(c, d) by {
      SignsAgree(c, d);
    }
    if d.scale <= 9 {
      Pow10Sum(9 - d.scale, d.scale);
      ShortIsNinePlaces(Abs(d.units), Pow10(9 - d.scale), Pow10(d.scale));
    }
  }

  lemma {:induction false} SignsAgree(c: Decimal, d: Decimal)
    requires if d.units < 0 then c.units <= 0 else c.units >= 0
    ensures Abs(c.units) * Pow10(d.scale) == Abs(d.units) * Pow10(c.scale) <==> SameValue(c, d)
  {
    hide Pow10;
    var p, q := Pow10(d.scale), Pow10(c.scale);
    assert (-c.units) * p == -(c.units * p) && (-d.units) * q == -(d.units * q);
  }

  lemma {:induction false} SameOverPowers(a: nat, b: nat, p: nat, q: nat, t: nat)
    requires p > 0 && t > 0 && a * t == b * (t * q) / p
    ensures a * p == b * q <==> b * (t * q) % p == 0
  {
    var n := b * (t * q);
    assert n == p * (n / p) + n % p;
    assert n == t * (b * q);
    assert p * (a * t) == t * (a * p);
    assert t * (b * q) - t * (a * p) == t * (b * q - a * p);
    assert b * q - a * p >= 1 ==> t * (b * q - a * p) > 0;
    assert b * q - a * p <= -1 ==> t * (b * q - a * p) < 0;
  }

  lemma {:induction false} ShortIsNinePlaces(units: nat, rest: nat, p: nat)
    requires p > 0
    ensures units * (rest * p) % p == 0
  {
    assert units * (rest * p) == (units * rest) * p;
    DivExact(units * rest, p);
    var n := (units * rest) * p;
    assert n == p * (n / p) + n % p;
  }

  lemma {:induction false} DivExact(k: nat, p: nat)
    requires p > 0
    ensures k * p / p == k
  {
    var q, r := k * p / p, k * p % p;
    assert p * (k - q) == r;
    assert k - q >= 1 ==> p * (k - q) >= p;
    assert k - q <= -1 ==> p * (k - q) <= -(p as int);
  }

  /** `math.floor` of a quantity, for assets the venue will not split. */
  function WholeShares(d: Decimal): int {
    d.units / Pow10(d.scale)
  }

  /** The whole-share floor never exceeds the quantity and loses less than one share. */
  lemma {:induction false} WholeShareBounds(d: Decimal)
    ensures WholeShares(d) * Pow10(d.scale) <= d.units < (WholeShares(d) + 1) * Pow10(d.scale)
  {
    var p := Pow10(d.scale);
    assert d.units == p * (d.units / p) + d.units % p;
    assert (d.units / p + 1) * p == p * (d.units / p) + p;
  }
}
