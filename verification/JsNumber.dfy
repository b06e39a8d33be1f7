/** JavaScript's `Number(string)` conversion (ECMAScript StringToNumber).
    A number is kept as the exact mathematical value of the literal rather
    than the nearest double; what the model does keep from the double format
    is its range, so that a literal too large in magnitude becomes an
    infinity as it does in a correctly rounding engine such as V8. For a
    literal of more than 20 significant digits ECMAScript allows an engine to
    cut at the 20th digit before rounding, so between 17976931348623158079e289
    and 2^1024 - 2^970 the result can differ between engines. */
module JsNumber {
  import opened Wrappers
  import opened JsText

  datatype Number = Finite(value: real) | NaN | Infinity(negative: bool)

  /** 2^1024 - 2^970: the least magnitude that rounds to an infinity under
      round-to-nearest-even in IEEE 754 binary64. */
  const Overflow: real := 179769313486231580793728971405303415079934132710037826936173778980444968292764750946649017977587207096330286416692887910946555547851940402630657488671505820681908902000708383676273854845817711531764475730270069855571366959622842914819860834936475292719074168444365510704342711559699508093042880177904174497792.0

  predicate InRange(x: real) {
    -Overflow < x < Overflow
  }

  /** A value JavaScript's number type can hold: finite ones within range. */
  type JsNumber = n: Number | n.Finite? ==> InRange(n.value) witness NaN

  /** The number a literal with exact value `x` denotes: `x` itself, or an
      infinity of the same sign once `x` is out of range. */
  function FromExact(x: real): (n: JsNumber)
    ensures n.Finite? <==> InRange(x)
    ensures n.Finite? ==> n.value == x
    ensures n.Infinity? ==> (n.negative <==> x < 0.0)
    ensures !n.NaN?
  {
    if InRange(x) then Finite(x) else Infinity(x < 0.0)
  }

  function Pow10(e: nat): (p: nat)
    ensures p >= 1
  {
    if e == 0 then 1 else 10 * Pow10(e - 1)
  }

  function Pow2(e: nat): (p: nat)
    ensures p >= 1
  {
    if e == 0 then 1 else 2 * Pow2(e - 1)
  }

  lemma {:induction false} Pow2Add(a: nat, b: nat)
    ensures Pow2(a + b) == Pow2(a) * Pow2(b)
  {
    if a > 0 { Pow2Add(a - 1, b); }
  }

  /** `Overflow` is the binary64 limit it is documented as: the largest finite
      double, (2^53 - 1) * 2^971, plus half a unit in its last place, 2^970. */
  lemma OverflowIsDoubleLimit()
    ensures Overflow == (Pow2(1024) - Pow2(970)) as real
  {
    assert Pow2(8) == 256;
    Pow2Add(8, 8);
    assert Pow2(16) == 65536;
    Pow2Add(16, 16);
    assert Pow2(32) == 4294967296;
    Pow2Add(32, 32);
    assert Pow2(64) == 18446744073709551616;
    Pow2Add(64, 64);
    assert Pow2(128) == 340282366920938463463374607431768211456;
    Pow2Add(128, 128);
    assert Pow2(256) == 115792089237316195423570985008687907853269984665640564039457584007913129639936;
    Pow2Add(256, 256);
    assert Pow2(512) == 13407807929942597099574024998205846127479365820592393377723561443721764030073546976801874298166903427690031858186486050853753882811946569946433649006084096;
    Pow2Add(512, 512);
    assert Pow2(1024) == 179769313486231590772930519078902473361797697894230657273430081157732675805500963132708477322407536021120113879871393357658789768814416622492847430639474124377767893424865485276302219601246094119453082952085005768838150682342462881473913110540827237163350510684586298239947245938479716304835356329624224137216;
    Pow2Add(512, 256);
    assert Pow2(768) == 1552518092300708935148979488462502555256886017116696611139052038026050952686376886330878408828646477950487730697131073206171580044114814391444287275041181139204454976020849905550265285631598444825262999193716468750892846853816057856;
    Pow2Add(768, 128);
    assert Pow2(896) == 528294531135665246352339784916516606518847326036121522127960709026673902556724859474417255887657187894674394993257128678882347559502685537250538978462939576908386683999005084168731517676426441053024232908211188404148028292751561738838396898767036476489538580897737998336;
    Pow2Add(896, 64);
    assert Pow2(960) == 9745314011399999080353382387875188310876226857595007526867906457212948690766426102465615065882010259225304916231408668183459169865203094046577987296312653419531277699956473029870789655490053648352799593479218378873685597925394874945746363615468965612827738803104277547081828589991914110976;
    Pow2Add(960, 8);
    assert Pow2(968) == 2494800386918399764570465891296048207584314075544321926878184053046514864836205082231197456865794626361678058555240619054965547485491992075923964747856039275400007091188857095646922151805453733978316695930679904991663513068901087986111069085560055196883901133594695052052948119037930012409856;
    Pow2Add(968, 2);
    assert Pow2(970) == 9979201547673599058281863565184192830337256302177287707512736212186059459344820328924789827463178505446712234220962476219862189941967968303695858991424157101600028364755428382587688607221814935913266783722719619966654052275604351944444276342240220787535604534378780208211792476151720049639424;
  }

  /** The exact value of `m` times ten to the power `e`. */
  function Scale(m: nat, e: int): real {
    if e >= 0 then (m * Pow10(e)) as real else (m as real) / (Pow10(-e) as real)
  }

  /** An optional sign followed by at least one decimal digit, and nothing
      else: the exponent of a decimal literal. */
  function ParseSignedInteger(t: string): (r: Option<int>)
    ensures r.Some? ==> t != []
  {
    var negative := t != [] && t[0] == '-';
    var digits := if t != [] && (t[0] == '-' || t[0] == '+') then t[1..] else t;
    if digits != [] && AllDigitsIn(digits, 10) then
      var v: int := DigitsValue(digits, 10);
      Some(if negative then -v else v)
    else None
  }

  /** The exact value of an unsigned decimal literal: digits with an optional
      fraction (`12`, `12.`, `12.5`, `.5`) and an optional exponent (`e3`,
      `E-3`, `e+3`); `None` when `u` is not such a literal. */
  function ParseUnsignedDecimal(u: string): (r: Option<real>)
    ensures r.Some? ==> u != [] && (IsDigit(u[0]) || u[0] == '.')
    ensures r.Some? && |u| >= 2 ==> RadixOf(u[1]) == 0
  {
    var a := DigitRun(u, 0);
    var dot := a < |u| && u[a] == '.';
    var b := if dot then DigitRun(u, a + 1) else 0;
    var fracEnd := if dot then a + 1 + b else a;
    if a == 0 && b == 0 then None
    else
      var exponent :=
        if fracEnd == |u| then Some(0)
        else if u[fracEnd] == 'e' || u[fracEnd] == 'E' then ParseSignedInteger(u[fracEnd + 1..])
        else None;
      match exponent
      case None => None
      case Some(e) =>
        var digits := u[..a] + (if dot then u[a + 1..fracEnd] else []);
        assert AllDigitsIn(digits, 10) by {
          forall k | 0 <= k < |digits| ensures IsDigit(digits[k]) {
            if k >= a { assert digits[k] == u[a + 1 + (k - a)]; }
          }
        }
        Some(Scale(DigitsValue(digits, 10), e - b))
  }

  /** The radix named by the letter after a leading `0` (`0x`, `0o`, `0b`, in
      either case), and 0 for any other character. */
  function RadixOf(c: char): nat {
    if c == 'x' || c == 'X' then 16
    else if c == 'o' || c == 'O' then 8
    else if c == 'b' || c == 'B' then 2
    else 0
  }

  /** `Number(s)` for a string `s`: the blank string is zero, then a
      hexadecimal, octal or binary integer, a signed `Infinity`, or a signed
      decimal literal; anything else is NaN. */
  function StringToNumber(s: string): (n: JsNumber)
  {
    var t := Trim(s);
    if t == [] then Finite(0.0)
    else if |t| >= 2 && t[0] == '0' && RadixOf(t[1]) > 0 then RadixLiteral(t[2..], RadixOf(t[1]))
    else SignedLiteral(t)
  }

  /** The digits after `0x`, `0o` or `0b`: an integer, never signed. */
  function RadixLiteral(digits: string, radix: nat): (n: JsNumber) {
    if digits != [] && AllDigitsIn(digits, radix)
    then FromExact(DigitsValue(digits, radix) as real)
    else NaN
  }

  /** An optional sign followed by `Infinity` or an unsigned decimal literal. */
  function SignedLiteral(t: string): (n: JsNumber)
    requires t != []
  {
    var negative := t[0] == '-';
    var u := if t[0] == '-' || t[0] == '+' then t[1..] else t;
    if u == "Infinity" then Infinity(negative)
    else match ParseUnsignedDecimal(u)
      case Some(m) => FromExact(if negative then -m else m)
      case None => NaN
  }

  /** The decimal rendering of `n`, without leading zeros. */
  function Decimal(n: nat): (s: string)
    ensures s != [] && AllDigitsIn(s, 10)
    ensures IsDigit(s[0]) && IsDigit(s[|s| - 1])
  {
    var last := ('0' as int + n % 10) as char;
    if n < 10 then [last] else Decimal(n / 10) + [last]
  }

  lemma {:induction false} DecimalValue(n: nat)
    ensures DigitsValue(Decimal(n), 10) == n
  {
    var s := Decimal(n);
    if n >= 10 {
      assert s[..|s| - 1] == Decimal(n / 10);
      DecimalValue(n / 10);
    }
  }

  /** A plain run of decimal digits is an unsigned decimal literal with the
      value the digits denote. */
  lemma DigitsParse(d: string)
    requires d != [] && AllDigitsIn(d, 10)
    ensures ParseUnsignedDecimal(d) == Some(DigitsValue(d, 10) as real)
  {
    assert DigitRun(d, 0) == |d|;
    assert d[..|d|] + [] == d;
  }

  /** Every natural number written in decimal, with any padding of spaces
      and an optional minus sign, converts back to itself, or to an infinity
      of the same sign when out of range. */
  lemma DecimalRoundTrip(lead: string, n: nat, trail: string, negative: bool)
    requires AllSpace(lead) && AllSpace(trail)
    ensures StringToNumber(lead + (if negative then "-" else "") + Decimal(n) + trail)
            == FromExact(if negative then -(n as real) else n as real)
  {
    var d := Decimal(n);
    var t := (if negative then "-" else "") + d;
    assert lead + (if negative then "-" else "") + d + trail == lead + t + trail;
    TrimPadded(lead, t, trail);
    DigitsParse(d);
    DecimalValue(n);
    SignedDecimalText(lead + t + trail, negative, d, n as real);
  }

  /** How `StringToNumber` reads a trimmed text of an optional minus sign and
      an unsigned decimal literal that starts with a digit. */
  lemma SignedDecimalText(s: string, negative: bool, d: string, m: real)
    requires d != [] && IsDigit(d[0]) && ParseUnsignedDecimal(d) == Some(m)
    requires Trim(s) == (if negative then "-" else "") + d
    ensures StringToNumber(s) == FromExact(if negative then -m else m)
  {
    var t := Trim(s);
    assert |t| >= 2 && t[0] == '0' ==> RadixOf(t[1]) == 0;
    assert StringToNumber(s) == SignedLiteral(t);
    var u := if t[0] == '-' || t[0] == '+' then t[1..] else t;
    assert u == d;
    assert u != "Infinity" by { assert u[0] != 'I'; }
  }

  /** The blank string and every string of spaces convert to zero. */
  lemma BlankIsZero(s: string)
    requires AllSpace(s)
    ensures StringToNumber(s) == Finite(0.0)
  {
    assert s + [] + [] == s;
    TrimPadded(s, [], []);
  }

  /** A string whose first non-space character can start no numeric
      literal (no digit, sign or point) is NaN, unless it is `Infinity`. */
  lemma NonNumericIsNaN(s: string)
    requires var t := Trim(s); t != [] && !IsDigit(t[0]) && t[0] !in "+-." && t != "Infinity"
    ensures StringToNumber(s) == NaN
  {
    var t := Trim(s);
    assert StringToNumber(s) == SignedLiteral(t);
  }

  /** A text that starts with an ASCII letter other than the `I` of
      `Infinity`, such as `null`, `true`, `undefined` or a district name,
      and does not end in a space, is NaN. */
  lemma WordIsNaN(w: string)
    requires w != [] && ('a' <= w[0] <= 'z' || 'A' <= w[0] <= 'Z') && w[0] != 'I'
    requires !IsSpace(w[|w| - 1])
    ensures StringToNumber(w) == NaN
  {
    assert [] + w + [] == w;
    assert !IsSpace(w[0]);
    TrimPadded([], w, []);
    assert w != "Infinity" by { assert w[0] != "Infinity"[0]; }
    assert !IsDigit(w[0]) && w[0] !in "+-.";
    NonNumericIsNaN(w);
  }

  /** `Infinity`, with or without a sign, is an infinity. */
  lemma InfinityText(negative: bool)
    ensures StringToNumber(if negative then "-Infinity" else "Infinity") == Infinity(negative)
  {
    var s := if negative then "-Infinity" else "Infinity";
    assert [] + s + [] == s;
    TrimPadded([], s, []);
    assert StringToNumber(s) == SignedLiteral(s);
    assert negative ==> s[1..] == "Infinity";
  }

  /** After trimming, `0x`, `0o` or `0b` (either case) introduces an
      unsigned integer in that radix: its digits' value, or NaN when the
      digits are missing or not all of that radix. */
  lemma RadixText(s: string, c: char, d: string)
    requires RadixOf(c) > 0 && Trim(s) == ['0', c] + d
    ensures StringToNumber(s)
            == if d != [] && AllDigitsIn(d, RadixOf(c)) then FromExact(DigitsValue(d, RadixOf(c)) as real) else NaN
  {
    var t := Trim(s);
    assert t[2..] == d;
  }

  /** A sign in front of a radix prefix makes the text NaN: only decimal
      literals take a sign. */
  lemma SignedRadixIsNaN(s: string, sign: char, c: char, d: string)
    requires sign == '-' || sign == '+'
    requires RadixOf(c) > 0 && Trim(s) == [sign, '0', c] + d
    ensures StringToNumber(s) == NaN
  {
    var t := Trim(s);
    assert t[1..] == ['0', c] + d;
    assert StringToNumber(s) == SignedLiteral(t);
    assert t[1..][0] == '0';
  }
}
