/** The records shared by the dashboard and its header: a measurement reading,
    a metric's historical node, and the plot series handed to the chart
    renderer. Also the integer-to-text formatting that template strings apply
    to numbers. */
module Types {

  datatype Option<T> = None | Some(value: T)

  datatype Result<T, E> = Ok(value: T) | Err(error: E)

  /** One timestamped reading of a metric. `at` is milliseconds since the epoch. */
  datatype Measurement = Measurement(metric: string, at: int, value: int, unit: string)

  /** One entry of the historical query's answer: a metric and its readings. */
  datatype MetricNode = MetricNode(metric: string, measurements: seq<Measurement>)

  /** The renderer-facing fields of a scatter trace: the x values (timestamps),
      the y values, the trace name, the y-axis id, the trace type and the line
      colour (None where the palette lookup yields `undefined`). */
  datatype PlotSeries = PlotSeries(
    xs: seq<int>,
    ys: seq<int>,
    name: string,
    yaxis: string,
    trace: string,
    color: Option<string>)

  predicate IsDigit(c: char) {
    '0' <= c <= '9'
  }

  function DigitChar(d: nat): (c: char)
    requires d < 10
    ensures IsDigit(c) && c as int - '0' as int == d
  {
    "0123456789"[d]
  }

  /** Decimal digits of a natural number, most significant first, no leading zero. */
  function DigitsOf(n: nat): (s: string)
    ensures |s| > 0 && forall i :: 0 <= i < |s| ==> IsDigit(s[i])
    ensures |s| > 1 ==> s[0] != '0'
    decreases n
  {
    if n < 10 then [DigitChar(n)] else DigitsOf(n / 10) + [DigitChar(n % 10)]
  }

  function DigitValue(c: char): (d: nat)
    requires IsDigit(c)
    ensures d < 10
  {
    c as int - '0' as int
  }

  /** The number a string of decimal digits denotes. */
  function DigitsValue(s: string): nat
    requires forall i :: 0 <= i < |s| ==> IsDigit(s[i])
  {
    if s == [] then 0
    else DigitsValue(s[..|s| - 1]) * 10 + DigitValue(s[|s| - 1])
  }

  /** How a template literal renders an integral number of magnitude at most
      2^53: an optional minus sign followed by the decimal digits of its
      magnitude. Above 2^53 JavaScript prints the shortest digits that read
      back to the same double, padded with zeros, and from 10^21 on it
      switches to exponent notation. */
  function NumberToString(n: int): (s: string)
    ensures |s| > 0
    ensures s[0] == '-' <==> n < 0
    ensures forall i :: (if n < 0 then 1 else 0) <= i < |s| ==> IsDigit(s[i])
  {
    if n < 0 then "-" + DigitsOf(-n) else DigitsOf(n)
  }

  /** Reading the digits back gives the number: the formatting loses nothing. */
  lemma {:induction false} DigitsRoundTrip(n: nat)
    ensures DigitsValue(DigitsOf(n)) == n
    decreases n
  {
    if n >= 10 {
      var s := DigitsOf(n);
      assert s[..|s| - 1] == DigitsOf(n / 10);
      DigitsRoundTrip(n / 10);
    }
  }

  /** Different natural numbers have different digit strings. */
  lemma DigitsInjective(m: nat, n: nat)
    requires DigitsOf(m) == DigitsOf(n)
    ensures m == n
  {
    DigitsRoundTrip(m);
    DigitsRoundTrip(n);
  }

  /** Different integers are rendered as different strings. */
  lemma NumberToStringInjective(m: int, n: int)
    requires NumberToString(m) == NumberToString(n)
    ensures m == n
  {
    if m < 0 && n < 0 {
      assert NumberToString(m)[1..] == DigitsOf(-m);
      assert NumberToString(n)[1..] == DigitsOf(-n);
      DigitsInjective(-m, -n);
    } else if 0 <= m && 0 <= n {
      DigitsInjective(m, n);
    }
  }
}
