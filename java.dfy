/** The pieces of the Java runtime that the plugin's messages and command
    parameters depend on: nullable references, Integer.toString, string
    concatenation of a null reference, AbstractCollection.toString,
    String.replace of a one-character target, and SimpleDateFormat's
    "yyyy-MM-dd" pattern. */
module Java {

  /** A Java reference that may be null. */
  datatype Option<+T> = None | Some(value: T)

  predicate IsDigit(c: char) {
    '0' <= c <= '9'
  }

  predicate AllDigits(s: string) {
    forall i :: 0 <= i < |s| ==> IsDigit(s[i])
  }

  function DigitChar(d: nat): (c: char)
    requires d < 10
    ensures IsDigit(c) && c as int - '0' as int == d
  {
    ('0' as int + d) as char
  }

  /** Integer.toString of a non-negative value: its decimal digits, no sign
      and no leading zero. */
  function NatToDecimal(n: nat): (s: string)
    ensures 1 <= |s|
    ensures AllDigits(s)
    ensures n < 10 <==> |s| == 1
    ensures s[0] == '0' <==> n == 0
    decreases n
  {
    if n < 10 then [DigitChar(n)] else NatToDecimal(n / 10) + [DigitChar(n % 10)]
  }

  /** Integer.toString of any int: a '-' in front of the digits of a
      negative value. */
  function IntToDecimal(n: int): (s: string)
    ensures n < 0 <==> (|s| > 0 && s[0] == '-')
    ensures n >= 0 ==> AllDigits(s)
  {
    if n < 0 then "-" + NatToDecimal(-n) else NatToDecimal(n)
  }

  /** The digits of an int's text read back as its magnitude: all of the
      text for a non-negative value, the text after the '-' for a negative
      one. */
  lemma IntToDecimalRoundTrip(n: int)
    ensures var s := IntToDecimal(n);
      && (n >= 0 ==> DecimalValue(s) == n)
      && (n < 0 ==> AllDigits(s[1..]) && DecimalValue(s[1..]) == -n)
  {
    if n < 0 {
      var digits := NatToDecimal(-n);
      assert IntToDecimal(n) == "-" + digits;
      assert ("-" + digits)[1..] == digits;
      DecimalRoundTrip(-n);
    } else {
      DecimalRoundTrip(n);
    }
  }

  /** The value a string of decimal digits denotes (leading zeros allowed). */
  function DecimalValue(s: string): nat
    requires AllDigits(s)
  {
    if s == [] then 0
    else DecimalValue(s[..|s| - 1]) * 10 + (s[|s| - 1] as int - '0' as int)
  }

  lemma {:induction false} DecimalRoundTrip(n: nat)
    ensures DecimalValue(NatToDecimal(n)) == n
    decreases n
  {
    var s := NatToDecimal(n);
    if n >= 10 {
      DecimalRoundTrip(n / 10);
      assert s[..|s| - 1] == NatToDecimal(n / 10);
    }
  }

  function Pow10(k: nat): (p: nat)
    ensures p >= 1
  {
    if k == 0 then 1 else 10 * Pow10(k - 1)
  }

  lemma {:induction false} DecimalLength(n: nat, k: nat)
    requires 1 <= k && n < Pow10(k)
    ensures |NatToDecimal(n)| <= k
    decreases k
  {
    if n >= 10 {
      assert k >= 2;
      DecimalLength(n / 10, k - 1);
    }
  }

  function Zeros(k: nat): (s: string)
    ensures |s| == k && AllDigits(s)
    ensures forall i :: 0 <= i < k ==> s[i] == '0'
  {
    if k == 0 then [] else "0" + Zeros(k - 1)
  }

  lemma {:induction false} LeadingZerosIgnored(k: nat, s: string)
    requires AllDigits(s)
    ensures AllDigits(Zeros(k) + s)
    ensures DecimalValue(Zeros(k) + s) == DecimalValue(s)
    decreases |s|
  {
    var z := Zeros(k) + s;
    if s == [] {
      assert z == Zeros(k);
      ZerosValue(k);
    } else {
      assert z[..|z| - 1] == Zeros(k) + s[..|s| - 1];
      LeadingZerosIgnored(k, s[..|s| - 1]);
    }
  }

  lemma {:induction false} ZerosValue(k: nat)
    ensures DecimalValue(Zeros(k)) == 0
    decreases k
  {
    if k > 0 {
      var z := Zeros(k);
      var front, shorter := z[..k - 1], Zeros(k - 1);
      forall i | 0 <= i < k - 1
        ensures front[i] == shorter[i]
      {
      }
      assert front == shorter;
      ZerosValue(k - 1);
    }
  }

  /** The zero padding SimpleDateFormat applies to a numeric field written
      with `width` pattern letters. */
  function PadDecimal(n: nat, width: nat): (s: string)
    ensures AllDigits(s)
    ensures DecimalValue(s) == n
    ensures n < Pow10(width) && width >= 1 ==> |s| == width
  {
    var digits := NatToDecimal(n);
    var pad: nat := if |digits| >= width then 0 else width - |digits|;
    PadFacts(n, width);
    Zeros(pad) + digits
  }

  lemma PadFacts(n: nat, width: nat)
    ensures var digits := NatToDecimal(n);
      var pad: nat := if |digits| >= width then 0 else width - |digits|;
      && AllDigits(Zeros(pad) + digits)
      && DecimalValue(Zeros(pad) + digits) == n
      && (n < Pow10(width) && width >= 1 ==> |Zeros(pad) + digits| == width)
  {
    var digits := NatToDecimal(n);
    var pad: nat := if |digits| >= width then 0 else width - |digits|;
    DecimalRoundTrip(n);
    LeadingZerosIgnored(pad, digits);
    if width >= 1 && n < Pow10(width) {
      DecimalLength(n, width);
    }
  }

  /** A calendar date as the host's Calendar reports it (month 1..12). */
  datatype Date = Date(year: nat, month: nat, day: nat)

  /** SimpleDateFormat("yyyy-MM-dd").format of a date: for a four-digit
      year, the shape yyyy-MM-dd, each field reading back as the date's own
      year, month and day. */
  function FormatDate(d: Date): (s: string)
    ensures d.year < 10000 && d.month <= 12 && d.day <= 31 ==>
      && |s| == 10 && s[4] == '-' && s[7] == '-'
      && AllDigits(s[..4]) && AllDigits(s[5..7]) && AllDigits(s[8..])
      && DecimalValue(s[..4]) == d.year
      && DecimalValue(s[5..7]) == d.month
      && DecimalValue(s[8..]) == d.day
  {
    var y, m, dd := PadDecimal(d.year, 4), PadDecimal(d.month, 2), PadDecimal(d.day, 2);
    var s := y + "-" + m + "-" + dd;
    assert |y| == 4 && |m| == 2 ==> s[..4] == y && s[5..7] == m && s[8..] == dd;
    s
  }

  /** What string concatenation makes of a possibly null String. */
  function NullToString(s: Option<string>): (r: string)
    ensures s.Some? ==> r == s.value
    ensures s.None? ==> r == "null"
  {
    match s
    case None => "null"
    case Some(v) => v
  }

  /** The elements joined with a separator. */
  function Join(xs: seq<string>, sep: string): string {
    if xs == [] then ""
    else if |xs| == 1 then xs[0]
    else xs[0] + sep + Join(xs[1..], sep)
  }

  /** Appending one more element to a non-empty list appends the separator
      and that element to the joined text; a one-element list joins to the
      element itself. Together with the empty case this pins down Join from
      the back, where its definition works from the front. */
  lemma {:induction false} JoinAppend(xs: seq<string>, x: string, sep: string)
    ensures xs == [] ==> Join(xs + [x], sep) == x
    ensures xs != [] ==> Join(xs + [x], sep) == Join(xs, sep) + sep + x
    decreases |xs|
  {
    if |xs| == 1 {
      assert xs + [x] == [xs[0], x];
      assert (xs + [x])[1..] == [x];
    } else if |xs| > 1 {
      assert (xs + [x])[1..] == xs[1..] + [x];
      JoinAppend(xs[1..], x, sep);
    } else {
      assert xs + [x] == [x];
    }
  }

  /** AbstractCollection.toString of a list of strings: "[a, b, c]". */
  function ListToString(xs: seq<string>): string {
    "[" + Join(xs, ", ") + "]"
  }

  /** String.replace(c, "") for a one-character target: every occurrence of
      `c` removed. */
  function RemoveChar(s: string, c: char): (r: string)
    ensures |r| <= |s|
    ensures c !in r
    ensures forall x :: x in r ==> x in s
  {
    if s == [] then ""
    else (if s[0] == c then "" else [s[0]]) + RemoveChar(s[1..], c)
  }

  lemma {:induction false} RemoveCharAppend(a: string, b: string, c: char)
    ensures RemoveChar(a + b, c) == RemoveChar(a, c) + RemoveChar(b, c)
    decreases |a|
  {
    if a != [] {
      assert (a + b)[1..] == a[1..] + b;
      RemoveCharAppend(a[1..], b, c);
    } else {
      assert a + b == b;
    }
  }

  lemma {:induction false} RemoveAbsentChar(s: string, c: char)
    requires c !in s
    ensures RemoveChar(s, c) == s
    decreases |s|
  {
    if s != [] {
      RemoveAbsentChar(s[1..], c);
    }
  }

  lemma {:induction false} JoinAvoids(xs: seq<string>, sep: string, c: char)
    requires c !in sep
    requires forall i :: 0 <= i < |xs| ==> c !in xs[i]
    ensures c !in Join(xs, sep)
    decreases |xs|
  {
    if |xs| > 1 {
      JoinAvoids(xs[1..], sep, c);
    }
  }

  /** Stripping the brackets from a list's toString leaves the names joined
      with ", ", provided no name contains a bracket. */
  lemma StripBrackets(xs: seq<string>)
    requires forall i :: 0 <= i < |xs| ==> '[' !in xs[i] && ']' !in xs[i]
    ensures RemoveChar(RemoveChar(ListToString(xs), '['), ']') == Join(xs, ", ")
  {
    var j := Join(xs, ", ");
    JoinAvoids(xs, ", ", '[');
    JoinAvoids(xs, ", ", ']');
    StripAround(j);
  }

  lemma StripAround(j: string)
    requires '[' !in j && ']' !in j
    ensures RemoveChar(RemoveChar("[" + j + "]", '['), ']') == j
  {
    assert "[" + j + "]" == "[" + (j + "]");
    StripOpening(j + "]");
    StripClosing(j);
  }

  lemma StripOpening(t: string)
    requires '[' !in t
    ensures RemoveChar("[" + t, '[') == t
  {
    RemoveCharAppend("[", t, '[');
    RemoveAbsentChar(t, '[');
  }

  lemma StripClosing(j: string)
    requires ']' !in j
    ensures RemoveChar(j + "]", ']') == j
  {
    RemoveCharAppend(j, "]", ']');
    RemoveAbsentChar(j, ']');
  }
}
