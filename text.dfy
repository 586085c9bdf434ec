/**
 * String building that the command line tool does with f-strings: decimal
 * rendering of integers (`str(n)`), fixed-width date digits (`%Y%m%d`), the
 * output line `<counter>;<text>` and handle identifiers `<prefix>/<postfix>`.
 * Each rendering comes with the parser that undoes it.
 */
module Text {
  import opened Wrappers

  predicate IsDigit(c: char) {
    '0' <= c <= '9'
  }

  predicate AllDigits(s: string) {
    forall i :: 0 <= i < |s| ==> IsDigit(s[i])
  }

  function DigitChar(d: int): (c: char)
    requires 0 <= d < 10
  {
    ('0' as int + d) as char
  }

  function DigitValue(c: char): (d: int)
    requires IsDigit(c)
  {
    c as int - '0' as int
  }

  /** Python's `str(n)` for a non-negative integer: decimal digits, no leading zero. */
  function NatToString(n: nat): (s: string)
    ensures |s| >= 1 && AllDigits(s)
    ensures |s| > 1 ==> s[0] != '0'
    decreases n
  {
    if n < 10 then [DigitChar(n)] else NatToString(n / 10) + [DigitChar(n % 10)]
  }

  /** Python's `str(n)` for any integer: a minus sign before the magnitude of a negative value. */
  function IntToString(n: int): (s: string)
    ensures |s| >= 1
    ensures s[0] == '-' <==> n < 0
  {
    if n < 0 then "-" + NatToString(-n) else NatToString(n)
  }

  /** The value of a run of decimal digits (leading zeros allowed). */
  function ParseNat(s: string): (n: nat)
    requires AllDigits(s)
    decreases |s|
  {
    if s == [] then 0 else ParseNat(s[..|s| - 1]) * 10 + DigitValue(s[|s| - 1])
  }

  /** Reads back what IntToString writes: an optional minus sign and at least one digit. */
  function ParseInt(s: string): (r: Option<int>)
  {
    if |s| >= 2 && s[0] == '-' && AllDigits(s[1..]) then Some(0 - ParseNat(s[1..]) as int)
    else if |s| >= 1 && AllDigits(s) then Some(ParseNat(s))
    else None
  }

  lemma {:induction false} NatToStringRoundTrip(n: nat)
    ensures ParseNat(NatToString(n)) == n
    decreases n
  {
    if n >= 10 {
      var s := NatToString(n);
      assert s[..|s| - 1] == NatToString(n / 10);
      NatToStringRoundTrip(n / 10);
    }
  }

  /** Rendering an integer and parsing it back gives the integer, for negative values too. */
  lemma IntToStringRoundTrip(n: int)
    ensures ParseInt(IntToString(n)) == Some(n)
  {
    var s := IntToString(n);
    if n < 0 {
      var d := NatToString(-n);
      assert s[1..] == d;
      NatToStringRoundTrip(-n);
    } else {
      assert IsDigit(s[0]);
      NatToStringRoundTrip(n);
    }
  }

  /** A rendered integer holds neither the field separator, a line break nor a query separator. */
  lemma IntToStringPlain(n: int)
    ensures ';' !in IntToString(n) && '\n' !in IntToString(n) && '&' !in IntToString(n)
  {
    var s := IntToString(n);
    var d := NatToString(if n < 0 then -n else n);
    assert forall i :: 0 <= i < |d| ==> IsDigit(d[i]);
    assert forall i :: 0 <= i < |s| ==> s[i] == '-' || IsDigit(s[i]);
  }

  function Pow10(w: nat): (p: nat)
    ensures p >= 1
  {
    if w == 0 then 1 else 10 * Pow10(w - 1)
  }

  /** `n` written with exactly `w` digits, zero-padded on the left, as `%m` and `%d` do. */
  function PadDigits(n: nat, w: nat): (s: string)
    requires n < Pow10(w)
    ensures |s| == w && AllDigits(s)
    decreases w
  {
    if w == 0 then [] else PadDigits(n / 10, w - 1) + [DigitChar(n % 10)]
  }

  lemma {:induction false} PadDigitsRoundTrip(n: nat, w: nat)
    requires n < Pow10(w)
    ensures ParseNat(PadDigits(n, w)) == n
    decreases w
  {
    if w > 0 {
      var s := PadDigits(n, w);
      assert s[..|s| - 1] == PadDigits(n / 10, w - 1);
      PadDigitsRoundTrip(n / 10, w - 1);
    }
  }

  /** The index of the first `c` in `s`, or `|s|` when there is none. */
  function FirstIndex(s: string, c: char): (i: nat)
    ensures i <= |s|
    ensures i < |s| ==> s[i] == c
    ensures forall j :: 0 <= j < i ==> s[j] != c
    decreases |s|
  {
    if s == [] then 0 else if s[0] == c then 0 else 1 + FirstIndex(s[1..], c)
  }

  lemma FirstIndexAfter(a: string, c: char, b: string)
    requires c !in a
    ensures FirstIndex(a + [c] + b, c) == |a|
  {
    assert (a + [c] + b)[|a|] == c;
  }

  /** The output line written by the drivers: `f'{counter};{text}\n'`. */
  function OutputLine(counter: int, text: string): (line: string)
    ensures |line| >= 3 && line[|line| - 1] == '\n'
  {
    IntToString(counter) + ";" + text + "\n"
  }

  /** Splits an output line at its first `;`, reading the counter before it. */
  function SplitOutputLine(line: string): (r: Option<(int, string)>)
  {
    if |line| == 0 || line[|line| - 1] != '\n' then None
    else
      var body := line[..|line| - 1];
      var i := FirstIndex(body, ';');
      if i == |body| then None
      else match ParseInt(body[..i])
        case Some(n) => Some((n, body[i + 1..]))
        case None => None
  }

  /** Stripping the counter from an output line gives back the handle text, whatever `;` it holds. */
  lemma OutputLineRoundTrip(counter: int, text: string)
    ensures SplitOutputLine(OutputLine(counter, text)) == Some((counter, text))
  {
    var line := OutputLine(counter, text);
    var c := IntToString(counter);
    IntToStringRoundTrip(counter);
    IntToStringPlain(counter);
    var body := line[..|line| - 1];
    assert body == c + [';'] + text;
    FirstIndexAfter(c, ';', text);
    assert body[..|c|] == c;
    assert body[|c| + 1..] == text;
  }

  /** A handle identifier: `prefix/postfix`. */
  function HandleId(prefix: string, postfix: string): (h: string)
    ensures |h| == |prefix| + 1 + |postfix| && h[|prefix|] == '/'
  {
    prefix + "/" + postfix
  }

  /** Splits a handle identifier at its first `/`. */
  function SplitHandle(handle: string): (r: Option<(string, string)>)
  {
    var i := FirstIndex(handle, '/');
    if i == |handle| then None else Some((handle[..i], handle[i + 1..]))
  }

  /** A prefix such as `21.12102` holds no `/`, so the identifier splits back into its two parts. */
  lemma HandleIdRoundTrip(prefix: string, postfix: string)
    requires '/' !in prefix
    ensures SplitHandle(HandleId(prefix, postfix)) == Some((prefix, postfix))
  {
    var h := HandleId(prefix, postfix);
    assert h == prefix + ['/'] + postfix;
    FirstIndexAfter(prefix, '/', postfix);
    assert h[..|prefix|] == prefix;
    assert h[|prefix| + 1..] == postfix;
  }
}
