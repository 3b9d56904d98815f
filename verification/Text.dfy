/**
 Strings as the Rust standard library sees them: ASCII case folding, ASCII whitespace splitting,
 and decimal integers with the sign rules of `str::parse`.
 */
module Text {
  import opened Wrappers

  // ---------------------------------------------------------------- characters

  predicate IsDigit(c: char) { '0' <= c <= '9' }

  predicate IsAscii(c: char) { c < '\U{80}' }

  predicate IsControl(c: char) { c < ' ' || c == '\U{7F}' }

  predicate IsAsciiWhitespace(c: char) {
    c == ' ' || c == '\t' || c == '\n' || c == '\U{0C}' || c == '\r'
  }

  predicate IsLowerHex(c: char) { IsDigit(c) || 'a' <= c <= 'f' }

  function LowerChar(c: char): char {
    if 'A' <= c <= 'Z' then ((c as int) + 32) as char else c
  }

  function Lower(s: string): (r: string)
    ensures |r| == |s|
  {
    seq(|s|, i requires 0 <= i < |s| => LowerChar(s[i]))
  }

  predicate All(s: string, p: char -> bool) { forall i :: 0 <= i < |s| ==> p(s[i]) }

  /** A text that no whitespace splitter cuts: nonempty and free of ASCII whitespace. */
  predicate IsWord(s: string) { s != "" && forall i :: 0 <= i < |s| ==> !IsAsciiWhitespace(s[i]) }

  // ---------------------------------------------------------------- order

  /** The order of texts: the first difference decides, and a prefix comes first. */
  predicate Leq(a: string, b: string) {
    a == "" || (b != "" && (a[0] < b[0] || (a[0] == b[0] && Leq(a[1..], b[1..]))))
  }

  lemma {:induction false} LeqTotal(a: string, b: string)
    ensures Leq(a, b) || Leq(b, a)
  {
    if a != "" && b != "" && a[0] == b[0] {
      LeqTotal(a[1..], b[1..]);
    }
  }

  lemma {:induction false} LeqTransitive(a: string, b: string, c: string)
    requires Leq(a, b) && Leq(b, c)
    ensures Leq(a, c)
  {
    if a != "" && a[0] == b[0] == c[0] {
      LeqTransitive(a[1..], b[1..], c[1..]);
    }
  }

  /** A set of texts has no more members than one that contains it. */
  lemma FewerNames(a: set<string>, b: set<string>)
    requires a <= b
    ensures |a| <= |b|
  {
    assert b == a + (b - a);
  }

  // ---------------------------------------------------------------- splitting

  /** Length of the longest prefix without ASCII whitespace. */
  function WordEnd(s: string): (k: nat)
    ensures k <= |s|
    ensures forall i :: 0 <= i < k ==> !IsAsciiWhitespace(s[i])
    ensures k < |s| ==> IsAsciiWhitespace(s[k])
  {
    if s == "" || IsAsciiWhitespace(s[0]) then 0 else 1 + WordEnd(s[1..])
  }

  /** `split_ascii_whitespace`: the maximal whitespace-free pieces, in order. */
  function SplitWords(s: string): (words: seq<string>)
    ensures forall i :: 0 <= i < |words| ==> IsWord(words[i])
    decreases |s|
  {
    if s == "" then []
    else if IsAsciiWhitespace(s[0]) then SplitWords(s[1..])
    else
      var k := WordEnd(s);
      [s[..k]] + SplitWords(s[k..])
  }

  lemma SplitOneWord(w: string)
    requires IsWord(w)
    ensures SplitWords(w) == [w]
  {
    assert WordEnd(w) == |w|;
    assert w[..|w|] == w && w[|w|..] == "";
  }

  /** One leading word is split off at the first space. */
  lemma SplitFirstWord(w: string, rest: string)
    requires IsWord(w)
    ensures SplitWords(w + " " + rest) == [w] + SplitWords(rest)
  {
    var s := w + " " + rest;
    assert s[|w|] == ' ';
    assert forall i :: 0 <= i < |w| ==> s[i] == w[i];
    assert s[0] == w[0];
    WordEndUnique(s, |w|);
    assert s[..|w|] == w;
    assert s[|w|..] == " " + rest;
    assert (" " + rest)[1..] == rest;
  }

  lemma {:induction false} WordEndUnique(s: string, k: nat)
    requires k < |s| && IsAsciiWhitespace(s[k])
    requires forall i :: 0 <= i < k ==> !IsAsciiWhitespace(s[i])
    ensures WordEnd(s) == k
  {
    if k > 0 {
      WordEndUnique(s[1..], k - 1);
    }
  }

  /** The lines with line breaks between them. */
  function Join(lines: seq<string>): string {
    if lines == [] then "" else if |lines| == 1 then lines[0] else lines[0] + "\n" + Join(lines[1..])
  }

  // ---------------------------------------------------------------- decimal integers

  function DigitChar(d: nat): (c: char)
    requires d < 10
    ensures IsDigit(c)
  {
    ((d + 48) as char)
  }

  function DigitValue(c: char): (d: nat)
    requires IsDigit(c)
    ensures d < 10
  {
    (c as int) - 48
  }

  /** Decimal digits, most significant first and without leading zeros. */
  function Decimal(n: nat): (s: string)
    ensures s != "" && All(s, IsDigit)
  {
    if n < 10 then [DigitChar(n)] else Decimal(n / 10) + [DigitChar(n % 10)]
  }

  /** Value of a digit string; the empty string has value zero. */
  function DigitsValue(s: string): Option<nat> {
    if s == "" then Some(0)
    else
      var last := s[|s| - 1];
      match DigitsValue(s[..|s| - 1])
      case None => None
      case Some(v) => if IsDigit(last) then Some(10 * v + DigitValue(last)) else None
  }

  /** `parse` of an unsigned type bounded by `max`: an optional plus sign, then digits. */
  function ParseUnsigned(s: string, max: nat): Option<nat> {
    var body := if s != "" && s[0] == '+' then s[1..] else s;
    if body == "" then None
    else
      match DigitsValue(body)
      case None => None
      case Some(v) => if v <= max then Some(v) else None
  }

  /** `parse` of a signed type whose largest value is `max`. */
  function ParseSigned(s: string, max: nat): Option<int>
  {
    if s != "" && s[0] == '-' then
      var body := s[1..];
      if body == "" then None
      else
        match DigitsValue(body)
        case None => None
        case Some(v) => if v <= max + 1 then Some(-(v as int)) else None
    else
      match ParseUnsigned(s, max)
      case None => None
      case Some(v) => Some(v)
  }

  /** The `{:+}` format: the sign is always written. */
  function SignedDecimal(n: int): (s: string)
    ensures IsWord(s)
  {
    var s := if n < 0 then "-" + Decimal(-n) else "+" + Decimal(n);
    assert forall i :: 0 < i < |s| ==> IsDigit(s[i]);
    s
  }

  lemma {:induction false} DecimalRoundTrip(n: nat)
    ensures DigitsValue(Decimal(n)) == Some(n)
  {
    var s := Decimal(n);
    if n < 10 {
      assert s[..|s| - 1] == "";
      assert DigitsValue("") == Some(0);
      assert DigitValue(DigitChar(n)) == n;
    } else {
      DecimalRoundTrip(n / 10);
      assert s[..|s| - 1] == Decimal(n / 10);
      assert DigitValue(DigitChar(n % 10)) == n % 10;
    }
  }

  lemma DecimalParses(n: nat, max: nat)
    requires n <= max
    ensures ParseUnsigned(Decimal(n), max) == Some(n)
  {
    DecimalRoundTrip(n);
    assert IsDigit(Decimal(n)[0]);
  }

  lemma SignedDecimalParses(n: int, max: nat)
    requires -(max as int) <= n <= max
    ensures ParseSigned(SignedDecimal(n), max) == Some(n)
  {
    if n < 0 {
      DecimalRoundTrip(-n);
      assert ("-" + Decimal(-n))[1..] == Decimal(-n);
    } else {
      DecimalRoundTrip(n);
      assert ("+" + Decimal(n))[1..] == Decimal(n);
    }
  }

  lemma DecimalIsWord(n: nat)
    ensures IsWord(Decimal(n))
  {
  }
}
