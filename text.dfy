/** String helpers with the meaning of the Python string operations the
    formatter uses: `" " * n`, `s * n`, `ljust`, `rjust`, `strip() == ""`
    and splitting a number literal at its decimal point. */
module Text {

  datatype Option<T> = None | Some(value: T)

  function Max(a: int, b: int): int { if a >= b then a else b }

  /** `c * n` for a one-character string c, such as `" " * n` and
      `"0" * n`: a run of c, empty for n <= 0. */
  function Fill(c: char, n: int): (r: string)
    ensures |r| == Max(n, 0)
    ensures forall i :: 0 <= i < |r| ==> r[i] == c
    decreases n
  {
    if n <= 0 then "" else Fill(c, n - 1) + [c]
  }

  /** `s * n`: n copies of s, empty for n <= 0. */
  function Repeat(s: string, n: int): string
    decreases n
  {
    if n <= 0 then "" else Repeat(s, n - 1) + s
  }

  /** `s.ljust(width)`: s followed by spaces up to width characters. */
  function LJust(s: string, width: int): (r: string)
    ensures |r| == Max(|s|, width)
    ensures r[..|s|] == s
    ensures forall i :: |s| <= i < |r| ==> r[i] == ' '
  {
    s + Fill(' ', width - |s|)
  }

  /** `s.rjust(width)`: spaces up to width characters, then s. */
  function RJust(s: string, width: int): (r: string)
    ensures |r| == Max(|s|, width)
    ensures r[|r| - |s|..] == s
    ensures forall i :: 0 <= i < |r| - |s| ==> r[i] == ' '
  {
    Fill(' ', width - |s|) + s
  }

  /** The characters Python's `str.strip()` removes (the ASCII ones). */
  predicate IsWhitespace(c: char) {
    c == ' ' || c == '\t' || c == '\n' || c == '\r' || c == '\U{B}' || c == '\U{C}'
  }

  /** `len(s.strip()) == 0`. */
  predicate IsBlank(s: string) {
    forall i :: 0 <= i < |s| ==> IsWhitespace(s[i])
  }

  /** Index of the first occurrence of c in s, or |s| when there is none. */
  function IndexOf(s: string, c: char): (k: nat)
    ensures k <= |s|
    ensures k < |s| ==> s[k] == c
    ensures forall i :: 0 <= i < k ==> s[i] != c
    ensures k == |s| <==> c !in s
  {
    if |s| == 0 then 0
    else if s[0] == c then 0
    else 1 + IndexOf(s[1..], c)
  }

  /** `value.split(".")` as ColumnStats.update uses it: the whole part and
      the fraction part; a literal without a point has an empty fraction. */
  function WholePart(s: string): string {
    s[..IndexOf(s, '.')]
  }

  function FracPart(s: string): string {
    var k := IndexOf(s, '.');
    if k < |s| then s[k + 1..] else ""
  }

  /** A literal splits into whole part, point and fraction part. */
  lemma {:induction false} SplitDotLength(s: string)
    ensures '.' in s ==> |s| == |WholePart(s)| + 1 + |FracPart(s)|
    ensures '.' !in s ==> WholePart(s) == s && FracPart(s) == ""
    ensures '.' in s ==> s == WholePart(s) + "." + FracPart(s)
  {
    var k := IndexOf(s, '.');
    if k < |s| {
      assert s == s[..k] + [s[k]] + s[k + 1..];
    } else {
      assert s[..|s|] == s;
    }
  }

  predicate IsDigit(c: char) { '0' <= c <= '9' }

  predicate AllDigits(s: string) {
    |s| > 0 && forall i :: 0 <= i < |s| ==> IsDigit(s[i])
  }

  /** A plain decimal numeral, as `Decimal(...)` accepts it without an
      exponent: an optional minus sign, digits, and optionally a point
      followed by digits. */
  predicate IsDecimalNumeral(s: string) {
    var body := if |s| > 0 && s[0] == '-' then s[1..] else s;
    var k := IndexOf(body, '.');
    AllDigits(body[..k]) && (k < |body| ==> AllDigits(body[k + 1..]))
  }

  /** Extending a prefix of s by one element. */
  lemma TakeSnoc<T>(s: seq<T>, i: nat)
    requires i < |s|
    ensures s[..i + 1] == s[..i] + [s[i]]
  {
  }

  /** Extending a prefix of rs, behind es, by one element. */
  lemma PrefixSnoc<T>(es: seq<T>, rs: seq<T>, i: nat)
    requires i < |rs|
    ensures es + rs[..i + 1] == (es + rs[..i]) + [rs[i]]
  {
    assert rs[..i + 1] == rs[..i] + [rs[i]];
  }

  /** Sum of a sequence of integers. */
  function Sum(xs: seq<int>): int
    decreases |xs|
  {
    if xs == [] then 0 else Sum(xs[..|xs| - 1]) + xs[|xs| - 1]
  }

  /** Largest element of a sequence, 0 for the empty one. */
  function MaxOf(xs: seq<int>): (m: int)
    ensures forall i :: 0 <= i < |xs| ==> xs[i] <= m
    ensures xs != [] ==> exists i :: 0 <= i < |xs| && xs[i] == m
    decreases |xs|
  {
    if xs == [] then 0
    else if |xs| == 1 then xs[0]
    else
      var m := MaxOf(xs[..|xs| - 1]);
      assert forall i :: 0 <= i < |xs| - 1 ==> xs[..|xs| - 1][i] == xs[i];
      Max(m, xs[|xs| - 1])
  }
}
