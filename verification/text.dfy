/** String helpers with JavaScript's meaning: decimal printing
    (`Number.prototype.toString`), `parseInt` on digit strings, `padStart`,
    `trim`, `indexOf`, `split` with a string separator, and the reading of a
    colon-separated clock display ("1:02:03") back into seconds. */
module Text {
  import opened Types

  predicate IsDigit(c: char) {
    '0' <= c <= '9'
  }

  predicate AllDigits(s: string) {
    forall i :: 0 <= i < |s| ==> IsDigit(s[i])
  }

  function DigitChar(d: nat): (c: char)
    requires d < 10
    ensures IsDigit(c)
  {
    (48 + d) as char
  }

  function DigitValue(c: char): (d: nat)
    requires IsDigit(c)
    ensures d < 10
    ensures DigitChar(d) == c
  {
    (c as int) - 48
  }

  /** The decimal numeral of `n`, with no leading zero (`n.toString()`). */
  function DecimalString(n: nat): (r: string)
    ensures 1 <= |r|
    ensures AllDigits(r)
    ensures |r| == 1 <==> n < 10
    ensures r[0] == '0' ==> n == 0
    decreases n
  {
    if n < 10 then [DigitChar(n)] else DecimalString(n / 10) + [DigitChar(n % 10)]
  }

  /** The value of a string of decimal digits (`parseInt(s, 10)` on a
      non-empty digit string; the empty string is given the value 0). */
  function DigitsValue(s: string): nat
    requires AllDigits(s)
  {
    if |s| == 0 then 0 else DigitsValue(s[..|s| - 1]) * 10 + DigitValue(s[|s| - 1])
  }

  /** Printing then parsing a natural number gives it back. */
  lemma {:induction false} DecimalRoundTrip(n: nat)
    ensures DigitsValue(DecimalString(n)) == n
    decreases n
  {
    if n >= 10 {
      var r := DecimalString(n);
      assert r[..|r| - 1] == DecimalString(n / 10);
      DecimalRoundTrip(n / 10);
    }
  }

  /** A leading zero does not change the value of a digit string. */
  lemma {:induction false} LeadingZeroValue(s: string)
    requires AllDigits(s)
    ensures AllDigits("0" + s) && DigitsValue("0" + s) == DigitsValue(s)
    decreases |s|
  {
    var z := "0" + s;
    assert AllDigits(z) by {
      forall i | 0 <= i < |z| ensures IsDigit(z[i]) {
        if i > 0 { assert z[i] == s[i - 1]; }
      }
    }
    if |s| > 0 {
      assert z[..|z| - 1] == "0" + s[..|s| - 1];
      LeadingZeroValue(s[..|s| - 1]);
    }
  }

  function Repeat(c: char, n: nat): (r: string)
    ensures |r| == n
    ensures forall i :: 0 <= i < n ==> r[i] == c
  {
    if n == 0 then [] else [c] + Repeat(c, n - 1)
  }

  /** `s.padStart(width, fill)` for a one-character fill string. */
  function PadStart(s: string, width: nat, fill: char): (r: string)
    ensures |r| == if |s| >= width then |s| else width
    ensures r[|r| - |s|..] == s
    ensures forall i :: 0 <= i < |r| - |s| ==> r[i] == fill
  {
    if |s| >= width then s else Repeat(fill, width - |s|) + s
  }

  /** A number printed with at least two digits, as the clock displays do:
      `n.toString().padStart(2, '0')`. */
  function TwoDigits(n: nat): (r: string)
    ensures AllDigits(r) && |r| >= 2
    ensures n < 100 ==> |r| == 2
    ensures DigitsValue(r) == n
    ensures n < 10 ==> r == "0" + DecimalString(n)
    ensures n >= 10 ==> r == DecimalString(n)
  {
    var d := DecimalString(n);
    DecimalRoundTrip(n);
    if |d| >= 2 then
      d
    else
      assert PadStart(d, 2, '0') == "0" + d;
      LeadingZeroValue(d);
      PadStart(d, 2, '0')
  }

  // ---------------------------------------------------------------------
  // Whitespace and trim

  /** The characters `String.prototype.trim` removes: the WhiteSpace and
      LineTerminator code points of sections 12.2 and 12.3 of ECMAScript
      (tab, vertical tab, form feed, space, no-break space, byte-order mark,
      the Unicode space separators, and the four line terminators). */
  const JsWhitespace: set<char> := {
    '\t', '\n', '\U{000B}', '\U{000C}', '\r', ' ', '\U{00A0}', '\U{1680}',
    '\U{2000}', '\U{2001}', '\U{2002}', '\U{2003}', '\U{2004}', '\U{2005}',
    '\U{2006}', '\U{2007}', '\U{2008}', '\U{2009}', '\U{200A}', '\U{2028}',
    '\U{2029}', '\U{202F}', '\U{205F}', '\U{3000}', '\U{FEFF}'
  }

  predicate IsWhitespace(c: char) {
    c in JsWhitespace
  }

  predicate Blank(s: string) {
    forall i :: 0 <= i < |s| ==> IsWhitespace(s[i])
  }

  /** The index of the first non-whitespace character at or after `k`,
      or `|s|` when there is none. */
  function SkipSpace(s: string, k: nat): (a: nat)
    requires k <= |s|
    ensures k <= a <= |s|
    ensures forall i :: k <= i < a ==> IsWhitespace(s[i])
    ensures a < |s| ==> !IsWhitespace(s[a])
    decreases |s| - k
  {
    if k < |s| && IsWhitespace(s[k]) then SkipSpace(s, k + 1) else k
  }

  /** The index just after the last non-whitespace character before `e`
      and at or after `a`, or `a` when there is none. */
  function SkipSpaceBack(s: string, a: nat, e: nat): (b: nat)
    requires a <= e <= |s|
    ensures a <= b <= e
    ensures forall i :: b <= i < e ==> IsWhitespace(s[i])
    ensures b > a ==> !IsWhitespace(s[b - 1])
    decreases e
  {
    if e > a && IsWhitespace(s[e - 1]) then SkipSpaceBack(s, a, e - 1) else e
  }

  /** `s.trim()`: `s` is the trimmed text with a blank run before it and a
      blank run after it; the text neither starts nor ends with whitespace,
      and it is empty exactly when `s` is blank. */
  function Trim(s: string): (r: string)
    ensures var a := SkipSpace(s, 0);
            && a + |r| <= |s|
            && r == s[a..a + |r|]
            && (forall i :: 0 <= i < a ==> IsWhitespace(s[i]))
            && (forall i :: a + |r| <= i < |s| ==> IsWhitespace(s[i]))
    ensures |r| > 0 ==> !IsWhitespace(r[0]) && !IsWhitespace(r[|r| - 1])
    ensures r == "" <==> Blank(s)
  {
    var a := SkipSpace(s, 0);
    var b := SkipSpaceBack(s, a, |s|);
    s[a..b]
  }

  // ---------------------------------------------------------------------
  // Searching and splitting

  predicate OccursAt(s: string, pat: string, i: int) {
    0 <= i && i + |pat| <= |s| && s[i..i + |pat|] == pat
  }

  function IndexFrom(s: string, pat: string, k: nat): (r: Option<nat>)
    requires k <= |s|
    ensures r.Some? ==> k <= r.value && OccursAt(s, pat, r.value)
    ensures r.Some? ==> forall j :: k <= j < r.value ==> !OccursAt(s, pat, j)
    ensures r.None? ==> forall j :: k <= j ==> !OccursAt(s, pat, j)
    decreases |s| - k
  {
    if OccursAt(s, pat, k) then Some(k)
    else if k == |s| then None
    else IndexFrom(s, pat, k + 1)
  }

  /** `s.indexOf(pat)`: the first position where `pat` occurs, if any. */
  function IndexOf(s: string, pat: string): (r: Option<nat>)
    ensures r.Some? ==> OccursAt(s, pat, r.value)
    ensures r.Some? ==> forall j :: 0 <= j < r.value ==> !OccursAt(s, pat, j)
    ensures r.None? <==> forall j :: !OccursAt(s, pat, j)
  {
    IndexFrom(s, pat, 0)
  }

  predicate Contains(s: string, pat: string) {
    IndexOf(s, pat).Some?
  }

  /** An occurrence inside a prefix is an occurrence in the whole string. */
  lemma {:induction false} OccursInPrefix(s: string, pat: string, i: nat, j: int)
    requires i <= |s|
    requires OccursAt(s[..i], pat, j)
    ensures OccursAt(s, pat, j)
  {
    assert s[..i][j..j + |pat|] == s[j..j + |pat|];
  }

  /** `s.split(sep)` for a non-empty string separator and no limit: the
      pieces between successive left-to-right occurrences of `sep`. No piece
      contains the separator, and there is more than one piece exactly when
      the separator occurs. */
  function Split(s: string, sep: string): (parts: seq<string>)
    requires |sep| > 0
    ensures |parts| >= 1
    ensures forall k :: 0 <= k < |parts| ==> !Contains(parts[k], sep)
    decreases |s|
  {
    match IndexOf(s, sep)
    case None => [s]
    case Some(i) =>
      var head := s[..i];
      assert !Contains(head, sep) by {
        forall j | OccursAt(head, sep, j) ensures false {
          OccursInPrefix(s, sep, i, j);
        }
      }
      [head] + Split(s[i + |sep|..], sep)
  }

  /** The first piece of a split is everything before the first occurrence
      of the separator, and there is more than one piece exactly when the
      separator occurs. */
  lemma {:induction false} SplitFirstPiece(s: string, sep: string)
    requires |sep| > 0
    ensures |Split(s, sep)| > 1 <==> Contains(s, sep)
    ensures Contains(s, sep) ==> Split(s, sep)[0] == s[..IndexOf(s, sep).value]
    ensures !Contains(s, sep) ==> Split(s, sep) == [s]
  {
  }

  /** `parts.join(sep)`. */
  function Join(parts: seq<string>, sep: string): string {
    if |parts| == 0 then ""
    else if |parts| == 1 then parts[0]
    else parts[0] + sep + Join(parts[1..], sep)
  }

  /** Splitting then joining with the same separator gives the string back. */
  lemma {:induction false} JoinSplit(s: string, sep: string)
    requires |sep| > 0
    ensures Join(Split(s, sep), sep) == s
    decreases |s|
  {
    match IndexOf(s, sep)
    case None =>
    case Some(i) =>
      var rest := s[i + |sep|..];
      var parts := Split(s, sep);
      assert parts == [s[..i]] + Split(rest, sep);
      assert parts[1..] == Split(rest, sep);
      JoinSplit(rest, sep);
      assert s[i..i + |sep|] == sep;
      assert s == s[..i] + s[i..i + |sep|] + rest;
  }

  /** The first colon of `a + ":" + b`, where `a` is all digits, is the one
      after `a`. */
  lemma {:induction false} SplitAfterDigits(a: string, b: string)
    requires AllDigits(a)
    ensures Split(a + ":" + b, ":") == [a] + Split(b, ":")
  {
    var s := a + ":" + b;
    assert OccursAt(s, ":", |a|) by { assert s[|a|..|a| + 1] == ":"; }
    forall j | 0 <= j < |a| ensures !OccursAt(s, ":", j) {
      assert s[j..j + 1] == [a[j]];
    }
    var i := IndexOf(s, ":").value;
    assert i == |a|;
    assert s[..|a|] == a;
    assert s[|a| + 1..] == b;
  }

  /** A string of digits is a single piece when split on colons. */
  lemma {:induction false} SplitDigits(a: string)
    requires AllDigits(a)
    ensures Split(a, ":") == [a]
  {
    forall j | 0 <= j < |a| ensures !OccursAt(a, ":", j) {
      assert a[j..j + 1] == [a[j]];
    }
  }

  // ---------------------------------------------------------------------
  // Clock displays

  predicate DigitGroups(parts: seq<string>) {
    forall k :: 0 <= k < |parts| ==> parts[k] != "" && AllDigits(parts[k])
  }

  /** Colon-separated groups read as a base-60 numeral (minutes:seconds,
      hours:minutes:seconds). */
  function Base60(parts: seq<string>): nat
    requires DigitGroups(parts)
  {
    if |parts| == 0 then 0
    else Base60(parts[..|parts| - 1]) * 60 + DigitsValue(parts[|parts| - 1])
  }

  /** The number of seconds a clock display such as "3:07" or "1:02:03"
      denotes, or None when it is not colon-separated digit groups. */
  function ClockSeconds(t: string): Option<nat> {
    var parts := Split(t, ":");
    if DigitGroups(parts) then Some(Base60(parts)) else None
  }

  /** A two-group display `m:ss` denotes 60 * m + s seconds. */
  lemma {:induction false} ClockSeconds2(m: nat, s: nat)
    ensures ClockSeconds(DecimalString(m) + ":" + TwoDigits(s)) == Some(60 * m + s)
  {
    var a := DecimalString(m);
    var b := TwoDigits(s);
    SplitAfterDigits(a, b);
    SplitDigits(b);
    assert Split(a + ":" + b, ":") == [a, b];
    DecimalRoundTrip(m);
    Base60Two(a, b);
    ClockOfGroups(a + ":" + b, [a, b], 60 * m + s);
  }

  /** A three-group display `h:mm:ss` denotes 3600 * h + 60 * m + s seconds. */
  lemma {:induction false} ClockSeconds3(h: nat, m: nat, s: nat)
    ensures ClockSeconds(DecimalString(h) + ":" + TwoDigits(m) + ":" + TwoDigits(s))
            == Some(3600 * h + 60 * m + s)
  {
    var a, b, c := DecimalString(h), TwoDigits(m), TwoDigits(s);
    DecimalRoundTrip(h);
    assert DigitsValue(a) == h && DigitsValue(b) == m && DigitsValue(c) == s;
    ClockOfThreeGroups(a, b, c);
  }

  lemma {:induction false} ClockOfThreeGroups(a: string, b: string, c: string)
    requires a != "" && AllDigits(a) && b != "" && AllDigits(b) && c != "" && AllDigits(c)
    ensures ClockSeconds(a + ":" + b + ":" + c)
            == Some(3600 * DigitsValue(a) + 60 * DigitsValue(b) + DigitsValue(c))
  {
    var t := a + ":" + b + ":" + c;
    SplitThree(a, b, c);
    ClockOfSplitThree(t, a, b, c);
  }

  lemma {:induction false} ClockOfSplitThree(t: string, a: string, b: string, c: string)
    requires a != "" && AllDigits(a) && b != "" && AllDigits(b) && c != "" && AllDigits(c)
    requires Split(t, ":") == [a, b, c]
    ensures ClockSeconds(t) == Some(3600 * DigitsValue(a) + 60 * DigitsValue(b) + DigitsValue(c))
  {
    var v := 3600 * DigitsValue(a) + 60 * DigitsValue(b) + DigitsValue(c);
    Base60Three(a, b, c);
    ClockOfGroups(t, [a, b, c], v);
  }

  lemma {:induction false} SplitThree(a: string, b: string, c: string)
    requires AllDigits(a) && AllDigits(b) && AllDigits(c)
    ensures Split(a + ":" + b + ":" + c, ":") == [a, b, c]
  {
    var u := b + ":" + c;
    assert a + ":" + b + ":" + c == a + ":" + u;
    SplitAfterDigits(b, c);
    SplitDigits(c);
    SplitAfterDigits(a, u);
  }

  lemma {:induction false} ClockOfGroups(t: string, parts: seq<string>, v: nat)
    requires Split(t, ":") == parts && DigitGroups(parts) && Base60(parts) == v
    ensures ClockSeconds(t) == Some(v)
  {
  }

  lemma {:induction false} Base60Two(a: string, b: string)
    requires a != "" && AllDigits(a) && b != "" && AllDigits(b)
    ensures DigitGroups([a, b])
    ensures Base60([a, b]) == 60 * DigitsValue(a) + DigitsValue(b)
  {
    assert [a, b][..1] == [a];
    assert [a][..0] == [];
    assert Base60([a]) == DigitsValue(a);
    assert Base60([a, b]) == Base60([a]) * 60 + DigitsValue(b);
  }

  lemma {:induction false} Base60Three(a: string, b: string, c: string)
    requires a != "" && AllDigits(a) && b != "" && AllDigits(b) && c != "" && AllDigits(c)
    ensures DigitGroups([a, b, c])
    ensures Base60([a, b, c]) == 3600 * DigitsValue(a) + 60 * DigitsValue(b) + DigitsValue(c)
  {
    assert [a, b, c][..2] == [a, b];
    assert Base60([a, b, c]) == Base60([a, b]) * 60 + DigitsValue(c);
    Base60Two(a, b);
    var x, y := DigitsValue(a), DigitsValue(b);
    assert (60 * x + y) * 60 == 3600 * x + 60 * y;
  }
}
