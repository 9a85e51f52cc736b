/** Text utilities: splitting on a separator character (Python's `str.split(sep)`)
    and its inverse `sep.join(...)`, and fixed-width zero-padded decimals as
    written by `strftime`. */
module Text {
  import opened Wrappers

  /** Number of occurrences of `c` in `s`. */
  function Occurrences(s: string, c: char): (n: nat) {
    multiset(s)[c]
  }

  /** Position of the first `c` in `s`, if any. */
  function IndexOf(s: string, c: char): (r: Option<nat>)
    ensures r.Some? ==> r.value < |s| && s[r.value] == c && c !in s[..r.value]
    ensures r.None? <==> c !in s
  {
    if |s| == 0 then None
    else if s[0] == c then Some(0)
    else
      match IndexOf(s[1..], c)
      case None => None
      case Some(i) =>
        assert s[..i + 1] == [s[0]] + s[1..][..i];
        Some(i + 1)
  }

  /** Python's `s.split(sep)` with an explicit one-character separator: the
      pieces between separators, empty pieces included, nothing trimmed. */
  function Split(s: string, sep: char): (parts: seq<string>)
    ensures |parts| == Occurrences(s, sep) + 1
    ensures forall k :: 0 <= k < |parts| ==> sep !in parts[k]
    decreases |s|
  {
    match IndexOf(s, sep)
    case None => [s]
    case Some(i) =>
      assert s == s[..i] + [s[i]] + s[i + 1..];
      assert multiset(s) == multiset(s[..i]) + multiset{sep} + multiset(s[i + 1..]);
      [s[..i]] + Split(s[i + 1..], sep)
  }

  /** Python's `sep.join(parts)` for a non-empty list of pieces. */
  function Join(parts: seq<string>, sep: char): (s: string)
    requires |parts| >= 1
  {
    if |parts| == 1 then parts[0] else parts[0] + [sep] + Join(parts[1..], sep)
  }

  /** Joining the pieces of a split gives back the original text. */
  lemma {:induction false} JoinSplit(s: string, sep: char)
    ensures Join(Split(s, sep), sep) == s
    decreases |s|
  {
    match IndexOf(s, sep)
    case None =>
    case Some(i) =>
      JoinSplit(s[i + 1..], sep);
      assert s == s[..i] + [sep] + s[i + 1..];
  }

  /** Splitting joined pieces that contain no separator gives back the pieces. */
  lemma {:induction false} SplitJoin(parts: seq<string>, sep: char)
    requires |parts| >= 1
    requires forall k :: 0 <= k < |parts| ==> sep !in parts[k]
    ensures Split(Join(parts, sep), sep) == parts
    decreases |parts|
  {
    if |parts| > 1 {
      var s := Join(parts, sep);
      var rest := Join(parts[1..], sep);
      assert s == parts[0] + [sep] + rest;
      var p := |parts[0]|;
      assert s[p] == sep;
      assert IndexOf(s, sep) == Some(p);
      assert s[..p] == parts[0];
      assert s[p + 1..] == rest;
      SplitJoin(parts[1..], sep);
    }
  }

  function Pow10(n: nat): (p: nat)
    ensures p >= 1
  {
    if n == 0 then 1 else 10 * Pow10(n - 1)
  }

  predicate IsDigit(c: char) {
    '0' <= c <= '9'
  }

  predicate AllDigits(s: string) {
    forall k :: 0 <= k < |s| ==> IsDigit(s[k])
  }

  /** Any stretch of a digit string is a digit string. */
  lemma DigitsSlice(s: string, i: nat, j: nat)
    requires i <= j <= |s|
    requires AllDigits(s)
    ensures AllDigits(s[i..j])
  {
    forall k | 0 <= k < j - i
      ensures IsDigit(s[i..j][k])
    {
      assert s[i..j][k] == s[i + k];
    }
  }

  function DigitChar(d: nat): (c: char)
    requires d < 10
    ensures IsDigit(c)
  {
    ('0' as int + d) as char
  }

  function DigitValue(c: char): (d: nat)
    requires IsDigit(c)
    ensures d < 10
    ensures DigitChar(d) == c
  {
    c as int - '0' as int
  }

  /** `n` written in decimal with exactly `width` digits, zero-padded on the
      left (the `%04d` / `%02d` shape of `strftime`'s `%Y`, `%m`, ...). */
  function PadDecimal(n: nat, width: nat): (s: string)
    requires n < Pow10(width)
    ensures |s| == width
    ensures AllDigits(s)
  {
    if width == 0 then ""
    else PadDecimal(n / 10, width - 1) + [DigitChar(n % 10)]
  }

  /** The number a string of decimal digits denotes. */
  function DecimalValue(s: string): (n: nat)
    requires AllDigits(s)
    ensures n < Pow10(|s|)
  {
    if |s| == 0 then 0
    else 10 * DecimalValue(s[..|s| - 1]) + DigitValue(s[|s| - 1])
  }

  /** Reading back a zero-padded decimal gives the number written. */
  lemma {:induction false} DecimalOfPad(n: nat, width: nat)
    requires n < Pow10(width)
    ensures DecimalValue(PadDecimal(n, width)) == n
  {
    if width > 0 {
      var s := PadDecimal(n, width);
      assert s[..|s| - 1] == PadDecimal(n / 10, width - 1);
      DecimalOfPad(n / 10, width - 1);
      assert DigitValue(s[|s| - 1]) == n % 10 by {
        assert DigitChar(DigitValue(s[|s| - 1])) == DigitChar(n % 10);
      }
    }
  }

  /** Every digit string is the zero-padded decimal of its own value. */
  lemma {:induction false} PadOfDecimal(s: string)
    requires AllDigits(s)
    ensures PadDecimal(DecimalValue(s), |s|) == s
  {
    if |s| > 0 {
      var init := s[..|s| - 1];
      var n := DecimalValue(s);
      var d := DigitValue(s[|s| - 1]);
      assert n / 10 == DecimalValue(init) && n % 10 == d;
      PadOfDecimal(init);
      assert s == init + [s[|s| - 1]];
    }
  }

  /** Three zero-padded numbers side by side, the shape of `%Y%m%d` or `%H%M%S`. */
  function PadFields(a: nat, wa: nat, b: nat, wb: nat, c: nat, wc: nat): (s: string)
    requires a < Pow10(wa) && b < Pow10(wb) && c < Pow10(wc)
    ensures |s| == wa + wb + wc
    ensures AllDigits(s)
  {
    PadDecimal(a, wa) + PadDecimal(b, wb) + PadDecimal(c, wc)
  }

  /** The three numbers of a digit string cut after `wa` and `wa + wb` digits. */
  function FieldValues(s: string, wa: nat, wb: nat): (nat, nat, nat)
    requires AllDigits(s) && wa + wb <= |s|
  {
    DigitsSlice(s, 0, wa);
    DigitsSlice(s, wa, wa + wb);
    DigitsSlice(s, wa + wb, |s|);
    (DecimalValue(s[..wa]), DecimalValue(s[wa..wa + wb]), DecimalValue(s[wa + wb..]))
  }

  /** Cutting padded fields at their widths reads back the numbers written. */
  lemma FieldsRoundTrip(a: nat, wa: nat, b: nat, wb: nat, c: nat, wc: nat)
    requires a < Pow10(wa) && b < Pow10(wb) && c < Pow10(wc)
    ensures FieldValues(PadFields(a, wa, b, wb, c, wc), wa, wb) == (a, b, c)
  {
    var s := PadFields(a, wa, b, wb, c, wc);
    assert s[..wa] == PadDecimal(a, wa);
    assert s[wa..wa + wb] == PadDecimal(b, wb);
    assert s[wa + wb..] == PadDecimal(c, wc);
    DecimalOfPad(a, wa);
    DecimalOfPad(b, wb);
    DecimalOfPad(c, wc);
  }

  /** Three digit strings side by side are the padded fields of their values. */
  lemma PadFieldsOf(x: string, y: string, z: string)
    requires AllDigits(x) && AllDigits(y) && AllDigits(z)
    ensures PadFields(DecimalValue(x), |x|, DecimalValue(y), |y|, DecimalValue(z), |z|) == x + y + z
  {
    PadOfDecimal(x);
    PadOfDecimal(y);
    PadOfDecimal(z);
  }

  /** Every digit string is the padded form of its three field values. */
  lemma FieldsComplete(s: string, wa: nat, wb: nat)
    requires AllDigits(s) && wa + wb <= |s|
    ensures var v := FieldValues(s, wa, wb);
      PadFields(v.0, wa, v.1, wb, v.2, |s| - wa - wb) == s
  {
    var x, y, z := s[..wa], s[wa..wa + wb], s[wa + wb..];
    DigitsSlice(s, 0, wa);
    DigitsSlice(s, wa, wa + wb);
    DigitsSlice(s, wa + wb, |s|);
    PadFieldsOf(x, y, z);
    assert s == x + y + z;
  }
}
