/**
 * The JavaScript string primitives the application relies on, over `seq<char>`:
 * the line terminators of regular expressions, `trim`, `split`/`join` on one
 * character, `indexOf`/`includes`, `startsWith`, a global one-character
 * `replace`, `substr`, `parseInt(s, 16)`, and the decimal rendering of a
 * non-negative integer (template literals such as `${Date.now()}`).
 */
module JsText {
  import opened Wrappers

  /** A line terminator as a JavaScript regular expression sees it: `.` never matches one,
      and multiline `^`/`$` match just after/before one. */
  predicate IsLineTerminator(c: char) {
    c == '\n' || c == '\r' || c == '\U{2028}' || c == '\U{2029}'
  }

  predicate NoLineTerminator(s: string) {
    forall k :: 0 <= k < |s| ==> !IsLineTerminator(s[k])
  }

  /** The characters `String.prototype.trim` removes: WhiteSpace (including every
      space separator) and LineTerminator. */
  predicate IsJsWhitespace(c: char) {
    || c == '\t' || c == '\U{000B}' || c == '\U{000C}' || c == ' '
    || c == '\U{00A0}' || c == '\U{FEFF}' || c == '\U{1680}'
    || ('\U{2000}' <= c <= '\U{200A}')
    || c == '\U{202F}' || c == '\U{205F}' || c == '\U{3000}'
    || IsLineTerminator(c)
  }

  /** Digits, letters and the punctuation of the printable ASCII range are not
      whitespace. */
  lemma VisibleNotWhitespace(c: char)
    requires '!' <= c <= '~'
    ensures !IsJsWhitespace(c)
  {
  }

  /** `\d` in a JavaScript regular expression: an ASCII digit. */
  predicate IsDigit(c: char) {
    '0' <= c <= '9'
  }

  predicate AllDigits(s: string) {
    forall k :: 0 <= k < |s| ==> IsDigit(s[k])
  }

  predicate StartsWith(s: string, prefix: string) {
    |prefix| <= |s| && s[..|prefix|] == prefix
  }

  predicate EndsWith(s: string, suffix: string) {
    |suffix| <= |s| && s[|s| - |suffix|..] == suffix
  }

  ghost predicate OccursAt(s: string, sub: string, k: int) {
    0 <= k && k + |sub| <= |s| && s[k..k + |sub|] == sub
  }

  /** `s.indexOf(sub)`: the first position where `sub` occurs, or -1. */
  function IndexOf(s: string, sub: string): (r: int)
    ensures -1 <= r <= |s|
    ensures r >= 0 ==> OccursAt(s, sub, r)
    ensures r >= 0 ==> forall k :: 0 <= k < r ==> !OccursAt(s, sub, k)
    ensures r == -1 ==> forall k :: 0 <= k <= |s| ==> !OccursAt(s, sub, k)
    decreases |s|
  {
    if StartsWith(s, sub) then 0
    else if |s| == 0 then -1
    else
      var t := IndexOf(s[1..], sub);
      assert forall k :: 1 <= k <= |s| ==> (OccursAt(s, sub, k) <==> OccursAt(s[1..], sub, k - 1)) by {
        forall k | 1 <= k <= |s| ensures OccursAt(s, sub, k) <==> OccursAt(s[1..], sub, k - 1) {
          if k + |sub| <= |s| {
            assert s[1..][k - 1..k - 1 + |sub|] == s[k..k + |sub|];
          }
        }
      }
      assert !OccursAt(s, sub, 0) by {
        if |sub| <= |s| { assert s[0..|sub|] == s[..|sub|]; }
      }
      if t == -1 then -1 else t + 1
  }

  /** `s.includes(sub)`. */
  function Includes(s: string, sub: string): (r: bool)
    ensures r <==> exists k :: 0 <= k <= |s| && OccursAt(s, sub, k)
  {
    IndexOf(s, sub) >= 0
  }

  /** `s.trimStart()`: drop the leading whitespace. */
  function TrimStart(s: string): (r: string)
    ensures |r| <= |s| && r == s[|s| - |r|..]
    ensures r == [] || !IsJsWhitespace(r[0])
    ensures forall k :: 0 <= k < |s| - |r| ==> IsJsWhitespace(s[k])
    decreases |s|
  {
    if |s| > 0 && IsJsWhitespace(s[0]) then TrimStart(s[1..]) else s
  }

  /** `s.trimEnd()`: drop the trailing whitespace. */
  function TrimEnd(s: string): (r: string)
    ensures |r| <= |s| && r == s[..|r|]
    ensures r == [] || !IsJsWhitespace(r[|r| - 1])
    ensures forall k :: |r| <= k < |s| ==> IsJsWhitespace(s[k])
    decreases |s|
  {
    if |s| > 0 && IsJsWhitespace(s[|s| - 1]) then TrimEnd(s[..|s| - 1]) else s
  }

  /** `s.trim()`: the slice of `s` left once whitespace is dropped at both ends. */
  function Trim(s: string): (r: string)
    ensures |r| <= |s|
    ensures r == [] || (!IsJsWhitespace(r[0]) && !IsJsWhitespace(r[|r| - 1]))
    ensures forall k :: 0 <= k < |r| ==> r[k] in s
    ensures r == [] <==> forall k :: 0 <= k < |s| ==> IsJsWhitespace(s[k])
  {
    var t := TrimStart(s);
    var r := TrimEnd(t);
    var i := |s| - |t|;
    assert r == s[i..i + |r|];
    assert forall k :: 0 <= k < |r| ==> r[k] == s[i + k];
    r
  }

  /** `trim` leaves alone a text whose two ends are not whitespace. */
  lemma TrimUntouched(s: string)
    requires s != [] && !IsJsWhitespace(s[0]) && !IsJsWhitespace(s[|s| - 1])
    ensures Trim(s) == s
  {
    assert TrimStart(s) == s;
    assert TrimEnd(s) == s;
  }

  /** `trim` drops trailing whitespace one character at a time. */
  lemma TrimDropsLast(s: string)
    requires |s| > 1 && !IsJsWhitespace(s[0]) && IsJsWhitespace(s[|s| - 1])
    ensures Trim(s) == Trim(s[..|s| - 1])
  {
    assert TrimStart(s) == s;
    assert TrimStart(s[..|s| - 1]) == s[..|s| - 1] by { assert s[..|s| - 1][0] == s[0]; }
  }

  /** `s.split(sep)` for a one-character separator: never empty, and `""` splits to `[""]`. */
  function Split(s: string, sep: char): (r: seq<string>)
    ensures |r| >= 1
    ensures forall k :: 0 <= k < |r| ==> sep !in r[k]
    decreases |s|
  {
    if |s| == 0 then [[]]
    else
      var rest := Split(s[1..], sep);
      if s[0] == sep then [[]] + rest else [[s[0]] + rest[0]] + rest[1..]
  }

  /** `parts.join(sep)`. */
  function Join(parts: seq<string>, sep: char): string
    decreases |parts|
  {
    if |parts| == 0 then []
    else if |parts| == 1 then parts[0]
    else parts[0] + [sep] + Join(parts[1..], sep)
  }

  /** Joining the pieces of a split gives back the original string. */
  lemma {:induction false} JoinSplit(s: string, sep: char)
    ensures Join(Split(s, sep), sep) == s
    decreases |s|
  {
    if |s| > 0 {
      var rest := Split(s[1..], sep);
      JoinSplit(s[1..], sep);
      if s[0] == sep {
        assert Split(s, sep) == [[]] + rest;
      } else {
        var r := Split(s, sep);
        assert r == [[s[0]] + rest[0]] + rest[1..];
        if |rest| == 1 {
          assert Join(r, sep) == [s[0]] + rest[0];
        } else {
          assert Join(rest, sep) == rest[0] + [sep] + Join(rest[1..], sep);
          assert r[1..] == rest[1..];
        }
      }
    }
  }

  /** A piece free of the separator is split off whole. */
  lemma {:induction false} SplitAfterPiece(x: string, y: string, sep: char)
    requires sep !in x
    ensures Split(x + y, sep) == [x + Split(y, sep)[0]] + Split(y, sep)[1..]
    decreases |x|
  {
    if |x| > 0 {
      SplitAfterPiece(x[1..], y, sep);
      SplitAfterChar(x, y, sep);
    } else {
      var ys := Split(y, sep);
      assert x + y == y;
      assert x + ys[0] == ys[0];
      assert ys == [ys[0]] + ys[1..];
    }
  }

  /** The step of SplitAfterPiece: a character other than the separator joins the
      first piece. */
  lemma SplitAfterChar(x: string, y: string, sep: char)
    requires |x| > 0 && sep !in x
    requires Split(x[1..] + y, sep) == [x[1..] + Split(y, sep)[0]] + Split(y, sep)[1..]
    ensures Split(x + y, sep) == [x + Split(y, sep)[0]] + Split(y, sep)[1..]
  {
    var ys := Split(y, sep);
    ConcatHeadTail(x, y);
    ConsRegroup(x, ys[0]);
  }

  lemma ConcatHeadTail(x: string, y: string)
    requires |x| > 0
    ensures (x + y)[0] == x[0] && (x + y)[1..] == x[1..] + y
  {
  }

  lemma ConsRegroup(x: string, z: string)
    requires |x| > 0
    ensures [x[0]] + (x[1..] + z) == x + z
  {
    assert x == [x[0]] + x[1..];
  }

  /** A text free of the separator splits into itself alone. */
  lemma SplitWhole(s: string, sep: char)
    requires sep !in s
    ensures Split(s, sep) == [s]
  {
    SplitAfterPiece(s, [], sep);
    assert s + [] == s;
  }

  /** Splitting a join of separator-free pieces gives back the pieces. */
  lemma {:induction false} SplitJoin(parts: seq<string>, sep: char)
    requires |parts| >= 1
    requires forall k :: 0 <= k < |parts| ==> sep !in parts[k]
    ensures Split(Join(parts, sep), sep) == parts
    decreases |parts|
  {
    if |parts| == 1 {
      SplitAfterPiece(parts[0], [], sep);
      assert parts[0] + [] == parts[0];
    } else {
      var tail := Join(parts[1..], sep);
      SplitJoin(parts[1..], sep);
      SplitAfterPiece(parts[0], [sep] + tail, sep);
      assert Join(parts, sep) == parts[0] + ([sep] + tail);
      assert Split([sep] + tail, sep) == [[]] + Split(tail, sep) by {
        assert ([sep] + tail)[1..] == tail;
      }
      var rest := Split([sep] + tail, sep);
      assert rest[0] == [] && rest[1..] == parts[1..];
      assert parts[0] + rest[0] == parts[0];
      assert parts == [parts[0]] + parts[1..];
    }
  }

  /** Joining two non-empty lists of pieces puts one separator between their joins. */
  lemma {:induction false} JoinConcat(xs: seq<string>, ys: seq<string>, sep: char)
    requires |xs| >= 1 && |ys| >= 1
    ensures Join(xs + ys, sep) == Join(xs, sep) + [sep] + Join(ys, sep)
    decreases |xs|
  {
    if |xs| > 1 {
      JoinConcat(xs[1..], ys, sep);
      assert (xs + ys)[1..] == xs[1..] + ys;
    } else {
      assert (xs + ys)[1..] == ys;
    }
  }

  /** A separator between two strings separates their pieces. */
  lemma SplitConcat(a: string, b: string, sep: char)
    ensures Split(a + [sep] + b, sep) == Split(a, sep) + Split(b, sep)
  {
    var xs, ys := Split(a, sep), Split(b, sep);
    JoinSplit(a, sep);
    JoinSplit(b, sep);
    JoinConcat(xs, ys, sep);
    SplitJoin(xs + ys, sep);
  }

  /** `s.replace(/x/g, y)` for one character `x`: every `x` becomes `y`, nothing else moves. */
  function ReplaceChar(s: string, x: char, y: char): (r: string)
    ensures |r| == |s|
    ensures forall k :: 0 <= k < |s| ==> r[k] == (if s[k] == x then y else s[k])
    decreases |s|
  {
    if |s| == 0 then []
    else [if s[0] == x then y else s[0]] + ReplaceChar(s[1..], x, y)
  }

  /** Replacing `x` by a `y` the text did not hold is undone by replacing `y` by `x`. */
  lemma ReplaceCharBack(s: string, x: char, y: char)
    requires y !in s
    ensures ReplaceChar(ReplaceChar(s, x, y), y, x) == s
  {
    var r := ReplaceChar(ReplaceChar(s, x, y), y, x);
    assert forall k :: 0 <= k < |s| ==> r[k] == s[k];
  }

  function DigitChar(d: nat): (c: char)
    requires d < 10
    ensures IsDigit(c)
  {
    ('0' as int + d) as char
  }

  /** The decimal text of a non-negative integer, as a template literal prints it:
      digits only, never empty, and no leading zero unless the number is 0. */
  function NatToString(n: nat): (r: string)
    ensures |r| >= 1 && AllDigits(r)
    ensures r[0] == '0' <==> n == 0
    decreases n
  {
    if n < 10 then [DigitChar(n)] else NatToString(n / 10) + [DigitChar(n % 10)]
  }

  /** The number a string of decimal digits denotes. */
  function DecimalValue(s: string): nat
    requires AllDigits(s)
    decreases |s|
  {
    if |s| == 0 then 0
    else DecimalValue(s[..|s| - 1]) * 10 + (s[|s| - 1] as int - '0' as int)
  }

  /** Reading back the decimal text of `n` gives `n`. */
  lemma {:induction false} DecimalRoundTrip(n: nat)
    ensures DecimalValue(NatToString(n)) == n
    decreases n
  {
    if n >= 10 {
      DecimalRoundTrip(n / 10);
      var s := NatToString(n);
      assert s[..|s| - 1] == NatToString(n / 10);
    }
  }

  /** Different numbers print differently. */
  lemma NatToStringInjective(m: nat, n: nat)
    requires NatToString(m) == NatToString(n)
    ensures m == n
  {
    DecimalRoundTrip(m);
    DecimalRoundTrip(n);
  }

  /** `s.substr(start, length)` for non-negative arguments: clipped to the string. */
  function Substr(s: string, start: nat, length: nat): (r: string)
    ensures |r| <= length
    ensures start + length <= |s| ==> r == s[start..start + length]
    ensures start >= |s| ==> r == []
  {
    var i := if start < |s| then start else |s|;
    var j := if start + length < |s| then start + length else |s|;
    s[i..j]
  }

  predicate IsHexDigit(c: char) {
    IsDigit(c) || 'a' <= c <= 'f' || 'A' <= c <= 'F'
  }

  function HexDigitValue(c: char): (v: nat)
    requires IsHexDigit(c)
    ensures v < 16
  {
    if IsDigit(c) then c as int - '0' as int
    else if 'a' <= c <= 'f' then c as int - 'a' as int + 10
    else c as int - 'A' as int + 10
  }

  predicate AllHex(s: string) {
    forall k :: 0 <= k < |s| ==> IsHexDigit(s[k])
  }

  /** The length of the run of hexadecimal digits `s` starts with. */
  function HexRun(s: string): (n: nat)
    ensures n <= |s| && AllHex(s[..n])
    ensures n < |s| ==> !IsHexDigit(s[n])
    decreases |s|
  {
    if |s| > 0 && IsHexDigit(s[0]) then
      var n := HexRun(s[1..]);
      var a, b := s[..n + 1], s[1..][..n];
      assert forall k :: 1 <= k < n + 1 ==> a[k] == b[k - 1];
      n + 1
    else 0
  }

  /** The number a string of hexadecimal digits denotes. */
  function HexValue(s: string): nat
    requires AllHex(s)
    decreases |s|
  {
    if |s| == 0 then 0
    else HexValue(s[..|s| - 1]) * 16 + HexDigitValue(s[|s| - 1])
  }

  /** One or two hexadecimal digits denote at most 255. */
  lemma HexValueByte(s: string)
    requires AllHex(s)
    ensures |s| <= 2 ==> HexValue(s) <= 255
  {
    if 0 < |s| <= 2 {
      var p := s[..|s| - 1];
      assert |p| <= 1;
      if |p| == 1 {
        assert p[..0] == [];
      }
    }
  }

  /** `parseInt(s, 16)`: leading whitespace is skipped, then an optional sign, then an
      optional `0x`/`0X` prefix; the longest run of hexadecimal digits that follows is
      read, and no digit at all gives NaN (None). */
  function ParseIntHex(s: string): (r: Option<int>)
    ensures |s| <= 2 && r.Some? ==> -255 <= r.value <= 255
  {
    var t := TrimStart(s);
    var u := if |t| > 0 && (t[0] == '-' || t[0] == '+') then t[1..] else t;
    var v := if |u| >= 2 && u[0] == '0' && (u[1] == 'x' || u[1] == 'X') then u[2..] else u;
    var n := HexRun(v);
    if n == 0 then None
    else
      var m: int := HexValue(v[..n]);
      HexValueByte(v[..n]);
      Some(if |t| > 0 && t[0] == '-' then -m else m)
  }

  /** Two hexadecimal digits parse to their value. */
  lemma ParseTwoHexDigits(d: string)
    requires |d| == 2 && AllHex(d)
    ensures ParseIntHex(d) == Some(16 * HexDigitValue(d[0]) + HexDigitValue(d[1]))
  {
    assert !IsJsWhitespace(d[0]);
    assert TrimStart(d) == d;
    assert HexRun(d[1..][1..]) == 0;
    assert HexRun(d) == 2;
    assert d[..2] == d && d[..1][..0] == [];
    assert HexValue(d[..1]) == HexDigitValue(d[0]);
  }

  /** The empty text parses to NaN. */
  lemma ParseEmpty()
    ensures ParseIntHex([]).None?
  {
  }
}
