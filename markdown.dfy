/**
 * `renderMarkdown` of the prompt editor (src/components/PromptStyler.tsx): a
 * fixed chain of nine global regular-expression substitutions, each applied to
 * the output of the previous one.
 *
 *   1. `**x**` to `<strong>x</strong>`    2. `*x*` to `<em>x</em>`    3. `_x_` to `<u>x</u>`
 *   4-6. lines `### t`, `## t`, `# t` to styled `h3`, `h2`, `h1`
 *   7-8. lines `N. t` and `• t` wrapped verbatim in an indented `div`
 *   9. every `'\n'` to `<br>`
 *
 * No escaping and no sanitizing happens anywhere: the text goes through as typed.
 *
 * The paired passes are scanners with JavaScript's global-replace semantics:
 * try a match at position i; on success emit the replacement and resume after
 * the match, on failure emit s[i] and resume at i + 1. The lazy `(.*?)` takes the
 * fewest characters that let the closing delimiter follow, and cannot cross a
 * line terminator.
 *
 * The line passes use `^` and `$` in multiline mode with a greedy `(.+)`: a match
 * can only begin at a line start and always runs to the end of that line, so a
 * scanner over the input is the same as rewriting each line on its own while
 * keeping the terminators between lines.
 */
module Markdown {
  import opened Wrappers
  import opened JsText

  function Open(tag: string): string { "<" + tag + ">" }
  function Close(tag: string): string { "</" + tag + ">" }

  /** The lazy group of a paired pattern can end at j: the delimiter follows and no
      line terminator was crossed. */
  ghost predicate ClosesAt(t: string, d: string, j: nat) {
    j + |d| <= |t| && StartsWith(t[j..], d) && NoLineTerminator(t[..j])
  }

  /** `(.*?)d` matched against `t`: the length of the shortest line-bound run that the
      delimiter `d` follows, or None when a line terminator or the end comes first
      (FindCloseLazy states this in full). */
  function FindClose(t: string, d: string): (r: Option<nat>)
    requires |d| > 0
    ensures r.Some? ==> r.value + |d| <= |t|
    decreases |t|
  {
    if StartsWith(t, d) then Some(0)
    else if |t| == 0 || IsLineTerminator(t[0]) then None
    else
      match FindClose(t[1..], d)
      case None => None
      case Some(j) => Some(j + 1)
  }

  /** FindClose is the lazy match: when it answers j the delimiter follows at j with no
      terminator crossed and at no earlier position; when it answers None no line-bound
      run is followed by the delimiter. */
  lemma {:induction false} FindCloseLazy(t: string, d: string)
    requires |d| > 0
    ensures FindClose(t, d).Some? ==> ClosesAt(t, d, FindClose(t, d).value)
    ensures FindClose(t, d).Some? ==> forall k :: 0 <= k < FindClose(t, d).value ==> !StartsWith(t[k..], d)
    ensures FindClose(t, d).None? ==> forall j :: 0 <= j <= |t| && NoLineTerminator(t[..j]) ==> !StartsWith(t[j..], d)
    decreases |t|, 1
  {
    if StartsWith(t, d) {
      assert t[0..] == t;
    } else if |t| == 0 || IsLineTerminator(t[0]) {
      assert t[0..] == t;
      assert forall j :: 1 <= j <= |t| ==> t[..j][0] == t[0];
    } else {
      FindCloseLazy(t[1..], d);
      FindCloseLazyStep(t, d);
    }
  }

  /** The step of FindCloseLazy past a character that is neither the delimiter's start
      nor a line terminator. */
  lemma FindCloseLazyStep(t: string, d: string)
    requires |d| > 0 && |t| > 0 && !StartsWith(t, d) && !IsLineTerminator(t[0])
    requires FindClose(t[1..], d).Some? ==> ClosesAt(t[1..], d, FindClose(t[1..], d).value)
    requires FindClose(t[1..], d).Some? ==> forall k :: 0 <= k < FindClose(t[1..], d).value ==> !StartsWith(t[1..][k..], d)
    requires FindClose(t[1..], d).None? ==> forall j :: 0 <= j <= |t[1..]| && NoLineTerminator(t[1..][..j]) ==> !StartsWith(t[1..][j..], d)
    ensures FindClose(t, d).Some? ==> ClosesAt(t, d, FindClose(t, d).value)
    ensures FindClose(t, d).Some? ==> forall k :: 0 <= k < FindClose(t, d).value ==> !StartsWith(t[k..], d)
    ensures FindClose(t, d).None? ==> forall j :: 0 <= j <= |t| && NoLineTerminator(t[..j]) ==> !StartsWith(t[j..], d)
  {
    match FindClose(t[1..], d)
    case Some(j) => FindCloseLazyFound(t, d, j);
    case None => FindCloseLazyMissing(t, d);
  }

  lemma FindCloseLazyFound(t: string, d: string, j: nat)
    requires |d| > 0 && |t| > 0 && !StartsWith(t, d) && !IsLineTerminator(t[0])
    requires FindClose(t[1..], d) == Some(j) && ClosesAt(t[1..], d, j)
    requires forall k :: 0 <= k < j ==> !StartsWith(t[1..][k..], d)
    ensures FindClose(t, d) == Some(j + 1) && ClosesAt(t, d, j + 1)
    ensures forall k :: 0 <= k < j + 1 ==> !StartsWith(t[k..], d)
  {
    var u := t[1..];
    assert t[j + 1..] == u[j..];
    var p, q := t[..j + 1], u[..j];
    forall k | 0 <= k < j + 1 ensures !IsLineTerminator(p[k]) {
      if k > 0 { assert p[k] == q[k - 1]; }
    }
    forall k | 0 <= k < j + 1 ensures !StartsWith(t[k..], d) {
      if k == 0 { assert t[0..] == t; } else { assert t[k..] == u[k - 1..]; }
    }
  }

  lemma FindCloseLazyMissing(t: string, d: string)
    requires |d| > 0 && |t| > 0 && !StartsWith(t, d) && !IsLineTerminator(t[0])
    requires FindClose(t[1..], d) == None
    requires forall j :: 0 <= j <= |t[1..]| && NoLineTerminator(t[1..][..j]) ==> !StartsWith(t[1..][j..], d)
    ensures FindClose(t, d) == None
    ensures forall j :: 0 <= j <= |t| && NoLineTerminator(t[..j]) ==> !StartsWith(t[j..], d)
  {
    var u := t[1..];
    forall j | 0 <= j <= |t| && NoLineTerminator(t[..j]) ensures !StartsWith(t[j..], d) {
      if j == 0 {
        assert t[0..] == t;
      } else {
        assert t[j..] == u[j - 1..];
        var p, q := t[..j], u[..j - 1];
        assert forall k :: 0 <= k < j - 1 ==> q[k] == p[k + 1];
      }
    }
  }

  /** `s.replace(/d(.*?)d/g, '<tag>$1</tag>')` for a delimiter `d`. */
  function ReplacePaired(s: string, d: string, tag: string): string
    requires |d| > 0
    decreases |s|
  {
    if |s| == 0 then []
    else if StartsWith(s, d) then
      match FindClose(s[|d|..], d)
      case Some(j) => Open(tag) + s[|d|..|d| + j] + Close(tag) + ReplacePaired(s[|d| + j + |d|..], d, tag)
      case None => [s[0]] + ReplacePaired(s[1..], d, tag)
    else [s[0]] + ReplacePaired(s[1..], d, tag)
  }

  function Bold(s: string): string { ReplacePaired(s, "**", "strong") }
  function Italic(s: string): string { ReplacePaired(s, "*", "em") }
  function Underline(s: string): string { ReplacePaired(s, "_", "u") }

  /** The opening tag of a heading with its inline style. */
  function HeadingOpen(level: string, size: string, weight: string, margin: string): string {
    "<h" + level + " style=\"font-size: " + size + "; font-weight: " + weight + "; margin: " + margin + ";\">"
  }

  const H3Open: string := HeadingOpen("3", "1.25rem", "600", "0.5rem 0")
  const H2Open: string := HeadingOpen("2", "1.5rem", "700", "0.75rem 0")
  const H1Open: string := HeadingOpen("1", "1.875rem", "800", "1rem 0")
  const ItemOpen: string := "<div style=\"margin-left: 20px;\">"
  const ItemClose: string := "</div>"
  const Bullet: string := "• "

  /** The five line-anchored patterns, in the order they run. */
  datatype LineRule = H3 | H2 | H1 | OrderedItem | BulletItem

  /** Length of the run of `\d` at the start of `s`. */
  function DigitRun(s: string): (n: nat)
    ensures n <= |s| && AllDigits(s[..n])
    ensures n < |s| ==> !IsDigit(s[n])
    decreases |s|
  {
    if |s| == 0 || !IsDigit(s[0]) then 0
    else
      var m := DigitRun(s[1..]);
      assert s[..1 + m] == [s[0]] + s[1..][..m];
      1 + m
  }

  /** `/^\d+\. /`: one or more digits, a full stop and a space. */
  predicate StartsWithOrderedMarker(s: string) {
    var n := DigitRun(s);
    n >= 1 && n + 2 <= |s| && s[n] == '.' && s[n + 1] == ' '
  }

  /** `^(\d+\. .+)$` on one line: the marker and at least one more character. */
  predicate IsOrderedItem(line: string) {
    StartsWithOrderedMarker(line) && |line| > DigitRun(line) + 2
  }

  /** `^marker(.+)$` on one line, the captured rest placed between `open` and `close`. */
  function HeadingLine(line: string, marker: string, open: string, close: string): string {
    if StartsWith(line, marker) && |line| > |marker| then open + line[|marker|..] + close else line
  }

  /** What one line-anchored pass makes of a line holding no terminator. */
  function RewriteLine(rule: LineRule, line: string): string {
    match rule
    case H3 => HeadingLine(line, "### ", H3Open, "</h3>")
    case H2 => HeadingLine(line, "## ", H2Open, "</h2>")
    case H1 => HeadingLine(line, "# ", H1Open, "</h1>")
    case OrderedItem => if IsOrderedItem(line) then ItemOpen + line + ItemClose else line
    case BulletItem => if StartsWith(line, Bullet) && |line| > |Bullet| then ItemOpen + line + ItemClose else line
  }

  /** Where the first line of `s` ends. */
  function LineEnd(s: string): (n: nat)
    ensures n <= |s| && NoLineTerminator(s[..n])
    ensures n < |s| ==> IsLineTerminator(s[n])
    decreases |s|
  {
    if |s| == 0 || IsLineTerminator(s[0]) then 0
    else
      var m := LineEnd(s[1..]);
      assert s[..1 + m] == [s[0]] + s[1..][..m];
      1 + m
  }

  /** One line-anchored global pass (`/^…$/gm`) over the whole text. */
  function ApplyLineRule(s: string, rule: LineRule): string
    decreases |s|
  {
    var n := LineEnd(s);
    if n == |s| then RewriteLine(rule, s)
    else RewriteLine(rule, s[..n]) + [s[n]] + ApplyLineRule(s[n + 1..], rule)
  }

  /** `s.replace(/\n/g, '<br>')`: the result holds no newline. */
  function BreakLines(s: string): (r: string)
    ensures '\n' !in r
    decreases |s|
  {
    if |s| == 0 then []
    else (if s[0] == '\n' then "<br>" else [s[0]]) + BreakLines(s[1..])
  }

  /** The three paired passes, in source order. */
  function PairedPasses(text: string): string {
    Underline(Italic(Bold(text)))
  }

  /** The five line-anchored passes, in source order. */
  function LinePasses(s: string): string {
    var h3 := ApplyLineRule(s, H3);
    var h2 := ApplyLineRule(h3, H2);
    var h1 := ApplyLineRule(h2, H1);
    var ordered := ApplyLineRule(h1, OrderedItem);
    ApplyLineRule(ordered, BulletItem)
  }

  /** The whole chain, in source order. */
  function Render(text: string): (r: string)
    ensures '\n' !in r
  {
    BreakLines(LinePasses(PairedPasses(text)))
  }

  const Placeholder: string := "Votre prompt apparaîtra ici..."

  /** The preview renders the placeholder while the prompt is empty (`promptText || '…'`). */
  function Preview(promptText: string): string {
    Render(if promptText == [] then Placeholder else promptText)
  }

  // ---------------------------------------------------------------------------
  // The paired passes

  /** A stretch holding no first delimiter character is copied as it is. */
  lemma {:induction false} PairedSkip(p: string, s: string, d: string, tag: string)
    requires |d| > 0 && d[0] !in p
    ensures ReplacePaired(p + s, d, tag) == p + ReplacePaired(s, d, tag)
    decreases |p|
  {
    if |p| > 0 {
      var t := p + s;
      assert !StartsWith(t, d) by { assert t[0] == p[0]; }
      assert t[1..] == p[1..] + s;
      PairedSkip(p[1..], s, d, tag);
      assert p == [p[0]] + p[1..];
    } else {
      assert p + s == s;
    }
  }

  /** A text holding no first delimiter character is left unchanged by a paired pass. */
  lemma PairedIdentity(s: string, d: string, tag: string)
    requires |d| > 0 && d[0] !in s
    ensures ReplacePaired(s, d, tag) == s
  {
    PairedSkip(s, [], d, tag);
    assert s + [] == s;
  }

  /** The lazy group stops at the first delimiter of its line. */
  lemma {:induction false} FindCloseAfter(x: string, rest: string, d: string)
    requires |d| > 0 && d[0] !in x && NoLineTerminator(x)
    ensures FindClose(x + d + rest, d) == Some(|x|)
    decreases |x|
  {
    var t := x + d + rest;
    if |x| == 0 {
      assert t == d + rest;
      assert t[..|d|] == d;
    } else {
      assert t[0] == x[0];
      assert t[1..] == x[1..] + d + rest;
      FindCloseAfter(x[1..], rest, d);
    }
  }

  /** One step of a paired pass where a pair matches at the start: the pair is wrapped
      and the scan goes on with the rest `r` after the closing delimiter. */
  lemma PairedStepMatch(s: string, d: string, tag: string, j: nat, x: string, r: string)
    requires |d| > 0 && StartsWith(s, d) && FindClose(s[|d|..], d) == Some(j)
    requires |d| + j + |d| <= |s| && x == s[|d|..|d| + j] && r == s[|d| + j + |d|..]
    ensures ReplacePaired(s, d, tag) == Open(tag) + x + Close(tag) + ReplacePaired(r, d, tag)
  {
  }

  /** One step of a paired pass where no pair matches at the start: the first character
      is copied and the scan goes on with the rest `r`. */
  lemma PairedStepSkip(s: string, d: string, tag: string, r: string)
    requires |d| > 0 && |s| > 0 && (!StartsWith(s, d) || FindClose(s[|d|..], d).None?)
    requires r == s[1..]
    ensures ReplacePaired(s, d, tag) == [s[0]] + ReplacePaired(r, d, tag)
  {
  }

  /** `d x d` with x on one line and free of the delimiter's first character is wrapped
      whole; the scan resumes right after the closing delimiter. */
  lemma PairedWraps(x: string, rest: string, d: string, tag: string)
    requires |d| > 0 && d[0] !in x && NoLineTerminator(x)
    ensures ReplacePaired(d + x + d + rest, d, tag) == Open(tag) + x + Close(tag) + ReplacePaired(rest, d, tag)
  {
    var s := d + x + d + rest;
    assert s[..|d|] == d;
    assert s[|d|..] == x + d + rest;
    FindCloseAfter(x, rest, d);
    assert s[|d| + |x| + |d|..] == rest;
    assert s[|d|..|d| + |x|] == x;
    PairedStepMatch(s, d, tag, |x|, x, rest);
  }

  /** A text that starts a new line: its first character is a line terminator. */
  predicate StartsLine(t: string) {
    |t| > 0 && IsLineTerminator(t[0])
  }

  /** Slicing inside the first part of a concatenation. */
  lemma SliceOfPrefix(a: string, t: string, i: nat, k: nat)
    requires i <= k <= |a|
    ensures (a + t)[i..k] == a[i..k]
  {
  }

  /** Dropping from inside the first part of a concatenation. */
  lemma DropOfPrefix(a: string, t: string, i: nat)
    requires i <= |a|
    ensures (a + t)[i..] == a[i..] + t
  {
  }

  lemma ConcatRegroup(x: string, y: string, z: string)
    ensures x + (y + z) == x + y + z
  {
  }

  /** A delimiter free of line terminators that matches in front of a new line lies
      wholly in the text before it. */
  lemma DelimiterWithinLine(a: string, t: string, d: string)
    requires NoLineTerminator(d) && StartsLine(t)
    requires StartsWith(a + t, d)
    ensures StartsWith(a, d)
  {
    var s := a + t;
    assert forall k :: 0 <= k < |d| ==> s[k] == d[k] && !IsLineTerminator(d[k]);
    assert s[|a|] == t[0];
    assert |d| <= |a|;
    SliceOfPrefix(a, t, 0, |d|);
  }

  /** A text that starts with a delimiter is matched at its start, whatever follows. */
  lemma StartsWithExtends(a: string, t: string, d: string)
    requires StartsWith(a, d)
    ensures StartsWith(a + t, d)
  {
    SliceOfPrefix(a, t, 0, |d|);
  }

  /** The lazy group finds no closing delimiter past a line terminator. */
  lemma {:induction false} FindCloseLineBound(a: string, t: string, d: string)
    requires |d| > 0 && NoLineTerminator(d) && NoLineTerminator(a) && StartsLine(t)
    ensures FindClose(a + t, d) == FindClose(a, d)
    decreases |a|
  {
    var s := a + t;
    if StartsWith(s, d) {
      DelimiterWithinLine(a, t, d);
    } else if |a| == 0 {
      assert s == t;
    } else {
      assert !StartsWith(a, d) by {
        if |d| <= |a| { SliceOfPrefix(a, t, 0, |d|); }
      }
      DropOfPrefix(a, t, 1);
      assert s[0] == a[0];
      FindCloseLineBound(a[1..], t, d);
    }
  }

  /** A pair that closes before a line terminator is found whatever follows the line. */
  lemma PairFoundBeforeLine(a: string, t: string, d: string, j: nat)
    requires |d| > 0 && NoLineTerminator(d) && NoLineTerminator(a) && StartsLine(t)
    requires StartsWith(a, d) && FindClose(a[|d|..], d) == Some(j)
    ensures StartsWith(a + t, d) && FindClose((a + t)[|d|..], d) == Some(j)
  {
    StartsWithExtends(a, t, d);
    DropOfPrefix(a, t, |d|);
    FindCloseLineBound(a[|d|..], t, d);
  }

  /** The pair a paired pass finds at the start of a line is the same whatever follows
      the line. */
  lemma PairStepBeforeLine(a: string, t: string, d: string, tag: string, j: nat, ra: string)
    requires |d| > 0 && NoLineTerminator(d) && NoLineTerminator(a) && StartsLine(t)
    requires StartsWith(a, d) && FindClose(a[|d|..], d) == Some(j)
    requires |d| + j + |d| <= |a| && ra == a[|d| + j + |d|..]
    ensures ReplacePaired(a + t, d, tag) == Open(tag) + a[|d|..|d| + j] + Close(tag) + ReplacePaired(ra + t, d, tag)
  {
    PairFoundBeforeLine(a, t, d, j);
    DropOfPrefix(a, t, |d| + j + |d|);
    SliceOfPrefix(a, t, |d|, |d| + j);
    PairedStepMatch(a + t, d, tag, j, a[|d|..|d| + j], ra + t);
  }

  /** A pair opened in the text before a line terminator. */
  lemma {:induction false} PairedLineBoundPair(a: string, t: string, d: string, tag: string, j: nat)
    requires |d| > 0 && NoLineTerminator(d) && NoLineTerminator(a) && StartsLine(t)
    requires StartsWith(a, d) && FindClose(a[|d|..], d) == Some(j)
    ensures ReplacePaired(a + t, d, tag) == ReplacePaired(a, d, tag) + ReplacePaired(t, d, tag)
    decreases |a|, 0
  {
    var ra := a[|d| + j + |d|..];
    PairStepBeforeLine(a, t, d, tag, j, ra);
    PairedStepMatch(a, d, tag, j, a[|d|..|d| + j], ra);
    assert NoLineTerminator(ra) by {
      assert forall k :: 0 <= k < |ra| ==> ra[k] == a[|d| + j + |d| + k];
    }
    PairedLineBound(ra, t, d, tag);
    ConcatRegroup(Open(tag) + a[|d|..|d| + j] + Close(tag), ReplacePaired(ra, d, tag), ReplacePaired(t, d, tag));
  }

  /** No pair opens at the start of the text before a line terminator. */
  lemma {:induction false} PairedLineBoundSkip(a: string, t: string, d: string, tag: string)
    requires |d| > 0 && NoLineTerminator(d) && NoLineTerminator(a) && StartsLine(t)
    requires |a| > 0 && (!StartsWith(a, d) || FindClose(a[|d|..], d).None?)
    ensures ReplacePaired(a + t, d, tag) == ReplacePaired(a, d, tag) + ReplacePaired(t, d, tag)
    decreases |a|, 0
  {
    var s := a + t;
    assert !StartsWith(s, d) || FindClose(s[|d|..], d).None? by {
      if StartsWith(s, d) {
        DelimiterWithinLine(a, t, d);
        DropOfPrefix(a, t, |d|);
        FindCloseLineBound(a[|d|..], t, d);
      }
    }
    DropOfPrefix(a, t, 1);
    assert s[0] == a[0];
    PairedStepSkip(s, d, tag, a[1..] + t);
    PairedStepSkip(a, d, tag, a[1..]);
    PairedLineBound(a[1..], t, d, tag);
    ConcatRegroup([a[0]], ReplacePaired(a[1..], d, tag), ReplacePaired(t, d, tag));
  }

  lemma PairedEmptyFront(a: string, t: string, d: string, tag: string)
    requires |d| > 0 && |a| == 0
    ensures ReplacePaired(a + t, d, tag) == ReplacePaired(a, d, tag) + ReplacePaired(t, d, tag)
  {
    assert a + t == t;
  }

  /** Paired markup never spans a line terminator: a paired pass treats the text before
      a line terminator and the text from it on separately. */
  lemma {:induction false} PairedLineBound(a: string, t: string, d: string, tag: string)
    requires |d| > 0 && NoLineTerminator(d) && NoLineTerminator(a) && StartsLine(t)
    ensures ReplacePaired(a + t, d, tag) == ReplacePaired(a, d, tag) + ReplacePaired(t, d, tag)
    decreases |a|, 1
  {
    if |a| == 0 {
      PairedEmptyFront(a, t, d, tag);
    } else {
      var opens := StartsWith(a, d);
      var m := if opens then FindClose(a[|d|..], d) else None;
      if m.Some? {
        PairedLineBoundPair(a, t, d, tag, m.value);
      } else {
        PairedLineBoundSkip(a, t, d, tag);
      }
    }
  }

  /** A line terminator is copied by a paired pass, which resumes right after it. */
  lemma PairedAtTerminator(c: char, b: string, d: string, tag: string)
    requires |d| > 0 && NoLineTerminator(d) && IsLineTerminator(c)
    ensures ReplacePaired([c] + b, d, tag) == [c] + ReplacePaired(b, d, tag)
  {
    var t := [c] + b;
    assert !StartsWith(t, d) by { assert t[0] == c; }
    assert t[1..] == b;
    PairedStepSkip(t, d, tag, b);
  }

  /** A piece of a line is on one line. */
  lemma LineFreeSlice(s: string, i: nat, k: nat)
    requires i <= k <= |s| && NoLineTerminator(s)
    ensures NoLineTerminator(s[i..k])
  {
    assert forall n :: 0 <= n < k - i ==> s[i..k][n] == s[i + n];
  }

  /** A paired pass adds no line terminator to a line. */
  lemma {:induction false} PairedKeepsLine(s: string, d: string, tag: string)
    requires |d| > 0 && NoLineTerminator(s) && NoLineTerminator(tag)
    ensures NoLineTerminator(ReplacePaired(s, d, tag))
    decreases |s|, 1
  {
    if |s| > 0 {
      var opens := StartsWith(s, d);
      var m := if opens then FindClose(s[|d|..], d) else None;
      if m.Some? {
        PairedKeepsLinePair(s, d, tag, m.value);
      } else {
        PairedStepSkip(s, d, tag, s[1..]);
        LineFreeSlice(s, 1, |s|);
        assert s[1..|s|] == s[1..];
        PairedKeepsLine(s[1..], d, tag);
        LineFreeSlice(s, 0, 1);
        assert s[0..1] == [s[0]];
        LineFreeConcat([s[0]], ReplacePaired(s[1..], d, tag));
      }
    }
  }

  lemma {:induction false} PairedKeepsLinePair(s: string, d: string, tag: string, j: nat)
    requires |d| > 0 && NoLineTerminator(s) && NoLineTerminator(tag)
    requires StartsWith(s, d) && FindClose(s[|d|..], d) == Some(j)
    ensures NoLineTerminator(ReplacePaired(s, d, tag))
    decreases |s|, 0
  {
    var k := |d| + j + |d|;
    var x, r := s[|d|..|d| + j], s[k..];
    PairedStepMatch(s, d, tag, j, x, r);
    LineFreeSlice(s, k, |s|);
    assert s[k..|s|] == r;
    PairedKeepsLine(r, d, tag);
    LineFreeSlice(s, |d|, |d| + j);
    LineFreeConcat("<", tag);
    LineFreeConcat("<" + tag, ">");
    LineFreeConcat("</", tag);
    LineFreeConcat("</" + tag, ">");
    LineFreeWrap(Open(tag), x, Close(tag));
    LineFreeConcat(Open(tag) + x + Close(tag), ReplacePaired(r, d, tag));
  }

  /** With no delimiter character in sight the lazy group never closes. */
  lemma {:induction false} FindCloseAbsent(t: string, d: string)
    requires |d| > 0 && d[0] !in t
    ensures FindClose(t, d) == None
    decreases |t|
  {
    if |t| > 0 {
      assert !StartsWith(t, d) by { assert t[0] != d[0]; }
      if !IsLineTerminator(t[0]) {
        FindCloseAbsent(t[1..], d);
      }
    }
  }

  /** `**` with no closing `**` later on its line stays as typed. */
  lemma BoldUnclosed(x: string)
    requires '*' !in x
    ensures Bold("**" + x) == "**" + x
  {
    var s := "**" + x;
    assert s[..2] == "**" && s[2..] == x;
    FindCloseAbsent(x, "**");
    var s1 := "*" + x;
    assert s[1..] == s1;
    assert Bold(s) == [s[0]] + Bold(s1);
    assert !StartsWith(s1, "**") by {
      if |x| > 0 { assert s1[1] == x[0]; }
    }
    assert s1[1..] == x;
    assert Bold(s1) == [s1[0]] + Bold(x);
    PairedIdentity(x, "**", "strong");
  }

  /** `****` is an empty pair: `<strong></strong>`. */
  lemma FourStars()
    ensures Bold("****") == "<strong></strong>"
  {

  }

  /** The paired passes treat each line on their own and keep a line a line. */
  lemma PairedPassesByLine(a: string, c: char, b: string)
    requires NoLineTerminator(a) && IsLineTerminator(c)
    ensures PairedPasses(a + [c] + b) == PairedPasses(a) + [c] + PairedPasses(b)
    ensures NoLineTerminator(PairedPasses(a))
  {
    PairedPassByLine(a, c, b, "**", "strong");
    var a1, b1 := Bold(a), Bold(b);
    PairedPassByLine(a1, c, b1, "*", "em");
    var a2, b2 := Italic(a1), Italic(b1);
    PairedPassByLine(a2, c, b2, "_", "u");
  }

  /** One paired pass over a line, a terminator and the rest. */
  lemma PairedPassByLine(a: string, c: char, b: string, d: string, tag: string)
    requires |d| > 0 && NoLineTerminator(d) && NoLineTerminator(tag)
    requires NoLineTerminator(a) && IsLineTerminator(c)
    ensures ReplacePaired(a + [c] + b, d, tag) == ReplacePaired(a, d, tag) + [c] + ReplacePaired(b, d, tag)
    ensures NoLineTerminator(ReplacePaired(a, d, tag))
  {
    var t := [c] + b;
    assert a + [c] + b == a + t;
    PairedLineBound(a, t, d, tag);
    PairedAtTerminator(c, b, d, tag);
    ConcatRegroup(ReplacePaired(a, d, tag), [c], ReplacePaired(b, d, tag));
    PairedKeepsLine(a, d, tag);
  }

  // ---------------------------------------------------------------------------
  // The line passes

  lemma {:induction false} LineEndOfLine(s: string)
    requires NoLineTerminator(s)
    ensures LineEnd(s) == |s|
    decreases |s|
  {
    if |s| > 0 {
      assert !IsLineTerminator(s[0]);
      assert forall k :: 0 <= k < |s| - 1 ==> s[1..][k] == s[k + 1];
      LineEndOfLine(s[1..]);
    }
  }

  /** On text without a terminator a line pass rewrites that single line. */
  lemma ApplyLineRuleOneLine(s: string, rule: LineRule)
    requires NoLineTerminator(s)
    ensures ApplyLineRule(s, rule) == RewriteLine(rule, s)
  {
    LineEndOfLine(s);
  }

  lemma LineFreeConcat(a: string, b: string)
    ensures NoLineTerminator(a + b) <==> NoLineTerminator(a) && NoLineTerminator(b)
  {
    assert forall k :: 0 <= k < |a| ==> a[k] == (a + b)[k];
    assert forall k :: 0 <= k < |b| ==> b[k] == (a + b)[|a| + k];
    if NoLineTerminator(a) && NoLineTerminator(b) {
      forall k | 0 <= k < |a + b| ensures !IsLineTerminator((a + b)[k]) {
        if k >= |a| { assert (a + b)[k] == b[k - |a|]; }
      }
    }
  }

  lemma LineFreeWrap(open: string, x: string, close: string)
    requires NoLineTerminator(open) && NoLineTerminator(x) && NoLineTerminator(close)
    ensures NoLineTerminator(open + x + close)
  {
    LineFreeConcat(open, x);
    LineFreeConcat(open + x, close);
  }

  /** The markup the line rules insert holds no line terminator. */
  lemma HeadingOpenLineFree(level: string, size: string, weight: string, margin: string)
    requires NoLineTerminator(level) && NoLineTerminator(size)
    requires NoLineTerminator(weight) && NoLineTerminator(margin)
    ensures NoLineTerminator(HeadingOpen(level, size, weight, margin))
  {
    var x1 := "<h" + level;
    LineFreeConcat("<h", level);
    var x2 := x1 + " style=\"font-size: ";
    LineFreeConcat(x1, " style=\"font-size: ");
    var x3 := x2 + size;
    LineFreeConcat(x2, size);
    var x4 := x3 + "; font-weight: ";
    LineFreeConcat(x3, "; font-weight: ");
    var x5 := x4 + weight;
    LineFreeConcat(x4, weight);
    var x6 := x5 + "; margin: ";
    LineFreeConcat(x5, "; margin: ");
    var x7 := x6 + margin;
    LineFreeConcat(x6, margin);
    LineFreeConcat(x7, ";\">");
  }

  lemma ItemLineFree() ensures NoLineTerminator(ItemOpen) && NoLineTerminator(ItemClose) { }

  lemma HeadingKeepsLine(line: string, marker: string, open: string, close: string)
    requires NoLineTerminator(line) && NoLineTerminator(open) && NoLineTerminator(close)
    ensures NoLineTerminator(HeadingLine(line, marker, open, close))
  {
    if StartsWith(line, marker) && |line| > |marker| {
      assert forall k :: 0 <= k < |line| - |marker| ==> line[|marker|..][k] == line[|marker| + k];
      LineFreeWrap(open, line[|marker|..], close);
    }
  }

  /** Rewriting a line never introduces a line terminator. */
  lemma RewriteKeepsLine(rule: LineRule, line: string)
    requires NoLineTerminator(line)
    ensures NoLineTerminator(RewriteLine(rule, line))
  {
    match rule
    case H3 =>
      HeadingOpenLineFree("3", "1.25rem", "600", "0.5rem 0");
      HeadingKeepsLine(line, "### ", H3Open, "</h3>");
    case H2 =>
      HeadingOpenLineFree("2", "1.5rem", "700", "0.75rem 0");
      HeadingKeepsLine(line, "## ", H2Open, "</h2>");
    case H1 =>
      HeadingOpenLineFree("1", "1.875rem", "800", "1rem 0");
      HeadingKeepsLine(line, "# ", H1Open, "</h1>");
    case OrderedItem =>
      ItemLineFree();
      LineFreeWrap(ItemOpen, line, ItemClose);
    case BulletItem =>
      ItemLineFree();
      LineFreeWrap(ItemOpen, line, ItemClose);
  }

  /** A line pass rewrites the first line and carries on after its terminator; the
      rewritten line is still one line. */
  lemma ApplyLineRuleSplits(a: string, c: char, b: string, rule: LineRule)
    requires NoLineTerminator(a) && IsLineTerminator(c)
    ensures ApplyLineRule(a + [c] + b, rule) == RewriteLine(rule, a) + [c] + ApplyLineRule(b, rule)
    ensures NoLineTerminator(RewriteLine(rule, a))
  {
    var s := a + [c] + b;
    var n := LineEnd(s);
    assert forall k :: 0 <= k < |a| ==> s[k] == a[k] && !IsLineTerminator(s[k]);
    assert s[|a|] == c;
    assert forall k :: 0 <= k < n ==> s[..n][k] == s[k] && !IsLineTerminator(s[k]);
    assert n == |a|;
    assert s[..n] == a && s[n + 1..] == b;
    RewriteKeepsLine(rule, a);
  }

  /** The five line rules applied to one line. */
  function RewriteAll(line: string): string {
    RewriteLine(BulletItem, RewriteLine(OrderedItem, RewriteLine(H1, RewriteLine(H2, RewriteLine(H3, line)))))
  }

  /** On a single line the line passes apply each rule once and keep it a line. */
  lemma LinePassesOneLine(s: string)
    requires NoLineTerminator(s)
    ensures LinePasses(s) == RewriteAll(s)
    ensures NoLineTerminator(RewriteAll(s))
  {
    var x := s;
    ApplyLineRuleOneLine(x, H3);
    RewriteKeepsLine(H3, x);
    x := RewriteLine(H3, x);
    ApplyLineRuleOneLine(x, H2);
    RewriteKeepsLine(H2, x);
    x := RewriteLine(H2, x);
    ApplyLineRuleOneLine(x, H1);
    RewriteKeepsLine(H1, x);
    x := RewriteLine(H1, x);
    ApplyLineRuleOneLine(x, OrderedItem);
    RewriteKeepsLine(OrderedItem, x);
    x := RewriteLine(OrderedItem, x);
    ApplyLineRuleOneLine(x, BulletItem);
    RewriteKeepsLine(BulletItem, x);
  }

  /** The line passes rewrite the first line and carry on after its terminator. */
  lemma LinePassesByLine(a: string, c: char, b: string)
    requires NoLineTerminator(a) && IsLineTerminator(c)
    ensures LinePasses(a + [c] + b) == RewriteAll(a) + [c] + LinePasses(b)
  {
    var x, y := a, b;
    ApplyLineRuleSplits(x, c, y, H3);
    x, y := RewriteLine(H3, x), ApplyLineRule(y, H3);
    ApplyLineRuleSplits(x, c, y, H2);
    x, y := RewriteLine(H2, x), ApplyLineRule(y, H2);
    ApplyLineRuleSplits(x, c, y, H1);
    x, y := RewriteLine(H1, x), ApplyLineRule(y, H1);
    ApplyLineRuleSplits(x, c, y, OrderedItem);
    x, y := RewriteLine(OrderedItem, x), ApplyLineRule(y, OrderedItem);
    ApplyLineRuleSplits(x, c, y, BulletItem);
  }

  // ---------------------------------------------------------------------------
  // The whole chain

  lemma {:induction false} BreakLinesConcat(x: string, y: string)
    ensures BreakLines(x + y) == BreakLines(x) + BreakLines(y)
    decreases |x|
  {
    if |x| > 0 {
      assert (x + y)[1..] == x[1..] + y;
      BreakLinesConcat(x[1..], y);
    } else {
      assert x + y == y;
    }
  }

  lemma {:induction false} BreakLinesIdentity(s: string)
    requires '\n' !in s
    ensures BreakLines(s) == s
    decreases |s|
  {
    if |s| > 0 {
      assert s[0] != '\n';
      assert forall k :: 0 <= k < |s| - 1 ==> s[1..][k] == s[k + 1];
      BreakLinesIdentity(s[1..]);
    }
  }

  /** Rendering a single line: the three paired passes, then each line rule once, and
      no `<br>`. */
  lemma RenderOneLine(s: string)
    requires NoLineTerminator(s)
    ensures Render(s) == RewriteAll(PairedPasses(s))
  {
    PairedKeepsLine(s, "**", "strong");
    PairedKeepsLine(Bold(s), "*", "em");
    PairedKeepsLine(Italic(Bold(s)), "_", "u");
    var p := PairedPasses(s);
    LinePassesOneLine(p);
    BreakLinesIdentity(RewriteAll(p));
  }

  /** `renderMarkdown` works line by line: a line terminator separates the rendering of
      the line before it from the rendering of the rest, and turns into `<br>` when it
      is a newline. */
  lemma RenderByLine(a: string, c: char, b: string)
    requires NoLineTerminator(a) && IsLineTerminator(c)
    ensures Render(a + [c] + b) == Render(a) + BreakLines([c]) + Render(b)
  {
    PairedPassesByLine(a, c, b);
    var pa, pb := PairedPasses(a), PairedPasses(b);
    LinePassesByLine(pa, c, pb);
    LinePassesOneLine(pa);
    var la, lb := RewriteAll(pa), LinePasses(pb);
    BreakLinesConcat(la + [c], lb);
    BreakLinesConcat(la, [c]);
  }

  // ---------------------------------------------------------------------------
  // What the chain makes of single lines

  /** A paired pass never empties a non-empty text. */
  lemma PairedNonEmpty(s: string, d: string, tag: string)
    requires |d| > 0 && s != []
    ensures ReplacePaired(s, d, tag) != []
  {
  }

  /** Text holding neither `*` nor `_` goes through the paired passes unchanged, and a
      prefix holding neither is carried in front of the rest. */
  lemma PairedPassesPrefix(p: string, t: string)
    requires '*' !in p && '_' !in p
    ensures PairedPasses(p + t) == p + PairedPasses(t)
    ensures t != [] ==> PairedPasses(t) != []
  {
    PairedSkip(p, t, "**", "strong");
    PairedSkip(p, Bold(t), "*", "em");
    PairedSkip(p, Italic(Bold(t)), "_", "u");
    if t != [] {
      PairedNonEmpty(t, "**", "strong");
      PairedNonEmpty(Bold(t), "*", "em");
      PairedNonEmpty(Italic(Bold(t)), "_", "u");
    }
  }

  /** A line none of the five line rules can start on. */
  predicate InertStart(line: string) {
    line == [] || (line[0] != '#' && line[0] != '•' && !IsDigit(line[0]))
  }

  /** A line that differs from a prefix at some position does not start with it. */
  lemma PrefixMisses(line: string, m: string, k: nat)
    requires k < |m| && k < |line| && line[k] != m[k]
    ensures !StartsWith(line, m)
  {
    assert |m| <= |line| ==> line[..|m|][k] == line[k];
  }

  /** No line rule touches a line that starts inertly. */
  lemma RewriteInert(rule: LineRule, line: string)
    requires InertStart(line)
    ensures RewriteLine(rule, line) == line
  {
    if |line| > 0 {
      match rule
      case H3 => PrefixMisses(line, "### ", 0);
      case H2 => PrefixMisses(line, "## ", 0);
      case H1 => PrefixMisses(line, "# ", 0);
      case OrderedItem => assert DigitRun(line) == 0;
      case BulletItem => PrefixMisses(line, Bullet, 0);
    }
  }

  /** Once a line starts with `<` the later line passes leave it alone. */
  lemma TaggedLineStays(line: string)
    requires |line| > 0 && line[0] == '<'
    ensures RewriteLine(H2, line) == line && RewriteLine(H1, line) == line
    ensures RewriteLine(OrderedItem, line) == line && RewriteLine(BulletItem, line) == line
  {
    RewriteInert(H2, line);
    RewriteInert(H1, line);
    RewriteInert(OrderedItem, line);
    RewriteInert(BulletItem, line);
  }

  /** A heading pattern matches a line made of its marker and a non-empty rest. */
  lemma HeadingMatches(marker: string, t: string, open: string, close: string)
    requires t != []
    ensures HeadingLine(marker + t, marker, open, close) == open + t + close
  {
    assert (marker + t)[..|marker|] == marker;
    assert (marker + t)[|marker|..] == t;
  }

  /** A heading pattern misses a line that differs from its marker at some position. */
  lemma HeadingMisses(line: string, marker: string, open: string, close: string, k: nat)
    requires k < |marker| && k < |line| && line[k] != marker[k]
    ensures HeadingLine(line, marker, open, close) == line
  {
    PrefixMisses(line, marker, k);
  }

  /** A line holding no markup character, whose start no line rule matches, renders as
      typed: `<`, `&` and quotes come out unescaped. */
  lemma RenderPlain(s: string)
    requires '*' !in s && '_' !in s && NoLineTerminator(s) && InertStart(s)
    ensures Render(s) == s
  {
    PairedPassesPrefix(s, []);
    assert s + [] == s;
    RenderOneLine(s);
    RewriteInert(H3, s);
    RewriteInert(H2, s);
    RewriteInert(H1, s);
    RewriteInert(OrderedItem, s);
    RewriteInert(BulletItem, s);
  }

  /** An empty prompt previews the placeholder sentence as it is. */
  lemma PreviewEmpty()
    ensures Preview([]) == Placeholder
  {
    PlaceholderPlain();
    RenderPlain(Placeholder);
  }

  lemma PlaceholderPlain()
    ensures '*' !in Placeholder && '_' !in Placeholder
    ensures NoLineTerminator(Placeholder) && InertStart(Placeholder)
  {
  }

  /** Text free of `*` and `_` passes italic and underline unchanged. */
  lemma LaterPairedIdentity(b: string)
    requires '*' !in b && '_' !in b
    ensures Underline(Italic(b)) == b
  {
    PairedIdentity(b, "*", "em");
    PairedIdentity(b, "_", "u");
  }

  /** `**x**` with x on one line and free of `*` is a strong element. */
  lemma BoldWraps(x: string)
    requires '*' !in x && NoLineTerminator(x)
    ensures Bold("**" + x + "**") == "<strong>" + x + "</strong>"
  {
    var s := "**" + x + "**";
    PairedWraps(x, [], "**", "strong");
    assert s + [] == s;
    assert Open("strong") == "<strong>" && Close("strong") == "</strong>";
  }

  /** The paired passes turn `**x**`, x free of `*` and `_` and on one line, into a
      strong element: bold runs first, so italic and underline find nothing left. */
  lemma PairedStrong(x: string)
    requires '*' !in x && '_' !in x && NoLineTerminator(x)
    ensures PairedPasses("**" + x + "**") == "<strong>" + x + "</strong>"
  {
    BoldWraps(x);
    var b := "<strong>" + x + "</strong>";
    assert '*' !in b && '_' !in b;
    LaterPairedIdentity(b);
  }

  /** `**x**` on one line renders as a strong element and nothing more. */
  lemma RenderStrong(x: string)
    requires '*' !in x && '_' !in x && NoLineTerminator(x)
    ensures Render("**" + x + "**") == "<strong>" + x + "</strong>"
  {
    var s := "**" + x + "**";
    PairedStrong(x);
    LineFreeWrap("**", x, "**");
    RenderOneLine(s);
    var b := "<strong>" + x + "</strong>";
    RewriteInert(H3, b);
    TaggedLineStays(b);
  }

  /** Rendering one line comes down to the line rules on its paired-pass output. */
  lemma RenderLine(s: string, p: string, e: string)
    requires NoLineTerminator(s) && p == PairedPasses(s) && RewriteAll(p) == e
    ensures Render(s) == e
  {
    RenderOneLine(s);
  }

  /** The line rules on `### p`: h3 matches, and the rest see a tag at the start. */
  lemma H3Rewrites(p: string)
    requires p != []
    ensures RewriteAll("### " + p) == H3Open + p + "</h3>"
  {
    var h := H3Open + p + "</h3>";
    HeadingMatches("### ", p, H3Open, "</h3>");
    assert h[0] == '<';
    TaggedLineStays(h);
  }

  /** The line rules on `## p`: h3 misses, h2 matches. */
  lemma H2Rewrites(p: string)
    requires p != []
    ensures RewriteAll("## " + p) == H2Open + p + "</h2>"
  {
    HeadingMisses("## " + p, "### ", H3Open, "</h3>", 2);
    var h := H2Open + p + "</h2>";
    HeadingMatches("## ", p, H2Open, "</h2>");
    assert h[0] == '<';
    TaggedLineStays(h);
  }

  /** The line rules on `# p`: h3 and h2 miss, h1 matches. */
  lemma H1Rewrites(p: string)
    requires p != []
    ensures RewriteAll("# " + p) == H1Open + p + "</h1>"
  {
    var q := "# " + p;
    HeadingMisses(q, "### ", H3Open, "</h3>", 1);
    HeadingMisses(q, "## ", H2Open, "</h2>", 1);
    var h := H1Open + p + "</h1>";
    HeadingMatches("# ", p, H1Open, "</h1>");
    assert h[0] == '<';
    TaggedLineStays(h);
  }

  /** The line markers hold no line terminator. */
  lemma MarkersLineFree()
    ensures NoLineTerminator("### ") && NoLineTerminator("## ") && NoLineTerminator("# ")
    ensures NoLineTerminator(Bullet)
  {
  }

  /** A marker followed by the rest of its line is one line. */
  lemma MarkedLine(m: string, t: string)
    requires NoLineTerminator(m) && NoLineTerminator(t)
    ensures NoLineTerminator(m + t)
  {
    LineFreeConcat(m, t);
  }

  /** `### t` becomes the styled h3 around the rest of the line; the h2 and h1 passes
      that run afterwards leave it alone. */
  lemma RenderH3(t: string)
    requires t != [] && NoLineTerminator(t)
    ensures Render("### " + t) == H3Open + PairedPasses(t) + "</h3>"
  {
    PairedPassesPrefix("### ", t);
    MarkersLineFree();
    MarkedLine("### ", t);
    H3Rewrites(PairedPasses(t));
    RenderLine("### " + t, "### " + PairedPasses(t), H3Open + PairedPasses(t) + "</h3>");
  }

  /** `## t` becomes the styled h2; the h3 pass before it does not match. */
  lemma RenderH2(t: string)
    requires t != [] && NoLineTerminator(t)
    ensures Render("## " + t) == H2Open + PairedPasses(t) + "</h2>"
  {
    PairedPassesPrefix("## ", t);
    MarkersLineFree();
    MarkedLine("## ", t);
    H2Rewrites(PairedPasses(t));
    RenderLine("## " + t, "## " + PairedPasses(t), H2Open + PairedPasses(t) + "</h2>");
  }

  /** `# t` becomes the styled h1; the h3 and h2 passes before it do not match. */
  lemma RenderH1(t: string)
    requires t != [] && NoLineTerminator(t)
    ensures Render("# " + t) == H1Open + PairedPasses(t) + "</h1>"
  {
    PairedPassesPrefix("# ", t);
    MarkersLineFree();
    MarkedLine("# ", t);
    H1Rewrites(PairedPasses(t));
    RenderLine("# " + t, "# " + PairedPasses(t), H1Open + PairedPasses(t) + "</h1>");
  }

  /** The line rules on an ordered item: no heading marker, so only the item rule
      matches. */
  lemma OrderedItemRewrites(p: string)
    requires IsOrderedItem(p)
    ensures RewriteAll(p) == ItemOpen + p + ItemClose
  {
    assert IsDigit(p[0]);
    HeadingMisses(p, "### ", H3Open, "</h3>", 0);
    HeadingMisses(p, "## ", H2Open, "</h2>", 0);
    HeadingMisses(p, "# ", H1Open, "</h1>", 0);
    var w := ItemOpen + p + ItemClose;
    assert w[0] == '<';
    TaggedLineStays(w);
  }

  /** A line `N. rest` is wrapped whole in the indented div: the number is kept as
      typed, never recomputed. */
  lemma RenderOrderedItem(line: string)
    requires NoLineTerminator(line) && IsOrderedItem(PairedPasses(line))
    ensures Render(line) == ItemOpen + PairedPasses(line) + ItemClose
  {
    OrderedItemRewrites(PairedPasses(line));
    RenderLine(line, PairedPasses(line), ItemOpen + PairedPasses(line) + ItemClose);
  }

  /** The line rules on `• p`: no heading or number marker, so only the bullet rule
      matches. */
  lemma BulletRewrites(p: string)
    requires p != []
    ensures RewriteAll(Bullet + p) == ItemOpen + Bullet + p + ItemClose
  {
    var q := Bullet + p;
    assert q[0] == '•' && q[..2] == Bullet;
    HeadingMisses(q, "### ", H3Open, "</h3>", 0);
    HeadingMisses(q, "## ", H2Open, "</h2>", 0);
    HeadingMisses(q, "# ", H1Open, "</h1>", 0);
    assert DigitRun(q) == 0;
    assert RewriteLine(BulletItem, q) == ItemOpen + q + ItemClose;
    assert ItemOpen + q + ItemClose == ItemOpen + Bullet + p + ItemClose;
  }

  /** A line `• rest` is wrapped whole in the indented div, bullet included. */
  lemma RenderBulletItem(t: string)
    requires t != [] && NoLineTerminator(t)
    ensures Render(Bullet + t) == ItemOpen + Bullet + PairedPasses(t) + ItemClose
  {
    PairedPassesPrefix(Bullet, t);
    MarkersLineFree();
    MarkedLine(Bullet, t);
    BulletRewrites(PairedPasses(t));
    RenderLine(Bullet + t, Bullet + PairedPasses(t), ItemOpen + Bullet + PairedPasses(t) + ItemClose);
  }
}
