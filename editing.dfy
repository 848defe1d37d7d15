/**
 * The editing side of the prompt styler: the toolbar helpers that splice markdown
 * into the prompt around the textarea selection (`insertMarkdown`, `insertList`,
 * `insertOrderedList`), as functions of the prompt and the selection.
 *
 * A textarea selection is a pair start <= end within the prompt; the helpers only run
 * once the textarea exists, and their cursor update (deferred with `setTimeout` in the
 * component) is applied together with the new text here.
 */
module Editing {
  import opened Wrappers
  import opened JsText
  import Markdown

  /** The prompt after an edit together with the selection the textarea gets. */
  datatype Edit = Edit(text: string, selStart: nat, selEnd: nat)

  // ---------------------------------------------------------------------------
  // insertMarkdown

  /** `insertMarkdown(m)`: a non-empty selection is wrapped in `m` on both sides, an
      empty one gets `m + m` at the cursor; the selection moves right by |m|. */
  function InsertMarkdown(text: string, start: nat, end: nat, m: string): (r: Edit)
    requires start <= end <= |text|
    ensures |r.text| == |text| + 2 * |m|
    ensures r.selStart == start + |m| && r.selEnd == end + |m| && r.selEnd + |m| <= |r.text|
    ensures r.text[..start] == text[..start] && r.text[r.selEnd + |m|..] == text[end..]
    ensures r.text[start..r.selStart] == m && r.text[r.selEnd..r.selEnd + |m|] == m
    ensures r.text[r.selStart..r.selEnd] == text[start..end]
  {
    var pre, sel, post := text[..start], text[start..end], text[end..];
    var t := if sel != [] then pre + m + sel + m + post else pre + m + m + text[start..];
    assert t == pre + m + sel + m + post;
    Edit(t, start + |m|, end + |m|)
  }

  /** Taking the two markers out again gives back the prompt as it was. */
  lemma InsertMarkdownUndo(text: string, start: nat, end: nat, m: string)
    requires start <= end <= |text|
    ensures var r := InsertMarkdown(text, start, end, m);
      r.text[..start] + r.text[r.selStart..r.selEnd] + r.text[r.selEnd + |m|..] == text
  {
    var r := InsertMarkdown(text, start, end, m);
    assert text == text[..start] + text[start..end] + text[end..];
  }

  /** The H1 button on an empty prompt inserts its marker twice: `# # `. */
  lemma HeadingOnEmptyPrompt()
    ensures InsertMarkdown([], 0, 0, "# ") == Edit("# # ", 2, 2)
  {
  }

  /** The bold button on a one-line prompt, wholly selected and free of `*` and `_`,
      makes the preview show it as a strong element. */
  lemma BoldButtonRenders(x: string)
    requires '*' !in x && '_' !in x && NoLineTerminator(x)
    ensures Markdown.Render(InsertMarkdown(x, 0, |x|, "**").text) == "<strong>" + x + "</strong>"
  {
    var r := InsertMarkdown(x, 0, |x|, "**");
    assert r.text == "**" + x + "**" by {
      assert r.text == r.text[..0] + r.text[0..2] + r.text[2..|x| + 2] + r.text[|x| + 2..|x| + 4] + r.text[|x| + 4..];
      assert x[0..|x|] == x;
    }
    Markdown.RenderStrong(x);
  }

  // ---------------------------------------------------------------------------
  // insertList

  /** One selected line as `insertList` rewrites it: trimmed and prefixed when
      something is left after trimming, kept as it is otherwise. */
  function ListLine(line: string, listType: string): string {
    if Trim(line) != [] then listType + Trim(line) else line
  }

  function ListLines(lines: seq<string>, listType: string): seq<string> {
    seq(|lines|, k requires 0 <= k < |lines| => ListLine(lines[k], listType))
  }

  /** The selection rewritten line by line (`split('\n').map(…).join('\n')`). */
  function ListItems(sel: string, listType: string): string {
    Join(ListLines(Split(sel, '\n'), listType), '\n')
  }

  /** The list items hold exactly as many lines as the selection, line k of the items
      being line k of the selection rewritten. */
  lemma ListItemsLines(sel: string, listType: string)
    requires '\n' !in listType
    ensures Split(ListItems(sel, listType), '\n') == ListLines(Split(sel, '\n'), listType)
    ensures |Split(ListItems(sel, listType), '\n')| == |Split(sel, '\n')|
  {
    var lines := Split(sel, '\n');
    var items := ListLines(lines, listType);
    forall k | 0 <= k < |items| ensures '\n' !in items[k] {
      var t := Trim(lines[k]);
      assert '\n' !in lines[k];
      forall i | 0 <= i < |t| ensures t[i] != '\n' {
        assert t[i] in lines[k];
      }
      var u := listType + t;
      forall i | 0 <= i < |u| ensures u[i] != '\n' {
        if i >= |listType| { assert u[i] == t[i - |listType|]; }
      }
    }
    SplitJoin(items, '\n');
  }

  /** The list marker goes on a line of its own: a newline is needed unless the text
      before the cursor is empty or already ends with one. */
  predicate NeedsNewLine(before: string) {
    |before| > 0 && !EndsWith(before, "\n")
  }

  /** `insertList(listType)`. With a selection the selected lines become list items and
      the cursor goes right after them; without one the marker is inserted at the
      cursor, on a new line when needed, and the cursor goes right after it. */
  function InsertList(text: string, start: nat, end: nat, listType: string): (r: Edit)
    requires start <= end <= |text|
    ensures start <= r.selStart == r.selEnd <= |r.text|
    ensures r.text[..start] == text[..start] && r.text[r.selEnd..] == text[end..]
    ensures start < end ==> r.text[start..r.selEnd] == ListItems(text[start..end], listType)
    ensures start == end ==> r.text[start..r.selEnd] == (if NeedsNewLine(text[..start]) then "\n" else "") + listType
  {
    var pre, post := text[..start], text[end..];
    if start < end then
      var items := ListItems(text[start..end], listType);
      var t := pre + items + post;
      assert t[..start] == pre && t[start..start + |items|] == items && t[start + |items|..] == post;
      Edit(t, start + |items|, start + |items|)
    else
      var ins := (if NeedsNewLine(pre) then "\n" else "") + listType;
      var t := pre + ins + text[start..];
      assert t[..start] == pre && t[start..start + |ins|] == ins && t[start + |ins|..] == post;
      Edit(t, start + |ins|, start + |ins|)
  }

  /** Without a selection the inserted marker starts a line, and the prompt grows by the
      marker plus one newline exactly when the text before the cursor needed one. */
  lemma InsertListMarkerStartsLine(text: string, start: nat, listType: string)
    requires start <= |text|
    ensures var r := InsertList(text, start, start, listType);
      var p := r.selEnd - |listType|;
      0 <= p && r.text[p..r.selEnd] == listType && (p == 0 || r.text[p - 1] == '\n')
      && |r.text| == |text| + |listType| + (if NeedsNewLine(text[..start]) then 1 else 0)
  {
    var r := InsertList(text, start, start, listType);
    var nl := NeedsNewLine(text[..start]);
    var p := r.selEnd - |listType|;
    var ins := (if nl then "\n" else "") + listType;
    assert r.text[start..r.selEnd] == ins;
    assert r.text[p..r.selEnd] == ins[|ins| - |listType|..];
    assert |r.text| == |r.text[..start]| + |r.text[start..r.selEnd]| + |r.text[r.selEnd..]| by {
      assert r.text == r.text[..start] + r.text[start..r.selEnd] + r.text[r.selEnd..];
    }
    if p > 0 {
      if nl {
        assert r.text[p - 1] == r.text[start..r.selEnd][0];
      } else {
        assert p == start;
        var pre := text[..start];
        assert pre[|pre| - 1] == r.text[..start][p - 1];
        assert pre[|pre| - 1..] == "\n";
      }
    }
  }

  /** The cursor `insertList` computes after rewriting a selection, as written:
      `start + newText.substring(start).indexOf(selectedText) + selectedText.length`. */
  function InsertListCursorAsWritten(text: string, start: nat, end: nat, listType: string): (c: int)
    requires start <= end <= |text|
    ensures start < end && IndexOf(InsertList(text, start, end, listType).text[start..], text[start..end]) == -1
      ==> c == start + (end - start) - 1
  {
    var sel := text[start..end];
    var t := InsertList(text, start, end, listType).text;
    start + IndexOf(t[start..], sel) + |sel|
  }

  /** Selecting two one-character lines `c` and `e` and pressing the bullet button: the
      selection no longer occurs once its lines carry bullets, `indexOf` answers -1 and
      the cursor lands at 2, inside the first item, instead of after the items, at 7. */
  lemma InsertListCursorMisplaced(c: char, e: char)
    requires '!' <= c <= '~' && '!' <= e <= '~'
    ensures var sel := [c, '\n', e];
      InsertList(sel, 0, 3, Markdown.Bullet) == Edit(['•', ' ', c, '\n', '•', ' ', e], 7, 7)
      && InsertListCursorAsWritten(sel, 0, 3, Markdown.Bullet) == 2
  {
    var sel := [c, '\n', e];
    var t := ['•', ' ', c, '\n', '•', ' ', e];
    TwoBullets(c, e);
    assert sel[0..3] == sel;
    var r := InsertList(sel, 0, 3, Markdown.Bullet);
    assert r.text == t by {
      assert r.text == r.text[..0] + r.text[0..r.selEnd] + r.text[r.selEnd..];
    }
    assert t[0..] == t;
    IndexOfMissing(c, e);
  }

  /** The bullet button turns the lines `c` and `e` into two bullet items. */
  lemma TwoBullets(c: char, e: char)
    requires '!' <= c <= '~' && '!' <= e <= '~'
    ensures ListItems([c, '\n', e], Markdown.Bullet) == ['•', ' ', c, '\n', '•', ' ', e]
  {
    TwoCharLines(c, e);
    BulletPerLine(c, e);
    TwoBulletLines(c, e, ListLines([[c], [e]], Markdown.Bullet));
  }

  lemma BulletPerLine(c: char, e: char)
    requires '!' <= c <= '~' && '!' <= e <= '~'
    ensures ListLines([[c], [e]], Markdown.Bullet) == [Markdown.Bullet + [c], Markdown.Bullet + [e]]
  {
    VisibleNotWhitespace(c);
    VisibleNotWhitespace(e);
    TrimUntouched([c]);
    TrimUntouched([e]);
    var lines := ListLines([[c], [e]], Markdown.Bullet);
    assert lines[0] == Markdown.Bullet + [c] && lines[1] == Markdown.Bullet + [e];
  }

  lemma TwoCharLines(c: char, e: char)
    requires c != '\n' && e != '\n'
    ensures Split([c, '\n', e], '\n') == [[c], [e]]
  {
    SplitConcat([c], [e], '\n');
    assert [c] + ['\n'] + [e] == [c, '\n', e];
    SplitWhole([c], '\n');
    SplitWhole([e], '\n');
    assert [[c]] + [[e]] == [[c], [e]];
  }

  lemma TwoBulletLines(c: char, e: char, lines: seq<string>)
    requires lines == [Markdown.Bullet + [c], Markdown.Bullet + [e]]
    ensures Join(lines, '\n') == ['•', ' ', c, '\n', '•', ' ', e]
  {
    assert Join(lines, '\n') == lines[0] + ['\n'] + Join(lines[1..], '\n');
    assert Join(lines[1..], '\n') == lines[1];
  }

  /** `c\ne` does not occur in `• c\n• e`: the only newline is followed by a bullet. */
  lemma IndexOfMissing(c: char, e: char)
    requires '!' <= e <= '~'
    ensures IndexOf(['•', ' ', c, '\n', '•', ' ', e], [c, '\n', e]) == -1
  {
    var t, sel := ['•', ' ', c, '\n', '•', ' ', e], [c, '\n', e];
    forall k | 0 <= k <= |t| ensures !OccursAt(t, sel, k) {
      if k + 3 <= |t| {
        var w := t[k..k + 3];
        assert w[1] == t[k + 1] && w[2] == t[k + 2];
      }
    }
  }

  // ---------------------------------------------------------------------------
  // insertOrderedList

  /** The number of lines whose trim starts with `digits. `. */
  function NumberedCount(lines: seq<string>): nat
    decreases |lines|
  {
    if |lines| == 0 then 0
    else (if Markdown.StartsWithOrderedMarker(Trim(lines[0])) then 1 else 0) + NumberedCount(lines[1..])
  }

  /** `insertOrderedList`: the next number is one more than the numbered lines before
      the cursor, and `insertList` inserts `N. `. */
  function OrderedMarker(text: string, start: nat): (r: string)
    requires start <= |text|
    ensures Markdown.StartsWithOrderedMarker(r)
    ensures r == NatToString(NumberedCount(Split(text[..start], '\n')) + 1) + ". "
  {
    var r := NatToString(NumberedCount(Split(text[..start], '\n')) + 1) + ". ";
    OrderedMarkerShape(NumberedCount(Split(text[..start], '\n')) + 1, []);
    assert r + [] == r;
    r
  }

  function InsertOrderedList(text: string, start: nat, end: nat): (r: Edit)
    requires start <= end <= |text|
    ensures start <= r.selStart == r.selEnd <= |r.text|
    ensures r.text[..start] == text[..start] && r.text[r.selEnd..] == text[end..]
    ensures start < end ==> r.text[start..r.selEnd] == ListItems(text[start..end], OrderedMarker(text, start))
    ensures start == end ==> r.text[start..r.selEnd] == (if NeedsNewLine(text[..start]) then "\n" else "") + OrderedMarker(text, start)
  {
    InsertList(text, start, end, OrderedMarker(text, start))
  }

  /** Read back in decimal, the number of the inserted marker is one more than the
      numbered lines before the cursor. */
  lemma OrderedMarkerNumber(text: string, start: nat)
    requires start <= |text|
    ensures var r := OrderedMarker(text, start);
      |r| >= 3 && r[|r| - 2..] == ". " && AllDigits(r[..|r| - 2])
      && DecimalValue(r[..|r| - 2]) == NumberedCount(Split(text[..start], '\n')) + 1
  {
    var n := NumberedCount(Split(text[..start], '\n')) + 1;
    var d := NatToString(n);
    var r := OrderedMarker(text, start);
    assert r[..|r| - 2] == d && r[|r| - 2..] == ". ";
    DecimalRoundTrip(n);
  }

  /** The digits of a number, then `. ` and anything: the digit run is exactly the
      number's digits, so the line starts with an ordered-list marker. */
  lemma OrderedMarkerShape(n: nat, t: string)
    ensures Markdown.DigitRun(NatToString(n) + ". " + t) == |NatToString(n)|
    ensures Markdown.StartsWithOrderedMarker(NatToString(n) + ". " + t)
    ensures t != [] ==> Markdown.IsOrderedItem(NatToString(n) + ". " + t)
  {
    var d := NatToString(n);
    DigitRunOfDigits(d, ". " + t);
    assert NatToString(n) + ". " + t == d + (". " + t);
  }

  /** A run of digits followed by a non-digit is the whole digit run. */
  lemma {:induction false} DigitRunOfDigits(d: string, s: string)
    requires AllDigits(d) && |s| > 0 && !IsDigit(s[0])
    ensures Markdown.DigitRun(d + s) == |d|
    decreases |d|
  {
    if |d| == 0 {
      assert d + s == s;
    } else {
      assert (d + s)[0] == d[0];
      assert (d + s)[1..] == d[1..] + s;
      assert AllDigits(d[1..]) by {
        assert forall k :: 0 <= k < |d| - 1 ==> d[1..][k] == d[k + 1];
      }
      DigitRunOfDigits(d[1..], s);
    }
  }

  /** Counting numbered lines is additive over the lines before and after a newline, so
      numbered lines count wherever they are, adjacent or not. */
  lemma {:induction false} NumberedCountConcat(xs: seq<string>, ys: seq<string>)
    ensures NumberedCount(xs + ys) == NumberedCount(xs) + NumberedCount(ys)
    decreases |xs|
  {
    if |xs| == 0 {
      assert xs + ys == ys;
    } else {
      assert (xs + ys)[0] == xs[0];
      assert (xs + ys)[1..] == xs[1..] + ys;
      NumberedCountConcat(xs[1..], ys);
    }
  }

  lemma NumberedLinesAdd(a: string, b: string)
    ensures NumberedCount(Split(a + "\n" + b, '\n')) == NumberedCount(Split(a, '\n')) + NumberedCount(Split(b, '\n'))
  {
    SplitConcat(a, b, '\n');
    assert a + "\n" + b == a + ['\n'] + b;
    NumberedCountConcat(Split(a, '\n'), Split(b, '\n'));
  }

  /** A line `1. ` with nothing after the marker is not counted: trimming drops the
      space the pattern needs. */
  lemma BareMarkerNotCounted(t: string)
    requires IsBareMarker(t)
    ensures NumberedCount([t]) == 0
  {
    BareMarkerTrim(t);
    BareMarkerShape(t[..2]);
    NumberedCountOne(t);
  }

  /** The ordered-list button on an empty prompt inserts the bare marker `1. `. */
  lemma OrderedOnEmpty(empty: string)
    requires |empty| == 0
    ensures Edit("1. ", 3, 3) == InsertOrderedList(empty, 0, 0)
  {
    OrderedMarkerOnEmpty(empty);
    FirstOrderedItem(empty);
  }

  /** Pressed again right after, it numbers the second item 1 as well: the bare marker
      is not a numbered line yet, since trimming drops the space the pattern needs. */
  lemma OrderedAfterBare(t: string)
    requires IsBareMarker(t)
    ensures Edit("1. \n1. ", 7, 7) == InsertOrderedList(t, |t|, |t|)
  {
    OrderedMarkerAfterBare(t);
    SecondOrderedItem(t);
  }

  /** The text a first press leaves: the bare marker `1. `. */
  predicate IsBareMarker(t: string) {
    |t| == 3 && t[0] == '1' && t[1] == '.' && t[2] == ' '
  }

  lemma OrderedMarkerOnEmpty(empty: string)
    requires |empty| == 0
    ensures OrderedMarker(empty, 0) == "1. "
  {
    assert empty[..0] == empty;
    SplitWhole(empty, '\n');
    EmptyLineNotCounted();
    assert empty == "";
    OneMarker();
  }

  lemma OrderedMarkerAfterBare(t: string)
    requires IsBareMarker(t)
    ensures OrderedMarker(t, |t|) == "1. "
  {
    assert t[..|t|] == t;
    SplitWhole(t, '\n');
    BareMarkerNotCounted(t);
    OneMarker();
  }

  lemma OneMarker()
    ensures NatToString(1) + ". " == "1. "
  {
    assert NatToString(1) == [DigitChar(1)] && DigitChar(1) == '1';
  }

  lemma FirstOrderedItem(empty: string)
    requires |empty| == 0
    ensures InsertList(empty, 0, 0, "1. ") == Edit("1. ", 3, 3)
  {
    var r := InsertList(empty, 0, 0, "1. ");
    assert !NeedsNewLine(empty[..0]);
    assert r.text == r.text[..0] + r.text[0..r.selEnd] + r.text[r.selEnd..];
  }

  lemma SecondOrderedItem(t: string)
    requires IsBareMarker(t)
    ensures InsertList(t, |t|, |t|, "1. ") == Edit("1. \n1. ", 7, 7)
  {
    assert t[..3] == t && t[2..] == [' '];
    assert NeedsNewLine(t);
    var r := InsertList(t, 3, 3, "1. ");
    assert r.text == r.text[..3] + r.text[3..r.selEnd] + r.text[r.selEnd..];
    assert r.text == t + "\n" + "1. ";
  }

  /** A single line counts one when its trim starts with an ordered-list marker. */
  lemma NumberedCountOne(line: string)
    ensures NumberedCount([line]) == if Markdown.StartsWithOrderedMarker(Trim(line)) then 1 else 0
  {
    assert [line][1..] == [];
  }

  lemma BareMarkerTrim(t: string)
    requires IsBareMarker(t)
    ensures Trim(t) == t[..2]
  {
    TrimDropsLast(t);
    TrimUntouched(t[..2]);
  }

  lemma BareMarkerShape(u: string)
    requires |u| == 2 && u[0] == '1' && u[1] == '.'
    ensures !Markdown.StartsWithOrderedMarker(u)
  {
    assert Markdown.DigitRun(u[1..]) == 0;
    assert Markdown.DigitRun(u) == 1;
  }

  /** A line `N. x` holding a digit run, `. ` and more is counted. */
  lemma NumberedLineCounted(n: nat, x: string, line: string)
    requires x != [] && !IsJsWhitespace(x[|x| - 1]) && line == NatToString(n) + ". " + x
    ensures NumberedCount([line]) == 1
  {
    assert !IsJsWhitespace(line[0]) by { assert IsDigit(line[0]); }
    assert !IsJsWhitespace(line[|line| - 1]) by { assert line[|line| - 1] == x[|x| - 1]; }
    TrimUntouched(line);
    OrderedMarkerShape(n, x);
    NumberedCountOne(line);
  }

  /** After two numbered items, the next ordered item is numbered 3, whatever numbers
      the two items carry. */
  lemma ThirdItem(m: nat, x: string, n: nat, y: string)
    requires x != [] && '\n' !in x && !IsJsWhitespace(x[|x| - 1])
    requires y != [] && '\n' !in y && !IsJsWhitespace(y[|y| - 1])
    ensures var text := (NatToString(m) + ". " + x) + "\n" + (NatToString(n) + ". " + y) + "\n";
      OrderedMarker(text, |text|) == "3. "
  {
    var a, b := NatToString(m) + ". " + x, NatToString(n) + ". " + y;
    var text := a + "\n" + b + "\n";
    TwoItemsCounted(m, x, n, y, a, b);
    ThirdMarker(text);
  }

  lemma ThirdMarker(text: string)
    requires NumberedCount(Split(text, '\n')) == 2
    ensures OrderedMarker(text, |text|) == "3. "
  {
    OrderedMarkerAtEnd(text, 2);
    ThreeMarker();
  }

  /** At the end of the prompt, the marker counts every numbered line. */
  lemma OrderedMarkerAtEnd(text: string, k: nat)
    requires NumberedCount(Split(text, '\n')) == k
    ensures OrderedMarker(text, |text|) == NatToString(k + 1) + ". "
  {
    assert text[..|text|] == text;
  }

  lemma ThreeMarker()
    ensures NatToString(3) + ". " == "3. "
  {
    assert NatToString(3) == [DigitChar(3)] && DigitChar(3) == '3';
  }

  lemma TwoItemsCounted(m: nat, x: string, n: nat, y: string, a: string, b: string)
    requires x != [] && '\n' !in x && !IsJsWhitespace(x[|x| - 1])
    requires y != [] && '\n' !in y && !IsJsWhitespace(y[|y| - 1])
    requires a == NatToString(m) + ". " + x && b == NatToString(n) + ". " + y
    ensures NumberedCount(Split(a + "\n" + b + "\n", '\n')) == 2
  {
    NumberedLineFree(m, x);
    NumberedLineFree(n, y);
    TwoLines(a, b);
    NumberedLineCounted(m, x, a);
    NumberedLineCounted(n, y, b);
    TwoCountedLines(a, b);
  }

  lemma TwoCountedLines(a: string, b: string)
    requires NumberedCount([a]) == 1 && NumberedCount([b]) == 1
    ensures NumberedCount([a, b, ""]) == 2
  {
    NumberedCountThree(a, b, "");
    EmptyLineNotCounted();
  }

  /** A numbered line is a single line. */
  lemma NumberedLineFree(n: nat, x: string)
    requires '\n' !in x
    ensures '\n' !in NatToString(n) + ". " + x
  {
    var d := NatToString(n);
    var line := d + ". " + x;
    forall k | 0 <= k < |line| ensures line[k] != '\n' {
      if k < |d| { assert IsDigit(d[k]); }
      else if k >= |d| + 2 { assert line[k] == x[k - |d| - 2]; }
    }
  }

  /** Two lines each closed by a newline split into the two lines and an empty last
      piece. */
  lemma TwoLines(a: string, b: string)
    requires '\n' !in a && '\n' !in b
    ensures Split(a + "\n" + b + "\n", '\n') == [a, b, ""]
  {
    SplitConcat(a, b + "\n", '\n');
    assert a + ['\n'] + (b + "\n") == a + "\n" + b + "\n";
    SplitConcat(b, "", '\n');
    assert b + ['\n'] + "" == b + "\n";
    SplitWhole(a, '\n');
    SplitWhole(b, '\n');
    assert Split("", '\n') == [""];
    assert [a] + ([b] + [""]) == [a, b, ""];
  }

  lemma EmptyLineNotCounted()
    ensures NumberedCount([""]) == 0
  {
    NumberedCountOne("");
    assert Trim("") == "";
  }

  lemma NumberedCountThree(a: string, b: string, c: string)
    ensures NumberedCount([a, b, c]) == NumberedCount([a]) + NumberedCount([b]) + NumberedCount([c])
  {
    NumberedCountConcat([a], [b, c]);
    NumberedCountConcat([b], [c]);
    assert [a] + [b, c] == [a, b, c];
    assert [b] + [c] == [b, c];
  }
}
