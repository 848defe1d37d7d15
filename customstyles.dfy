/**
 * The registry of user-defined gradients and card styles: two lists kept in local
 * storage under `prompt-styler-custom-gradients` and `prompt-styler-custom-cards`,
 * loaded once, written back whenever they change after loading, appended to with a
 * time-stamped id and filtered by id; the class strings a gradient and a card style
 * stand for; and the light/dark contrast check of two colours.
 */
module CustomStyles {
  import opened Wrappers
  import opened JsText
  import opened LocalStorage
  import Registry

  datatype Direction = ToR | ToL | ToT | ToB | ToBR | ToBL | ToTR | ToTL

  function DirectionName(d: Direction): string {
    match d
    case ToR => "to-r"
    case ToL => "to-l"
    case ToT => "to-t"
    case ToB => "to-b"
    case ToBR => "to-br"
    case ToBL => "to-bl"
    case ToTR => "to-tr"
    case ToTL => "to-tl"
  }

  /** `labelText` is the interfaces' `label` field (`label` is a reserved word in Dafny). */
  datatype Gradient = Gradient(id: string, labelText: string, fromColor: string, toColor: string, direction: Direction)

  datatype Card = Card(
    id: string, labelText: string, bgColor: string, textColor: string,
    borderColor: string, borderWidth: string, borderRadius: string, shadow: string)

  function GradientId(g: Gradient): string { g.id }
  function CardId(c: Card): string { c.id }

  // ---------------------------------------------------------------------------
  // Class strings

  /** `bg-gradient-${direction} from-[${fromColor}] to-[${toColor}]`. */
  function GradientValue(g: Gradient): (r: string)
    ensures StartsWith(r, "bg-gradient-to-")
  {
    var d := DirectionName(g.direction);
    var r := "bg-gradient-" + (d + (" from-[" + (g.fromColor + ("] to-[" + (g.toColor + "]")))));
    assert r[..15] == "bg-gradient-" + d[..3];
    r
  }

  /** Cancelling a common shape `a + c…`: when neither head contains the separator `c`
      that starts both tails, the heads and the tails are equal. */
  lemma CancelAtSeparator(a1: string, x1: string, a2: string, x2: string, c: char)
    requires c !in a1 && c !in a2 && |x1| > 0 && |x2| > 0 && x1[0] == c && x2[0] == c
    requires a1 + x1 == a2 + x2
    ensures a1 == a2 && x1 == x2
  {
    FirstSeparator(a1, x1, c);
    FirstSeparator(a2, x2, c);
    assert |a1| == |a2|;
    assert a1 == (a1 + x1)[..|a1|];
    assert a2 == (a2 + x2)[..|a2|];
  }

  /** In `a + x` with `c` absent from `a` and starting `x`, the first `c` is at |a|. */
  lemma FirstSeparator(a: string, x: string, c: char)
    requires c !in a && |x| > 0 && x[0] == c
    ensures (a + x)[|a|] == c
    ensures forall k :: 0 <= k < |a| ==> (a + x)[k] != c
  {
    assert forall k :: 0 <= k < |a| ==> (a + x)[k] == a[k];
  }

  lemma DirectionNamesDistinct(d: Direction, e: Direction)
    ensures ' ' !in DirectionName(d)
    ensures DirectionName(d) == DirectionName(e) ==> d == e
  {
  }

  /** The class string determines the gradient's direction and colours, as long as the
      first colour holds no `]`. */
  lemma GradientValueInjective(g: Gradient, h: Gradient)
    requires ']' !in g.fromColor && ']' !in h.fromColor
    requires GradientValue(g) == GradientValue(h)
    ensures g.direction == h.direction && g.fromColor == h.fromColor && g.toColor == h.toColor
  {
    var p := "bg-gradient-";
    var d, e := DirectionName(g.direction), DirectionName(h.direction);
    var y1 := g.fromColor + ("] to-[" + (g.toColor + "]"));
    var y2 := h.fromColor + ("] to-[" + (h.toColor + "]"));
    var x1, x2 := " from-[" + y1, " from-[" + y2;
    assert p + (d + x1) == p + (e + x2);
    assert d + x1 == e + x2 by {
      assert d + x1 == (p + (d + x1))[|p|..];
      assert e + x2 == (p + (e + x2))[|p|..];
    }
    DirectionNamesDistinct(g.direction, h.direction);
    DirectionNamesDistinct(h.direction, g.direction);
    CancelAtSeparator(d, x1, e, x2, ' ');
    assert y1 == x1[7..] && y2 == x2[7..];
    CancelAtSeparator(g.fromColor, "] to-[" + (g.toColor + "]"), h.fromColor, "] to-[" + (h.toColor + "]"), ']');
    var t1, t2 := "] to-[" + (g.toColor + "]"), "] to-[" + (h.toColor + "]");
    assert g.toColor == t1[6..|t1| - 1] && h.toColor == t2[6..|t2| - 1];
  }

  /** A colour starting with `#` becomes the arbitrary value `prefix-[colour]`; any other
      is used as a class name as it is. */
  function ColorClass(open: string, color: string): string {
    if StartsWith(color, "#") then open + color + "]" else color
  }

  predicate HasBorder(c: Card) {
    c.borderWidth != "0" && c.borderColor != []
  }

  /** The border width and colour classes, present when the width is not `0` and a
      colour is set. */
  function BorderClasses(c: Card): seq<string> {
    if HasBorder(c) then ["border-" + c.borderWidth, ColorClass("border-[", c.borderColor)] else []
  }

  /** A class pushed only when set. */
  function IfSet(cls: string): seq<string> {
    if cls != [] then [cls] else []
  }

  /** The classes `getCardStyleValue` pushes, in order: background, text, then the border
      width and colour when the width is not `0` and a colour is set, then the radius and
      the shadow when set. */
  function CardClasses(c: Card): (r: seq<string>)
    ensures |r| == 2 + (if HasBorder(c) then 2 else 0) + (if c.borderRadius != [] then 1 else 0) + (if c.shadow != [] then 1 else 0)
    ensures r[0] == ColorClass("bg-[", c.bgColor) && r[1] == ColorClass("text-[", c.textColor)
    ensures HasBorder(c) ==> r[2] == "border-" + c.borderWidth && r[3] == ColorClass("border-[", c.borderColor)
    ensures c.borderRadius != [] ==> r[2 + (if HasBorder(c) then 2 else 0)] == c.borderRadius
    ensures c.shadow != [] ==> r[|r| - 1] == c.shadow
  {
    [ColorClass("bg-[", c.bgColor), ColorClass("text-[", c.textColor)] + BorderClasses(c) + IfSet(c.borderRadius) + IfSet(c.shadow)
  }

  /** `getCardStyleValue`: push the classes one by one, then join them with spaces. */
  method CardStyleValue(c: Card) returns (s: string)
    ensures s == Join(CardClasses(c), ' ')
  {
    var classes: seq<string> := [];
    if StartsWith(c.bgColor, "#") {
      classes := classes + ["bg-[" + c.bgColor + "]"];
    } else {
      classes := classes + [c.bgColor];
    }
    assert classes == [ColorClass("bg-[", c.bgColor)];
    if StartsWith(c.textColor, "#") {
      classes := classes + ["text-[" + c.textColor + "]"];
    } else {
      classes := classes + [c.textColor];
    }
    var colors := [ColorClass("bg-[", c.bgColor), ColorClass("text-[", c.textColor)];
    assert classes == colors;
    if c.borderWidth != "0" && c.borderColor != [] {
      classes := classes + ["border-" + c.borderWidth];
      if StartsWith(c.borderColor, "#") {
        classes := classes + ["border-[" + c.borderColor + "]"];
      } else {
        classes := classes + [c.borderColor];
      }
    }
    var bordered := colors + BorderClasses(c);
    assert classes == bordered;
    if c.borderRadius != [] {
      classes := classes + [c.borderRadius];
    }
    var rounded := bordered + IfSet(c.borderRadius);
    assert classes == rounded;
    if c.shadow != [] {
      classes := classes + [c.shadow];
    }
    assert classes == rounded + IfSet(c.shadow) == CardClasses(c);
    s := Join(classes, ' ');
  }

  /** When no field holds a space, splitting the class string on spaces gives back the
      classes one by one. */
  lemma CardStyleValueSplits(c: Card)
    requires forall k :: 0 <= k < |CardClasses(c)| ==> ' ' !in CardClasses(c)[k]
    ensures Split(Join(CardClasses(c), ' '), ' ') == CardClasses(c)
  {
    SplitJoin(CardClasses(c), ' ');
  }

  // ---------------------------------------------------------------------------
  // Contrast

  /** The three channels `parseInt(hex.substr(i, 2), 16)` reads, None when one is NaN. */
  function Channels(hex: string): Option<(int, int, int)> {
    var r, g, b := ParseIntHex(Substr(hex, 0, 2)), ParseIntHex(Substr(hex, 2, 2)), ParseIntHex(Substr(hex, 4, 2));
    if r.Some? && g.Some? && b.Some? then Some((r.value, g.value, b.value)) else None
  }

  /** Luminance above one half, with the weights scaled to integers:
      (0.299 r + 0.587 g + 0.114 b) / 255 > 0.5. */
  predicate Bright(r: int, g: int, b: int) {
    299 * r + 587 * g + 114 * b > 127500
  }

  /** The scaled comparison is the source's comparison, in exact arithmetic. */
  lemma BrightIsLuminance(r: int, g: int, b: int)
    ensures Bright(r, g, b) <==> (0.299 * r as real + 0.587 * g as real + 0.114 * b as real) / 255.0 > 0.5
  {
  }

  /** `isLightColor`: only a `#` colour can be light; the first `#` is dropped and the
      three two-character channels are read in base 16; a NaN channel makes the
      luminance NaN, which is never above one half. */
  function IsLight(color: string): (r: bool)
    ensures r ==> StartsWith(color, "#")
  {
    if !StartsWith(color, "#") then false
    else
      match Channels(color[1..])
      case Some((r, g, b)) => Bright(r, g, b)
      case None => false
  }

  /** `validateContrast`: good contrast when exactly one colour is light. */
  function ValidateContrast(bg: string, text: string): (ok: bool)
    ensures ok ==> StartsWith(bg, "#") || StartsWith(text, "#")
  {
    IsLight(bg) != IsLight(text)
  }

  /** The check does not depend on which colour is the background. */
  lemma ContrastSymmetric(a: string, b: string)
    ensures ValidateContrast(a, b) == ValidateContrast(b, a)
  {
  }

  /** The byte two hexadecimal digits at `i` denote. */
  function HexByte(h: string, i: nat): nat
    requires i + 2 <= |h| && AllHex(h)
  {
    16 * HexDigitValue(h[i]) + HexDigitValue(h[i + 1])
  }

  /** For a six-digit hexadecimal colour the check is the weighted sum of its three
      byte values. */
  lemma HexColorLight(h: string)
    requires |h| == 6 && AllHex(h)
    ensures IsLight("#" + h) <==> Bright(HexByte(h, 0), HexByte(h, 2), HexByte(h, 4))
  {
    var c := "#" + h;
    assert StartsWith(c, "#");
    assert c[1..] == h;
    SixHexChannels(h);
  }

  lemma SixHexChannels(h: string)
    requires |h| == 6 && AllHex(h)
    ensures Channels(h) == Some((HexByte(h, 0), HexByte(h, 2), HexByte(h, 4)))
  {
    ChannelAt(h, 0);
    ChannelAt(h, 2);
    ChannelAt(h, 4);
  }

  lemma ChannelAt(h: string, i: nat)
    requires i + 2 <= |h| && AllHex(h)
    ensures ParseIntHex(Substr(h, i, 2)) == Some(HexByte(h, i) as int)
  {
    var p := Substr(h, i, 2);
    assert p == h[i..i + 2];
    assert AllHex(p) && p[0] == h[i] && p[1] == h[i + 1];
    ParseTwoHexDigits(p);
    var v := 16 * HexDigitValue(p[0]) + HexDigitValue(p[1]);
    assert v == HexByte(h, i);
    assert ParseIntHex(p) == Some(v);
  }

  /** A three-digit shorthand colour is never light: its third channel reads past the end
      and is NaN. So white written `#fff` does not contrast with black. */
  lemma ShortHexNeverLight(h: string)
    requires |h| == 3
    ensures !IsLight("#" + h)
  {
    var c := "#" + h;
    assert c[1..] == h;
    assert Substr(h, 4, 2) == [];
    ParseEmpty();
  }

  /** White (`#ffffff`) on black (`#000000`) has contrast, white on white does not. */
  lemma WhiteOnBlack(white: string, black: string)
    requires |white| == 6 && forall k :: 0 <= k < 6 ==> white[k] == 'f'
    requires |black| == 6 && forall k :: 0 <= k < 6 ==> black[k] == '0'
    ensures ValidateContrast("#" + white, "#" + black)
    ensures !ValidateContrast("#" + white, "#" + white)
  {
    HexColorLight(white);
    HexColorLight(black);
  }

  // ---------------------------------------------------------------------------
  // The registry

  class StyleRegistry {
    var gradients: seq<Gradient>
    var cards: seq<Card>
    var isLoading: bool
    var storedGradients: Entry<seq<Gradient>>
    var storedCards: Entry<seq<Card>>

    /** The first render: empty lists, still loading. */
    constructor(g: Entry<seq<Gradient>>, c: Entry<seq<Card>>)
      ensures gradients == [] && cards == [] && isLoading
      ensures storedGradients == g && storedCards == c
    {
      gradients, cards, isLoading := [], [], true;
      storedGradients, storedCards := g, c;
    }

    /** The load effect. The gradients are read first: a saved list replaces the state.
        A key that does not parse stops the loading (the cards are then not read) and
        removes both keys. Loading ends in every case. */
    method Load()
      modifies this
      ensures !isLoading
      ensures old(storedGradients).Unparsable? ==>
                gradients == old(gradients) && cards == old(cards) && storedGradients.Absent? && storedCards.Absent?
      ensures !old(storedGradients).Unparsable? ==>
                gradients == (if old(storedGradients).Present? then old(storedGradients).value else old(gradients))
      ensures !old(storedGradients).Unparsable? && old(storedCards).Unparsable? ==>
                cards == old(cards) && storedGradients.Absent? && storedCards.Absent?
      ensures !old(storedGradients).Unparsable? && !old(storedCards).Unparsable? ==>
                cards == (if old(storedCards).Present? then old(storedCards).value else old(cards))
                && storedGradients == old(storedGradients) && storedCards == old(storedCards)
    {
      var failed := false;
      match storedGradients {
        case Present(v) => gradients := v;
        case Absent =>
        case Unparsable => failed := true;
      }
      if !failed {
        match storedCards {
          case Present(v) => cards := v;
          case Absent =>
          case Unparsable => failed := true;
        }
      }
      if failed {
        storedGradients, storedCards := Absent, Absent;
      }
      isLoading := false;
    }

    /** The save effects: once loaded, each list is written back under its key. */
    method Save()
      modifies this`storedGradients, this`storedCards
      ensures !isLoading ==> storedGradients == Present(gradients) && storedCards == Present(cards)
      ensures isLoading ==> storedGradients == old(storedGradients) && storedCards == old(storedCards)
    {
      if !isLoading {
        storedGradients, storedCards := Present(gradients), Present(cards);
      }
    }

    /** `addGradient`: the gradient is appended with the id `gradient-<now>`, which is
        returned; the earlier gradients are untouched. */
    method AddGradient(g: Gradient, now: nat) returns (id: string)
      modifies this`gradients
      ensures id == "gradient-" + NatToString(now)
      ensures gradients == old(gradients) + [g.(id := id)]
    {
      id := "gradient-" + NatToString(now);
      gradients := gradients + [g.(id := id)];
    }

    /** `removeGradient`: every gradient with that id goes, the others keep their order. */
    method RemoveGradient(id: string)
      modifies this`gradients
      ensures gradients == Registry.Without(old(gradients), GradientId, id)
    {
      gradients := Registry.Without(gradients, GradientId, id);
    }

    /** `addCardStyle`: the card is appended with the id `card-<now>`, which is returned. */
    method AddCard(c: Card, now: nat) returns (id: string)
      modifies this`cards
      ensures id == "card-" + NatToString(now)
      ensures cards == old(cards) + [c.(id := id)]
    {
      id := "card-" + NatToString(now);
      cards := cards + [c.(id := id)];
    }

    /** `removeCardStyle`: every card with that id goes, the others keep their order. */
    method RemoveCard(id: string)
      modifies this`cards
      ensures cards == Registry.Without(old(cards), CardId, id)
    {
      cards := Registry.Without(cards, CardId, id);
    }
  }
}
