/**
 * The registry of user-added Google fonts: a list kept in local storage under
 * `prompt-styler-custom-fonts`, the stylesheet links the hook puts in the document
 * head (modelled as the sequence of their hrefs), the font name read from the URL's
 * `family` parameter, and the class name a font is used through.
 */
module CustomFonts {
  import opened Wrappers
  import opened JsText
  import opened LocalStorage
  import Registry

  datatype Font = Font(id: string, name: string, url: string, family: string)

  function FontId(f: Font): string { f.id }
  function FontName(f: Font): string { f.name }

  const GoogleFontsHost: string := "fonts.googleapis.com"

  datatype ParsedFont = ParsedFont(name: string, family: string)

  /** `parseFontUrl`, from the value of the URL's `family` parameter (None when the
      parameter is absent or the URL does not parse): an empty value gives nothing;
      otherwise the name is the part before the first `:` with every `+` made a space,
      and the CSS family is that name quoted, with a sans-serif fallback. */
  function ParseFontUrl(familyParam: Option<string>): (r: Option<ParsedFont>)
    ensures r.None? <==> familyParam.None? || familyParam.value == []
    ensures r.Some? ==> ':' !in r.value.name && '+' !in r.value.name
    ensures r.Some? ==> r.value.family == "'" + r.value.name + "', sans-serif"
  {
    match familyParam
    case None => None
    case Some(f) =>
      if f == [] then None
      else
        var name := ReplaceChar(Split(f, ':')[0], '+', ' ');
        assert forall k :: 0 <= k < |name| ==> name[k] != ':' && name[k] != '+';
        Some(ParsedFont(name, "'" + name + "', sans-serif"))
  }

  /** The name is what comes before the first `:`, with `+` read as a space. */
  lemma FontNameBeforeColon(a: string, b: string)
    requires a != [] && ':' !in a
    ensures ParseFontUrl(Some(a + ":" + b)) == Some(ParsedFont(ReplaceChar(a, '+', ' '), "'" + ReplaceChar(a, '+', ' ') + "', sans-serif"))
  {
    var y := ":" + b;
    SplitAfterPiece(a, y, ':');
    assert Split(y, ':')[0] == [] by {
      assert y[0] == ':';
    }
    assert a + y == a + ":" + b;
    assert a + [] == a;
  }

  /** A family value without `:` is the whole name. */
  lemma FontNameWhole(a: string)
    requires a != [] && ':' !in a
    ensures ParseFontUrl(Some(a)).Some? && ParseFontUrl(Some(a)).value.name == ReplaceChar(a, '+', ' ')
  {
    SplitWhole(a, ':');
  }

  /** `font-['${name.replace(/ /g, '_')}']`: a single class, free of spaces. */
  function FontStyleValue(f: Font): (r: string)
    ensures ' ' !in r
    ensures |r| == |f.name| + 9
  {
    var m := ReplaceChar(f.name, ' ', '_');
    var r := "font-['" + m + "']";
    assert forall k :: 0 <= k < |r| ==> r[k] != ' ' by {
      forall k | 0 <= k < |r| ensures r[k] != ' ' {
        if 7 <= k < 7 + |m| { assert r[k] == m[k - 7]; }
      }
    }
    r
  }

  /** Names without `_` get different class names. */
  lemma FontStyleValueInjective(f: Font, g: Font)
    requires '_' !in f.name && '_' !in g.name
    requires FontStyleValue(f) == FontStyleValue(g)
    ensures f.name == g.name
  {
    var m, n := ReplaceChar(f.name, ' ', '_'), ReplaceChar(g.name, ' ', '_');
    var r, s := "font-['" + m + "']", "font-['" + n + "']";
    assert m == r[7..|r| - 2] && n == s[7..|s| - 2];
    ReplaceCharBack(f.name, ' ', '_');
    ReplaceCharBack(g.name, ' ', '_');
  }

  // ---------------------------------------------------------------------------
  // The links in the document head

  predicate DistinctLinks(links: seq<string>) {
    forall i, j :: 0 <= i < j < |links| ==> links[i] != links[j]
  }

  /** `injectFontLink(url)`: a link with that href is added unless one is there. */
  function WithLink(links: seq<string>, url: string): (r: seq<string>)
    ensures url in r
    ensures forall u :: u in links ==> u in r
    ensures url in links ==> r == links
    ensures url !in links ==> r == links + [url]
  {
    if url in links then links else links + [url]
  }

  /** Injecting the same URL twice adds one link. */
  lemma WithLinkIdempotent(links: seq<string>, url: string)
    ensures WithLink(WithLink(links, url), url) == WithLink(links, url)
  {
  }

  lemma WithLinkKeepsDistinct(links: seq<string>, url: string)
    requires DistinctLinks(links)
    ensures DistinctLinks(WithLink(links, url))
  {
  }

  /** `document.querySelector('link[href="url"]')?.remove()`: the first link with that
      href goes. */
  function WithoutLink(links: seq<string>, url: string): (r: seq<string>)
    ensures url !in links ==> r == links
    ensures |r| == if url in links then |links| - 1 else |links|
    decreases |links|
  {
    if |links| == 0 then []
    else if links[0] == url then links[1..]
    else [links[0]] + WithoutLink(links[1..], url)
  }

  /** With hrefs distinct, removing the first link with a URL removes the URL and
      nothing else. */
  lemma {:induction false} WithoutLinkRemoves(links: seq<string>, url: string)
    requires DistinctLinks(links)
    ensures DistinctLinks(WithoutLink(links, url))
    ensures forall u :: u in WithoutLink(links, url) <==> u in links && u != url
    decreases |links|
  {
    if |links| > 0 {
      var tail := links[1..];
      assert DistinctLinks(tail) by {
        forall i, j | 0 <= i < j < |tail| ensures tail[i] != tail[j] {
          assert tail[i] == links[i + 1] && tail[j] == links[j + 1];
        }
      }
      if links[0] == url {
        assert url !in tail by {
          forall k | 0 <= k < |tail| ensures tail[k] != url {
            assert tail[k] == links[k + 1];
          }
        }
      } else {
        WithoutLinkRemoves(tail, url);
        var rest := WithoutLink(tail, url);
        assert links[0] !in tail by {
          forall k | 0 <= k < |tail| ensures tail[k] != links[0] {
            assert tail[k] == links[k + 1];
          }
        }
        var r := [links[0]] + rest;
        forall i, j | 0 <= i < j < |r| ensures r[i] != r[j] {
          if i == 0 {
            assert r[j] == rest[j - 1];
          } else {
            assert r[i] == rest[i - 1] && r[j] == rest[j - 1];
          }
        }
        assert forall u :: u in links <==> u == links[0] || u in tail;
      }
    }
  }

  /** The links after injecting the URL of every font of `fs`, in order. */
  function WithLinks(links: seq<string>, fs: seq<Font>): seq<string>
    decreases |fs|
  {
    if |fs| == 0 then links else WithLink(WithLinks(links, fs[..|fs| - 1]), fs[|fs| - 1].url)
  }

  /** After the load, every loaded font has its link, the earlier links stay, and hrefs
      stay distinct. */
  lemma {:induction false} WithLinksCovers(links: seq<string>, fs: seq<Font>)
    requires DistinctLinks(links)
    ensures DistinctLinks(WithLinks(links, fs))
    ensures forall k :: 0 <= k < |fs| ==> fs[k].url in WithLinks(links, fs)
    ensures forall u :: u in links ==> u in WithLinks(links, fs)
    decreases |fs|
  {
    if |fs| > 0 {
      var init := fs[..|fs| - 1];
      WithLinksCovers(links, init);
      var before := WithLinks(links, init);
      WithLinkKeepsDistinct(before, fs[|fs| - 1].url);
      assert forall k :: 0 <= k < |init| ==> fs[k] == init[k];
    }
  }

  // ---------------------------------------------------------------------------
  // The registry

  class FontRegistry {
    var fonts: seq<Font>
    /** The hrefs of the font stylesheet links in the document head, in order. */
    var links: seq<string>
    var isLoading: bool
    var stored: Entry<seq<Font>>

    /** The first render: no fonts, no links, still loading. */
    constructor(saved: Entry<seq<Font>>)
      ensures fonts == [] && links == [] && isLoading && stored == saved
    {
      fonts, links, isLoading, stored := [], [], true, saved;
    }

    /** `injectFontLink`. */
    method InjectFontLink(url: string)
      modifies this`links
      ensures links == WithLink(old(links), url)
    {
      if url !in links {
        links := links + [url];
      }
    }

    /** The load effect: a saved list replaces the state and each of its fonts gets its
        link; a key that does not parse is removed; loading ends in every case. */
    method Load()
      modifies this
      ensures !isLoading
      ensures old(stored).Present? ==> fonts == old(stored).value && links == WithLinks(old(links), fonts) && stored == old(stored)
      ensures old(stored).Absent? ==> fonts == old(fonts) && links == old(links) && stored == old(stored)
      ensures old(stored).Unparsable? ==> fonts == old(fonts) && links == old(links) && stored.Absent?
    {
      match stored {
        case Present(parsed) =>
          fonts := parsed;
          var i := 0;
          while i < |parsed|
            invariant 0 <= i <= |parsed|
            invariant fonts == parsed && stored == old(stored)
            invariant links == WithLinks(old(links), parsed[..i])
          {
            assert parsed[..i + 1][..i] == parsed[..i];
            InjectFontLink(parsed[i].url);
            i := i + 1;
          }
          assert parsed[..|parsed|] == parsed;
        case Absent =>
        case Unparsable =>
          stored := Absent;
      }
      isLoading := false;
    }

    /** The save effect: once loaded, the list is written back. */
    method Save()
      modifies this`stored
      ensures !isLoading ==> stored == Present(fonts)
      ensures isLoading ==> stored == old(stored)
    {
      if !isLoading {
        stored := Present(fonts);
      }
    }

    /** `addFont`: refused (false, nothing changes) for a URL that does not mention
        `fonts.googleapis.com`, for a URL whose family cannot be read, and for a name
        already in the list; otherwise the link is injected and the font appended with
        the id `custom-<now>`. Names that were distinct stay distinct. */
    method AddFont(url: string, familyParam: Option<string>, now: nat) returns (ok: bool)
      modifies this`fonts, this`links
      ensures ok <==> Includes(url, GoogleFontsHost) && ParseFontUrl(familyParam).Some?
                      && !Registry.Has(old(fonts), FontName, ParseFontUrl(familyParam).value.name)
      ensures ok ==> var p := ParseFontUrl(familyParam).value;
                     fonts == old(fonts) + [Font("custom-" + NatToString(now), p.name, url, p.family)]
                     && links == WithLink(old(links), url)
      ensures !ok ==> fonts == old(fonts) && links == old(links)
      ensures Registry.Distinct(old(fonts), FontName) ==> Registry.Distinct(fonts, FontName)
      ensures DistinctLinks(old(links)) ==> DistinctLinks(links)
    {
      if !Includes(url, GoogleFontsHost) {
        return false;
      }
      var parsed := ParseFontUrl(familyParam);
      if parsed.None? {
        return false;
      }
      if Registry.Has(fonts, FontName, parsed.value.name) {
        return false;
      }
      InjectFontLink(url);
      var font := Font("custom-" + NatToString(now), parsed.value.name, url, parsed.value.family);
      if Registry.Distinct(fonts, FontName) {
        Registry.AppendKeepsDistinct(fonts, font, FontName);
      }
      if DistinctLinks(old(links)) {
        WithLinkKeepsDistinct(old(links), url);
      }
      fonts := fonts + [font];
      return true;
    }

    /** `removeFont`: the link of the first font with that id is removed from the head,
        and every font with that id leaves the list. Distinct names and hrefs stay
        distinct. */
    method RemoveFont(id: string)
      modifies this`fonts, this`links
      ensures fonts == Registry.Without(old(fonts), FontId, id)
      ensures var f := Registry.Find(old(fonts), FontId, id);
              links == if f.Some? then WithoutLink(old(links), f.value.url) else old(links)
      ensures Registry.Distinct(old(fonts), FontName) ==> Registry.Distinct(fonts, FontName)
      ensures DistinctLinks(old(links)) ==> DistinctLinks(links)
    {
      var font := Registry.Find(fonts, FontId, id);
      if font.Some? {
        if DistinctLinks(links) {
          WithoutLinkRemoves(links, font.value.url);
        }
        links := WithoutLink(links, font.value.url);
      }
      if Registry.Distinct(fonts, FontName) {
        Registry.WithoutKeepsDistinct(fonts, FontId, id, FontName);
      }
      fonts := Registry.Without(fonts, FontId, id);
    }
  }
}
