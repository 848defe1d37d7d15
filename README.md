# Prompt Styler, modelled in Dafny

Prompt Styler is a web tool for writing prompts. It styles them with a small markdown
dialect and exports them as PNG or JPEG images in 16:9 or 9:16. This project models its
core:

- **The prompt editor** (`src/components/PromptStyler.tsx`):
  - `renderMarkdown`, the chain of nine regular-expression substitutions behind the live
    preview.
  - The toolbar helpers `insertMarkdown`, `insertList` and `insertOrderedList`, which
    splice markdown around the textarea selection.
  - The component state: the prompt, the style settings, the export settings, the mount
    flag, and the copy kept in local storage under `prompt-styler-data`.
  - What the export selects: the format, the per-ratio layout of the off-screen copy,
    the capture options, the file name and the MIME type.
- **The custom style registry** (`src/hooks/useCustomStyles.ts`): gradients and card
  styles with add and remove operations, their Tailwind class strings, and the
  light/dark contrast check.
- **The custom font registry** (`src/hooks/useCustomFonts.ts`): reading a Google Fonts
  URL, adding and removing fonts, the `<link>` elements injected into the document head,
  and the font class name.
- **The premium entitlement** (`src/hooks/useSubscription.ts`): the mount effect, which
  decides the status from the checkout return and the 24-hour cached record, plus
  `setPremiumStatus` and `clearSubscription`.
- **The advertising slot** (`src/components/ads/AdBanner.tsx`): the banner's render gate,
  its one-shot request push, and the premium placeholder.

Layout:

- **Pure code** (the renderer, the editing helpers, the class builders, the entitlement
  decision) is written as functions and lemmas.
- **Code that updates state** becomes classes with `modifies` clauses: the component
  (`Styler.PromptStyler`), the two registries, the entitlement store and hook, and the
  ad slot.
- **Loops** become methods with invariants: the element restyling loop and the card
  class builder.
- **Local storage** is a field holding an `Entry`, which is present, absent or
  unparsable.
- **Time** (`Date.now()`) is a parameter everywhere.

## Model

| member | source | states |
|---|---|---|
| Markdown.Render | src/components/PromptStyler.tsx:184-195 | the rendered preview never holds a newline: every `\n` has become `<br>` |
| Markdown.FindCloseLazy | src/components/PromptStyler.tsx:186-188 | the lazy `(.*?)` group: when it ends at j, the delimiter follows at j, no line terminator lies before j, and no earlier position is followed by the delimiter; when there is no match, no line-bound run is followed by the delimiter |
| Markdown.PairedIdentity | src/components/PromptStyler.tsx:186-188 | a text without the delimiter's first character passes a bold, italic or underline pass unchanged |
| Markdown.PairedWraps | src/components/PromptStyler.tsx:186-188 | `d x d` (x on one line, without the delimiter's first character) becomes `<tag>x</tag>`, and the global replace resumes right after the closing delimiter |
| Markdown.BoldUnclosed | src/components/PromptStyler.tsx:186 | an opening `**` with no closing one stays as typed |
| Markdown.FourStars | src/components/PromptStyler.tsx:186 | `****` becomes an empty `<strong></strong>` |
| Markdown.PairedPassesByLine | src/components/PromptStyler.tsx:186-188 | the three paired passes never cross a line terminator: a text split at one renders as its two halves around it, and the first half stays on one line |
| Markdown.RenderByLine | src/components/PromptStyler.tsx:184-195 | the whole chain works line by line: rendering `a c b` is rendering a, then the terminator c (a newline becomes `<br>`), then rendering b |
| Markdown.RenderPlain | src/components/PromptStyler.tsx:184-195 | a line without markup renders exactly as typed; `<`, `&` and quotes are not escaped |
| Markdown.PreviewEmpty | src/components/PromptStyler.tsx:620-623 | an empty prompt previews the placeholder sentence unchanged |
| Markdown.RenderStrong | src/components/PromptStyler.tsx:186-194 | `**x**` on one line renders to `<strong>x</strong>` and nothing else |
| Markdown.RenderH3 | src/components/PromptStyler.tsx:189 | `### t` renders to the styled h3 around the rendered t; the later h2 and h1 passes leave it alone |
| Markdown.RenderH2 | src/components/PromptStyler.tsx:190 | `## t` renders to the styled h2; the h3 pass does not match it |
| Markdown.RenderH1 | src/components/PromptStyler.tsx:191 | `# t` renders to the styled h1; the h3 and h2 passes do not match it |
| Markdown.RenderOrderedItem | src/components/PromptStyler.tsx:192 | a line `N. rest` is wrapped whole in the indented div, with the number kept as typed |
| Markdown.RenderBulletItem | src/components/PromptStyler.tsx:193 | a line `• rest` is wrapped whole in the indented div, bullet included |
| Editing.InsertMarkdown | src/components/PromptStyler.tsx:117-138 | the prompt grows by twice the marker; the marker sits on both sides of the old selection; the selection moves right by the marker's length and still covers the same text; the text before and after is unchanged |
| Editing.InsertMarkdownUndo | src/components/PromptStyler.tsx:117-130 | removing the two inserted markers gives back the original prompt |
| Editing.HeadingOnEmptyPrompt | src/components/PromptStyler.tsx:124-130 | the H1 button on an empty prompt inserts its marker twice (`# # `), with the caret between the two |
| Editing.BoldButtonRenders | src/components/PromptStyler.tsx:117-138 | the bold button on a wholly selected line makes the preview show that line as one strong element |
| Editing.ListItemsLines | src/components/PromptStyler.tsx:150-151 | the list items have exactly as many lines as the selection; line k is line k of the selection, trimmed and prefixed when it is not blank |
| Editing.InsertList | src/components/PromptStyler.tsx:140-168 | the text before the selection start and after the selection end is unchanged. With a selection, the selection is replaced by its list items. Without one, the marker is inserted, after a newline when the text before the cursor does not end one. The caret goes right after the insertion (the corrected cursor, see Findings) |
| Editing.InsertListMarkerStartsLine | src/components/PromptStyler.tsx:154-157 | without a selection, the inserted marker starts a line, and the prompt grows by the marker plus one newline exactly when one was needed |
| Editing.InsertListCursorAsWritten | src/components/PromptStyler.tsx:163-166 | the caret as the source computes it; when the selection no longer occurs in the new text, it lands one short of `start + selection length` |
| Editing.InsertListCursorMisplaced | src/components/PromptStyler.tsx:163-166 | bulleting the two lines `c` and `e` gives `• c\n• e`; the source puts the caret at 2, inside the first item, where the insertion ends at 7 |
| Editing.TwoBullets | src/components/PromptStyler.tsx:150-152 | two selected one-character lines become two bullet items |
| Editing.OrderedMarker | src/components/PromptStyler.tsx:170-181 | the inserted marker matches `/^\d+\. /`; it is the decimal number one more than the count of lines before the cursor whose trim starts with `\d+\. `, followed by `. ` |
| Editing.OrderedMarkerNumber | src/components/PromptStyler.tsx:174-181 | read back in decimal, the marker's digits give the count of numbered lines before the cursor plus one |
| Editing.InsertOrderedList | src/components/PromptStyler.tsx:170-182 | the text outside the selection is unchanged. With a selection, the selection becomes its list items under the computed marker. Without one, the computed marker is inserted, after a newline when one is needed. The caret lands after the insertion: this is the corrected cursor shared with `Editing.InsertList` (see Findings), not the source's |
| Editing.NumberedCountConcat | src/components/PromptStyler.tsx:174-178 | the count of numbered lines adds up over concatenated line lists |
| Editing.NumberedLinesAdd | src/components/PromptStyler.tsx:174-178 | numbered lines are counted on each side of a newline independently |
| Editing.BareMarkerNotCounted | src/components/PromptStyler.tsx:177 | a line holding only `1. ` is not counted, since trimming drops the space the pattern needs |
| Editing.ThirdItem | src/components/PromptStyler.tsx:170-182 | after two numbered items the next marker is `3. `, whatever numbers the two items carry |
| Editing.OrderedOnEmpty | src/components/PromptStyler.tsx:170-182 | the ordered-list button on an empty prompt inserts `1. ` with the caret after it |
| Editing.OrderedAfterBare | src/components/PromptStyler.tsx:170-182 | pressed again right after, the button inserts `\n1. `, so both items are numbered 1 |
| Export.FormatGeometry | src/components/PromptStyler.tsx:70-73 | `16:9` is 1920 by 1080, `9:16` is 1080 by 1920, and any other format is not found |
| Export.ExportLayout | src/components/PromptStyler.tsx:220-271 | the container takes the size of the format found; the preview padding is 60px, the card height unbounded, the text full width and word-wrapped |
| Export.LayoutPerRatio | src/components/PromptStyler.tsx:220-378 | 9:16 uses a 95% card, 80px 60px padding, 44px text, line height 1.6 and a 24px gap; 16:9 uses 75%, 60px 80px, 36px, 1.5 and 20px |
| Export.RestyleElements | src/components/PromptStyler.tsx:262-269 | the loop gives every element of the copied text the export's text style |
| Export.Capture | src/components/PromptStyler.tsx:277-285 | the capture is at the format's own size, scale 1, with a transparent background, CORS and taint allowed, and logging off |
| Export.MimeType | src/components/PromptStyler.tsx:291 | `image/jpeg` exactly for JPEG and `image/png` exactly for PNG |
| Export.Quality | src/components/PromptStyler.tsx:292 | a quality of 0.9 is given exactly for JPEG |
| Export.FileName | src/components/PromptStyler.tsx:295 | the name starts with `prompt-<format>-` and ends with `.<type>` |
| Export.FileNameTime | src/components/PromptStyler.tsx:295 | between that prefix and that extension the name holds exactly the decimal digits of the export time, read back by their decimal value |
| Export.FileNameDistinct | src/components/PromptStyler.tsx:295 | two exports of one format and type at different times get different names |
| Export.ExportToImage | src/components/PromptStyler.tsx:197-218 | there is no export exactly when the preview is missing or the format is not listed. A download carries the file name, MIME type and quality above. A failed capture, or a failed encoding after a successful capture, gives the alert `Erreur lors de l'export de l'image: ` followed by the error's message, or `Erreur inconnue` when what was thrown is not an Error. The container stays in the page exactly when the capture itself failed; it was already removed when the encoding (`toDataURL`) failed |
| Export.DownloadGeometry | src/components/PromptStyler.tsx:197-378 | a download of `9:16` is 1080 by 1920 with the vertical layout; any other download is `16:9`, 1920 by 1080; the capture size equals the layout size |
| Styler.Restore | src/components/PromptStyler.tsx:93-108 | with nothing saved the state is kept. Otherwise a saved prompt and a saved style are the ones restored, a missing prompt gives `''` and a missing style gives the default style |
| Styler.RestoreSnapshot | src/components/PromptStyler.tsx:93-115 | restoring what the save effect wrote brings back the same prompt and style, whatever the state before |
| Styler.WithField | src/components/PromptStyler.tsx:474-541 | a select changes its own setting to the value and leaves every other setting and the title as they were |
| Styler.PromptStyler.constructor | src/components/PromptStyler.tsx:76-91 | the first render: empty prompt, default settings, not mounted |
| Styler.PromptStyler.Mount | src/components/PromptStyler.tsx:93-108 | a stored copy that parses, or none, mounts the component and restores the prompt and style from it. A stored value that does not parse makes the unguarded `JSON.parse` throw: the component does not mount, nothing changes and the bad value stays stored |
| Styler.PromptStyler.Save | src/components/PromptStyler.tsx:110-115 | once mounted, storage holds the current prompt and style; before that it is untouched |
| Styler.PromptStyler.Type | src/components/PromptStyler.tsx:460 | the prompt becomes the typed value, with the reported selection inside it |
| Styler.PromptStyler.Select | src/components/PromptStyler.tsx:119-121 | the selection moves and stays inside the prompt |
| Styler.PromptStyler.InsertMarkdown | src/components/PromptStyler.tsx:117-138 | before mount nothing changes; after mount the prompt and selection are those of `Editing.InsertMarkdown` |
| Styler.PromptStyler.InsertList | src/components/PromptStyler.tsx:140-168 | before mount nothing changes; after mount the prompt and selection are those of `Editing.InsertList`, with its corrected caret (see Findings) |
| Styler.PromptStyler.InsertOrderedList | src/components/PromptStyler.tsx:170-182 | before mount nothing changes; after mount the prompt and selection are those of `Editing.InsertOrderedList`, with its corrected caret (see Findings) |
| Styler.PromptStyler.SetStyle | src/components/PromptStyler.tsx:474-541 | the style becomes the old style with the one field changed |
| Styler.PromptStyler.SetFormat | src/components/PromptStyler.tsx:561 | a deselected (empty) toggle value changes nothing; any other value becomes the format |
| Styler.PromptStyler.SetFileType | src/components/PromptStyler.tsx:573 | a deselected toggle changes nothing; a chosen type becomes the file type |
| Styler.PromptStyler.ClickExport | src/components/PromptStyler.tsx:590-594 | a blank prompt exports nothing; otherwise the result is `exportToImage` on the current settings |
| Styler.ReloadRestores | src/components/PromptStyler.tsx:93-115 | text typed, saved and reloaded into a fresh component comes back with the default style |
| Styler.ReloadFailsAgain | src/components/PromptStyler.tsx:93-115 | a stored value that does not parse makes every load fail: the component never mounts, so the save effect never replaces the value |
| Registry.Find | src/hooks/useCustomFonts.ts:115 | the element found has the key and is in the list; nothing is found exactly when no element has the key |
| Registry.FindFirst | src/hooks/useCustomFonts.ts:115 | the element found is the first one with the key |
| Registry.Without | src/hooks/useCustomStyles.ts:76-78 | the filter never grows the list, and an element stays exactly when its key differs from the id |
| Registry.WithoutConcat | src/hooks/useCustomStyles.ts:76-78 | filtering a concatenation filters each part and keeps their order |
| Registry.WithoutAbsent | src/hooks/useCustomFonts.ts:121 | removing an id that no element has leaves the list unchanged |
| Registry.WithoutIdempotent | src/hooks/useCustomStyles.ts:89-91 | removing twice is the same as removing once |
| Registry.WithoutUndoesAppend | src/hooks/useCustomStyles.ts:68-78 | removing the id of an element just added, when no earlier element had it, gives back the list before the add |
| Registry.WithoutKeepsDistinct | src/hooks/useCustomFonts.ts:121 | removal keeps pairwise distinct names distinct |
| Registry.AppendKeepsDistinct | src/hooks/useCustomFonts.ts:91-108 | appending a font whose name no font has keeps names distinct |
| CustomStyles.GradientValue | src/hooks/useCustomStyles.ts:94-97 | the value is a `bg-gradient-to-…` class string |
| CustomStyles.GradientValueInjective | src/hooks/useCustomStyles.ts:94-97 | the class string determines the direction and both colours, when the first colour holds no `]` |
| CustomStyles.CardClasses | src/hooks/useCustomStyles.ts:100-138 | background and text classes come first (a `#` colour in brackets); the border width and colour follow only for a non-`0` width with a colour; the radius comes next when set, and the shadow last when set |
| CustomStyles.CardStyleValue | src/hooks/useCustomStyles.ts:100-138 | the method's pushes, joined with spaces, are exactly those classes |
| CustomStyles.CardStyleValueSplits | src/hooks/useCustomStyles.ts:137 | splitting the class string on spaces gives the classes back, when none holds a space |
| CustomStyles.BrightIsLuminance | src/hooks/useCustomStyles.ts:150-151 | the integer test is the source's luminance test `(0.299 r + 0.587 g + 0.114 b) / 255 > 0.5` in exact arithmetic |
| CustomStyles.IsLight | src/hooks/useCustomStyles.ts:144-152 | only a colour starting with `#` can be light |
| CustomStyles.HexColorLight | src/hooks/useCustomStyles.ts:144-152 | for `#rrggbb`, lightness is the luminance test on the three byte values |
| CustomStyles.ShortHexNeverLight | src/hooks/useCustomStyles.ts:146-151 | a three-digit colour is never light, because its third channel reads past the end and is NaN |
| CustomStyles.ValidateContrast | src/hooks/useCustomStyles.ts:141-159 | good contrast needs at least one `#` colour |
| CustomStyles.ContrastSymmetric | src/hooks/useCustomStyles.ts:154-158 | swapping background and text gives the same verdict |
| CustomStyles.WhiteOnBlack | src/hooks/useCustomStyles.ts:141-159 | `#ffffff` on `#000000` passes, and white on white fails |
| CustomStyles.StyleRegistry.constructor | src/hooks/useCustomStyles.ts:28-30 | both lists start empty and loading |
| CustomStyles.StyleRegistry.Load | src/hooks/useCustomStyles.ts:33-51 | saved lists replace the state, gradients first. An unparsable key stops the load and removes both keys. Loading ends in every case |
| CustomStyles.StyleRegistry.Save | src/hooks/useCustomStyles.ts:54-65 | once loaded, both lists are written back under their keys; before that storage is untouched |
| CustomStyles.StyleRegistry.AddGradient | src/hooks/useCustomStyles.ts:68-73 | the gradient is appended with the id `gradient-<now>`, which is returned; the earlier gradients are untouched |
| CustomStyles.StyleRegistry.RemoveGradient | src/hooks/useCustomStyles.ts:76-78 | the gradients become the filter of the old list on the id |
| CustomStyles.StyleRegistry.AddCard | src/hooks/useCustomStyles.ts:81-86 | the card is appended with the id `card-<now>`, which is returned |
| CustomStyles.StyleRegistry.RemoveCard | src/hooks/useCustomStyles.ts:89-91 | the cards become the filter of the old list on the id |
| CustomFonts.ParseFontUrl | src/hooks/useCustomFonts.ts:56-75 | parsing fails exactly when the family parameter is missing or empty; a parsed name holds no `:` or `+`, and its family is `'<name>', sans-serif` |
| CustomFonts.FontNameBeforeColon | src/hooks/useCustomFonts.ts:63-69 | the name is what comes before the first `:`, with `+` read as a space |
| CustomFonts.FontNameWhole | src/hooks/useCustomFonts.ts:63-69 | a family without `:` gives its whole value as the name, `+` read as a space |
| CustomFonts.FontStyleValue | src/hooks/useCustomFonts.ts:126-128 | the font class is a single class without spaces, nine characters longer than the name |
| CustomFonts.FontStyleValueInjective | src/hooks/useCustomFonts.ts:126-128 | names without `_` get different classes |
| CustomFonts.WithLink | src/hooks/useCustomFonts.ts:44-53 | a URL whose link is already in the head changes nothing; otherwise exactly that URL's link is appended |
| CustomFonts.WithLinkIdempotent | src/hooks/useCustomFonts.ts:44-53 | injecting a URL a second time leaves the links as the first injection left them |
| CustomFonts.WithLinkKeepsDistinct | src/hooks/useCustomFonts.ts:44-53 | injection keeps the hrefs in the head distinct |
| CustomFonts.WithoutLink | src/hooks/useCustomFonts.ts:117-119 | removing a missing URL changes nothing; otherwise exactly one link goes |
| CustomFonts.WithoutLinkRemoves | src/hooks/useCustomFonts.ts:117-119 | with distinct hrefs, the URL is gone afterwards and every other link stays |
| CustomFonts.WithLinksCovers | src/hooks/useCustomFonts.ts:22-27 | after the load every loaded font has its link, earlier links stay, and hrefs stay distinct |
| CustomFonts.FontRegistry.constructor | src/hooks/useCustomFonts.ts:15-16 | no fonts, no links, loading |
| CustomFonts.FontRegistry.InjectFontLink | src/hooks/useCustomFonts.ts:44-53 | the head's links become those of `WithLink` |
| CustomFonts.FontRegistry.Load | src/hooks/useCustomFonts.ts:19-34 | a saved list replaces the fonts and gets its links; an unparsable key is removed; loading ends |
| CustomFonts.FontRegistry.Save | src/hooks/useCustomFonts.ts:37-41 | once loaded, the list is written back; before that storage is untouched |
| CustomFonts.FontRegistry.AddFont | src/hooks/useCustomFonts.ts:78-110 | the font is added exactly when the URL mentions `fonts.googleapis.com`, the family parses, and no font has that name. It is appended with the id `custom-<now>` and its link is injected. A refusal changes nothing. Distinct names and hrefs stay distinct |
| CustomFonts.FontRegistry.RemoveFont | src/hooks/useCustomFonts.ts:113-123 | the fonts become the filter on the id, and the first such font's link leaves the head; distinct names and hrefs stay distinct |
| Subscription.Decide | src/hooks/useSubscription.ts:23-79 | loading always ends. A checkout return (`success=true` and a session id) wins, writes a premium record valid 24 hours, and clears the query. Otherwise a fresh cached record is reported as stored. Otherwise the status is not premium, and an expired or unreadable record is removed |
| Subscription.PremiumOnlyWhenEntitled | src/hooks/useSubscription.ts:23-79 | the status is premium exactly for a checkout return or a fresh record marked premium |
| Subscription.Apply | src/hooks/useSubscription.ts:36-69 | a write stores the record, a removal empties the key, and keeping leaves it as it was |
| Subscription.CheckoutLifetime | src/hooks/useSubscription.ts:13-61 | a record written at checkout time t is honoured by every mount before t + 24 h and removed by the first mount after that |
| Subscription.OrManual | src/hooks/useSubscription.ts:89 | the id is the given one when it is non-empty, `manual` otherwise |
| Subscription.Store.SetPremiumStatus | src/hooks/useSubscription.ts:85-96 | true stores a premium record for the id (or `manual`) expiring 24 hours from now; false removes the record |
| Subscription.Store.ClearSubscription | src/hooks/useSubscription.ts:99-101 | the record is removed |
| Subscription.ManualLifetime | src/hooks/useSubscription.ts:85-101 | a record set by hand makes the next mount premium until it expires; after clearing, the next mount is not premium |
| Subscription.Hook.constructor | src/hooks/useSubscription.ts:16-21 | the initial status is loading and not premium |
| Subscription.Hook.Mount | src/hooks/useSubscription.ts:23-79 | the status and storage become those of `Decide`, and loading has ended |
| AdBanner.Render | src/components/ads/AdBanner.tsx:48-77 | the ad element renders exactly when the user is neither premium nor loading and a slot and a client id are set; it carries that client, slot and format |
| AdBanner.NoAdWhileLoading | src/components/ads/AdBanner.tsx:48-51 | the first render, before the entitlement is known, shows no ad |
| AdBanner.BannerOrPlaceholder | src/components/ads/AdBanner.tsx:48-93 | for the same status, the banner and the premium placeholder never show together |
| AdBanner.AdSlot.constructor | src/components/ads/AdBanner.tsx:25 | the instance has not loaded and has pushed nothing |
| AdBanner.AdSlot.Effect | src/components/ads/AdBanner.tsx:27-46 | a push happens only when the instance has not loaded, the ad renders and the push does not throw; the instance pushes at most once |

## Left out

- The DOM and the capture library: the off-screen container, the cloned preview,
  `html2canvas` and `toDataURL` are reduced to the layout and options they receive and to
  a capture result given as a parameter (encoded, capture failed, or encoding failed).
- Focus, `setTimeout` and the 100 ms export delay: the deferred cursor update is applied
  together with the new text.
- Browser clamping in `setSelectionRange` is not modelled.
- Local storage and JSON are reduced to an entry that is present, absent or
  unparsable. An empty stored string reads as absent, as the source's truthiness tests
  do. Field shapes inside a parsed value are taken as well-typed.
- URL parsing: `parseFontUrl` receives the value of the `family` parameter already
  decoded by `URL`, and `new URL` throwing is folded into an absent parameter.
- Floating point: luminance is computed with exact integer weights. `BrightIsLuminance`
  shows this equals the real-number formula, but it ignores IEEE rounding at the
  threshold.
- React scheduling:
  - Effects are single method calls, and their dependency lists are not modelled.
  - The ad effect's dependency list omits the client id; this has no effect here.
  - Stale closures (the `customFonts` captured by `addFont`) and concurrent updates are
    not modelled.
- `typeof window` checks, console logging and `window.history.replaceState` are not
  modelled. Clearing the query is returned as a flag.
- Preview styling: the CSS classes of the live preview and the card-width differences
  between the preview and the export are not modelled.
- The export code finds the text with `querySelector('[dangerouslySetInnerHTML]')`. In a
  rendered page that attribute does not exist, so the query likely finds nothing and the
  text styles are not applied. The model assumes every query finds its element and
  applies the styles as written.
- The following points differ between the project's design document (its written
  description of intended behaviour) and the code; the model follows the code.
- No HTML escaping and no sanitizing: the design document asks for escaping and an
  allow-list. The code does neither, and the model follows the code (`RenderPlain`).
- No strikethrough (`~~`) and no inline code: the design document lists them, the
  code has no such passes, and neither does the model.
- The design document mentions a 2x scale and `@2x` file names. The code always
  captures at scale 1, and the model follows it (`Capture`, `FileName`).
- The design document asks for the export container to be removed when a capture
  fails. The code removes it only after a successful capture, and the model follows the
  code: `containerLeft` is true exactly for a failed capture.
- The design document asks for restored settings to be validated. The code restores
  them as stored (`savedSettings || default`), and so does the model (`Restore`).
- A cached `expiresAt` of 0 is falsy in the source, so it is read as no expiry, and the
  record is treated as expired (`Fresh`), as in the source.
- Strings are sequences of Unicode characters. JavaScript strings, and the textarea's
  `selectionStart` and `selectionEnd`, count UTF-16 code units. For text holding a
  character outside the Basic Multilingual Plane (an emoji, say), the model's offsets,
  `substring`/`substr` results (the colour channels read by `IsLight`), `indexOf`
  answers and lengths (the `+ 9` of `FontStyleValue`) differ from the source's.
- `injectFontLink` and `removeFont` look the link up with a document-wide
  `querySelector('link[href="…"]')`, built from the raw URL. The model's link list holds
  only the font links and treats the lookup as an exact match on the URL. A URL holding
  `"` makes `querySelector` throw inside `addFont` after its checks have passed; this is
  not modelled.
- What React does with the error thrown by the prompt editor's mount effect (tearing the
  component down) is reduced to the component staying unmounted (`Mount` returns false).
- Server routes (checkout and webhooks), the marketing page and the UI widgets are not
  part of this model.

## Findings

| source | as written | input that shows it | evidently intended | confidence | as-written member | corrected member |
|---|---|---|---|---|---|---|
| src/components/PromptStyler.tsx:163-166 | after rewriting a selection into list items, the caret is `start + newText.substring(start).indexOf(selectedText) + selectedText.length` | select the two lines `c\ne` (whole prompt) and press the bullet button: the text becomes `• c\n• e`, the selection no longer occurs, `indexOf` gives -1 and the caret lands at 2 | the caret goes right after the inserted items, at 7 | not executed | Editing.InsertListCursorAsWritten (shown by Editing.InsertListCursorMisplaced) | Editing.InsertList (also used by Editing.InsertOrderedList, Styler.PromptStyler.InsertList and Styler.PromptStyler.InsertOrderedList) |
