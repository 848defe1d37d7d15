/**
 * The export step of the prompt styler, reduced to what it selects: the format
 * looked up in the list of export formats, the geometry and the text styles applied
 * to the off-screen copy of the preview for each aspect ratio, the capture options,
 * the file name and the MIME type of the downloaded image, and what the user ends up
 * with (nothing, a download, or an alert).
 */
module Export {
  import opened Wrappers
  import opened JsText
  import Registry

  /** An entry of the list of export formats. */
  datatype FormatConfig = FormatConfig(value: string, caption: string, width: nat, height: nat)

  const ExportFormats: seq<FormatConfig> := [
    FormatConfig("16:9", "16:9 (1920x1080)", 1920, 1080),
    FormatConfig("9:16", "9:16 (1080x1920)", 1080, 1920)
  ]

  function FormatValue(f: FormatConfig): string { f.value }

  /** `EXPORT_FORMATS.find(f => f.value === format)`. */
  function FindFormat(format: string): Option<FormatConfig> {
    Registry.Find(ExportFormats, FormatValue, format)
  }

  /** '16:9' is 1920 by 1080 and '9:16' is 1080 by 1920; any other format is not found. */
  lemma FormatGeometry(value: string)
    ensures value == "16:9" ==> FindFormat(value) == Some(FormatConfig("16:9", "16:9 (1920x1080)", 1920, 1080))
    ensures value == "9:16" ==> FindFormat(value) == Some(FormatConfig("9:16", "9:16 (1080x1920)", 1080, 1920))
    ensures value != "16:9" && value != "9:16" ==> FindFormat(value).None?
  {
    assert ExportFormats[0].value == "16:9" && ExportFormats[1].value == "9:16";
  }

  /** The styles set on the off-screen copy of the preview before it is captured. */
  datatype Layout = Layout(
    width: nat, height: nat,        // the container and the copied preview, in pixels
    previewPadding: string,
    cardWidth: string, cardMaxHeight: string,
    contentPadding: string,
    fontSize: string, lineHeight: string, textWidth: string,
    marginBottom: string, wordWrap: string)

  /** The vertical export is chosen exactly for the format '9:16'; every other format
      found takes the horizontal one. */
  predicate IsVertical(format: string) {
    format == "9:16"
  }

  /** The per-ratio styles: the container takes the geometry of the format found, the
      vertical export a wider card, more padding and larger text. */
  function ExportLayout(format: string, config: FormatConfig): (l: Layout)
    ensures l.width == config.width && l.height == config.height
    ensures l.previewPadding == "60px" && l.cardMaxHeight == "none" && l.textWidth == "100%"
    ensures l.wordWrap == "break-word"
  {
    if IsVertical(format) then
      Layout(config.width, config.height, "60px", "95%", "none", "80px 60px", "44px", "1.6", "100%", "24px", "break-word")
    else
      Layout(config.width, config.height, "60px", "75%", "none", "60px 80px", "36px", "1.5", "100%", "20px", "break-word")
  }

  /** The two exports differ in card width, content padding, text size, line height and
      spacing: 95%, 80px 60px, 44px, 1.6 and 24px for '9:16', 75%, 60px 80px, 36px, 1.5
      and 20px for '16:9'. */
  lemma LayoutPerRatio()
    ensures var l := ExportLayout("9:16", FormatConfig("9:16", "9:16 (1080x1920)", 1080, 1920));
      l.width == 1080 && l.height == 1920 && l.cardWidth == "95%" && l.contentPadding == "80px 60px"
      && l.fontSize == "44px" && l.lineHeight == "1.6" && l.marginBottom == "24px"
    ensures var l := ExportLayout("16:9", FormatConfig("16:9", "16:9 (1920x1080)", 1920, 1080));
      l.width == 1920 && l.height == 1080 && l.cardWidth == "75%" && l.contentPadding == "60px 80px"
      && l.fontSize == "36px" && l.lineHeight == "1.5" && l.marginBottom == "20px"
  {
  }

  /** The style each element inside the copied text gets. */
  datatype ElementStyle = ElementStyle(fontSize: string, lineHeight: string, marginBottom: string, width: string, wordWrap: string)

  function TextStyle(l: Layout): ElementStyle {
    ElementStyle(l.fontSize, l.lineHeight, l.marginBottom, l.textWidth, l.wordWrap)
  }

  /** `elements.forEach(el => { … })`: every element of the copied text takes the
      export's text style, whatever it had. */
  method RestyleElements(elements: array<ElementStyle>, l: Layout)
    modifies elements
    ensures forall k :: 0 <= k < elements.Length ==> elements[k] == TextStyle(l)
  {
    var i := 0;
    while i < elements.Length
      invariant 0 <= i <= elements.Length
      invariant forall k :: 0 <= k < i ==> elements[k] == TextStyle(l)
    {
      elements[i] := TextStyle(l);
      i := i + 1;
    }
  }

  /** The options given to the capture library. */
  datatype CaptureOptions = CaptureOptions(width: nat, height: nat, scale: nat, useCORS: bool, allowTaint: bool, backgroundColor: Option<string>, logging: bool)

  /** Both exports capture at the format's own size, at scale 1, with a transparent
      background. */
  function Capture(config: FormatConfig): (c: CaptureOptions)
    ensures c.width == config.width && c.height == config.height && c.scale == 1
    ensures c.backgroundColor.None? && c.useCORS && c.allowTaint && !c.logging
  {
    CaptureOptions(config.width, config.height, 1, true, true, None, false)
  }

  datatype FileType = Png | Jpeg

  function FileTypeName(t: FileType): string {
    match t
    case Png => "png"
    case Jpeg => "jpeg"
  }

  /** JPEG is encoded as `image/jpeg` at quality 0.9, anything else as `image/png` with
      the encoder's default quality. */
  function MimeType(t: FileType): (m: string)
    ensures m == "image/jpeg" <==> t == Jpeg
    ensures m == "image/png" <==> t == Png
  {
    assert "image/jpeg"[6] != "image/png"[6];
    match t
    case Jpeg => "image/jpeg"
    case Png => "image/png"
  }

  function Quality(t: FileType): (q: Option<real>)
    ensures q.Some? <==> t == Jpeg
    ensures q.Some? ==> q.value == 0.9
  {
    if t == Jpeg then Some(0.9) else None
  }

  /** `prompt-${format}-${Date.now()}.${fileType}`, the time passed in. */
  function FileName(format: string, now: nat, t: FileType): (f: string)
    ensures StartsWith(f, "prompt-" + format + "-")
    ensures EndsWith(f, "." + FileTypeName(t))
  {
    var p := "prompt-" + format + "-";
    var e := "." + FileTypeName(t);
    var f := p + NatToString(now) + e;
    assert f[..|p|] == p;
    assert f[|f| - |e|..] == e;
    f
  }

  /** Two exports of the same format and type at different times get different names. */
  lemma FileNameDistinct(format: string, now1: nat, now2: nat, t: FileType)
    requires FileName(format, now1, t) == FileName(format, now2, t)
    ensures now1 == now2
  {
    var p := "prompt-" + format + "-";
    var e := "." + FileTypeName(t);
    var d1, d2 := NatToString(now1), NatToString(now2);
    var f1, f2 := p + d1 + e, p + d2 + e;
    assert |d1| == |d2|;
    assert f1[|p|..|p| + |d1|] == d1;
    assert f2[|p|..|p| + |d2|] == d2;
    NatToStringInjective(now1, now2);
  }

  /** Between the prefix and the extension the name holds exactly the decimal digits of
      the export time. */
  lemma FileNameTime(format: string, now: nat, t: FileType)
    ensures var f := FileName(format, now, t);
      var p, e := "prompt-" + format + "-", "." + FileTypeName(t);
      |p| + |e| <= |f| && AllDigits(f[|p|..|f| - |e|]) && DecimalValue(f[|p|..|f| - |e|]) == now
  {
    var p, e := "prompt-" + format + "-", "." + FileTypeName(t);
    var d := NatToString(now);
    var f := FileName(format, now, t);
    assert f == p + d + e;
    assert f[|p|..|f| - |e|] == d;
    DecimalRoundTrip(now);
  }

  /** How the capture and the encoding went: an image encoded, a capture that threw, or
      a capture that succeeded followed by an encoding (`toDataURL`, which throws on a
      canvas tainted by a cross-origin image) that threw. A failure carries an Error's
      message, None when what was thrown is not an Error. */
  datatype CaptureResult =
    | Captured
    | Failed(message: Option<string>)
    | EncodeFailed(message: Option<string>)

  /** What `exportToImage` leaves the user with. The temporary container is removed right
      after the capture resolves, so a failed capture leaves it in the page while a
      failed encoding does not. */
  datatype Outcome =
    | NoExport
    | Download(fileName: string, mime: string, quality: Option<real>, layout: Layout, options: CaptureOptions)
    | Alert(text: string, containerLeft: bool)

  const AlertPrefix: string := "Erreur lors de l'export de l'image: "

  /** `exportToImage`: nothing without a preview or with a format that is not listed;
      otherwise the layout of the format's ratio, then a download, or an alert when the
      capture fails. */
  function ExportToImage(hasPreview: bool, format: string, t: FileType, now: nat, capture: CaptureResult): (o: Outcome)
    ensures o.NoExport? <==> !hasPreview || FindFormat(format).None?
    ensures o.Download? ==>
              capture.Captured? && o.fileName == FileName(format, now, t) && o.mime == MimeType(t) && o.quality == Quality(t)
    ensures o.Alert? ==> !capture.Captured? && StartsWith(o.text, AlertPrefix)
    ensures o.Alert? ==> (o.containerLeft <==> capture.Failed?)
    ensures o.Alert? ==> o.text == AlertPrefix + capture.message.GetOr("Erreur inconnue")
  {
    if !hasPreview then NoExport
    else
      match FindFormat(format)
      case None => NoExport
      case Some(config) =>
        match capture
        case Captured =>
          Download(FileName(format, now, t), MimeType(t), Quality(t), ExportLayout(format, config), Capture(config))
        case Failed(message) =>
          var text := AlertPrefix + message.GetOr("Erreur inconnue");
          assert text[..|AlertPrefix|] == AlertPrefix;
          Alert(text, true)
        case EncodeFailed(message) =>
          var text := AlertPrefix + message.GetOr("Erreur inconnue");
          assert text[..|AlertPrefix|] == AlertPrefix;
          Alert(text, false)
  }

  /** A download carries the geometry of its format: 1080 by 1920 for '9:16', 1920 by
      1080 for '16:9', with the vertical layout exactly for '9:16'. */
  lemma DownloadGeometry(format: string, t: FileType, now: nat)
    requires ExportToImage(true, format, t, now, Captured).Download?
    ensures var o := ExportToImage(true, format, t, now, Captured);
      (format == "9:16" ==> o.layout.width == 1080 && o.layout.height == 1920 && o.layout.cardWidth == "95%")
      && (format != "9:16" ==> format == "16:9" && o.layout.width == 1920 && o.layout.height == 1080 && o.layout.cardWidth == "75%")
      && o.options.width == o.layout.width && o.options.height == o.layout.height
  {
    FormatGeometry(format);
  }
}
