/**
 * The state of the prompt styler component: the prompt, the style and export
 * settings, the mount flag, the textarea selection and the copy kept in local storage
 * under `prompt-styler-data`. The mount effect restores the saved copy, the save
 * effect writes it back once mounted, the toolbar buttons splice markdown into the
 * prompt and the selects and toggles change one setting at a time.
 */
module Styler {
  import opened Wrappers
  import opened JsText
  import opened LocalStorage
  import Editing
  import Export

  datatype StyleSettings = StyleSettings(
    font: string, background: string, cardStyle: string, title: string,
    fontSize16_9: string, fontSize9_16: string)

  const DefaultStyle: StyleSettings := StyleSettings(
    "font-sans", "bg-gradient-to-br from-blue-400 to-purple-600",
    "bg-white shadow-xl border-0 rounded-2xl", "", "text-xl", "text-3xl")

  datatype ExportSettings = ExportSettings(format: string, fileType: Export.FileType)

  const DefaultExport: ExportSettings := ExportSettings("16:9", Export.Png)

  /** The parsed JSON kept under `prompt-styler-data`; either field may be missing. */
  datatype SavedData = SavedData(promptText: Option<string>, styleSettings: Option<StyleSettings>)

  /** The mount effect's restore: nothing saved keeps the current state; a saved copy
      gives its prompt (or '') and its style (or the default style). */
  function Restore(saved: Option<SavedData>, text: string, style: StyleSettings): (r: (string, StyleSettings))
    ensures saved.None? ==> r == (text, style)
    ensures saved.Some? && saved.value.promptText.None? ==> r.0 == []
    ensures saved.Some? && saved.value.styleSettings.None? ==> r.1 == DefaultStyle
    ensures saved.Some? && saved.value.promptText.Some? ==> r.0 == saved.value.promptText.value
    ensures saved.Some? && saved.value.styleSettings.Some? ==> r.1 == saved.value.styleSettings.value
  {
    match saved
    case None => (text, style)
    case Some(d) => (d.promptText.GetOr([]), d.styleSettings.GetOr(DefaultStyle))
  }

  /** What the save effect writes. */
  function Snapshot(text: string, style: StyleSettings): SavedData {
    SavedData(Some(text), Some(style))
  }

  /** Saving and restoring round-trips: a reload brings back the prompt and the style
      that were saved, whatever the state before the restore. */
  lemma RestoreSnapshot(text: string, style: StyleSettings, t0: string, s0: StyleSettings)
    ensures Restore(Some(Snapshot(text, style)), t0, s0) == (text, style)
  {
  }

  /** The five settings a select changes. */
  datatype StyleField = Font | Background | CardStyle | FontSize16_9 | FontSize9_16

  function Field(s: StyleSettings, f: StyleField): string {
    match f
    case Font => s.font
    case Background => s.background
    case CardStyle => s.cardStyle
    case FontSize16_9 => s.fontSize16_9
    case FontSize9_16 => s.fontSize9_16
  }

  /** `setStyleSettings(prev => ({ ...prev, f: value }))`: the chosen setting takes the
      value, every other setting and the title stay as they were. */
  function WithField(s: StyleSettings, f: StyleField, value: string): (r: StyleSettings)
    ensures Field(r, f) == value
    ensures forall g :: g != f ==> Field(r, g) == Field(s, g)
    ensures r.title == s.title
  {
    match f
    case Font => s.(font := value)
    case Background => s.(background := value)
    case CardStyle => s.(cardStyle := value)
    case FontSize16_9 => s.(fontSize16_9 := value)
    case FontSize9_16 => s.(fontSize9_16 := value)
  }

  /** The export button is enabled exactly when the prompt is not blank. */
  predicate ExportEnabled(text: string) {
    Trim(text) != []
  }

  class PromptStyler {
    var promptText: string
    var style: StyleSettings
    var exportSettings: ExportSettings
    var mounted: bool
    /** The value under `prompt-styler-data`: nothing stored, a copy that parses, or
        text that `JSON.parse` rejects (the JSON `null` counts as such, since the
        destructuring of the parsed value throws on it). */
    var storage: Entry<SavedData>
    var selStart: nat
    var selEnd: nat

    /** The textarea's selection lies within the prompt. */
    ghost predicate Valid()
      reads this
    {
      selStart <= selEnd <= |promptText|
    }

    /** The first render: empty prompt, default settings, not mounted yet. */
    constructor(saved: Entry<SavedData>)
      ensures Valid() && !mounted && storage == saved
      ensures promptText == [] && style == DefaultStyle && exportSettings == DefaultExport
    {
      promptText := [];
      style := DefaultStyle;
      exportSettings := DefaultExport;
      mounted := false;
      storage := saved;
      selStart, selEnd := 0, 0;
    }

    /** The mount effect: mark mounted and restore the saved prompt and style; the
        textarea appears with this render, its caret at the start. The parse is not
        guarded: a stored value that does not parse makes the effect throw (`ok` is
        false), the queued `setMounted(true)` is never committed, and nothing changes,
        the bad value staying stored. */
    method Mount() returns (ok: bool)
      requires Valid()
      modifies this
      ensures ok <==> !old(storage).Unparsable?
      ensures ok ==> Valid() && mounted && selStart == selEnd == 0
      ensures ok ==> (promptText, style) == Restore(if old(storage).Present? then Some(old(storage).value) else None, old(promptText), old(style))
      ensures !ok ==> Valid() && mounted == old(mounted) && promptText == old(promptText) && style == old(style)
      ensures storage == old(storage) && exportSettings == old(exportSettings)
    {
      match storage
      case Unparsable =>
        ok := false;
      case Absent =>
        ok := true;
        mounted := true;
        selStart, selEnd := 0, 0;
      case Present(d) =>
        ok := true;
        mounted := true;
        var r := Restore(Some(d), promptText, style);
        promptText, style := r.0, r.1;
        selStart, selEnd := 0, 0;
    }

    /** The save effect: once mounted, the prompt and the style are written back. */
    method Save()
      modifies this`storage
      ensures mounted ==> storage == Present(Snapshot(promptText, style))
      ensures !mounted ==> storage == old(storage)
    {
      if mounted {
        storage := Present(Snapshot(promptText, style));
      }
    }

    /** Typing in the textarea: the new value, with the selection the browser reports. */
    method Type(text: string, start: nat, end: nat)
      requires start <= end <= |text|
      modifies this`promptText, this`selStart, this`selEnd
      ensures Valid() && promptText == text && selStart == start && selEnd == end
    {
      promptText, selStart, selEnd := text, start, end;
    }

    /** Moving the selection within the prompt. */
    method Select(start: nat, end: nat)
      requires start <= end <= |promptText|
      modifies this`selStart, this`selEnd
      ensures Valid() && selStart == start && selEnd == end
    {
      selStart, selEnd := start, end;
    }

    /** A markdown button: without the textarea (before mount) nothing happens;
        otherwise the prompt and the selection become those of the splice. */
    method InsertMarkdown(m: string)
      requires Valid()
      modifies this`promptText, this`selStart, this`selEnd
      ensures Valid()
      ensures !mounted ==> promptText == old(promptText) && selStart == old(selStart) && selEnd == old(selEnd)
      ensures mounted ==> Editing.Edit(promptText, selStart, selEnd) == Editing.InsertMarkdown(old(promptText), old(selStart), old(selEnd), m)
    {
      if mounted {
        var e := Editing.InsertMarkdown(promptText, selStart, selEnd, m);
        promptText, selStart, selEnd := e.text, e.selStart, e.selEnd;
      }
    }

    /** The bullet button (and the ordered one, with its computed marker). */
    method InsertList(listType: string)
      requires Valid()
      modifies this`promptText, this`selStart, this`selEnd
      ensures Valid()
      ensures !mounted ==> promptText == old(promptText) && selStart == old(selStart) && selEnd == old(selEnd)
      ensures mounted ==> Editing.Edit(promptText, selStart, selEnd) == Editing.InsertList(old(promptText), old(selStart), old(selEnd), listType)
    {
      if mounted {
        var e := Editing.InsertList(promptText, selStart, selEnd, listType);
        promptText, selStart, selEnd := e.text, e.selStart, e.selEnd;
      }
    }

    /** The ordered-list button: the next number is counted from the prompt before the
        cursor, then the list insertion runs with `N. `. */
    method InsertOrderedList()
      requires Valid()
      modifies this`promptText, this`selStart, this`selEnd
      ensures Valid()
      ensures !mounted ==> promptText == old(promptText) && selStart == old(selStart) && selEnd == old(selEnd)
      ensures mounted ==> Editing.Edit(promptText, selStart, selEnd) == Editing.InsertOrderedList(old(promptText), old(selStart), old(selEnd))
    {
      if mounted {
        InsertList(Editing.OrderedMarker(promptText, selStart));
      }
    }

    /** A style select: one setting changes, the others stay. */
    method SetStyle(f: StyleField, value: string)
      modifies this`style
      ensures style == WithField(old(style), f, value)
    {
      style := WithField(style, f, value);
    }

    /** The format toggle: deselecting (an empty value) changes nothing. */
    method SetFormat(value: string)
      modifies this`exportSettings
      ensures value == [] ==> exportSettings == old(exportSettings)
      ensures value != [] ==> exportSettings == old(exportSettings).(format := value)
    {
      if value != [] {
        exportSettings := exportSettings.(format := value);
      }
    }

    /** The file type toggle: deselecting (None) changes nothing. */
    method SetFileType(value: Option<Export.FileType>)
      modifies this`exportSettings
      ensures value.None? ==> exportSettings == old(exportSettings)
      ensures value.Some? ==> exportSettings == old(exportSettings).(fileType := value.value)
    {
      if value.Some? {
        exportSettings := exportSettings.(fileType := value.value);
      }
    }

    /** The export button: disabled for a blank prompt; otherwise `exportToImage` with the
        current settings, the preview existing once mounted. */
    method ClickExport(now: nat, capture: Export.CaptureResult) returns (o: Export.Outcome)
      ensures !ExportEnabled(promptText) ==> o.NoExport?
      ensures ExportEnabled(promptText) ==>
                o == Export.ExportToImage(mounted, exportSettings.format, exportSettings.fileType, now, capture)
    {
      if !ExportEnabled(promptText) {
        o := Export.NoExport;
      } else {
        o := Export.ExportToImage(mounted, exportSettings.format, exportSettings.fileType, now, capture);
      }
    }
  }

  /** A session survives a reload: what the save effect writes after some typing is
      what the next mount restores. */
  method ReloadRestores(text: string) returns (before: PromptStyler, after: PromptStyler)
    ensures after.promptText == before.promptText == text && after.style == before.style == DefaultStyle
  {
    before := new PromptStyler(Absent);
    var ok := before.Mount();
    before.Type(text, |text|, |text|);
    before.Save();
    after := new PromptStyler(before.storage);
    ok := after.Mount();
  }

  /** A stored copy that does not parse breaks every load: the mount effect throws, the
      component never mounts, so the save effect never overwrites the bad value and the
      next load throws again. */
  method ReloadFailsAgain() returns (first: PromptStyler, second: PromptStyler, ok1: bool, ok2: bool)
    ensures !ok1 && !ok2 && !first.mounted && !second.mounted
    ensures first.storage == second.storage == Unparsable
  {
    first := new PromptStyler(Unparsable);
    ok1 := first.Mount();
    first.Save();
    second := new PromptStyler(first.storage);
    ok2 := second.Mount();
  }
}
