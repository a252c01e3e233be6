/**
 * The bezel (Bezel.swift): whether it is on screen, whether choosing a
 * clipping from it pastes, how its text is aligned, and when releasing the
 * modifier keys counts as a selection. Layout, fonts and colours are left out.
 */
module Bezel {
  import opened Wrappers
  import opened Preview
  import opened Settings
  import opened Host

  datatype TextAlignment = AlignLeft | AlignCenter | AlignRight

  /**
   * The paragraph alignment `setText(text:align:)` chooses. With no explicit
   * alignment the `bezelAlignment` setting is used; `smartAlign` left-aligns
   * text longer than 100 characters or holding a newline, and centres the rest.
   */
  function ParagraphAlignment(text: string, align: Option<BezelAlignment>, preference: Option<string>): (a: TextAlignment)
    ensures var use := if align.Some? then align.value else ParseBezelAlignment(preference);
            && (a == AlignLeft <==> use == Left || (use == SmartAlign && (|text| > 100 || !NoNewline(text))))
            && (a == AlignRight <==> use == Right)
    ensures align.None? && (preference.None? || preference == Some("center")) ==> a == AlignCenter
  {
    var useAlign := if align.None? then ParseBezelAlignment(preference) else align.value;
    match useAlign
    case SmartAlign =>
      if |text| > 100 || exists i :: 0 <= i < |text| && IsNewline(text[i]) then AlignLeft else AlignCenter
    case Left => AlignLeft
    case Right => AlignRight
    case Center => AlignCenter
  }

  /**
   * `KeyCaptureWindow.flagsChanged`: the release handler runs once none of
   * option, command, control and shift is held any more.
   */
  predicate ModifierReleaseFires(m: Modifiers) {
    !m.option && !m.command && !m.control && !m.shift
  }

  class Bezel {
    var shown: bool
    const defaults: Defaults

    constructor (defaults: Defaults)
      ensures !shown && this.defaults == defaults
    {
      shown := false;
      this.defaults := defaults;
    }

    /** `shouldSelectionPaste`: the `bezelSelectionPastes` setting, false when unset; nothing toggles it. */
    function ShouldSelectionPaste(): (r: bool)
      reads defaults
      ensures r <==> defaults.bezelSelectionPastes == Some(true)
    {
      defaults.bezelSelectionPastes.GetOr(false)
    }

    method Hide()
      modifies this`shown
      ensures !shown
    {
      shown := false;
    }

    method Show()
      modifies this`shown
      ensures shown
    {
      shown := true;
    }
  }
}
