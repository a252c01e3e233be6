/**
 * The two menus (MenuManager.swift) as lists of abstract entries, and the
 * decision whether choosing a clipping from the standard menu pastes.
 */
module Menus {
  import opened Wrappers
  import opened Preview
  import opened History
  import opened Settings
  import opened Host
  import opened Clippings

  /** The selector an entry is wired to. */
  datatype MenuAction =
    | MenuSelection | MenuPlace | MenuPaste | MenuDelete
    | ClearAll | OpenAbout | OpenPreferences | Quit

  /** An `NSMenuItem`: a separator, or a titled entry with an optional action and submenu. */
  datatype MenuEntry =
    | Separator
    | Item(title: string, action: Option<MenuAction>, enabled: bool, submenu: seq<MenuEntry>)

  /**
   * The title of the preferences entry. The source text spells the
   * ellipsis as the three characters U+00E2 U+20AC U+00A6.
   */
  const PreferencesTitle := "Preferences\U{E2}\U{20AC}\U{A6}"

  /** The entry `rebuild` puts in an empty menu. */
  const NoneItem := Item("<None>", None, false, [])

  /** `addFixedMenuItems`'s tail: Clear All, About, Preferences and Quit between separators. */
  function FixedItems(appName: string): seq<MenuEntry> {
    [ Separator,
      Item("Clear All", Some(ClearAll), true, []),
      Item("About " + appName, Some(OpenAbout), true, []),
      Item(PreferencesTitle, Some(OpenPreferences), true, []),
      Separator,
      Item("Quit", Some(Quit), true, []) ]
  }

  /** `standardItem(forClipping:)`. */
  function StandardItem(c: Clipping): MenuEntry {
    Item(c.shortenedText, Some(MenuSelection), true, [])
  }

  /** The submenu of an alternate entry: copy, paste (enabled only when trusted) and delete. */
  function AltSubmenu(pasteEnabled: bool): seq<MenuEntry> {
    [ Item("Copy to pasteboard", Some(MenuPlace), true, []),
      Item("Paste", Some(MenuPaste), pasteEnabled, []),
      Item("Delete item", Some(MenuDelete), true, []) ]
  }

  /** `altItem(forClipping:pasteEnabled:)`. */
  function AltItem(c: Clipping, pasteEnabled: bool): MenuEntry {
    Item(c.shortenedText, None, true, AltSubmenu(pasteEnabled))
  }

  function StandardEntries(clips: seq<Clipping>): (r: seq<MenuEntry>)
    ensures |r| == |clips|
    ensures forall i :: 0 <= i < |r| ==> r[i] == StandardItem(clips[i])
  {
    seq(|clips|, i requires 0 <= i < |clips| => StandardItem(clips[i]))
  }

  function AltEntries(clips: seq<Clipping>, pasteEnabled: bool): (r: seq<MenuEntry>)
    ensures |r| == |clips|
    ensures forall i :: 0 <= i < |r| ==> r[i] == AltItem(clips[i], pasteEnabled)
  {
    seq(|clips|, i requires 0 <= i < |clips| => AltItem(clips[i], pasteEnabled))
  }

  /** `displayNum as? Int`, or 10. */
  function DisplaySize(displayNum: Option<int>): int {
    displayNum.GetOr(10)
  }

  /** `rebuild` reaches `firstItems` only on a non-empty stack, which traps on a negative size. */
  predicate RebuildDefined(count: int, displayNum: Option<int>) {
    count == 0 || DisplaySize(displayNum) >= 0
  }

  /** The standard menu `rebuild` makes for a history. */
  function StandardMenuOf(clips: seq<Clipping>, displayNum: Option<int>, appName: string): seq<MenuEntry>
    requires RebuildDefined(|clips|, displayNum)
  {
    (if clips == [] then [NoneItem] else StandardEntries(History.FirstItems(clips, DisplaySize(displayNum))))
      + FixedItems(appName)
  }

  /** The alternate menu `rebuild` makes for a history. */
  function AltMenuOf(clips: seq<Clipping>, displayNum: Option<int>, trusted: bool, appName: string): seq<MenuEntry>
    requires RebuildDefined(|clips|, displayNum)
  {
    (if clips == [] then [NoneItem] else AltEntries(History.FirstItems(clips, DisplaySize(displayNum)), trusted))
      + FixedItems(appName)
  }

  /** How many clipping entries (or the one `<None>` entry) come before the fixed tail. */
  function HeadCount(clips: seq<Clipping>, displayNum: Option<int>): int
    requires RebuildDefined(|clips|, displayNum)
  {
    if clips == [] then 1 else |History.FirstItems(clips, DisplaySize(displayNum))|
  }

  /**
   * The shape of the standard menu: on an empty history one disabled
   * `<None>` entry, otherwise one entry per displayed clipping in history
   * order, titled by its preview and wired to `menuSelection`; then the
   * fixed tail.
   */
  lemma StandardMenuShape(clips: seq<Clipping>, displayNum: Option<int>, appName: string)
    requires RebuildDefined(|clips|, displayNum)
    ensures var m := StandardMenuOf(clips, displayNum, appName);
            var k := HeadCount(clips, displayNum);
            && |m| == k + 6
            && m[k..] == FixedItems(appName)
            && (clips == [] ==> m[0] == NoneItem && !m[0].enabled)
            && (clips != [] ==> k == Min(|clips|, DisplaySize(displayNum)))
            && (clips != [] ==> forall i :: 0 <= i < k ==>
                  && IndexDefined(clips, i)
                  && m[i] == Item(clips[i].shortenedText, Some(MenuSelection), true, []))
  {
    var m := StandardMenuOf(clips, displayNum, appName);
    var k := HeadCount(clips, displayNum);
    if clips != [] {
      var head := StandardEntries(History.FirstItems(clips, DisplaySize(displayNum)));
      assert m == head + FixedItems(appName);
      assert m[k..] == FixedItems(appName);
    }
  }

  /**
   * The alternate menu has the same titles in the same places as the
   * standard one; each clipping entry has the copy / paste / delete
   * submenu, with paste enabled exactly when accessibility is trusted.
   */
  lemma AltMenuMatchesStandard(clips: seq<Clipping>, displayNum: Option<int>, trusted: bool, appName: string)
    requires RebuildDefined(|clips|, displayNum)
    ensures var s := StandardMenuOf(clips, displayNum, appName);
            var a := AltMenuOf(clips, displayNum, trusted, appName);
            var k := HeadCount(clips, displayNum);
            && |a| == |s|
            && a[k..] == s[k..]
            && (clips == [] ==> a == s)
            && (clips != [] ==> forall i :: 0 <= i < k ==>
                  && a[i].Item? && s[i].Item? && a[i].title == s[i].title
                  && a[i].action.None? && a[i].submenu == AltSubmenu(trusted)
                  && (a[i].submenu[1].enabled <==> trusted))
  {
    var s := StandardMenuOf(clips, displayNum, appName);
    var a := AltMenuOf(clips, displayNum, trusted, appName);
    var k := HeadCount(clips, displayNum);
    if clips != [] {
      var shown := History.FirstItems(clips, DisplaySize(displayNum));
      assert s == StandardEntries(shown) + FixedItems(appName);
      assert a == AltEntries(shown, trusted) + FixedItems(appName);
      assert a[k..] == FixedItems(appName) == s[k..];
    }
  }

  /**
   * `checkToggle` as written: it asks `checkMenuBehavior` about the event
   * that opened the standard menu.
   */
  function CheckToggleAsWritten(flags: Option<string>, trigger: Option<Event>): (r: bool)
    ensures r <==> trigger.Some? && CheckMenuBehavior(flags, trigger.value)
  {
    match trigger
    case None => false
    case Some(event) => CheckMenuBehavior(flags, event)
  }

  /**
   * The click that the `...Toggle` settings describe as switching paste
   * behaviour: shift under `rightAltShiftToggle`, a right click under
   * `shiftAltRightToggle`, and nothing under the other settings.
   */
  function ToggleCondition(flags: Option<string>, event: Event): (r: bool)
    ensures var f := ParseMenuBehaviorFlags(flags);
            r <==> || (f == RightAltShiftToggle && event.modifiers.shift)
                   || (f == ShiftAltRightToggle && event.eventType == RightMouseUp)
  {
    match ParseMenuBehaviorFlags(flags)
    case RightAltShiftToggle => event.modifiers.shift
    case ShiftAltRightToggle => event.eventType == RightMouseUp
    case _ => false
  }

  /** `checkToggle`, corrected to test the toggle click of the setting. */
  function CheckToggle(flags: Option<string>, trigger: Option<Event>): (r: bool)
    ensures r <==> trigger.Some? && ToggleCondition(flags, trigger.value)
    ensures r ==> ParseMenuBehaviorFlags(flags) in {RightAltShiftToggle, ShiftAltRightToggle}
  {
    match trigger
    case None => false
    case Some(event) => ToggleCondition(flags, event)
  }

  /**
   * As written, the toggle can never fire: `triggerEvent` is recorded only
   * for a click that `checkMenuBehavior` turned down, and the same test
   * turns it down again.
   */
  lemma ToggleNeverFiresAsWritten(flags: Option<string>, event: Event)
    requires !CheckMenuBehavior(flags, event)
    ensures !CheckToggleAsWritten(flags, Some(event))
  {
  }

  /**
   * With each toggle setting there is a click that opens the standard menu
   * and fires the corrected toggle: a shifted left click under
   * `rightAltShiftToggle`, an unshifted right click under `shiftAltRightToggle`.
   */
  lemma ToggleReachable()
    ensures var shiftClick := Event(LeftMouseUp, Modifiers(true, false, false, false));
            && !CheckMenuBehavior(Some("rightAltShiftToggle"), shiftClick)
            && CheckToggle(Some("rightAltShiftToggle"), Some(shiftClick))
            && !CheckToggleAsWritten(Some("rightAltShiftToggle"), Some(shiftClick))
    ensures var rightClick := Event(RightMouseUp, Modifiers(false, false, false, false));
            && !CheckMenuBehavior(Some("shiftAltRightToggle"), rightClick)
            && CheckToggle(Some("shiftAltRightToggle"), Some(rightClick))
            && !CheckToggleAsWritten(Some("shiftAltRightToggle"), Some(rightClick))
  {
  }

  /**
   * A click that fires the corrected toggle reaches the standard menu,
   * unless it is a right click with shift held, which opens the
   * alternate menu under both toggle settings.
   */
  lemma ToggleOnlyOnStandardClicks(flags: Option<string>, event: Event)
    ensures ToggleCondition(flags, event) && CheckMenuBehavior(flags, event) <==>
              && ParseMenuBehaviorFlags(flags) in {RightAltShiftToggle, ShiftAltRightToggle}
              && event.eventType == RightMouseUp && event.modifiers.shift
  {
  }

  class MenuManager {
    var standard: seq<MenuEntry>
    var alt: seq<MenuEntry>
    /** The click that last opened the standard menu. */
    var triggerEvent: Option<Event>
    const defaults: Defaults

    constructor (defaults: Defaults)
      ensures standard == [] && alt == [] && triggerEvent.None? && this.defaults == defaults
    {
      standard := [];
      alt := [];
      triggerEvent := None;
      this.defaults := defaults;
    }

    /**
     * `shouldSelectionPaste`: the `menuSelectionPastes` setting (false when
     * unset), inverted exactly when the toggle fires.
     */
    function ShouldSelectionPaste(): (r: bool)
      reads this, defaults
      ensures !CheckToggle(defaults.menuBehaviorFlags, triggerEvent) ==> (r <==> defaults.menuSelectionPastes == Some(true))
      ensures CheckToggle(defaults.menuBehaviorFlags, triggerEvent) ==> (r <==> defaults.menuSelectionPastes != Some(true))
    {
      var paste := defaults.menuSelectionPastes.GetOr(false);
      if CheckToggle(defaults.menuBehaviorFlags, triggerEvent) then !paste else paste
    }

    /** `shouldSelectionPaste` as written, which never inverts the setting once the standard menu was opened. */
    function ShouldSelectionPasteAsWritten(): (r: bool)
      reads this, defaults
      ensures !CheckToggleAsWritten(defaults.menuBehaviorFlags, triggerEvent) ==> (r <==> defaults.menuSelectionPastes == Some(true))
      ensures CheckToggleAsWritten(defaults.menuBehaviorFlags, triggerEvent) ==> (r <==> defaults.menuSelectionPastes != Some(true))
    {
      var paste := defaults.menuSelectionPastes.GetOr(false);
      if CheckToggleAsWritten(defaults.menuBehaviorFlags, triggerEvent) then !paste else paste
    }

    /**
     * `rebuild`: both menus are emptied and refilled from the history, so
     * they depend only on the history, the settings and the platform and a
     * second rebuild gives the same menus.
     */
    method Rebuild(stack: ClippingStack, host: Platform)
      requires RebuildDefined(stack.Count(), defaults.displayNum)
      modifies this`standard, this`alt
      ensures standard == StandardMenuOf(stack.Items(), defaults.displayNum, host.processName)
      ensures alt == AltMenuOf(stack.Items(), defaults.displayNum, host.trusted, host.processName)
    {
      standard := [];
      alt := [];
      if stack.IsEmpty() {
        alt := alt + [NoneItem];
        standard := standard + [NoneItem];
      } else {
        var displaySize := if defaults.displayNum.Some? then defaults.displayNum.value else 10;
        var clippings := stack.FirstItems(displaySize);
        var pasteEnabled := host.trusted;
        var i := 0;
        while i < |clippings|
          invariant 0 <= i <= |clippings|
          invariant standard == StandardEntries(clippings[..i])
          invariant alt == AltEntries(clippings[..i], pasteEnabled)
        {
          standard := standard + [StandardItem(clippings[i])];
          alt := alt + [AltItem(clippings[i], pasteEnabled)];
          i := i + 1;
        }
        assert clippings[..i] == clippings;
      }
      alt := AddFixedMenuItems(alt, host.processName);
      standard := AddFixedMenuItems(standard, host.processName);
    }
  }

  /** `addFixedMenuItems`: the fixed tail is appended one entry at a time. */
  method AddFixedMenuItems(menu: seq<MenuEntry>, appName: string) returns (r: seq<MenuEntry>)
    ensures r == menu + FixedItems(appName)
  {
    r := menu + [Separator];
    r := r + [Item("Clear All", Some(ClearAll), true, [])];
    r := r + [Item("About " + appName, Some(OpenAbout), true, [])];
    r := r + [Item(PreferencesTitle, Some(OpenPreferences), true, [])];
    r := r + [Separator];
    r := r + [Item("Quit", Some(Quit), true, [])];
  }
}
