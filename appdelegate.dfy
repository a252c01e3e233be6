/**
 * The application delegate's event logic (AppDelegate.swift): launching,
 * taking in new pasteboard text, the global hotkey, clicks on the menu-bar
 * item and reacting to changed settings.
 */
module Delegate {
  import opened Wrappers
  import opened Preview
  import opened History
  import opened Settings
  import opened Host
  import opened Clippings
  import opened Menus
  import opened Bezel
  import opened StatusBar
  import opened Interacting

  /** `pasteboardChangeClosure` adds the watcher's text: there is some, and it is not already the newest clipping. */
  predicate Ingests(lastFound: Option<string>, clips: seq<Clipping>) {
    lastFound.Some? && (clips == [] || clips[0].fullText != lastFound.value)
  }

  class AppDelegate {
    const stack: ClippingStack
    const menu: MenuManager
    const statusItem: StatusItem
    const bezel: Bezel
    const host: Platform
    const interactions: Interactions
    const defaults: Defaults
    var mainHotkeyIsRecording: bool

    ghost predicate Valid()
      reads stack.store`maxLength, stack.store`clippings, interactions.stack.store`maxLength
      reads interactions.stack.store`clippings, statusItem`hasItem, statusItem`visible
    {
      && interactions.stack == stack && interactions.menu == menu && interactions.bezel == bezel
      && interactions.host == host && interactions.defaults == defaults
      && interactions.Valid()
      && statusItem.Valid() && statusItem.defaults == defaults
    }

    /**
     * `applicationDidFinishLaunching`, for the parts this model covers: the
     * status item, the stack (loading the saved record), the menus, the
     * interactions, a first rebuild and `setVisibility`. The status item is
     * made as written, believed hidden, so a headless launch leaves an item
     * that is in the menu bar where it is.
     */
    constructor Launch(defaults: Defaults, disk: Option<JCEngine>, version: string, host: Platform,
                       modern: bool, restoredVisible: bool)
      requires DisplaySize(defaults.displayNum) >= 0
      modifies defaults`hideStatusItem
      ensures Valid() && !mainHotkeyIsRecording && !bezel.shown && stack.position == 0
      ensures this.defaults == defaults && this.host == host
      ensures var loaded := if defaults.skipSave.GetOr(false) || disk.None? then [] else NonBlankContents(disk.value.jcList);
              stack.Items() == History.FirstItems(ClippingsOf(loaded), Min(InitialMaxLength, stack.store.maxLength))
      ensures menu.standard == StandardMenuOf(stack.Items(), defaults.displayNum, host.processName)
      ensures menu.alt == AltMenuOf(stack.Items(), defaults.displayNum, host.trusted, host.processName)
      ensures statusItem.shown == !Headless(defaults.hideStatusItem)
      ensures statusItem.Displayed() == (!Headless(defaults.hideStatusItem) || !modern || restoredVisible)
      ensures defaults.hideStatusItem == old(defaults.hideStatusItem)
    {
      var b := new Bezel(defaults);
      var item := new StatusItem.AsWritten(modern, defaults, restoredVisible);
      // `setVisibility` comes last in the source; it touches only the item
      // and `hideStatusItem`, which building the history does not read.
      item.SetVisibility();
      var s, m, i := SetUpHistory(defaults, disk, version, host, b);
      this.bezel := b;
      this.statusItem := item;
      this.stack := s;
      this.menu := m;
      this.interactions := i;
      this.host := host;
      this.defaults := defaults;
      mainHotkeyIsRecording := false;
    }

    /**
     * The middle of `applicationDidFinishLaunching`: the stack, the menus,
     * the interactions over them, and the first rebuild.
     */
    static method SetUpHistory(defaults: Defaults, disk: Option<JCEngine>, version: string, host: Platform, b: Bezel)
      returns (s: ClippingStack, m: MenuManager, i: Interactions)
      requires DisplaySize(defaults.displayNum) >= 0 && b.defaults == defaults
      ensures i.Valid() && i.stack == s && i.menu == m && i.bezel == b && i.host == host && i.defaults == defaults
      ensures s.position == 0 && s.defaults == defaults
      ensures var loaded := if defaults.skipSave.GetOr(false) || disk.None? then [] else NonBlankContents(disk.value.jcList);
              s.Items() == History.FirstItems(ClippingsOf(loaded), Min(InitialMaxLength, s.store.maxLength))
      ensures m.standard == StandardMenuOf(s.Items(), defaults.displayNum, host.processName)
      ensures m.alt == AltMenuOf(s.Items(), defaults.displayNum, host.trusted, host.processName)
    {
      s := new ClippingStack(defaults, disk, version);
      m := new MenuManager(defaults);
      i := new Interactions(b, m, host, s);
      m.Rebuild(s, host);
    }

    /**
     * `pasteboardChangeClosure`: new text goes on top of the history. With
     * `bezelToTop` 1 (the default) the cursor returns to the top; otherwise
     * it moves down with its clipping, stepping back once at the end. The
     * menus are rebuilt only when something was added, and afterwards the
     * text is the newest clipping, so the same text again changes nothing.
     */
    method PasteboardChanged()
      requires Valid()
      requires Ingests(host.lastFound, stack.Items()) ==> DisplaySize(defaults.displayNum) >= 0
      modifies stack`position, stack.store`clippings, stack.store`file, menu`standard, menu`alt
      ensures Valid()
      ensures !Ingests(old(host.lastFound), old(stack.Items())) ==>
                && stack.Items() == old(stack.Items()) && stack.position == old(stack.position)
                && menu.standard == old(menu.standard) && menu.alt == old(menu.alt)
                && stack.store.file == old(stack.store.file)
      ensures Ingests(old(host.lastFound), old(stack.Items())) ==>
                && stack.Items() == Added(old(stack.Items()), host.lastFound.value, stack.store.maxLength)
                && stack.store.file == (if stack.store.skipSave then old(stack.store.file) else Some(stack.store.Saved()))
                && stack.position == IngestPosition(old(stack.position), stack.Count(), defaults.bezelToTop)
                && menu.standard == StandardMenuOf(stack.Items(), defaults.displayNum, host.processName)
                && menu.alt == AltMenuOf(stack.Items(), defaults.displayNum, host.trusted, host.processName)
      ensures !Ingests(host.lastFound, stack.Items())
      ensures InRange(old(stack.position), old(stack.Count())) ==> InRange(stack.position, stack.Count())
    {
      if host.lastFound.None? {
        return;
      }
      var head := stack.ItemAt(0);
      if head.None? || head.value.fullText != host.lastFound.value {
        stack.Add(host.lastFound.value);
        FollowIngest(old(stack.Count()));
        menu.Rebuild(stack, host);
      }
    }

    /** The cursor update in `pasteboardChangeClosure`, after a clipping was added to `oldCount` others. */
    method FollowIngest(ghost oldCount: int)
      requires stack.Count() >= 1 && (stack.Count() == oldCount + 1 || stack.Count() == oldCount)
      modifies stack`position
      ensures stack.position == IngestPosition(old(stack.position), stack.Count(), defaults.bezelToTop)
      ensures InRange(old(stack.position), oldCount) ==> InRange(stack.position, stack.Count())
    {
      ghost var oldPosition := stack.position;
      if defaults.bezelToTop.GetOr(1) == 1 {
        stack.position := 0;
      } else {
        stack.position := stack.position + 1;
        if stack.position >= stack.Count() {
          stack.position := stack.position - 1;
        }
        if InRange(oldPosition, oldCount) {
          IngestInRangeIff(oldPosition, stack.Count(), defaults.bezelToTop);
        }
      }
    }

    /**
     * The hotkey's `keyDownHandler`: nothing while the hotkey is being
     * recorded; a hidden bezel is displayed at the cursor, a shown one
     * moves the cursor down first.
     */
    method HotkeyPressed()
      requires Valid()
      modifies stack`position, host`effects
      ensures mainHotkeyIsRecording ==> stack.position == old(stack.position) && host.effects == old(host.effects)
      ensures !mainHotkeyIsRecording ==>
                && stack.position == (if bezel.shown then DownPosition(old(stack.position), stack.Count(), defaults.wraparoundBezel)
                                      else old(stack.position))
                && host.effects == old(host.effects) + [BezelDisplayedAt(stack.position)]
      ensures InRange(old(stack.position), stack.Count()) ==> InRange(stack.position, stack.Count())
    {
      if mainHotkeyIsRecording {
        return;
      }
      if InRange(stack.position, stack.Count()) {
        StepsStayInRange(stack.position, stack.Count(), defaults.wraparoundBezel);
      }
      if !bezel.shown {
        host.Record(BezelDisplayedAt(stack.position));
      } else {
        stack.Down();
        host.Record(BezelDisplayedAt(stack.position));
      }
    }

    /**
     * `statusItemClicked`: the alternate menu when `checkMenuBehavior`
     * accepts the click; otherwise the click is recorded for the toggle
     * and the standard menu opens. As written, the recorded click then
     * never inverts `menuSelectionPastes`.
     */
    method StatusItemClicked(event: Event)
      requires Valid()
      modifies menu`triggerEvent, host`effects
      ensures CheckMenuBehavior(defaults.menuBehaviorFlags, event) ==>
                && menu.triggerEvent == old(menu.triggerEvent)
                && host.effects == old(host.effects) + (if statusItem.hasItem then [MenuPoppedUp(AltMenu)] else [])
      ensures !CheckMenuBehavior(defaults.menuBehaviorFlags, event) ==>
                && menu.triggerEvent == Some(event)
                && host.effects == old(host.effects) + (if statusItem.hasItem then [MenuPoppedUp(StandardMenu)] else [])
                && (menu.ShouldSelectionPasteAsWritten() <==> defaults.menuSelectionPastes == Some(true))
                && (menu.ShouldSelectionPaste() <==>
                      (defaults.menuSelectionPastes == Some(true)) != ToggleCondition(defaults.menuBehaviorFlags, event))
    {
      var useAlt := CheckMenuBehavior(defaults.menuBehaviorFlags, event);
      if useAlt {
        statusItem.DisplayMenu(AltMenu, host);
      } else {
        menu.triggerEvent := Some(event);
        statusItem.DisplayMenu(StandardMenu, host);
        ToggleNeverFiresAsWritten(defaults.menuBehaviorFlags, event);
      }
    }

    /** `updateStateFromSettings`: the status item follows the setting and the menus are rebuilt. */
    method UpdateStateFromSettings()
      requires Valid() && RebuildDefined(stack.Count(), defaults.displayNum)
      modifies statusItem`shown, statusItem`visible, statusItem`hasItem, statusItem`calls, defaults`hideStatusItem
      modifies menu`standard, menu`alt
      ensures Valid()
      ensures defaults.hideStatusItem == old(defaults.hideStatusItem)
      ensures statusItem.shown == !Headless(defaults.hideStatusItem)
      ensures var action := VisibilityAction(old(statusItem.shown), Headless(defaults.hideStatusItem));
              && (action.None? ==> && statusItem.calls == old(statusItem.calls) && statusItem.shown == old(statusItem.shown)
                                   && statusItem.hasItem == old(statusItem.hasItem) && statusItem.visible == old(statusItem.visible))
              && (action == Some(ShowCall) ==> statusItem.calls == old(statusItem.calls) + [ShowCall])
              && (action == Some(HideCall) ==>
                    statusItem.calls == old(statusItem.calls)
                      + (if statusItem.modern && old(statusItem.visible) then [HideCall, HideCall] else [HideCall]))
              && (action.Some? ==> statusItem.Tracked() && statusItem.Displayed() == !Headless(defaults.hideStatusItem))
      ensures old(statusItem.Tracked()) ==> statusItem.Tracked() && statusItem.Displayed() == !Headless(defaults.hideStatusItem)
      ensures menu.standard == StandardMenuOf(stack.Items(), defaults.displayNum, host.processName)
      ensures menu.alt == AltMenuOf(stack.Items(), defaults.displayNum, host.trusted, host.processName)
    {
      statusItem.SetVisibility();
      menu.Rebuild(stack, host);
    }
  }
}
