/**
 * Responses to user actions (Interactions.swift): choosing a clipping from
 * the bezel or a menu, deleting one, clearing the history, and the bezel's
 * key handlers. Each effect on the rest of the system is an entry in the
 * platform's effect log.
 */
module Interacting {
  import opened Wrappers
  import opened Preview
  import opened History
  import opened Settings
  import opened Host
  import opened Clippings
  import opened Menus
  import opened Bezel

  /** The button that closed the "clear all" alert. */
  datatype AlertResponse = AlertOK | AlertCancel

  /** `place`: the clipping's full text goes on the pasteboard, then the application hides. */
  function PlaceEffects(c: Clipping): seq<Effect> {
    [PasteboardSet(c.fullText, false), AppHidden]
  }

  /** `paste`: `place`, and only afterwards the delayed Command-V. */
  function PasteEffects(c: Clipping): seq<Effect> {
    PlaceEffects(c) + [CommandVScheduled]
  }

  function SelectionEffects(c: Clipping, paste: bool): seq<Effect> {
    if paste then PasteEffects(c) else PlaceEffects(c)
  }

  /** The pasteboard shows the newest clipping. */
  predicate HeadOnPasteboard(top: Option<string>, clips: seq<Clipping>) {
    top.Some? && clips != [] && top.value == clips[0].fullText
  }

  /** `_clearAll` blanks the pasteboard exactly when it shows the newest clipping. */
  function ClearEffects(top: Option<string>, clips: seq<Clipping>): seq<Effect> {
    if HeadOnPasteboard(top, clips) then [PasteboardSet("", true)] else []
  }

  function ClearedTop(top: Option<string>, clips: seq<Clipping>): Option<string> {
    if HeadOnPasteboard(top, clips) then Some("") else top
  }

  /** `askBeforeClearingClippings as? Bool ?? true`. */
  function Ask(setting: Option<bool>): bool {
    setting.GetOr(true)
  }

  /**
   * `clearAll` as written reaches the force unwrap of the newest clipping
   * without asking, so it is defined only when it asks, the pasteboard is
   * empty or the history is not.
   */
  predicate ClearAllDefined(ask: Option<bool>, top: Option<string>, count: int) {
    Ask(ask) || top.None? || count > 0
  }

  class Interactions {
    const stack: ClippingStack
    const menu: MenuManager
    const bezel: Bezel
    const host: Platform
    const defaults: Defaults

    ghost predicate Valid()
      reads stack.store`maxLength, stack.store`clippings
    {
      stack.Valid() && stack.defaults == defaults && menu.defaults == defaults && bezel.defaults == defaults
    }

    constructor (bezel: Bezel, menu: MenuManager, host: Platform, stack: ClippingStack)
      requires stack.Valid() && menu.defaults == stack.defaults && bezel.defaults == stack.defaults
      ensures Valid()
      ensures this.bezel == bezel && this.menu == menu && this.host == host && this.stack == stack
      ensures defaults == stack.defaults
    {
      this.bezel := bezel;
      this.menu := menu;
      this.host := host;
      this.stack := stack;
      defaults := stack.defaults;
    }

    /** `AppDelegate.hide`: the bezel goes away, then the application hides. */
    method Hide()
      modifies bezel`shown, host`effects
      ensures !bezel.shown && host.effects == old(host.effects) + [AppHidden]
    {
      bezel.Hide();
      host.Record(AppHidden);
    }

    /** `place`. */
    method Place(c: Clipping)
      modifies host`top, host`effects, bezel`shown
      ensures !bezel.shown && host.top == Some(c.fullText)
      ensures host.effects == old(host.effects) + PlaceEffects(c)
    {
      host.SetPasteboard(c.fullText, false);
      Hide();
    }

    /** `paste`. */
    method Paste(c: Clipping)
      modifies host`top, host`effects, bezel`shown
      ensures !bezel.shown && host.top == Some(c.fullText)
      ensures host.effects == old(host.effects) + PasteEffects(c)
    {
      Place(c);
      host.Record(CommandVScheduled);
    }

    /**
     * `bezelSelection`: with no clipping under the cursor nothing happens;
     * otherwise it is pasted when the bezel says so and placed if not.
     */
    method BezelSelection()
      requires Valid() && IndexDefined(stack.Items(), stack.position)
      modifies host`top, host`effects, bezel`shown
      ensures var chosen := History.ItemAt(stack.Items(), stack.position);
              && (chosen.None? ==> host.effects == old(host.effects) && host.top == old(host.top) && bezel.shown == old(bezel.shown))
              && (chosen.Some? ==> && host.effects == old(host.effects) + SelectionEffects(chosen.value, bezel.ShouldSelectionPaste())
                                   && host.top == Some(chosen.value.fullText) && !bezel.shown)
    {
      var clipping := stack.ItemAt(stack.position);
      if clipping.None? {
        return;
      }
      if bezel.ShouldSelectionPaste() {
        Paste(clipping.value);
      } else {
        Place(clipping.value);
      }
    }

    /**
     * `menuHandler` for the entry at `idx`: with no clipping there it only
     * hides; otherwise it pastes or places as asked.
     */
    method MenuHandler(idx: int, wantsPaste: bool)
      requires IndexDefined(stack.Items(), idx)
      modifies host`top, host`effects, bezel`shown
      ensures !bezel.shown
      ensures var chosen := History.ItemAt(stack.Items(), idx);
              && (chosen.None? ==> host.effects == old(host.effects) + [AppHidden] && host.top == old(host.top))
              && (chosen.Some? ==> && host.effects == old(host.effects) + SelectionEffects(chosen.value, wantsPaste)
                                   && host.top == Some(chosen.value.fullText))
    {
      var clipping := stack.ItemAt(idx);
      if clipping.None? {
        Hide();
        return;
      }
      if wantsPaste {
        Paste(clipping.value);
      } else {
        Place(clipping.value);
      }
    }

    /**
     * `menuSelection`: pastes or places as the menu manager decides, with
     * `checkToggle` as written, so the recorded click never inverts the
     * `menuSelectionPastes` setting.
     */
    method MenuSelection(idx: int)
      requires IndexDefined(stack.Items(), idx)
      modifies host`top, host`effects, bezel`shown
      ensures !bezel.shown
      ensures var chosen := History.ItemAt(stack.Items(), idx);
              && (chosen.None? ==> host.effects == old(host.effects) + [AppHidden] && host.top == old(host.top))
              && (chosen.Some? ==> && host.effects == old(host.effects) + SelectionEffects(chosen.value, menu.ShouldSelectionPasteAsWritten())
                                   && host.top == Some(chosen.value.fullText))
      ensures var chosen := History.ItemAt(stack.Items(), idx);
              chosen.Some? && menu.triggerEvent.Some? && !CheckMenuBehavior(menu.defaults.menuBehaviorFlags, menu.triggerEvent.value) ==>
                host.effects == old(host.effects) + SelectionEffects(chosen.value, menu.defaults.menuSelectionPastes == Some(true))
    {
      if menu.triggerEvent.Some? && !CheckMenuBehavior(menu.defaults.menuBehaviorFlags, menu.triggerEvent.value) {
        ToggleNeverFiresAsWritten(menu.defaults.menuBehaviorFlags, menu.triggerEvent.value);
      }
      MenuHandler(idx, menu.ShouldSelectionPasteAsWritten());
    }

    /** `menuSelection` over the corrected toggle: the setting's toggle click inverts it. */
    method MenuSelectionCorrected(idx: int)
      requires IndexDefined(stack.Items(), idx)
      modifies host`top, host`effects, bezel`shown
      ensures !bezel.shown
      ensures var chosen := History.ItemAt(stack.Items(), idx);
              && (chosen.None? ==> host.effects == old(host.effects) + [AppHidden] && host.top == old(host.top))
              && (chosen.Some? ==> && host.effects == old(host.effects) + SelectionEffects(chosen.value, menu.ShouldSelectionPaste())
                                   && host.top == Some(chosen.value.fullText))
    {
      MenuHandler(idx, menu.ShouldSelectionPaste());
    }

    /** `menuPlace`: always places. */
    method MenuPlace(idx: int)
      requires IndexDefined(stack.Items(), idx)
      modifies host`top, host`effects, bezel`shown
      ensures !bezel.shown
      ensures var chosen := History.ItemAt(stack.Items(), idx);
              && (chosen.None? ==> host.effects == old(host.effects) + [AppHidden] && host.top == old(host.top))
              && (chosen.Some? ==> && host.effects == old(host.effects) + SelectionEffects(chosen.value, false)
                                   && host.top == Some(chosen.value.fullText))
    {
      MenuHandler(idx, false);
    }

    /** `menuPaste`: always pastes. */
    method MenuPaste(idx: int)
      requires IndexDefined(stack.Items(), idx)
      modifies host`top, host`effects, bezel`shown
      ensures !bezel.shown
      ensures var chosen := History.ItemAt(stack.Items(), idx);
              && (chosen.None? ==> host.effects == old(host.effects) + [AppHidden] && host.top == old(host.top))
              && (chosen.Some? ==> && host.effects == old(host.effects) + SelectionEffects(chosen.value, true)
                                   && host.top == Some(chosen.value.fullText))
    {
      MenuHandler(idx, true);
    }

    /** `menuDelete`: `deleteAt` the entry's index, then rebuild the menus. */
    method MenuDelete(idx: int)
      requires Valid() && (0 <= idx || stack.Count() == 0)
      requires RebuildDefined(if 0 <= idx < stack.Count() then stack.Count() - 1 else stack.Count(), defaults.displayNum)
      modifies stack`position, stack.store`clippings, stack.store`file, menu`standard, menu`alt
      ensures Valid()
      ensures idx >= old(stack.Count()) ==>
                stack.Items() == old(stack.Items()) && stack.position == old(stack.position) && stack.store.file == old(stack.store.file)
      ensures idx < 0 ==> stack.Items() == [] && stack.position == 0 && stack.store.file == old(stack.store.file)
      ensures 0 <= idx < old(stack.Count()) ==>
                && stack.Items() == Removed(old(stack.Items()), idx)
                && stack.position == DeletePosition(old(stack.position), stack.Count(), idx)
                && stack.store.file == if stack.store.skipSave then old(stack.store.file) else Some(stack.store.Saved())
      ensures menu.standard == StandardMenuOf(stack.Items(), defaults.displayNum, host.processName)
      ensures menu.alt == AltMenuOf(stack.Items(), defaults.displayNum, host.trusted, host.processName)
    {
      stack.DeleteAt(idx);
      menu.Rebuild(stack, host);
    }

    /**
     * `_clearAll` as written: the newest clipping is force-unwrapped
     * whenever the pasteboard holds text.
     */
    method ClearHistoryAsWritten()
      requires Valid() && (host.top.Some? ==> stack.Count() > 0)
      modifies stack.store`clippings, stack.store`file, host`top, host`effects, menu`standard, menu`alt
      ensures Valid() && stack.Items() == [] && stack.position == old(stack.position)
      ensures stack.store.file == if stack.store.skipSave then old(stack.store.file) else Some(stack.store.Saved())
      ensures host.effects == old(host.effects) + ClearEffects(old(host.top), old(stack.Items()))
      ensures host.top == ClearedTop(old(host.top), old(stack.Items()))
      ensures menu.standard == StandardMenuOf([], defaults.displayNum, host.processName)
      ensures menu.alt == AltMenuOf([], defaults.displayNum, host.trusted, host.processName)
    {
      if host.top.Some? {
        var topOfStack := stack.ItemAt(0);
        if host.top.value == topOfStack.value.fullText {
          host.SetPasteboard("", true);
        }
      }
      stack.Clear();
      menu.Rebuild(stack, host);
    }

    /**
     * `_clearAll`, with the pasteboard compared to the newest clipping only
     * when there is one: a pasteboard showing it is blanked (marked as
     * autogenerated), then the history is cleared and the menus rebuilt.
     */
    method ClearHistory()
      requires Valid()
      modifies stack.store`clippings, stack.store`file, host`top, host`effects, menu`standard, menu`alt
      ensures Valid() && stack.Items() == [] && stack.position == old(stack.position)
      ensures stack.store.file == if stack.store.skipSave then old(stack.store.file) else Some(stack.store.Saved())
      ensures host.effects == old(host.effects) + ClearEffects(old(host.top), old(stack.Items()))
      ensures host.top == ClearedTop(old(host.top), old(stack.Items()))
      ensures menu.standard == StandardMenuOf([], defaults.displayNum, host.processName)
      ensures menu.alt == AltMenuOf([], defaults.displayNum, host.trusted, host.processName)
    {
      if host.top.Some? {
        var topOfStack := stack.ItemAt(0);
        if topOfStack.Some? && host.top.value == topOfStack.value.fullText {
          host.SetPasteboard("", true);
        }
      }
      stack.Clear();
      menu.Rebuild(stack, host);
    }

    /**
     * `clearAll` as written. When it asks, it clears only on OK with a
     * non-empty history, and a ticked suppression box turns asking off;
     * when it does not ask, it clears at once.
     */
    method ClearAllAsWritten(response: AlertResponse, suppress: bool)
      requires Valid() && ClearAllDefined(defaults.askBeforeClearingClippings, host.top, stack.Count())
      modifies stack.store`clippings, stack.store`file, host`top, host`effects, menu`standard, menu`alt
      modifies defaults`askBeforeClearingClippings
      ensures Valid() && stack.position == old(stack.position)
      ensures var ask := Ask(old(defaults.askBeforeClearingClippings));
              var clears := !ask || (response == AlertOK && old(stack.Items()) != []);
              && (clears ==> && stack.Items() == []
                             && stack.store.file == (if stack.store.skipSave then old(stack.store.file) else Some(stack.store.Saved()))
                             && host.effects == old(host.effects) + ClearEffects(old(host.top), old(stack.Items()))
                             && host.top == ClearedTop(old(host.top), old(stack.Items()))
                             && menu.standard == StandardMenuOf([], defaults.displayNum, host.processName)
                             && menu.alt == AltMenuOf([], defaults.displayNum, host.trusted, host.processName))
              && (!clears ==> && stack.Items() == old(stack.Items()) && stack.store.file == old(stack.store.file)
                              && host.effects == old(host.effects)
                              && host.top == old(host.top) && menu.standard == old(menu.standard) && menu.alt == old(menu.alt))
              && defaults.askBeforeClearingClippings == if ask && suppress then Some(false) else old(defaults.askBeforeClearingClippings)
    {
      var ask := Ask(defaults.askBeforeClearingClippings);
      if ask {
        if response == AlertOK && !stack.IsEmpty() {
          ClearHistoryAsWritten();
        }
        if suppress {
          defaults.askBeforeClearingClippings := Some(false);
        }
      } else {
        ClearHistoryAsWritten();
      }
    }

    /** `clearAll` over the guarded `_clearAll`: defined for every state. */
    method ClearAll(response: AlertResponse, suppress: bool)
      requires Valid()
      modifies stack.store`clippings, stack.store`file, host`top, host`effects, menu`standard, menu`alt
      modifies defaults`askBeforeClearingClippings
      ensures Valid() && stack.position == old(stack.position)
      ensures var ask := Ask(old(defaults.askBeforeClearingClippings));
              var clears := !ask || (response == AlertOK && old(stack.Items()) != []);
              && (clears ==> && stack.Items() == []
                             && stack.store.file == (if stack.store.skipSave then old(stack.store.file) else Some(stack.store.Saved()))
                             && host.effects == old(host.effects) + ClearEffects(old(host.top), old(stack.Items()))
                             && host.top == ClearedTop(old(host.top), old(stack.Items()))
                             && menu.standard == StandardMenuOf([], defaults.displayNum, host.processName)
                             && menu.alt == AltMenuOf([], defaults.displayNum, host.trusted, host.processName))
              && (!clears ==> && stack.Items() == old(stack.Items()) && stack.store.file == old(stack.store.file)
                              && host.effects == old(host.effects)
                              && host.top == old(host.top) && menu.standard == old(menu.standard) && menu.alt == old(menu.alt))
              && defaults.askBeforeClearingClippings == if ask && suppress then Some(false) else old(defaults.askBeforeClearingClippings)
    {
      var ask := Ask(defaults.askBeforeClearingClippings);
      if ask {
        if response == AlertOK && !stack.IsEmpty() {
          ClearHistory();
        }
        if suppress {
          defaults.askBeforeClearingClippings := Some(false);
        }
      } else {
        ClearHistory();
      }
    }

    /**
     * The bezel's key-down handler. A key Sauce cannot name is ignored; the
     * hotkey's base key moves the cursor (up with shift, down without) and
     * redisplays the bezel; any other key is handed to the delegate.
     */
    method KeyDown(key: Option<Key>, shift: bool, hotKeyBase: Option<Key>)
      requires Valid()
      modifies stack`position, host`effects
      ensures key.None? ==> stack.position == old(stack.position) && host.effects == old(host.effects)
      ensures key.Some? && hotKeyBase == key ==>
                && stack.position == (if shift then UpPosition(old(stack.position), stack.Count(), defaults.wraparoundBezel)
                                      else DownPosition(old(stack.position), stack.Count(), defaults.wraparoundBezel))
                && host.effects == old(host.effects) + [BezelDisplayedAt(stack.position)]
      ensures key.Some? && hotKeyBase != key ==>
                stack.position == old(stack.position) && host.effects == old(host.effects) + [KeyDelegated(key.value)]
      ensures InRange(old(stack.position), stack.Count()) ==> InRange(stack.position, stack.Count())
    {
      if key.None? {
        return;
      }
      if InRange(stack.position, stack.Count()) {
        StepsStayInRange(stack.position, stack.Count(), defaults.wraparoundBezel);
      }
      if Some(key.value) == hotKeyBase {
        if shift {
          stack.Up();
        } else {
          stack.Down();
        }
        host.Record(BezelDisplayedAt(stack.position));
      } else {
        host.Record(KeyDelegated(key.value));
      }
    }

    /** The modifier-release handler: a selection only when `stickyBezel` is set and false. */
    method MetaKeyReleased()
      requires Valid()
      requires defaults.stickyBezel == Some(false) ==> IndexDefined(stack.Items(), stack.position)
      modifies host`top, host`effects, bezel`shown
      ensures defaults.stickyBezel != Some(false) ==>
                host.effects == old(host.effects) && host.top == old(host.top) && bezel.shown == old(bezel.shown)
      ensures defaults.stickyBezel == Some(false) ==>
                var chosen := History.ItemAt(stack.Items(), stack.position);
                && (chosen.None? ==> host.effects == old(host.effects) && host.top == old(host.top) && bezel.shown == old(bezel.shown))
                && (chosen.Some? ==> && host.effects == old(host.effects) + SelectionEffects(chosen.value, bezel.ShouldSelectionPaste())
                                     && host.top == Some(chosen.value.fullText) && !bezel.shown)
    {
      if defaults.stickyBezel.Some? {
        if !defaults.stickyBezel.value {
          BezelSelection();
        }
      }
    }

    /** `KeyCaptureWindow.flagsChanged` feeding the release handler. */
    method FlagsChanged(m: Modifiers)
      requires Valid()
      requires ModifierReleaseFires(m) && defaults.stickyBezel == Some(false) ==> IndexDefined(stack.Items(), stack.position)
      modifies host`top, host`effects, bezel`shown
      ensures !ModifierReleaseFires(m) || defaults.stickyBezel != Some(false) ==>
                host.effects == old(host.effects) && host.top == old(host.top) && bezel.shown == old(bezel.shown)
      ensures ModifierReleaseFires(m) && defaults.stickyBezel == Some(false) ==>
                var chosen := History.ItemAt(stack.Items(), stack.position);
                && (chosen.None? ==> host.effects == old(host.effects) && host.top == old(host.top) && bezel.shown == old(bezel.shown))
                && (chosen.Some? ==> && host.effects == old(host.effects) + SelectionEffects(chosen.value, bezel.ShouldSelectionPaste())
                                     && host.top == Some(chosen.value.fullText) && !bezel.shown)
    {
      if ModifierReleaseFires(m) {
        MetaKeyReleased();
      }
    }
  }

  /**
   * The state in which `clearAll` as written traps is reachable: asking is
   * turned off, nothing has been recorded and the pasteboard holds text.
   */
  method ClearAllTrapsAsWritten() returns (i: Interactions)
    ensures i.Valid() && i.stack.Count() == 0 && i.host.top == Some("x")
    ensures !ClearAllDefined(i.defaults.askBeforeClearingClippings, i.host.top, i.stack.Count())
  {
    var defaults := new Defaults.Registered();
    defaults.askBeforeClearingClippings := Some(false);
    defaults.skipSave := Some(true);
    var stack := new ClippingStack(defaults, None, "Unknown");
    var menu := new MenuManager(defaults);
    var bezel := new Bezel(defaults);
    var host := new Platform(Some("x"), Some("x"), true, "Jumpcut");
    i := new Interactions(bezel, menu, host, stack);
  }
}
