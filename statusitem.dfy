/**
 * The menu-bar item (StatusItem.swift). `shown` is the state the class
 * believes the item is in; `hasItem` and `visible` are the item itself
 * (`statusItem != nil` and `statusItem.isVisible`). Before macOS 10.12
 * hiding removes the item and showing makes a new one; from 10.12 on the
 * item stays and only its visibility changes, and an observer on that
 * visibility records a removal in the `hideStatusItem` setting.
 */
module StatusBar {
  import opened Wrappers
  import opened Settings
  import opened Host

  datatype VisibilityCall = HideCall | ShowCall

  /** What `setVisibility` calls for a `shown` flag and a `hideStatusItem` value. */
  function VisibilityAction(shown: bool, headless: bool): (r: Option<VisibilityCall>)
    ensures r == Some(HideCall) <==> headless && shown
    ensures r == Some(ShowCall) <==> !headless && !shown
    ensures r.None? <==> shown == !headless
  {
    if headless && shown then Some(HideCall)
    else if !headless && !shown then Some(ShowCall)
    else None
  }

  /** `hideStatusItem as? Bool ?? false`. */
  function Headless(setting: Option<bool>): bool {
    setting.GetOr(false)
  }

  class StatusItem {
    var shown: bool
    var hasItem: bool
    var visible: bool
    /** `#available(OSX 10.12, *)`. */
    const modern: bool
    const defaults: Defaults
    /** The `hide()` and `show()` calls made so far, re-entrant ones included. */
    ghost var calls: seq<VisibilityCall>

    ghost predicate Valid()
      reads this`hasItem, this`visible
    {
      (modern ==> hasItem) && (!modern && hasItem ==> visible)
    }

    /** The item is in the menu bar. */
    predicate Displayed()
      reads this`hasItem, this`visible
    {
      hasItem && visible
    }

    /** `shown` agrees with the menu bar. */
    ghost predicate Tracked()
      reads this
    {
      shown == Displayed()
    }

    /**
     * `init` as written: `makeItem` creates a visible item (from 10.12 on
     * its visibility is restored from the autosave name) but `shown` stays
     * false.
     */
    constructor AsWritten(modern: bool, defaults: Defaults, restoredVisible: bool)
      ensures Valid() && this.modern == modern && this.defaults == defaults
      ensures !shown && hasItem && visible == (!modern || restoredVisible) && calls == []
    {
      this.modern := modern;
      this.defaults := defaults;
      shown := false;
      hasItem := true;
      visible := !modern || restoredVisible;
      calls := [];
    }

    /** `init` with `shown` starting from the state of the item it has just made. */
    constructor (modern: bool, defaults: Defaults, restoredVisible: bool)
      ensures Valid() && Tracked() && this.modern == modern && this.defaults == defaults
      ensures hasItem && visible == (!modern || restoredVisible) && calls == []
    {
      this.modern := modern;
      this.defaults := defaults;
      hasItem := true;
      visible := !modern || restoredVisible;
      shown := !modern || restoredVisible;
      calls := [];
    }

    /**
     * `hide`: `shown` is cleared before any guard. From 10.12 on a visible
     * item is made invisible, which runs the observer: the setting becomes
     * true and `hide` runs a second time.
     */
    method Hide()
      requires Valid()
      modifies this`shown, this`visible, this`hasItem, this`calls, defaults`hideStatusItem
      decreases if visible then 2 else 0
      ensures Valid() && Tracked() && !shown && !Displayed()
      ensures hasItem == (old(hasItem) && modern)
      ensures modern ==> !visible
      ensures !modern ==> visible == old(visible)
      ensures var reentered := modern && old(visible);
              && defaults.hideStatusItem == (if reentered then Some(true) else old(defaults.hideStatusItem))
              && calls == old(calls) + (if reentered then [HideCall, HideCall] else [HideCall])
    {
      shown := false;
      calls := calls + [HideCall];
      if !hasItem {
        return;
      }
      if modern {
        if !visible {
          return;
        }
        visible := false;
        VisibilityObserved();
      } else {
        hasItem := false;
      }
    }

    /**
     * `show`: `shown` is set before any guard. From 10.12 on the item is
     * made visible; before, a missing item is made again.
     */
    method Show()
      requires Valid()
      modifies this`shown, this`visible, this`hasItem, this`calls, defaults`hideStatusItem
      ensures Valid() && Tracked() && shown && Displayed()
      ensures defaults.hideStatusItem == old(defaults.hideStatusItem)
      ensures calls == old(calls) + [ShowCall]
    {
      shown := true;
      calls := calls + [ShowCall];
      if modern {
        if visible {
          return;
        }
        visible := true;
        VisibilityObserved();
      } else {
        if hasItem {
          return;
        }
        hasItem := true;
        visible := true;
      }
    }

    /**
     * The `isVisible` observer installed by `makeItem` (10.12 and later),
     * run after the visibility has changed: when the item is now
     * invisible the setting becomes true and `hide` runs.
     */
    method VisibilityObserved()
      requires Valid() && modern
      modifies this`shown, this`visible, this`hasItem, this`calls, defaults`hideStatusItem
      decreases 1
      ensures Valid() && hasItem == old(hasItem) && visible == old(visible)
      ensures !visible ==> !shown && Tracked() && defaults.hideStatusItem == Some(true)
      ensures !visible ==> calls == old(calls) + [HideCall]
      ensures visible ==> shown == old(shown) && calls == old(calls)
      ensures visible ==> defaults.hideStatusItem == old(defaults.hideStatusItem)
    {
      if !visible {
        defaults.hideStatusItem := Some(true);
        Hide();
      }
    }

    /** The user drags the item out of the menu bar (10.12 and later). */
    method RemovedByUser()
      requires Valid() && modern && visible
      modifies this`shown, this`visible, this`hasItem, this`calls, defaults`hideStatusItem
      ensures Valid() && Tracked() && !shown && !Displayed()
      ensures defaults.hideStatusItem == Some(true)
    {
      visible := false;
      VisibilityObserved();
    }

    /**
     * `setVisibility`: hide when the setting says headless and the item is
     * believed shown, show when it says otherwise and the item is believed
     * hidden, else nothing. Afterwards `shown` is the opposite of the
     * setting, so a second call does nothing.
     */
    method SetVisibility()
      requires Valid()
      modifies this`shown, this`visible, this`hasItem, this`calls, defaults`hideStatusItem
      ensures Valid()
      ensures var headless := Headless(old(defaults.hideStatusItem));
              && shown == !headless
              && VisibilityAction(shown, headless).None?
              && defaults.hideStatusItem == old(defaults.hideStatusItem)
              && (VisibilityAction(old(shown), headless).None? ==> calls == old(calls))
              && (VisibilityAction(old(shown), headless) == Some(ShowCall) ==> calls == old(calls) + [ShowCall])
              && (VisibilityAction(old(shown), headless) == Some(HideCall) ==>
                    calls == old(calls) + (if modern && old(visible) then [HideCall, HideCall] else [HideCall]))
      ensures VisibilityAction(old(shown), Headless(old(defaults.hideStatusItem))).Some? ==>
                Tracked() && Displayed() == !Headless(defaults.hideStatusItem)
      ensures old(Tracked()) ==> Tracked() && Displayed() == !Headless(defaults.hideStatusItem)
      ensures VisibilityAction(old(shown), Headless(old(defaults.hideStatusItem))).None? ==>
                shown == old(shown) && hasItem == old(hasItem) && visible == old(visible)
    {
      var headless := Headless(defaults.hideStatusItem);
      if headless && shown {
        Hide();
      } else if !headless && !shown {
        Show();
      }
    }

    /** `displayMenu`: the menu pops up from the item, when there is one. */
    method DisplayMenu(kind: MenuKind, host: Platform)
      modifies host`effects
      ensures host.effects == old(host.effects) + (if hasItem then [MenuPoppedUp(kind)] else [])
    {
      if !hasItem {
        return;
      }
      host.Record(MenuPoppedUp(kind));
    }
  }

  /**
   * As written, a headless launch whose item is in the menu bar keeps it
   * there: `shown` starts false, so `setVisibility` sees nothing to hide.
   */
  method StartupKeepsHiddenItemAsWritten(modern: bool, restoredVisible: bool) returns (item: StatusItem)
    requires !modern || restoredVisible
    ensures item.Displayed() && Headless(item.defaults.hideStatusItem) && !item.Tracked()
  {
    var defaults := new Defaults.Registered();
    defaults.hideStatusItem := Some(true);
    item := new StatusItem.AsWritten(modern, defaults, restoredVisible);
    item.SetVisibility();
  }

  /** With `shown` taken from the new item, the same launch hides it. */
  method StartupHidesItem(modern: bool, restoredVisible: bool) returns (item: StatusItem)
    ensures !item.Displayed() && Headless(item.defaults.hideStatusItem) && item.Tracked()
  {
    var defaults := new Defaults.Registered();
    defaults.hideStatusItem := Some(true);
    item := new StatusItem(modern, defaults, restoredVisible);
    item.SetVisibility();
  }
}
