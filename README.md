# Jumpcut clipping history in Dafny

Jumpcut is a macOS menu-bar clipboard manager. It keeps the texts copied to
the pasteboard in a bounded history, newest first. The user moves through
that history with a hotkey and a floating "bezel", or picks an entry from the
status-item menu. The chosen clipping goes back on the pasteboard and may
also be pasted.

This project models the engine and the event logic around it:

- `Preview` (preview.dfy): a clipping and its one-line preview. The text is
  trimmed, cut at the first line break, and cut to 40 characters plus an
  ellipsis.
- `History` (history.dfy): the history as values.
  - The bounded list: add at the head, tail eviction, removal, prefixes.
  - The persisted `JCEngine` record and its reload by replay.
  - The bezel cursor's steps.
  - The classes are specified by these functions, and the lemmas state
    what the functions guarantee.
- `Clippings` (clippings.dfy): the `ClippingStore` and `ClippingStack`
  classes, with imperative methods specified by the `History` functions.
  The store's `file` field is the property list on disk.
- `Settings` (settings.dfy): the user defaults the engine reads, as a
  mutable `Defaults` object. It also parses the menu-behaviour and bezel
  alignment settings and holds `checkMenuBehavior`.
- `Host` (host.dfy): the pasteboard as the engine sees it (the watcher's
  last text and the current top text), input events, and a log of effects
  the engine asks for:
  - hiding the application;
  - the delayed paste keystroke;
  - showing the bezel or a menu.
- `Bezel` (bezel.dfy): the bezel's `shown` flag, whether a selection from
  it pastes, the text-alignment rule, and the modifier-release condition.
- `StatusBar` (statusitem.dfy): the status item's `shown` flag, its
  `setVisibility`/`hide`/`show` logic for both macOS code paths, and the
  visibility observer that writes `hideStatusItem`.
- `Menus` (menus.dfy): the standard and alternate menus as lists of
  abstract entries, and the place-or-paste toggle.
- `Interacting` (interactions.dfy): selections from the bezel and the
  menus, delete, clear-all with its confirmation, and the bezel's key
  handlers.
- `Delegate` (appdelegate.dfy): launch, pasteboard ingestion, the global
  hotkey, status-item clicks and reacting to changed settings.

The source's conventions are kept throughout:

- Settings are `Option` values. `None` stands for "unset or of another
  type", which is what `value(forKey:) as? T` gives.
- Where the Swift code would trap, the method has a `requires`: a force
  unwrap of nil, an out-of-range subscript, or a negative prefix length.
- The operations follow the code as written. Where a finding corrects the code, the corrected variant is a separate member carrying its own property (see "## Findings").
- The source's quirks are modelled as written:
  - the `position > count` guard of `itemAt`/`removeItem`;
  - `up` with wraparound on an empty stack gives -1;
  - `ClippingStack.clear` keeps the cursor;
  - ingestion steps back only once.

## Model

| member | source | states |
|---|---|---|
| Preview.TrimLeading | Jumpcut/Jumpcut/Clippings.swift:130 | the result is a suffix of the input; everything dropped is whitespace or newline; the result does not start with either |
| Preview.TrimTrailing | Jumpcut/Jumpcut/Clippings.swift:130 | the result is a prefix of the input; everything dropped is whitespace or newline; the result does not end with either |
| Preview.TrimStart | Jumpcut/Jumpcut/Clippings.swift:130 | the offset where the trimmed text starts lies within the input |
| Preview.Trim | Jumpcut/Jumpcut/Clippings.swift:130 | the trimmed text is the slice of the input at `TrimStart`; only whitespace and newlines lie before and after it; it neither starts nor ends with either |
| Preview.SuffixSlices | Jumpcut/Jumpcut/Clippings.swift:130 | a prefix of a suffix of a text is a slice of that text, and whitespace after it in the suffix is whitespace in the text |
| Preview.TrimLeadingOfPadded | Jumpcut/Jumpcut/Clippings.swift:130 | whitespace in front of a text that starts with none is exactly what leading trimming removes |
| Preview.TrimTrailingOfPadded | Jumpcut/Jumpcut/Clippings.swift:130 | whitespace after a text that ends with none is exactly what trailing trimming removes |
| Preview.TrimOfPadded | Jumpcut/Jumpcut/Clippings.swift:130 | any core with no whitespace at its ends, padded with whitespace on both sides, trims back to that core, so the contract of `Trim` determines it |
| Preview.TrimExample | Jumpcut/Jumpcut/Clippings.swift:130 | two spaces around "hello\nworld" are trimmed away and the inner newline stays |
| Preview.FirstLine | Jumpcut/Jumpcut/Clippings.swift:131 | the first line is a prefix without newlines, and it ends at a newline or at the end of the text |
| Preview.FirstLineExample | Jumpcut/Jumpcut/Clippings.swift:131 | the first line of "hello\nworld" is "hello" |
| Preview.ShortenedText | Jumpcut/Jumpcut/Clippings.swift:127-135 | the preview has no newline and at most 41 characters; it has 41 exactly when the trimmed first line is longer than 40, and then it is that line's first 40 characters plus the ellipsis; otherwise it is the whole line |
| Preview.ShortenedTextOfCleanLine | Jumpcut/Jumpcut/Clippings.swift:127-135 | for a single line without surrounding whitespace, the preview is just truncation to 40 characters plus the ellipsis |
| Preview.ShortenedCoreIsPrefix | Jumpcut/Jumpcut/Clippings.swift:127-135 | the preview without its ellipsis is a prefix of the trimmed text |
| Preview.ShortenedTextIsExcerpt | Jumpcut/Jumpcut/Clippings.swift:127-135 | the preview without its ellipsis is a slice of the captured text, preceded only by whitespace and newlines |
| Preview.SlicePrefix | Jumpcut/Jumpcut/Clippings.swift:133 | a prefix of a slice is the shorter slice at the same start |
| Preview.ShortenedTextExampleTwoLines | Jumpcut/Jumpcut/Clippings.swift:127-135 | "  hello\nworld  " previews as "hello" |
| Preview.ShortenedTextExampleLong | Jumpcut/Jumpcut/Clippings.swift:132-134 | fifty "x" characters preview as forty "x" characters followed by the ellipsis |
| Preview.NewClipping | Jumpcut/Jumpcut/Clippings.swift:127-135 | a new clipping keeps the text unchanged, stores the derived preview and the length 40; its preview is a single line of at most 41 characters |
| Preview.NewClippingOfFullText | Jumpcut/Jumpcut/Clippings.swift:127-135 | a clipping built by `init(string:)` is rebuilt exactly from its full text |
| History.Push | Jumpcut/Jumpcut/Clippings.swift:215-219 | the new item is at index 0 and every old item moves down one place in order; only the oldest item is dropped, and only when the list would exceed the capacity; a list within capacity stays within it |
| History.PushWellFormed | Jumpcut/Jumpcut/Clippings.swift:215-219 | inserting keeps every clipping consistent with its own full text |
| History.AddedWellFormed | Jumpcut/Jumpcut/Clippings.swift:215-219 | adding a text keeps every clipping consistent with its own full text |
| History.Removed | Jumpcut/Jumpcut/Clippings.swift:241 | removal at `p` leaves items before `p` in place and moves later ones up one place, one item shorter |
| History.RemovedWellFormed | Jumpcut/Jumpcut/Clippings.swift:237-244 | removing keeps every clipping consistent with its own full text |
| History.FirstItems | Jumpcut/Jumpcut/Clippings.swift:247-255 | `firstItems(n)` is the prefix of length min(n, count) |
| History.ClampedLength | Jumpcut/Jumpcut/Clippings.swift:146-153 | the stored capacity is never below 10: a request below 10 stores exactly 10, and any request of 10 or more is stored unchanged |
| History.ItemAt | Jumpcut/Jumpcut/Clippings.swift:230-235 | `itemAt` finds a clipping exactly when the position is inside the list, and it is the one at that position |
| History.RemovedAt | Jumpcut/Jumpcut/Clippings.swift:237-244 | `removeItem` removes the clipping at an inside position and leaves the list unchanged otherwise |
| History.Records | Jumpcut/Jumpcut/Clippings.swift:188-196 | one persisted entry per clipping, in list order: entry k holds clipping k's full text, `Position` k and the type `NSStringPboardType` |
| History.EngineRecord | Jumpcut/Jumpcut/Clippings.swift:188-213 | corrected: the record holds the entries in list order, no `displayLen`, the version, and the display count and capacity each from its own setting (10 and 99 when unset) |
| History.EngineRecordAsWritten | Jumpcut/Jumpcut/Clippings.swift:198-203 | the record as written and as the store saves it: the same entries, no `displayLen`, the version, the display count from `displayNum` (10 when unset) and `rememberNum` also from `displayNum` (99 when unset) |
| History.RememberNumAsWrittenIsDisplayNum | Jumpcut/Jumpcut/Clippings.swift:201 | as written, the saved `rememberNum` is the display count, so whenever the two settings differ the record is not the intended one |
| History.BlankIffTrimsToEmpty | Jumpcut/Jumpcut/Clippings.swift:174 | a text is blank (all whitespace and newlines) exactly when it trims to the empty text |
| History.Map | Jumpcut/Jumpcut/Clippings.swift:173-177 | mapping keeps the length and transforms each element in place |
| History.MapCons | Jumpcut/Jumpcut/Clippings.swift:173-177 | mapping distributes over adding an element at the front |
| History.ReplayKeepsNewest | Jumpcut/Jumpcut/Clippings.swift:166-182 | reloading a record into an empty store gives the clippings of its first `maxLength` non-blank entries, in record order |
| History.PushToFirstItems | Jumpcut/Jumpcut/Clippings.swift:215-219 | inserting into the capacity-length prefix equals the capacity-length prefix of the longer list |
| History.NonBlankContentsOfNonBlank | Jumpcut/Jumpcut/Clippings.swift:173-177 | when no entry is blank, loading skips nothing |
| History.SaveLoadRoundTrip | Jumpcut/Jumpcut/Clippings.swift:166-213 | the record written for a list of non-blank, well-formed clippings within capacity reloads to the same list in the same newest-first order |
| History.StepsStayInRange | Jumpcut/Jumpcut/Clippings.swift:90-118 | `down` and `up` keep an in-range cursor in range, whatever the wraparound setting |
| History.StepsClampWithoutWraparound | Jumpcut/Jumpcut/Clippings.swift:90-118 | without wraparound `down` stays at the last clipping and `up` stays at the first |
| History.StepsInverseWithWraparound | Jumpcut/Jumpcut/Clippings.swift:90-118 | with wraparound, `up` undoes `down` and `down` undoes `up` |
| History.UpOnEmptyWraps | Jumpcut/Jumpcut/Clippings.swift:107-118 | `up` with wraparound on an empty stack leaves the cursor at -1 |
| History.DownTimesAdvance | Jumpcut/Jumpcut/Clippings.swift:90-101 | k presses of `down` that stay before the end move the cursor k places |
| History.DownTimesAdd | Jumpcut/Jumpcut/Clippings.swift:90-101 | k presses followed by j presses are k + j presses |
| History.DownCycles | Jumpcut/Jumpcut/Clippings.swift:90-101 | with wraparound, `down` from any cursor reaches the last clipping, wraps to the top and returns to its start after `count` presses |
| History.DeleteKeepsSelection | Jumpcut/Jumpcut/Clippings.swift:76-88 | after `deleteAt` an in-range cursor stays in range (0 on an emptied stack), and when another clipping was deleted it still selects the same clipping |
| History.DeleteSelectedMovesUp | Jumpcut/Jumpcut/Clippings.swift:76-88 | deleting the selected clipping selects the one above it, or the new head when it was the head |
| History.IngestInRangeIff | Jumpcut/Jumpcut/AppDelegate.swift:277-283 | without `bezelToTop`, the cursor after ingestion is in range exactly when it was between -1 and the new count minus one |
| History.IngestFollowsSelection | Jumpcut/Jumpcut/AppDelegate.swift:277-283 | without `bezelToTop`, the cursor follows its clipping as the new one pushes it down, unless it was evicted |
| History.IngestToTopSelectsNew | Jumpcut/Jumpcut/AppDelegate.swift:273-276 | with `bezelToTop` unset or 1 the cursor is on the new clipping |
| Clippings.ClippingStore.constructor | Jumpcut/Jumpcut/Clippings.swift:155-164 | `skipSave` comes from the setting; unless it is set the saved record is loaded, keeping its newest 99 non-blank entries; the file is rewritten exactly when something was loaded |
| Clippings.ClippingStore.LoadFromPlist | Jumpcut/Jumpcut/Clippings.swift:166-182 | the loop is the replay of the record's entries from last to first through `add`, skipping blank ones; the file holds the result once anything was added and saving is on |
| Clippings.ClippingStore.WriteClippings | Jumpcut/Jumpcut/Clippings.swift:188-213 | with saving off the file is untouched; otherwise it holds exactly the record of the current history, with the header as written (`rememberNum` taken from `displayNum`) |
| Clippings.ClippingStore.Add | Jumpcut/Jumpcut/Clippings.swift:215-222 | the history becomes the insertion of the new clipping with the invariant kept, and the file is rewritten unless saving is off |
| Clippings.ClippingStore.Insert | Jumpcut/Jumpcut/Clippings.swift:215-219 | the in-place insert and eviction compute the insertion and keep the capacity invariant |
| Clippings.ClippingStore.Clear | Jumpcut/Jumpcut/Clippings.swift:224-228 | the history is empty and the file is rewritten unless saving is off |
| Clippings.ClippingStore.RemoveItem | Jumpcut/Jumpcut/Clippings.swift:237-244 | the history loses the clipping at an inside position and is unchanged otherwise; the file is rewritten exactly when something was removed |
| Clippings.ClippingStore.SetMaxLength | Jumpcut/Jumpcut/Clippings.swift:146-153 | the capacity becomes the requested value but at least 10, and the history is cut to that prefix |
| Clippings.ClippingStack.constructor | Jumpcut/Jumpcut/Clippings.swift:47-53 | the cursor starts at 0; the capacity follows `rememberNum` (at least 10); the history is the loaded one cut to the smaller of 99 and that capacity |
| Clippings.ClippingStack.Clear | Jumpcut/Jumpcut/Clippings.swift:64-66 | the history empties and the cursor is not reset |
| Clippings.ClippingStack.Add | Jumpcut/Jumpcut/Clippings.swift:72-74 | the history becomes the insertion of the new clipping |
| Clippings.ClippingStack.DeleteAt | Jumpcut/Jumpcut/Clippings.swift:76-88 | past the end nothing changes; a negative position on an empty stack only sets the cursor to 0; otherwise that clipping is removed and the cursor is reindexed: 0 on an emptied stack, one up when it sat at or after a positive deleted index; a negative position on a non-empty stack traps and is excluded |
| Clippings.ClippingStack.Delete | Jumpcut/Jumpcut/Clippings.swift:68-70 | the clipping under the cursor is deleted as by `deleteAt`, and the history file is rewritten unless saving is skipped; an out-of-range cursor changes nothing; the cursor -1 that `up` leaves on an empty stack is reset to 0 with the file untouched |
| Clippings.ClippingStack.Down | Jumpcut/Jumpcut/Clippings.swift:90-101 | the cursor moves one clipping older, or wraps to 0 only when `wraparoundBezel` is present and true |
| Clippings.ClippingStack.Up | Jumpcut/Jumpcut/Clippings.swift:107-118 | the cursor moves one clipping newer, or wraps to the last only when `wraparoundBezel` is present and true |
| Clippings.FirstItemsOfFirstItems | Jumpcut/Jumpcut/Clippings.swift:247-255 | cutting to `a` and then to `b` equals cutting to min(a, b) |
| Settings.Defaults.Registered | Jumpcut/Jumpcut/Settings.swift:55-80 | the registered defaults hold the values of the settings table |
| Settings.ParseMenuBehaviorFlags | Jumpcut/Jumpcut/Settings.swift:47-53 | each raw value maps to its case, and anything else, including unset, maps to `none` |
| Settings.CheckMenuBehavior | Jumpcut/Jumpcut/AppDelegate.swift:158-174 | the click opens the alternate menu exactly when it is a right click under the right-click settings or carries shift under the shift settings; never under `none` |
| Settings.ParseBezelAlignment | Jumpcut/Jumpcut/Bezel.swift:281-284 | `left`, `right` and `smartAlign` are recognised exactly; any other or missing value centres |
| Bezel.ParagraphAlignment | Jumpcut/Jumpcut/Bezel.swift:275-297 | left exactly for `left`, or `smartAlign` with more than 100 characters or a newline; right exactly for `right`; with neither an explicit alignment nor a setting, centred |
| Bezel.Bezel.constructor | Jumpcut/Jumpcut/Bezel.swift:31 | the bezel starts hidden |
| Bezel.Bezel.ShouldSelectionPaste | Jumpcut/Jumpcut/Bezel.swift:134-139 | a bezel selection pastes exactly when `bezelSelectionPastes` is set to true; nothing toggles it |
| Bezel.Bezel.Hide | Jumpcut/Jumpcut/Bezel.swift:199-202 | the bezel is hidden |
| Bezel.Bezel.Show | Jumpcut/Jumpcut/Bezel.swift:204-208 | the bezel is shown |
| Host.Platform.constructor | Jumpcut/Jumpcut/AppDelegate.swift:266-287 | the platform starts with the given pasteboard state and an empty effect log |
| Host.Platform.SetPasteboard | Jumpcut/Jumpcut/Interactions.swift:64 | the text becomes the top of the pasteboard and the write is logged |
| Host.Platform.Record | Jumpcut/Jumpcut/Interactions.swift:72-74 | one requested effect is appended to the log, after all earlier ones |
| StatusBar.VisibilityAction | Jumpcut/Jumpcut/StatusItem.swift:18-25 | `setVisibility` hides exactly when headless and shown, shows exactly when not headless and not shown, and does nothing exactly when `shown` already matches the setting |
| StatusBar.StatusItem.AsWritten | Jumpcut/Jumpcut/StatusItem.swift:27-29 | as written, the new item is in the menu bar while `shown` is false |
| StatusBar.StatusItem.constructor | Jumpcut/Jumpcut/StatusItem.swift:27-29 | corrected: `shown` starts equal to whether the new item is displayed |
| StatusBar.StatusItem.Hide | Jumpcut/Jumpcut/StatusItem.swift:72-87 | `shown` is false and the item is not displayed; from 10.12 on a visible item is made invisible, which runs the observer once more, sets `hideStatusItem` and logs a second hide; before 10.12 the item is removed |
| StatusBar.StatusItem.Show | Jumpcut/Jumpcut/StatusItem.swift:89-109 | `shown` is true and the item is displayed, either made visible or made again; the setting is untouched |
| StatusBar.StatusItem.VisibilityObserved | Jumpcut/Jumpcut/StatusItem.swift:63-67 | when the item has become invisible, `hideStatusItem` becomes true and `hide` runs; otherwise nothing changes |
| StatusBar.StatusItem.RemovedByUser | Jumpcut/Jumpcut/StatusItem.swift:63-67 | dragging the item out leaves it hidden, tracked, and the setting true |
| StatusBar.StatusItem.SetVisibility | Jumpcut/Jumpcut/StatusItem.swift:18-25 | afterwards `shown` is the opposite of the setting, so a second call does nothing; the call made is the one `VisibilityAction` names (a modern hide of a visible item logs the observer's second hide too), with no change to the item when there is none; whenever it makes one the item ends tracked and displayed exactly when not headless; a tracked item stays tracked |
| StatusBar.StatusItem.DisplayMenu | Jumpcut/Jumpcut/StatusItem.swift:31-40 | the menu pops up exactly when there is an item |
| StatusBar.StartupKeepsHiddenItemAsWritten | Jumpcut/Jumpcut/AppDelegate.swift:78 | as written, a headless launch keeps a displayed item in the menu bar, untracked |
| StatusBar.StartupHidesItem | Jumpcut/Jumpcut/AppDelegate.swift:78 | corrected, a headless launch hides the item |
| Menus.StandardEntries | Jumpcut/Jumpcut/MenuManager.swift:39-47 | one standard entry per clipping, in order |
| Menus.AltEntries | Jumpcut/Jumpcut/MenuManager.swift:49-78 | one alternate entry per clipping, in order |
| Menus.StandardMenuShape | Jumpcut/Jumpcut/MenuManager.swift:80-106 | an empty history gives one disabled `<None>` entry; otherwise there is one entry per displayed clipping, min(count, displayNum) of them, in history order and titled with its preview; then the six fixed entries |
| Menus.AltMenuMatchesStandard | Jumpcut/Jumpcut/MenuManager.swift:49-106 | the alternate menu has the standard one's titles in the same places and the same tail; each clipping entry has the copy, paste and delete submenu, with paste enabled exactly when accessibility is trusted |
| Menus.CheckToggleAsWritten | Jumpcut/Jumpcut/MenuManager.swift:25-28 | as written, the toggle fires exactly when a click was recorded and `checkMenuBehavior` accepts it |
| Menus.ToggleCondition | Jumpcut/Jumpcut/Preferences/GeneralPreferenceViewController.swift:72-78 | the toggle click of each setting: shift under `rightAltShiftToggle`, a right click under `shiftAltRightToggle`, none otherwise |
| Menus.CheckToggle | Jumpcut/Jumpcut/MenuManager.swift:25-28 | corrected: the toggle fires exactly when a recorded click is the setting's toggle click, and only under a toggle setting; never with no recorded click |
| Menus.ToggleNeverFiresAsWritten | Jumpcut/Jumpcut/AppDelegate.swift:176-185 | as written, a click that reached the standard menu never fires the toggle |
| Menus.ToggleReachable | Jumpcut/Jumpcut/AppDelegate.swift:176-185 | for each toggle setting there is a click that opens the standard menu and fires the corrected toggle but not the one as written |
| Menus.ToggleOnlyOnStandardClicks | Jumpcut/Jumpcut/AppDelegate.swift:176-185 | a toggle click opens the alternate menu only as a shifted right click under a toggle setting |
| Menus.MenuManager.constructor | Jumpcut/Jumpcut/MenuManager.swift:17-23 | both menus start empty and no click is recorded |
| Menus.MenuManager.ShouldSelectionPaste | Jumpcut/Jumpcut/MenuManager.swift:30-37 | a menu selection pastes as `menuSelectionPastes` says (false when unset), inverted exactly when the corrected toggle fires |
| Menus.MenuManager.ShouldSelectionPasteAsWritten | Jumpcut/Jumpcut/MenuManager.swift:30-37 | the same with the toggle as written |
| Menus.MenuManager.Rebuild | Jumpcut/Jumpcut/MenuManager.swift:80-106 | the loop builds both menus as the functions of the history, settings and platform, so a second rebuild gives the same menus |
| Menus.AddFixedMenuItems | Jumpcut/Jumpcut/MenuManager.swift:108-142 | the menu gets the fixed tail appended after its entries |
| Interacting.Interactions.constructor | Jumpcut/Jumpcut/Interactions.swift:23-29 | the interactions share the given stack, menus, bezel and platform |
| Interacting.Interactions.Hide | Jumpcut/Jumpcut/AppDelegate.swift:187-190 | the bezel is hidden and then the application hides |
| Interacting.Interactions.Place | Jumpcut/Jumpcut/Interactions.swift:61-66 | the full text goes on the pasteboard, then the application hides |
| Interacting.Interactions.Paste | Jumpcut/Jumpcut/Interactions.swift:68-75 | the clipping is placed first and only then the paste keystroke is scheduled |
| Interacting.Interactions.BezelSelection | Jumpcut/Jumpcut/Interactions.swift:94-104 | with no clipping under the cursor nothing happens; otherwise it is pasted when the bezel says so and placed if not |
| Interacting.Interactions.MenuHandler | Jumpcut/Jumpcut/Interactions.swift:107-119 | with no clipping at the index it only hides; otherwise it pastes or places as asked |
| Interacting.Interactions.MenuSelection | Jumpcut/Jumpcut/Interactions.swift:121-123 | pastes or places as the menu manager decides with `checkToggle` as written, so after a click that opened the standard menu it follows the `menuSelectionPastes` setting uninverted; the pasteboard then holds the clipping; without a clipping at the index the app only hides and the pasteboard is unchanged |
| Interacting.Interactions.MenuSelectionCorrected | Jumpcut/Jumpcut/Interactions.swift:121-123 | corrected: pastes or places as the corrected decision says, which inverts the setting on the toggle click of the `…Toggle` settings; the pasteboard then holds the clipping; without a clipping at the index the app only hides |
| Interacting.Interactions.MenuPlace | Jumpcut/Jumpcut/Interactions.swift:125-127 | always places, leaving the clipping on the pasteboard; without a clipping at the index the app only hides and the pasteboard is unchanged |
| Interacting.Interactions.MenuPaste | Jumpcut/Jumpcut/Interactions.swift:129-131 | always pastes, leaving the clipping on the pasteboard; without a clipping at the index the app only hides and the pasteboard is unchanged |
| Interacting.Interactions.MenuDelete | Jumpcut/Jumpcut/Interactions.swift:133-138 | deletes at the index with the cursor reindexed as in `deleteAt` (an index of -1 on an empty history only resets the cursor); the history file is rewritten after a removal unless saving is skipped, and untouched otherwise; then both menus match the new history |
| Interacting.Interactions.ClearHistoryAsWritten | Jumpcut/Jumpcut/Interactions.swift:156-171 | as written, and only where the force unwrap succeeds: a pasteboard showing the newest clipping is blanked as autogenerated; the history empties with the cursor kept and the file rewritten unless saving is skipped; the menus become the empty ones |
| Interacting.Interactions.ClearHistory | Jumpcut/Jumpcut/Interactions.swift:156-171 | corrected and defined in every state: the same effects and file update, comparing the pasteboard only when there is a newest clipping |
| Interacting.Interactions.ClearAllAsWritten | Jumpcut/Jumpcut/Interactions.swift:173-196 | when asking (default), it clears only on OK with a non-empty history, and ticking suppression turns asking off; when not asking, it clears at once; clearing blanks a pasteboard showing the newest clipping, rewrites the file unless saving is skipped and leaves both menus empty; otherwise history, file, pasteboard and menus are unchanged; defined only where `_clearAll` does not trap |
| Interacting.Interactions.ClearAll | Jumpcut/Jumpcut/Interactions.swift:173-196 | the same decision over the corrected clearing, defined in every state; when it clears, the pasteboard, file and both menus are as after clearing, and otherwise nothing changes |
| Interacting.Interactions.KeyDown | Jumpcut/Jumpcut/Interactions.swift:40-57 | an unnamed key is ignored; the hotkey's base key moves the cursor up with shift and down without, then shows the bezel at it; other keys are delegated; an in-range cursor stays in range |
| Interacting.Interactions.MetaKeyReleased | Jumpcut/Jumpcut/Interactions.swift:33-39 | releasing the modifiers selects from the bezel only when `stickyBezel` is present and false: the clipping under the cursor is pasted or placed, left on the pasteboard and the bezel hidden; with no clipping there, or any other `stickyBezel`, nothing changes |
| Interacting.Interactions.FlagsChanged | Jumpcut/Jumpcut/Bezel.swift:339-347 | the release handler runs only when none of option, command, control and shift is held, with the bezel selection's effects then; otherwise effects, pasteboard and bezel are unchanged |
| Interacting.ClearAllTrapsAsWritten | Jumpcut/Jumpcut/Interactions.swift:163-166 | a reachable state (asking off, empty history, text on the pasteboard) lies outside where `clearAll` as written is defined |
| Delegate.AppDelegate.Launch | Jumpcut/Jumpcut/AppDelegate.swift:33-99 | after launch the cursor is 0, the bezel hidden, the history the loaded record within capacity, and the menus built from it; the status item, made as written, is believed shown exactly when not headless, and is in the menu bar when not headless or when the new item was already visible |
| Delegate.AppDelegate.SetUpHistory | Jumpcut/Jumpcut/AppDelegate.swift:43-50 | the stack is loaded, the interactions share it, and the first rebuild makes the menus of the loaded history |
| Delegate.AppDelegate.PasteboardChanged | Jumpcut/Jumpcut/AppDelegate.swift:266-287 | nothing changes without new text or when it is already the newest clipping; otherwise it is added, the history file is rewritten unless saving is skipped (untouched when nothing is added), the cursor follows the `bezelToTop` rule and the menus are rebuilt; afterwards the same text would change nothing; an in-range cursor stays in range |
| Delegate.AppDelegate.FollowIngest | Jumpcut/Jumpcut/AppDelegate.swift:273-283 | the cursor update after an add is the ingestion rule, and it keeps an in-range cursor in range |
| Delegate.AppDelegate.HotkeyPressed | Jumpcut/Jumpcut/AppDelegate.swift:245-256 | nothing while the hotkey is being recorded; a hidden bezel is shown at the cursor; a shown one moves the cursor down first; an in-range cursor stays in range |
| Delegate.AppDelegate.StatusItemClicked | Jumpcut/Jumpcut/AppDelegate.swift:176-185 | the alternate menu opens when `checkMenuBehavior` accepts the click; otherwise the click is recorded and the standard menu opens, after which the selection as written pastes as the setting says while the corrected one inverts it on a toggle click |
| Delegate.AppDelegate.UpdateStateFromSettings | Jumpcut/Jumpcut/AppDelegate.swift:150-156 | the `hideStatusItem` setting is left as it was; the status item follows it with exactly the calls `setVisibility` makes (none and no change when it already agrees), ending tracked and displayed exactly when not headless once a call is made; the menus are rebuilt from the history |

## Left out

- Property-list encoding and file I/O are not modelled. The record on disk is an `Option<JCEngine>` given at construction, where `None` stands for a missing or undecodable file. Writes always succeed, so a failed write (which the source only reports) is not covered.
- Pasteboard.swift is not part of this model. The watcher's last text and the top text are fields of `Host.Platform` supplied by the caller. `set` simply puts the text on top and logs the write.
- The delayed paste keystroke (`DispatchQueue.asyncAfter` and the `CGEvent` posting) is one effect-log entry, recorded after the placement.
- Hotkey registration and the keyboard-layout translation (Sauce, HotKey, the shortcut recorder) are not modelled. The key that was pressed and the hotkey's base key arrive as parameters.
- `displayBezelAtPosition` and `bezelKeyDownBehavior` are defined outside the modelled files. They are effect-log entries.
- Layout, fonts, colours, window handling, alerts as UI, Sparkle, launch-at-login and accessibility prompts are left out. The alert's answer and its suppression box are parameters.
- `extractIndex` reads the menu hierarchy. The menu actions take the index as an integer.
- The re-entrance of the `isVisible` observer into `hide` is modelled (`StatusBar.StatusItem.VisibilityObserved`). The defaults-changed notification that calls `updateStateFromSettings` is not; that method is a plain call.
- AppKit's automatic enabling of menu items is not modelled. The `enabled` flags are the ones the code sets.
- Characters are Unicode scalar values, while Swift's `count` and `prefix` count grapheme clusters. Texts whose clusters span several scalars preview differently, and `Bezel.ParagraphAlignment`'s more-than-100-characters test (Bezel.swift:287) counts scalars too.
- Delegate.AppDelegate.Launch: requires a non-negative `displayNum` even when the loaded history is empty. In that case the source never reaches the prefix that would trap.
- Delegate.AppDelegate.Launch: calls `setVisibility` before building the history, while the source calls it last. Neither step reads or writes what the other touches, so the end state is the same.
- Clippings.ClippingStack.constructor: a `rememberNum` above 99 still starts with at most 99 clippings. That is the source's behaviour, because the load runs under the store's initial capacity.
- `applicationWillResignActive` and the other application lifecycle callbacks are not modelled.
- The Preferences entry's title keeps the three characters that the source text has in place of an ellipsis.
- A cursor trap is reachable and is left as written. Take history [A, B] with the cursor at 1, clear it, then ingest with `bezelToTop` 0. The cursor ends at 1 with one clipping, and a bezel selection there reaches the trapping subscript. `BezelSelection` therefore requires that the cursor is defined.

## Findings

| source | as written | input that shows it | evidently intended | confidence | as-written member | corrected member |
|---|---|---|---|---|---|---|
| Jumpcut/Jumpcut/MenuManager.swift:25-28 | `checkToggle` asks `checkMenuBehavior` about the click that opened the standard menu, but that click was recorded only because `checkMenuBehavior` rejected it | `rightAltShiftToggle` with a shift-left-click: the standard menu opens and paste behaviour does not switch | the `…Toggle` settings switch paste behaviour on shift (`rightAltShiftToggle`) or on a right click (`shiftAltRightToggle`), as their preference titles say | high, not executed | Menus.ToggleNeverFiresAsWritten | Menus.ToggleReachable |
| Jumpcut/Jumpcut/Clippings.swift:201 | the record's `rememberNum` is read from the `displayNum` setting | `displayNum` 10 and `rememberNum` 50: the record stores `rememberNum` 10 | the record stores the `rememberNum` setting | high, not executed | History.RememberNumAsWrittenIsDisplayNum | History.EngineRecord |
| Jumpcut/Jumpcut/Interactions.swift:163-166 | `_clearAll` force-unwraps the newest clipping whenever the pasteboard holds text | asking turned off, empty history, text on the pasteboard, then Clear All: the unwrap of nil traps | compare with the newest clipping only when there is one | high, not executed | Interacting.ClearAllTrapsAsWritten | Interacting.Interactions.ClearAll |
| Jumpcut/Jumpcut/StatusItem.swift:14 | `shown` starts false although `makeItem` has just put the item in the menu bar | launch with `hideStatusItem` true and a visible item: `setVisibility` sees nothing to hide, so the item stays | `shown` starts as the state of the new item, so a headless launch hides it | medium, not executed | StatusBar.StartupKeepsHiddenItemAsWritten | StatusBar.StartupHidesItem |
