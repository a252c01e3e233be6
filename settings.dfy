/**
 * The user defaults the engine reads (Settings.swift's `SettingsPath` keys)
 * and the two string-valued settings it interprets. A setting is `None`
 * when it is unset or holds a value of another type, which is what Swift's
 * `value(forKey:) as? T` gives.
 */
module Settings {
  import opened Wrappers
  import opened Host

  class Defaults {
    var askBeforeClearingClippings: Option<bool>
    var bezelAlignment: Option<string>
    var bezelSelectionPastes: Option<bool>
    var bezelToTop: Option<int>
    var displayNum: Option<int>
    var hideStatusItem: Option<bool>
    var menuBehaviorFlags: Option<string>
    var menuSelectionPastes: Option<bool>
    var rememberNum: Option<int>
    var skipSave: Option<bool>
    var stickyBezel: Option<bool>
    var wraparoundBezel: Option<bool>

    /** The values `Settings.registerDefaults` registers. */
    constructor Registered()
      ensures askBeforeClearingClippings == Some(true) && bezelAlignment == Some("center")
      ensures bezelSelectionPastes == Some(true) && bezelToTop == Some(1) && displayNum == Some(10)
      ensures hideStatusItem == Some(false) && menuBehaviorFlags == Some("none")
      ensures menuSelectionPastes == Some(true) && rememberNum == Some(99) && skipSave == Some(false)
      ensures stickyBezel == Some(false) && wraparoundBezel == Some(false)
    {
      askBeforeClearingClippings := Some(true);
      bezelAlignment := Some("center");
      bezelSelectionPastes := Some(true);
      bezelToTop := Some(1);
      displayNum := Some(10);
      hideStatusItem := Some(false);
      menuBehaviorFlags := Some("none");
      menuSelectionPastes := Some(true);
      rememberNum := Some(99);
      skipSave := Some(false);
      stickyBezel := Some(false);
      wraparoundBezel := Some(false);
    }
  }

  /** `MenuBehaviorFlags`: which click opens the alternate menu. */
  datatype MenuBehaviorFlags = NoFlags | RightAlt | RightAltShiftToggle | ShiftAlt | ShiftAltRightToggle

  /** `MenuBehaviorFlags(rawValue:) ?? .none`, with an unset setting read as `.none`. */
  function ParseMenuBehaviorFlags(raw: Option<string>): (f: MenuBehaviorFlags)
    ensures f == RightAlt <==> raw == Some("rightAlt")
    ensures f == RightAltShiftToggle <==> raw == Some("rightAltShiftToggle")
    ensures f == ShiftAlt <==> raw == Some("shiftAlt")
    ensures f == ShiftAltRightToggle <==> raw == Some("shiftAltRightToggle")
  {
    match raw
    case Some("rightAlt") => RightAlt
    case Some("rightAltShiftToggle") => RightAltShiftToggle
    case Some("shiftAlt") => ShiftAlt
    case Some("shiftAltRightToggle") => ShiftAltRightToggle
    case _ => NoFlags
  }

  /**
   * `AppDelegate.checkMenuBehavior`: whether a status-item click opens the
   * alternate menu. The right-click settings want a right-mouse-up, the
   * shift settings want shift held; `none`, unknown or unset never do.
   */
  function CheckMenuBehavior(raw: Option<string>, event: Event): (r: bool)
    ensures var f := ParseMenuBehaviorFlags(raw);
            r <==> || ((f == RightAlt || f == RightAltShiftToggle) && event.eventType == RightMouseUp)
                   || ((f == ShiftAlt || f == ShiftAltRightToggle) && event.modifiers.shift)
    ensures ParseMenuBehaviorFlags(raw) == NoFlags ==> !r
  {
    var wanted := ParseMenuBehaviorFlags(raw);
    if wanted == RightAlt || wanted == RightAltShiftToggle then
      event.eventType == RightMouseUp
    else if wanted == ShiftAlt || wanted == ShiftAltRightToggle then
      event.modifiers.shift
    else
      false
  }

  /** `BezelAlignment`. */
  datatype BezelAlignment = Center | Left | Right | SmartAlign

  /** `BezelAlignment(rawValue: pref ?? "center") ?? .center`. */
  function ParseBezelAlignment(raw: Option<string>): (a: BezelAlignment)
    ensures a == Left <==> raw == Some("left")
    ensures a == Right <==> raw == Some("right")
    ensures a == SmartAlign <==> raw == Some("smartAlign")
  {
    match raw.GetOr("center")
    case "left" => Left
    case "right" => Right
    case "smartAlign" => SmartAlign
    case _ => Center
  }
}
