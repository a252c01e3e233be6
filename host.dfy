/**
 * What the engine sees of the operating system: the pasteboard, input
 * events, and a log of the effects it asks for (hiding the application,
 * the delayed Command-V, showing the bezel or a menu). Pasteboard.swift and
 * the bezel display routine are not part of this model; their calls appear
 * here only as log entries and as the pasteboard's current text.
 */
module Host {
  import opened Wrappers

  /** A key in the layout-independent (QWERTY) numbering. */
  type Key = int

  datatype EventType = LeftMouseUp | RightMouseUp | OtherMouseUp | KeyDown | FlagsChanged

  /** The modifier flags of an event that the engine looks at. */
  datatype Modifiers = Modifiers(shift: bool, option: bool, command: bool, control: bool)

  /** An `NSEvent`, reduced to its type and modifier flags. */
  datatype Event = Event(eventType: EventType, modifiers: Modifiers)

  datatype MenuKind = StandardMenu | AltMenu

  datatype Effect =
    | PasteboardSet(text: string, autogenerated: bool)
    | AppHidden
    | CommandVScheduled
    | BezelDisplayedAt(position: int)
    | KeyDelegated(key: Key)
    | MenuPoppedUp(kind: MenuKind)

  class Platform {
    /** `pasteboard.lastFound`: the text the pasteboard watcher last saw. */
    var lastFound: Option<string>
    /** `pasteboard.topItem()`: the text now on top of the pasteboard. */
    var top: Option<string>
    /** `AXIsProcessTrusted()`. */
    var trusted: bool
    /** `ProcessInfo.processInfo.processName`. */
    const processName: string
    /** Every effect requested so far, oldest first. */
    var effects: seq<Effect>

    constructor (lastFound: Option<string>, top: Option<string>, trusted: bool, processName: string)
      ensures this.lastFound == lastFound && this.top == top && this.trusted == trusted
      ensures this.processName == processName && effects == []
    {
      this.lastFound := lastFound;
      this.top := top;
      this.trusted := trusted;
      this.processName := processName;
      effects := [];
    }

    /** `pasteboard.set(text, autogenerated:)`: the text goes on top of the pasteboard. */
    method SetPasteboard(text: string, autogenerated: bool)
      modifies this`top, this`effects
      ensures top == Some(text)
      ensures effects == old(effects) + [PasteboardSet(text, autogenerated)]
    {
      top := Some(text);
      effects := effects + [PasteboardSet(text, autogenerated)];
    }

    method Record(e: Effect)
      modifies this`effects
      ensures effects == old(effects) + [e]
    {
      effects := effects + [e];
    }
  }
}
