/**
 * The clipping store and the stack over it (Clippings.swift). The property
 * list on disk is the store's `file` field: `LoadFromPlist` reads an
 * already decoded record from it and `WriteClippings` replaces it.
 */
module Clippings {
  import opened Wrappers
  import opened Preview
  import opened History
  import opened Settings

  /** `ClippingStore`: the history, newest first, and its persistence. */
  class ClippingStore {
    var clippings: seq<Clipping>
    /** `_maxLength`, read and written through `maxLength`. */
    var maxLength: int
    const skipSave: bool
    const defaults: Defaults
    /** `CFBundleShortVersionString`, or "Unknown". */
    const version: string
    /** The record at `plistPath`; `None` when there is no readable one. */
    var file: Option<JCEngine>

    ghost predicate Valid()
      reads this`maxLength, this`clippings
    {
      MinLength <= maxLength && |clippings| <= maxLength && AllWellFormed(clippings)
    }

    /**
     * What `writeClippings` stores for the current history, with the header
     * as written: `rememberNum` is read from the `displayNum` setting.
     */
    function Saved(): JCEngine
      reads this, defaults
    {
      EngineRecordAsWritten(clippings, defaults.displayNum, version)
    }

    /**
     * `init`: `skipSave` comes from the defaults, and unless it is set the
     * saved record is loaded, which keeps its newest 99 non-blank entries
     * and writes the store straight back whenever it added one.
     */
    constructor (defaults: Defaults, disk: Option<JCEngine>, version: string)
      ensures Valid()
      ensures this.defaults == defaults && this.version == version
      ensures skipSave == defaults.skipSave.GetOr(false) && maxLength == InitialMaxLength
      ensures var loaded := if skipSave || disk.None? then [] else NonBlankContents(disk.value.jcList);
              && clippings == History.FirstItems(ClippingsOf(loaded), InitialMaxLength)
              && file == if loaded == [] then disk else Some(Saved())
    {
      this.defaults := defaults;
      this.version := version;
      skipSave := defaults.skipSave.GetOr(false);
      clippings := [];
      maxLength := InitialMaxLength;
      file := disk;
      new;
      if !skipSave {
        LoadFromPlist(disk);
        if disk.Some? {
          ReplayKeepsNewest(disk.value.jcList, InitialMaxLength);
        }
      }
    }

    /**
     * `loadFromPlist`: the entries of the record are added last to first,
     * skipping blank ones; each `add` writes the file.
     */
    method LoadFromPlist(data: Option<JCEngine>)
      requires Valid()
      modifies this`clippings, this`file
      ensures Valid()
      ensures clippings == if data.None? then old(clippings) else Replay(data.value.jcList, old(clippings), maxLength)
      ensures file == if skipSave || data.None? || NonBlankContents(data.value.jcList) == [] then old(file) else Some(Saved())
    {
      if data.None? {
        return;
      }
      var list := data.value.jcList;
      var i := |list|;
      while i > 0
        invariant 0 <= i <= |list|
        invariant Valid()
        invariant clippings == Replay(list[i..], old(clippings), maxLength)
        invariant file == if skipSave || NonBlankContents(list[i..]) == [] then old(file) else Some(Saved())
      {
        i := i - 1;
        assert list[i..][1..] == list[i + 1..];
        BlankIffTrimsToEmpty(list[i].contents);
        if Trim(list[i].contents) != [] {
          Add(list[i].contents);
        }
      }
      assert list[0..] == list;
    }

    /** `writeClippings`: unless saving is off, the file holds the current history. */
    method WriteClippings()
      modifies this`file
      ensures file == if skipSave then old(file) else Some(Saved())
    {
      if skipSave {
        return;
      }
      var items: seq<JCListItem> := [];
      var counter := 0;
      while counter < |clippings|
        invariant 0 <= counter <= |clippings|
        invariant items == Records(clippings[..counter])
      {
        assert clippings[..counter + 1] == clippings[..counter] + [clippings[counter]];
        items := items + [JCListItem(clippings[counter].fullText, counter, PboardType)];
        counter := counter + 1;
      }
      assert clippings[..counter] == clippings;
      file := Some(JCEngine(None, defaults.displayNum.GetOr(10), items, defaults.displayNum.GetOr(99), version));
    }

    /** `add`: the new clipping goes on top; the oldest one falls off past `maxLength`. */
    method Add(item: string)
      requires Valid()
      modifies this`clippings, this`file
      ensures Valid()
      ensures clippings == Added(old(clippings), item, maxLength)
      ensures file == if skipSave then old(file) else Some(Saved())
    {
      Insert(item);
      WriteClippings();
    }

    /** The list update of `add`, before the write. */
    method Insert(item: string)
      requires Valid()
      modifies this`clippings
      ensures Valid()
      ensures clippings == Added(old(clippings), item, maxLength)
    {
      ghost var before := clippings;
      var c := NewClipping(item);
      clippings := [c] + clippings;
      if |clippings| > maxLength {
        clippings := clippings[..|clippings| - 1];
      }
      assert clippings == Push(before, c, maxLength);
      PushWellFormed(before, c, maxLength);
    }

    /** `clear`. */
    method Clear()
      requires Valid()
      modifies this`clippings, this`file
      ensures Valid() && clippings == []
      ensures file == if skipSave then old(file) else Some(Saved())
    {
      clippings := [];
      WriteClippings();
    }

    /** `itemAt`: `None` on an empty store or one past the end is out of range. */
    function ItemAt(position: int): Option<Clipping>
      requires IndexDefined(clippings, position)
      reads this
    {
      History.ItemAt(clippings, position)
    }

    /**
     * `removeItem`: a position inside the history removes that clipping and
     * writes the file; an empty store or a position past the end is left alone.
     */
    method RemoveItem(position: int)
      requires Valid() && IndexDefined(clippings, position)
      modifies this`clippings, this`file
      ensures Valid()
      ensures clippings == RemovedAt(old(clippings), position)
      ensures file == if skipSave || clippings == old(clippings) then old(file) else Some(Saved())
    {
      if clippings == [] || position > |clippings| {
        return;
      }
      RemovedWellFormed(clippings, position);
      clippings := clippings[..position] + clippings[position + 1..];
      WriteClippings();
    }

    function FirstItems(n: int): seq<Clipping>
      requires n >= 0
      reads this
    {
      History.FirstItems(clippings, n)
    }

    /** The `maxLength` setter: at least 10, and the history is cut to the new limit. */
    method SetMaxLength(n: int)
      requires Valid()
      modifies this`clippings, this`maxLength
      ensures Valid()
      ensures maxLength == ClampedLength(n)
      ensures clippings == History.FirstItems(old(clippings), maxLength)
    {
      var newValueWithMin := if n < 10 then 10 else n;
      clippings := FirstItems(newValueWithMin);
      maxLength := newValueWithMin;
    }
  }

  /** `ClippingStack`: the store plus the bezel's cursor. */
  class ClippingStack {
    const store: ClippingStore
    var position: int
    const defaults: Defaults

    ghost predicate Valid()
      reads store`maxLength, store`clippings
    {
      store.Valid() && store.defaults == defaults
    }

    function Items(): seq<Clipping>
      reads store`clippings
    {
      store.clippings
    }

    function Count(): int
      reads store`clippings
    {
      |store.clippings|
    }

    /**
     * `init`: a fresh store, then limited to the `rememberNum` setting (99
     * when unset). The load runs under the store's initial limit of 99, so
     * a larger `rememberNum` still starts with at most 99 clippings.
     */
    constructor (defaults: Defaults, disk: Option<JCEngine>, version: string)
      ensures Valid() && fresh(store) && position == 0 && this.defaults == defaults
      ensures store.skipSave == defaults.skipSave.GetOr(false) && store.version == version
      ensures store.maxLength == ClampedLength(defaults.rememberNum.GetOr(99))
      ensures var loaded := if store.skipSave || disk.None? then [] else NonBlankContents(disk.value.jcList);
              && Items() == History.FirstItems(ClippingsOf(loaded), Min(InitialMaxLength, store.maxLength))
              && store.file == if loaded == [] then disk else Some(EngineRecordAsWritten(
                   History.FirstItems(ClippingsOf(loaded), InitialMaxLength), defaults.displayNum, version))
    {
      this.defaults := defaults;
      position := 0;
      store := new ClippingStore(defaults, disk, version);
      new;
      ghost var loaded := if store.skipSave || disk.None? then [] else NonBlankContents(disk.value.jcList);
      store.SetMaxLength(defaults.rememberNum.GetOr(99));
      FirstItemsOfFirstItems(ClippingsOf(loaded), InitialMaxLength, store.maxLength);
    }

    predicate IsEmpty()
      reads this, store
    {
      store.clippings == []
    }

    function FirstItems(n: int): seq<Clipping>
      requires n >= 0
      reads this, store
    {
      store.FirstItems(n)
    }

    /** `clear`: the history empties; the cursor is left where it was. */
    method Clear()
      requires Valid()
      modifies store`clippings, store`file
      ensures Valid() && Items() == []
      ensures store.file == if store.skipSave then old(store.file) else Some(store.Saved())
    {
      store.Clear();
    }

    /** `add`. */
    method Add(item: string)
      requires Valid()
      modifies store`clippings, store`file
      ensures Valid()
      ensures Items() == Added(old(Items()), item, store.maxLength)
      ensures store.file == if store.skipSave then old(store.file) else Some(store.Saved())
    {
      store.Add(item);
    }

    /**
     * `deleteAt`: a position past the end changes nothing; otherwise that
     * clipping goes and the cursor moves up when it sat at or below it.
     * A negative position on an empty stack only resets the cursor to 0;
     * on a non-empty one it would reach `Array.remove(at:)` and trap.
     */
    method DeleteAt(p: int)
      requires Valid() && (0 <= p || Count() == 0)
      modifies this`position, store`clippings, store`file
      ensures Valid()
      ensures p >= old(Count()) ==> Items() == old(Items()) && position == old(position) && store.file == old(store.file)
      ensures p < 0 ==> Items() == [] && position == 0 && store.file == old(store.file)
      ensures 0 <= p < old(Count()) ==>
                && Items() == Removed(old(Items()), p)
                && position == DeletePosition(old(position), Count(), p)
                && store.file == if store.skipSave then old(store.file) else Some(store.Saved())
    {
      if p >= |store.clippings| {
        return;
      }
      store.RemoveItem(p);
      if |store.clippings| == 0 {
        position := 0;
      } else if position > 0 && position >= p {
        position := position - 1;
      }
    }

    /** `delete`: removes the clipping under the cursor. */
    method Delete()
      requires Valid() && (0 <= position || Count() == 0)
      modifies this`position, store`clippings, store`file
      ensures Valid()
      ensures old(position) >= old(Count()) ==>
                Items() == old(Items()) && position == old(position) && store.file == old(store.file)
      ensures old(position) < 0 ==> Items() == [] && position == 0 && store.file == old(store.file)
      ensures 0 <= old(position) < old(Count()) ==>
                && Items() == Removed(old(Items()), old(position))
                && position == DeletePosition(old(position), Count(), old(position))
                && store.file == if store.skipSave then old(store.file) else Some(store.Saved())
    {
      DeleteAt(position);
    }

    /** `down`: one clipping older, wrapping to the top only when `wraparoundBezel` is on. */
    method Down()
      modifies this`position
      ensures position == DownPosition(old(position), Count(), defaults.wraparoundBezel)
    {
      var newPosition := position + 1;
      if newPosition < |store.clippings| {
        position := newPosition;
      } else if defaults.wraparoundBezel.Some? {
        if defaults.wraparoundBezel.value {
          position := 0;
        }
      }
    }

    /** `up`: one clipping newer, wrapping to the bottom only when `wraparoundBezel` is on. */
    method Up()
      modifies this`position
      ensures position == UpPosition(old(position), Count(), defaults.wraparoundBezel)
    {
      var newPosition := position - 1;
      if newPosition >= 0 {
        position := newPosition;
      } else if defaults.wraparoundBezel.Some? {
        if defaults.wraparoundBezel.value {
          position := |store.clippings| - 1;
        }
      }
    }

    function ItemAt(p: int): Option<Clipping>
      requires IndexDefined(store.clippings, p)
      reads this, store
    {
      store.ItemAt(p)
    }
  }

  function Min(a: int, b: int): int {
    if a < b then a else b
  }

  /** Cutting to `a` and then to `b` is cutting to the smaller of the two. */
  lemma FirstItemsOfFirstItems(clips: seq<Clipping>, a: int, b: int)
    requires 0 <= a && 0 <= b
    ensures History.FirstItems(History.FirstItems(clips, a), b) == History.FirstItems(clips, Min(a, b))
  {
  }
}
