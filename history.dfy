/**
 * The clipping history as values: what `ClippingStore` and `ClippingStack`
 * (Clippings.swift) do to their list and cursor, and the persisted record.
 * The classes in module Clippings are specified by these functions.
 */
module History {
  import opened Wrappers
  import opened Preview

  /** The capacity floor applied by the `maxLength` setter. */
  const MinLength := 10
  /** `_maxLength` before any setting is applied. */
  const InitialMaxLength := 99
  /** The legacy type tag written on every persisted entry. */
  const PboardType := "NSStringPboardType"

  /** `JCListItem`: one persisted clipping. */
  datatype JCListItem = JCListItem(contents: string, position: int, itemType: string)

  /** `JCEngine`: the persisted record. `displayLen` is legacy and never written. */
  datatype JCEngine = JCEngine(
    displayLen: Option<int>, displayNum: int, jcList: seq<JCListItem>, rememberNum: int, version: string)

  ghost predicate AllWellFormed(clips: seq<Clipping>) {
    forall i {:trigger WellFormed(clips[i])} :: 0 <= i < |clips| ==> WellFormed(clips[i])
  }

  // ---------------------------------------------------------------- the list

  /**
   * The list side of `ClippingStore.add`: `c` goes to index 0, the others
   * move down one place in order, and when the list then exceeds
   * `maxLength` exactly one element, the oldest, is dropped.
   */
  function Push<T>(clips: seq<T>, c: T, maxLength: int): (r: seq<T>)
    ensures |r| == if |clips| + 1 > maxLength then |clips| else |clips| + 1
    ensures r != [] ==> r[0] == c
    ensures forall i :: 1 <= i < |r| ==> r[i] == clips[i - 1]
    ensures |clips| <= maxLength ==> |r| <= maxLength
  {
    var grown := [c] + clips;
    if |grown| > maxLength then grown[..|grown| - 1] else grown
  }

  /** `ClippingStore.add(item)`: the clipping made from `item` is pushed. */
  function Added(clips: seq<Clipping>, item: string, maxLength: int): seq<Clipping> {
    Push(clips, NewClipping(item), maxLength)
  }

  /** Pushing a well-formed clipping keeps every clipping well-formed. */
  lemma PushWellFormed(clips: seq<Clipping>, c: Clipping, maxLength: int)
    requires AllWellFormed(clips) && WellFormed(c)
    ensures AllWellFormed(Push(clips, c, maxLength))
  {
  }

  /** Adding keeps every clipping well-formed. */
  lemma AddedWellFormed(clips: seq<Clipping>, item: string, maxLength: int)
    requires AllWellFormed(clips)
    ensures AllWellFormed(Added(clips, item, maxLength))
  {
    PushWellFormed(clips, NewClipping(item), maxLength);
  }

  /** `clippings.remove(at:)`: the item at `p` is gone and the rest keep their order. */
  function Removed(clips: seq<Clipping>, p: int): (r: seq<Clipping>)
    requires 0 <= p < |clips|
    ensures |r| == |clips| - 1
    ensures forall i :: 0 <= i < p ==> r[i] == clips[i]
    ensures forall i :: p <= i < |r| ==> r[i] == clips[i + 1]
  {
    clips[..p] + clips[p + 1..]
  }

  /** Removing keeps every clipping well-formed. */
  lemma RemovedWellFormed(clips: seq<Clipping>, p: int)
    requires AllWellFormed(clips) && 0 <= p < |clips|
    ensures AllWellFormed(Removed(clips, p))
  {
  }

  /** `firstItems(n:)`: the first `min(n, count)` clippings in order (a negative `n` traps). */
  function FirstItems<T>(clips: seq<T>, n: int): (r: seq<T>)
    requires n >= 0
    ensures |r| == if n < |clips| then n else |clips|
    ensures r == clips[..|r|]
  {
    if n > |clips| then clips else clips[..n]
  }

  /** The capacity the `maxLength` setter stores. */
  function ClampedLength(n: int): (m: int)
    ensures m >= MinLength
    ensures n >= MinLength ==> m == n
    ensures n < MinLength ==> m == MinLength
  {
    if n < MinLength then MinLength else n
  }

  /**
   * The guard of `itemAt` and `removeItem` is `position > count`: a position
   * equal to the count, or a negative one, reaches the array subscript and
   * traps, unless the list is empty.
   */
  predicate IndexDefined(clips: seq<Clipping>, position: int) {
    clips == [] || position > |clips| || 0 <= position < |clips|
  }

  /** `itemAt(position:)`: the clipping at `position` when there is one. */
  function ItemAt(clips: seq<Clipping>, position: int): (r: Option<Clipping>)
    requires IndexDefined(clips, position)
    ensures r.Some? <==> 0 <= position < |clips|
    ensures r.Some? ==> r.value == clips[position]
  {
    if clips == [] || position > |clips| then None else Some(clips[position])
  }

  /** `removeItem(position:)` on the list: a no-op when there is no clipping at `position`. */
  function RemovedAt(clips: seq<Clipping>, position: int): (r: seq<Clipping>)
    requires IndexDefined(clips, position)
    ensures 0 <= position < |clips| ==> r == Removed(clips, position)
    ensures !(0 <= position < |clips|) ==> r == clips
  {
    if clips == [] || position > |clips| then clips else Removed(clips, position)
  }

  // ---------------------------------------------------------- persistence

  /** The entries `writeClippings` emits: list order, `Position` 0, 1, 2, ... */
  function Records(clips: seq<Clipping>): (r: seq<JCListItem>)
    ensures |r| == |clips|
    ensures forall k :: 0 <= k < |r| ==> r[k].contents == clips[k].fullText && r[k].position == k && r[k].itemType == PboardType
  {
    seq(|clips|, k requires 0 <= k < |clips| => JCListItem(clips[k].fullText, k, PboardType))
  }

  /**
   * The record `writeClippings` is evidently meant to build, with each
   * header field taken from its own setting, `displayNum` and `rememberNum`
   * (defaults 10 and 99). The store writes `EngineRecordAsWritten`.
   */
  function EngineRecord(clips: seq<Clipping>, displayNum: Option<int>, rememberNum: Option<int>, version: string)
    : (e: JCEngine)
    ensures e.jcList == Records(clips) && e.displayLen.None? && e.version == version
    ensures e.displayNum == displayNum.GetOr(10) && e.rememberNum == rememberNum.GetOr(99)
  {
    JCEngine(None, displayNum.GetOr(10), Records(clips), rememberNum.GetOr(99), version)
  }

  /** The record as Clippings.swift:198-203 builds it: `rememberNum` is read from the `displayNum` key. */
  function EngineRecordAsWritten(clips: seq<Clipping>, displayNum: Option<int>, version: string): (e: JCEngine)
    ensures e.jcList == Records(clips) && e.displayLen.None? && e.version == version
    ensures e.displayNum == displayNum.GetOr(10) && e.rememberNum == displayNum.GetOr(99)
  {
    JCEngine(None, displayNum.GetOr(10), Records(clips), displayNum.GetOr(99), version)
  }

  /** With both settings present, the written `rememberNum` is the display count, not the capacity. */
  lemma RememberNumAsWrittenIsDisplayNum(clips: seq<Clipping>, displayNum: int, rememberNum: int, version: string)
    requires displayNum != rememberNum
    ensures EngineRecordAsWritten(clips, Some(displayNum), version).rememberNum == displayNum
    ensures EngineRecordAsWritten(clips, Some(displayNum), version)
         != EngineRecord(clips, Some(displayNum), Some(rememberNum), version)
  {
  }

  /** A text that `loadFromPlist` skips: nothing but whitespace and newlines. */
  predicate IsBlank(s: string) {
    AllSpace(s)
  }

  /** `IsBlank` is the source's test: the text trims to nothing. */
  lemma BlankIffTrimsToEmpty(s: string)
    ensures IsBlank(s) <==> Trim(s) == []
  {
    if Trim(s) == [] {
      assert s == s[..TrimStart(s)] + s[TrimStart(s)..];
    }
  }

  /** One step of `loadFromPlist`: a non-blank entry goes through `add`. */
  function LoadStep(clips: seq<Clipping>, item: JCListItem, maxLength: int): seq<Clipping> {
    if IsBlank(item.contents) then clips else Added(clips, item.contents, maxLength)
  }

  /**
   * `loadFromPlist` on a decoded record: the entries are replayed last to
   * first, so `list[0]` is added last and ends up at the head.
   */
  function Replay(list: seq<JCListItem>, clips: seq<Clipping>, maxLength: int): seq<Clipping>
    decreases |list|
  {
    if list == [] then clips else LoadStep(Replay(list[1..], clips, maxLength), list[0], maxLength)
  }

  /** The clipping texts a record holds, blank ones left out, in record order. */
  function NonBlankContents(list: seq<JCListItem>): seq<string>
    decreases |list|
  {
    if list == [] then []
    else (if IsBlank(list[0].contents) then [] else [list[0].contents]) + NonBlankContents(list[1..])
  }

  /** `s` with `f` applied to every element. */
  function Map<A, B>(f: A -> B, s: seq<A>): (r: seq<B>)
    ensures |r| == |s|
    ensures forall k :: 0 <= k < |s| ==> r[k] == f(s[k])
  {
    seq(|s|, k requires 0 <= k < |s| => f(s[k]))
  }

  lemma MapCons<A, B>(f: A -> B, x: A, s: seq<A>)
    ensures Map(f, [x] + s) == [f(x)] + Map(f, s)
  {
  }

  /** The clippings made from `texts`, in the same order. */
  function ClippingsOf(texts: seq<string>): seq<Clipping> {
    Map(NewClipping, texts)
  }

  /**
   * Loading into an empty store keeps the newest `maxLength` non-blank
   * entries of the record, in record order.
   */
  lemma {:induction false} ReplayKeepsNewest(list: seq<JCListItem>, maxLength: int)
    requires maxLength >= 1
    ensures Replay(list, [], maxLength) == FirstItems(ClippingsOf(NonBlankContents(list)), maxLength)
    decreases |list|
  {
    if list != [] {
      ReplayKeepsNewest(list[1..], maxLength);
      var texts := NonBlankContents(list[1..]);
      var all := ClippingsOf(texts);
      var prev := Replay(list[1..], [], maxLength);
      assert prev == FirstItems(all, maxLength);
      assert Replay(list, [], maxLength) == LoadStep(prev, list[0], maxLength);
      if !IsBlank(list[0].contents) {
        var t := list[0].contents;
        assert NonBlankContents(list) == [t] + texts;
        MapCons(NewClipping, t, texts);
        PushToFirstItems(all, NewClipping(t), maxLength);
      } else {
        assert NonBlankContents(list) == texts;
      }
    }
  }

  /** Pushing onto the first `maxLength` elements keeps the first `maxLength` of the longer list. */
  lemma PushToFirstItems<T>(all: seq<T>, c: T, maxLength: int)
    requires maxLength >= 1
    ensures Push(FirstItems(all, maxLength), c, maxLength) == FirstItems([c] + all, maxLength)
  {
    var r := Push(FirstItems(all, maxLength), c, maxLength);
    var e := FirstItems([c] + all, maxLength);
    assert |r| == |e|;
    forall i | 0 <= i < |r| ensures r[i] == e[i] {
      if i > 0 {
        assert e[i] == all[i - 1];
      }
    }
  }

  /** When no entry is blank, the non-blank contents are all the contents. */
  lemma {:induction false} NonBlankContentsOfNonBlank(list: seq<JCListItem>)
    requires forall k :: 0 <= k < |list| ==> !IsBlank(list[k].contents)
    ensures NonBlankContents(list) == seq(|list|, k requires 0 <= k < |list| => list[k].contents)
    decreases |list|
  {
    if list != [] {
      NonBlankContentsOfNonBlank(list[1..]);
    }
  }

  /**
   * Save then load: the record written for a list of non-blank clippings
   * within capacity, replayed into an empty store, gives back the same list
   * in the same newest-first order.
   */
  lemma SaveLoadRoundTrip(clips: seq<Clipping>, maxLength: int)
    requires AllWellFormed(clips)
    requires forall k :: 0 <= k < |clips| ==> !IsBlank(clips[k].fullText)
    requires 1 <= maxLength && |clips| <= maxLength
    ensures Replay(Records(clips), [], maxLength) == clips
  {
    var list := Records(clips);
    NonBlankContentsOfNonBlank(list);
    ReplayKeepsNewest(list, maxLength);
    var loaded := ClippingsOf(NonBlankContents(list));
    forall k | 0 <= k < |clips| ensures loaded[k] == clips[k] {
      NewClippingOfFullText(clips[k]);
    }
  }

  // -------------------------------------------------------------- the cursor

  /** `ClippingStack.down`. Wraparound applies only when the setting is present and true. */
  function DownPosition(position: int, count: int, wraparound: Option<bool>): int {
    if position + 1 < count then position + 1
    else if wraparound == Some(true) then 0
    else position
  }

  /** `ClippingStack.up`. With wraparound on an empty list this gives -1. */
  function UpPosition(position: int, count: int, wraparound: Option<bool>): int {
    if position - 1 >= 0 then position - 1
    else if wraparound == Some(true) then count - 1
    else position
  }

  /** The cursor after `deleteAt(deleted)` removed an item, leaving `newCount` items. */
  function DeletePosition(position: int, newCount: int, deleted: int): int {
    if newCount == 0 then 0
    else if position > 0 && position >= deleted then position - 1
    else position
  }

  /**
   * The cursor after the pasteboard ingestion added a clipping, leaving
   * `newCount` items: back to the top when `bezelToTop` is 1 (also when unset),
   * otherwise one step down, stepping back once if that passed the end.
   */
  function IngestPosition(position: int, newCount: int, bezelToTop: Option<int>): int {
    if bezelToTop.GetOr(1) == 1 then 0
    else if position + 1 >= newCount then position
    else position + 1
  }

  predicate InRange(position: int, count: int) {
    0 <= position < count
  }

  /** `down` and `up` keep an in-range cursor in range, whatever the wraparound setting. */
  lemma StepsStayInRange(position: int, count: int, wraparound: Option<bool>)
    requires InRange(position, count)
    ensures InRange(DownPosition(position, count, wraparound), count)
    ensures InRange(UpPosition(position, count, wraparound), count)
  {
  }

  /** Without wraparound `down` holds at the last position and `up` at the first. */
  lemma StepsClampWithoutWraparound(count: int, wraparound: Option<bool>)
    requires count > 0 && wraparound != Some(true)
    ensures DownPosition(count - 1, count, wraparound) == count - 1
    ensures UpPosition(0, count, wraparound) == 0
  {
  }

  /** With wraparound, `up` undoes `down` and `down` undoes `up` on every in-range cursor. */
  lemma StepsInverseWithWraparound(position: int, count: int)
    requires InRange(position, count)
    ensures UpPosition(DownPosition(position, count, Some(true)), count, Some(true)) == position
    ensures DownPosition(UpPosition(position, count, Some(true)), count, Some(true)) == position
  {
  }

  /** `up` with wraparound on an empty stack leaves the cursor at -1. */
  lemma UpOnEmptyWraps(position: int)
    requires position <= 0
    ensures UpPosition(position, 0, Some(true)) == -1
  {
  }

  /** Pressing `down` k times. */
  function DownTimes(position: int, count: int, wraparound: Option<bool>, k: nat): int
    decreases k
  {
    if k == 0 then position else DownPosition(DownTimes(position, count, wraparound, k - 1), count, wraparound)
  }

  /** From an in-range cursor, k presses that stay before the end move k places. */
  lemma {:induction false} DownTimesAdvance(position: int, count: int, wraparound: Option<bool>, k: nat)
    requires 0 <= position && position + k < count
    ensures DownTimes(position, count, wraparound, k) == position + k
    decreases k
  {
    if k > 0 {
      DownTimesAdvance(position, count, wraparound, k - 1);
    }
  }

  /** k presses followed by j presses are k + j presses. */
  lemma {:induction false} DownTimesAdd(position: int, count: int, wraparound: Option<bool>, k: nat, j: nat)
    ensures DownTimes(DownTimes(position, count, wraparound, k), count, wraparound, j)
         == DownTimes(position, count, wraparound, k + j)
    decreases j
  {
    if j > 0 {
      DownTimesAdd(position, count, wraparound, k, j - 1);
    }
  }

  /**
   * With wraparound, `count` presses of `down` from any in-range cursor visit
   * every later position, wrap to the top, and come back where they started.
   */
  lemma DownCycles(position: int, count: int)
    requires InRange(position, count)
    ensures DownTimes(position, count, Some(true), count - 1 - position) == count - 1
    ensures DownTimes(position, count, Some(true), count - position) == 0
    ensures DownTimes(position, count, Some(true), count) == position
  {
    var w := Some(true);
    DownTimesAdvance(position, count, w, count - 1 - position);
    assert DownTimes(position, count, w, count - position) == DownPosition(count - 1, count, w);
    DownTimesAdvance(0, count, w, position);
    DownTimesAdd(position, count, w, count - position, position);
  }

  /**
   * `deleteAt` reindexing: from an in-range cursor the cursor stays in range
   * (or is 0 on an emptied stack), and when another item was deleted it
   * still selects the same clipping.
   */
  lemma DeleteKeepsSelection(clips: seq<Clipping>, position: int, deleted: int)
    requires InRange(position, |clips|) && 0 <= deleted < |clips|
    ensures var r := Removed(clips, deleted);
            var q := DeletePosition(position, |r|, deleted);
            && (r == [] ==> q == 0)
            && (r != [] ==> InRange(q, |r|))
            && (deleted != position ==> r[q] == clips[position])
  {
  }

  /** Deleting the selected item selects the one above it, or the new head when it was the head. */
  lemma DeleteSelectedMovesUp(clips: seq<Clipping>, position: int)
    requires InRange(position, |clips|) && |clips| > 1
    ensures var r := Removed(clips, position);
            var q := DeletePosition(position, |r|, position);
            r[q] == if position > 0 then clips[position - 1] else clips[1]
  {
  }

  /**
   * Without `bezelToTop`, the cursor after ingestion is in range exactly
   * when it was at most the new count beforehand minus one (and not below -1).
   */
  lemma IngestInRangeIff(position: int, newCount: int, bezelToTop: Option<int>)
    requires newCount >= 1 && bezelToTop.GetOr(1) != 1
    ensures InRange(IngestPosition(position, newCount, bezelToTop), newCount) <==> -1 <= position < newCount
  {
  }

  /**
   * Without `bezelToTop`, the cursor follows the clipping it selected as
   * the new clipping pushes it down, unless that clipping was evicted.
   */
  lemma IngestFollowsSelection(clips: seq<Clipping>, item: string, maxLength: int, position: int, bezelToTop: Option<int>)
    requires InRange(position, |clips|) && bezelToTop.GetOr(1) != 1
    requires position + 1 < |Added(clips, item, maxLength)|
    ensures var r := Added(clips, item, maxLength);
            r[IngestPosition(position, |r|, bezelToTop)] == clips[position]
  {
  }

  /** With `bezelToTop` 1, or unset, the cursor is on the new clipping. */
  lemma IngestToTopSelectsNew(clips: seq<Clipping>, item: string, maxLength: int, position: int, bezelToTop: Option<int>)
    requires maxLength >= 1 && (bezelToTop.None? || bezelToTop == Some(1))
    ensures var r := Added(clips, item, maxLength);
            r[IngestPosition(position, |r|, bezelToTop)] == NewClipping(item)
  {
  }
}
