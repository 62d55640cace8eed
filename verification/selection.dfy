/**
 * Selection reconciliation: the committed id, the current-id value, the
 * label's text and the "change message pending" flag, and how setSelectedId,
 * setText, setSelectedItemIndex and valueChanged move them. The selection a
 * caller reads is always derived again from the (id, text) pair.
 */
module Selection {
  import opened ItemStore

  /**
   * lastCurrentId is the id last applied to the label; currentId is the
   * observable current-id value, which code outside the box may also write;
   * updatePending stands for an asynchronous change message that is scheduled
   * and not yet delivered (scheduling it again does nothing).
   */
  datatype SelectionState = SelectionState(lastCurrentId: int, currentId: int, text: string, updatePending: bool)
  {
    /** No outside write to the current-id value is waiting for valueChanged. */
    predicate Settled() { lastCurrentId == currentId }
  }

  /** getSelectedId: the current id, but only while its entry exists and shows the label's text. */
  function SelectedId(items: seq<ItemInfo>, s: SelectionState): (r: int)
    ensures r != 0 ==> r == s.currentId && FindId(items, r) >= 0 && NameForId(items, r) == s.text
    ensures r == 0 ==> FindId(items, s.currentId) == -1 || NameForId(items, s.currentId) != s.text
  {
    var i := FindId(items, s.currentId);
    if i >= 0 && s.text == items[i].name then items[i].itemId else 0
  }

  /** getSelectedItemIndex: the display index of the current id, or -1 when the label shows other text. */
  function SelectedItemIndex(items: seq<ItemInfo>, s: SelectionState): (r: int)
    ensures -1 <= r < NumItems(items)
    ensures r >= 0 ==> ItemId(items, r) == s.currentId && ItemText(items, r) == s.text
    ensures r >= 0 ==> forall k :: 0 <= k < r ==> ItemId(items, k) != s.currentId
    ensures s.text != ItemText(items, IndexOfItemId(items, s.currentId)) ==> r == -1
    ensures forall k :: (0 <= k < NumItems(items) && ItemId(items, k) == s.currentId && ItemText(items, k) == s.text
                         && forall m :: 0 <= m < k ==> ItemId(items, m) != s.currentId) ==> r == k
  {
    var index := IndexOfItemId(items, s.currentId);
    if s.text != ItemText(items, index) then -1 else index
  }

  /**
   * setSelectedId: when the committed id or the label's text differ from the
   * target, commit the id, show its name (empty for an unknown id) and raise
   * the flag unless told not to; otherwise change nothing.
   */
  function SetSelectedId(items: seq<ItemInfo>, s: SelectionState, newItemId: int, dontSendChangeMessage: bool): (r: SelectionState)
    ensures r.lastCurrentId == newItemId && r.text == NameForId(items, newItemId)
    ensures r.currentId == newItemId || r == s
    ensures (s.lastCurrentId, s.text) == (r.lastCurrentId, r.text) ==> r == s
    ensures (s.lastCurrentId, s.text) != (r.lastCurrentId, r.text) ==> r.Settled()
    ensures (s.lastCurrentId, s.text) != (r.lastCurrentId, r.text) && !dontSendChangeMessage ==> r.updatePending
    ensures r.updatePending && !s.updatePending ==>
      !dontSendChangeMessage && (s.lastCurrentId, s.text) != (r.lastCurrentId, r.text)
    ensures s.updatePending ==> r.updatePending
    ensures s.Settled() ==> r.Settled()
    ensures s.Settled() ==> SelectedId(items, r) == (if FindId(items, newItemId) >= 0 then newItemId else 0)
  {
    var newItemText := NameForId(items, newItemId);
    if s.lastCurrentId != newItemId || s.text != newItemText then
      SelectionState(newItemId, newItemId, newItemText, s.updatePending || !dontSendChangeMessage)
    else
      s
  }

  /**
   * Calling setSelectedId again with the same id changes nothing and raises
   * no message, even when the first call's message was delivered in between.
   */
  lemma SetSelectedIdRepeatIsNoOp(items: seq<ItemInfo>, s: SelectionState, newItemId: int, first: bool, second: bool, pending: bool)
    ensures var r := SetSelectedId(items, s, newItemId, first).(updatePending := pending);
            SetSelectedId(items, r, newItemId, second) == r
  {
  }

  /** setSelectedItemIndex: select the id found at a display index (0 when out of range). */
  function SetSelectedItemIndex(items: seq<ItemInfo>, s: SelectionState, index: int, dontSendChangeMessage: bool): (r: SelectionState)
    ensures !(0 <= index < NumItems(items)) ==> r.text == "" && r.lastCurrentId == 0
    ensures !(0 <= index < NumItems(items)) && s.Settled() ==> SelectedId(items, r) == 0
  {
    SetSelectedId(items, s, ItemId(items, index), dontSendChangeMessage)
  }

  /**
   * With unique ids, selecting a display index makes getSelectedItemIndex
   * read it back and getSelectedId read the id found there.
   */
  lemma SetSelectedItemIndexRoundTrip(items: seq<ItemInfo>, s: SelectionState, index: int, dontSendChangeMessage: bool)
    requires WellFormed(items) && UniqueIds(items) && s.Settled()
    requires 0 <= index < NumItems(items)
    ensures SelectedItemIndex(items, SetSelectedItemIndex(items, s, index, dontSendChangeMessage)) == index
    ensures SelectedId(items, SetSelectedItemIndex(items, s, index, dontSendChangeMessage)) == ItemId(items, index)
  {
    var x := ItemId(items, index);
    IndexIdRoundTrip(items, index);
    NameForItemAtIndex(items, index);
    var r := SetSelectedItemIndex(items, s, index, dontSendChangeMessage);
    assert r.currentId == x && r.text == ItemText(items, index);
  }

  /**
   * setText: a real entry named `newText` (the last one in store order) is
   * selected through setSelectedId; otherwise the selection becomes none
   * while the label keeps the literal text.
   */
  function SetText(items: seq<ItemInfo>, s: SelectionState, newText: string, dontSendChangeMessage: bool): (r: SelectionState)
    ensures LastRealNamed(items, newText) == -1 ==>
      r.lastCurrentId == 0 && r.currentId == 0 && r.text == newText && SelectedId(items, r) == 0
    ensures LastRealNamed(items, newText) == -1 ==>
      (r.updatePending <==> s.updatePending || (!dontSendChangeMessage && s.text != newText))
    ensures LastRealNamed(items, newText) >= 0 && s.Settled() ==>
      SelectedId(items, r) == items[LastRealNamed(items, newText)].itemId
    ensures LastRealNamed(items, newText) >= 0 && WellFormed(items) && UniqueIds(items) ==> r.text == newText
    ensures var j := LastRealNamed(items, newText);
      j >= 0 ==> r == SetSelectedId(items, s, items[j].itemId, dontSendChangeMessage)
    ensures var j := LastRealNamed(items, newText);
      j >= 0 ==> r.lastCurrentId == items[j].itemId
                 && (r.updatePending <==> s.updatePending || (!dontSendChangeMessage && (s.lastCurrentId, s.text) != (r.lastCurrentId, r.text)))
    ensures s.Settled() ==> r.Settled()
  {
    var j := LastRealNamed(items, newText);
    if j >= 0 then
      SetSelectedId(items, s, items[j].itemId, dontSendChangeMessage)
    else if s.text != newText then
      SelectionState(0, 0, newText, s.updatePending || !dontSendChangeMessage)
    else
      SelectionState(0, 0, s.text, s.updatePending)
  }

  /**
   * valueChanged: an outside write to the current-id value goes through
   * setSelectedId; after setSelectedId or setText it finds nothing to do.
   */
  function ValueChanged(items: seq<ItemInfo>, s: SelectionState): (r: SelectionState)
    ensures r.Settled()
    ensures s.Settled() ==> r == s
    ensures !s.Settled() ==> r.updatePending
    ensures !s.Settled() ==> r.lastCurrentId == s.currentId && r.currentId == s.currentId && r.text == NameForId(items, s.currentId)
    ensures !s.Settled() ==> SelectedId(items, r) == (if FindId(items, s.currentId) >= 0 then s.currentId else 0)
  {
    if s.lastCurrentId != s.currentId then SetSelectedId(items, s, s.currentId, false) else s
  }

  /** Renaming the selected entry away from the label's text makes the selection read as none. */
  lemma RenamedSelectionReadsNone(items: seq<ItemInfo>, s: SelectionState, newText: string)
    requires SelectedId(items, s) != 0 && newText != s.text
    ensures SelectedId(Renamed(items, s.currentId, newText), s) == 0
  {
    FindIdSameIds(items, Renamed(items, s.currentId, newText), s.currentId);
  }

  /**
   * Arrow-key navigation: one step towards the start (never below 0) or
   * towards the end (never past the last item).
   */
  function ArrowTarget(towardsStart: bool, selected: int, numItems: int): (r: int)
    ensures -1 <= selected < numItems && numItems > 0 ==> 0 <= r < numItems
    ensures selected == -1 && numItems > 0 ==> r == 0
    ensures 0 <= selected < numItems && towardsStart ==> r == (if selected == 0 then 0 else selected - 1)
    ensures 0 <= selected < numItems && !towardsStart ==> r == (if selected == numItems - 1 then selected else selected + 1)
  {
    if towardsStart then
      if selected - 1 > 0 then selected - 1 else 0
    else
      if selected + 1 < numItems - 1 then selected + 1 else numItems - 1
  }

  /** An arrow key on a box with items selects the target index, which then reads back. */
  lemma ArrowKeySelects(items: seq<ItemInfo>, s: SelectionState, towardsStart: bool)
    requires WellFormed(items) && UniqueIds(items) && s.Settled()
    requires NumItems(items) > 0
    ensures var t := ArrowTarget(towardsStart, SelectedItemIndex(items, s), NumItems(items));
            0 <= t < NumItems(items)
            && SelectedItemIndex(items, SetSelectedItemIndex(items, s, t, false)) == t
  {
    var t := ArrowTarget(towardsStart, SelectedItemIndex(items, s), NumItems(items));
    SetSelectedItemIndexRoundTrip(items, s, t, false);
  }
}
