/**
 * The combo box itself: its item list, pending separator, the committed and
 * current ids, the label's text and editability, whether the popup is open,
 * and whether a change message is waiting to be delivered.
 *
 * The read-only queries are loops over the list, proved equal to the
 * functions of ItemStore and Selection; the mutators change the fields in
 * place and are proved to move them as those functions say.
 */
module ComboBoxes {
  import opened ItemStore
  import Selection
  import opened PopupMenus

  /** The keys keyPressed reacts to; every other key is OtherKey. */
  datatype Key = UpKey | LeftKey | DownKey | RightKey | ReturnKey | OtherKey
  {
    predicate IsArrow() { UpKey? || LeftKey? || DownKey? || RightKey? }
    predicate TowardsStart() { UpKey? || LeftKey? }
  }

  class ComboBox {
    var items: seq<ItemInfo>
    var separatorPending: bool
    var lastCurrentId: int
    var currentId: int
    /** The text of the box's label (what getText returns). */
    var labelText: string
    var editable: bool
    var menuActive: bool
    /** A change message has been scheduled and not yet delivered. */
    var updatePending: bool
    var noChoicesMessage: string

    /** The item list is well formed, and a separator is only pending behind an entry. */
    ghost predicate Valid()
      reads this`items, this`separatorPending
    {
      WellFormed(items) && (separatorPending ==> items != [])
    }

    /** The selection fields as one value. */
    function Snapshot(): Selection.SelectionState
      reads this`lastCurrentId, this`currentId, this`labelText, this`updatePending
    {
      Selection.SelectionState(lastCurrentId, currentId, labelText, updatePending)
    }

    constructor ()
      ensures Valid()
      ensures items == [] && !separatorPending && !editable && !menuActive
      ensures Snapshot() == Selection.SelectionState(0, 0, "", false)
      ensures noChoicesMessage == "(no choices)"
    {
      items := [];
      separatorPending := false;
      lastCurrentId, currentId := 0, 0;
      labelText := "";
      editable := false;
      menuActive := false;
      updatePending := false;
      noChoicesMessage := "(no choices)";
    }

    // ---------------------------------------------------------------- item store

    method AddItem(newItemText: string, newItemId: int)
      requires Valid()
      modifies this`items, this`separatorPending
      ensures Valid()
      ensures newItemText == "" || newItemId == 0 ==>
        items == old(items) && separatorPending == old(separatorPending)
      ensures newItemText != "" && newItemId != 0 ==>
        && items == old(items) + (if old(separatorPending) then [SeparatorEntry] else [])
                               + [ItemInfo(newItemText, newItemId, true, false)]
        && !separatorPending
        && NumItems(items) == NumItems(old(items)) + 1
    {
      // Empty text, id 0 and an id already in use are caller errors; only the
      // first two are also refused here.
      if newItemText != "" && newItemId != 0 {
        if separatorPending {
          separatorPending := false;
          NumItemsAppend(items, SeparatorEntry);
          items := items + [SeparatorEntry];
        }
        NumItemsAppend(items, ItemInfo(newItemText, newItemId, true, false));
        items := items + [ItemInfo(newItemText, newItemId, true, false)];
      }
    }

    method AddSeparator()
      requires Valid()
      modifies this`separatorPending
      ensures Valid()
      ensures separatorPending == (items != [])
    {
      separatorPending := |items| > 0;
    }

    method AddSectionHeading(headingName: string)
      requires Valid()
      modifies this`items, this`separatorPending
      ensures Valid()
      ensures headingName == "" ==> items == old(items) && separatorPending == old(separatorPending)
      ensures headingName != "" ==>
        && items == old(items) + (if old(separatorPending) then [SeparatorEntry] else [])
                               + [ItemInfo(headingName, 0, true, true)]
        && !separatorPending
        && NumItems(items) == NumItems(old(items))
    {
      if headingName != "" {
        if separatorPending {
          separatorPending := false;
          NumItemsAppend(items, SeparatorEntry);
          items := items + [SeparatorEntry];
        }
        NumItemsAppend(items, ItemInfo(headingName, 0, true, true));
        items := items + [ItemInfo(headingName, 0, true, true)];
      }
    }

    method SetItemEnabled(itemId: int, shouldBeEnabled: bool)
      requires Valid()
      modifies this`items
      ensures Valid()
      ensures items == WithEnabled(old(items), itemId, shouldBeEnabled)
    {
      var i := GetItemForId(itemId);
      if i >= 0 {
        items := items[i := items[i].(isEnabled := shouldBeEnabled)];
      }
    }

    method ChangeItemText(itemId: int, newText: string)
      requires Valid()
      modifies this`items
      ensures Valid()
      ensures items == Renamed(old(items), itemId, newText)
    {
      var i := GetItemForId(itemId);
      // An unknown id is a caller error; the call then does nothing.
      if i >= 0 {
        items := items[i := items[i].(name := newText)];
      }
    }

    method Clear(dontSendChangeMessage: bool)
      requires Valid()
      modifies this`items, this`separatorPending, this`lastCurrentId, this`currentId, this`labelText, this`updatePending
      ensures Valid()
      ensures items == [] && !separatorPending
      ensures editable ==> Snapshot() == old(Snapshot())
      ensures !editable ==> Snapshot() == Selection.SetSelectedItemIndex([], old(Snapshot()), -1, dontSendChangeMessage)
      ensures !editable ==> labelText == "" && lastCurrentId == 0 && Selection.SelectedId(items, Snapshot()) == 0
    {
      items := [];
      separatorPending := false;
      if !editable {
        SetSelectedItemIndex(-1, dontSendChangeMessage);
      }
    }

    // ---------------------------------------------------------------- lookups

    /** The position of the entry carrying `itemId` (the last one), or -1 (a null item). */
    method GetItemForId(itemId: int) returns (i: int)
      ensures i == FindId(items, itemId)
    {
      if itemId != 0 {
        i := |items|;
        while i > 0
          invariant 0 <= i <= |items|
          invariant forall j :: i <= j < |items| ==> items[j].itemId != itemId
        {
          i := i - 1;
          if items[i].itemId == itemId {
            return;
          }
        }
      }
      i := -1;
    }

    method GetItemForIndex(index: int) returns (item: Option<ItemInfo>)
      ensures item == ItemForIndex(items, index)
    {
      var n := 0;
      var i := 0;
      while i < |items|
        invariant 0 <= i <= |items|
        invariant n == NumItems(items[..i])
        invariant index < 0 || n <= index
      {
        NumItemsAppend(items[..i], items[i]);
        assert items[..i + 1] == items[..i] + [items[i]];
        if items[i].IsRealItem() {
          if n == index {
            ItemForIndexScanHit(items, i, index);
            return Some(items[i]);
          }
          n := n + 1;
        }
        i := i + 1;
      }
      assert items[..i] == items;
      return None;
    }

    method GetNumItems() returns (n: int)
      ensures n == NumItems(items)
    {
      n := 0;
      var i := |items|;
      while i > 0
        invariant 0 <= i <= |items|
        invariant n == NumItems(items[i..])
      {
        i := i - 1;
        assert items[i..] == [items[i]] + items[i + 1..];
        RealItemsConcat([items[i]], items[i + 1..]);
        RealItemsAppend([], items[i]);
        assert [] + [items[i]] == [items[i]];
        if items[i].IsRealItem() {
          n := n + 1;
        }
      }
      assert items[0..] == items;
    }

    method GetItemText(index: int) returns (text: string)
      ensures text == ItemText(items, index)
    {
      var item := GetItemForIndex(index);
      text := if item.Some? then item.value.name else "";
    }

    method GetItemId(index: int) returns (itemId: int)
      ensures itemId == ItemId(items, index)
    {
      var item := GetItemForIndex(index);
      itemId := if item.Some? then item.value.itemId else 0;
    }

    method IndexOfItemId(itemId: int) returns (index: int)
      ensures index == ItemStore.IndexOfItemId(items, itemId)
    {
      var n := 0;
      var i := 0;
      while i < |items|
        invariant 0 <= i <= |items|
        invariant n == NumItems(items[..i])
        invariant ItemStore.IndexOfItemId(items[..i], itemId) == -1
      {
        IndexOfItemIdScanStep(items, i, itemId);
        if items[i].IsRealItem() {
          if items[i].itemId == itemId {
            return n;
          }
          n := n + 1;
        }
        i := i + 1;
      }
      assert items[..i] == items;
      return -1;
    }

    // ---------------------------------------------------------------- selection

    method GetSelectedItemIndex() returns (index: int)
      ensures index == Selection.SelectedItemIndex(items, Snapshot())
    {
      index := IndexOfItemId(currentId);
      var text := GetItemText(index);
      if labelText != text {
        index := -1;
      }
    }

    method SetSelectedItemIndex(index: int, dontSendChangeMessage: bool)
      modifies this`lastCurrentId, this`currentId, this`labelText, this`updatePending
      ensures Snapshot() == Selection.SetSelectedItemIndex(items, old(Snapshot()), index, dontSendChangeMessage)
    {
      var itemId := GetItemId(index);
      SetSelectedId(itemId, dontSendChangeMessage);
    }

    method GetSelectedId() returns (itemId: int)
      ensures itemId == Selection.SelectedId(items, Snapshot())
    {
      var i := GetItemForId(currentId);
      itemId := if i >= 0 && labelText == items[i].name then items[i].itemId else 0;
    }

    method SetSelectedId(newItemId: int, dontSendChangeMessage: bool)
      modifies this`lastCurrentId, this`currentId, this`labelText, this`updatePending
      ensures Snapshot() == Selection.SetSelectedId(items, old(Snapshot()), newItemId, dontSendChangeMessage)
    {
      var i := GetItemForId(newItemId);
      var newItemText := if i >= 0 then items[i].name else "";
      if lastCurrentId != newItemId || labelText != newItemText {
        if !dontSendChangeMessage {
          updatePending := true;
        }
        labelText := newItemText;
        lastCurrentId := newItemId;
        currentId := newItemId;
      }
    }

    /** Called when the current-id value changes, possibly from outside the box. */
    method ValueChanged()
      modifies this`lastCurrentId, this`currentId, this`labelText, this`updatePending
      ensures Snapshot() == Selection.ValueChanged(items, old(Snapshot()))
    {
      if lastCurrentId != currentId {
        SetSelectedId(currentId, false);
      }
    }

    method SetText(newText: string, dontSendChangeMessage: bool)
      modifies this`lastCurrentId, this`currentId, this`labelText, this`updatePending
      ensures Snapshot() == Selection.SetText(items, old(Snapshot()), newText, dontSendChangeMessage)
    {
      var i := |items|;
      while i > 0
        invariant 0 <= i <= |items|
        invariant forall j :: i <= j < |items| ==> !(items[j].IsRealItem() && items[j].name == newText)
        invariant Snapshot() == old(Snapshot())
      {
        i := i - 1;
        if items[i].IsRealItem() && items[i].name == newText {
          SetSelectedId(items[i].itemId, dontSendChangeMessage);
          return;
        }
      }
      lastCurrentId := 0;
      currentId := 0;
      if labelText != newText {
        labelText := newText;
        if !dontSendChangeMessage {
          updatePending := true;
        }
      }
    }

    /** The label reports that the user edited its text. */
    method LabelTextChanged()
      modifies this`updatePending
      ensures updatePending
    {
      updatePending := true;
    }

    // ---------------------------------------------------------------- keys and popup

    method KeyPressed(key: Key) returns (used: bool, popup: Option<Popup>)
      modifies this`lastCurrentId, this`currentId, this`labelText, this`updatePending, this`menuActive
      ensures used <==> !key.OtherKey?
      ensures key.IsArrow() ==>
        && Snapshot() == Selection.SetSelectedItemIndex(items, old(Snapshot()),
             Selection.ArrowTarget(key.TowardsStart(), Selection.SelectedItemIndex(items, old(Snapshot())), NumItems(items)),
             false)
        && menuActive == old(menuActive) && popup == None
      ensures key.ReturnKey? ==> Snapshot() == old(Snapshot()) && menuActive
      ensures key.ReturnKey? ==> popup == (if old(menuActive) then None else Some(PopupFor(items, Snapshot(), noChoicesMessage)))
      ensures key.OtherKey? ==> Snapshot() == old(Snapshot()) && menuActive == old(menuActive) && popup == None
    {
      used := true;
      popup := None;
      if key.UpKey? || key.LeftKey? {
        var selected := GetSelectedItemIndex();
        var target := if 0 > selected - 1 then 0 else selected - 1;
        assert target == Selection.ArrowTarget(true, selected, NumItems(items));
        SetSelectedItemIndex(target, false);
      } else if key.DownKey? || key.RightKey? {
        var selected := GetSelectedItemIndex();
        var numItems := GetNumItems();
        var target := if selected + 1 < numItems - 1 then selected + 1 else numItems - 1;
        assert target == Selection.ArrowTarget(false, selected, numItems);
        SetSelectedItemIndex(target, false);
      } else if key.ReturnKey? {
        popup := ShowPopup();
      } else {
        used := false;
      }
    }

    method ShowPopup() returns (popup: Option<Popup>)
      modifies this`menuActive
      ensures menuActive
      ensures popup == if old(menuActive) then None else Some(PopupFor(items, Snapshot(), noChoicesMessage))
    {
      if menuActive {
        return None;
      }
      var selectedId := GetSelectedId();
      var entries: seq<MenuEntry> := [];
      var i := 0;
      while i < |items|
        invariant 0 <= i <= |items|
        invariant |entries| == i
        invariant forall k :: 0 <= k < i ==> entries[k] == EntryFor(items[k], selectedId)
      {
        var item := items[i];
        if item.IsSeparator() {
          entries := entries + [MenuSeparator];
        } else if item.isHeading {
          entries := entries + [SectionHeader(item.name)];
        } else {
          entries := entries + [MenuItem(item.itemId, item.name, item.isEnabled, item.itemId == selectedId)];
        }
        i := i + 1;
      }
      if |items| == 0 {
        entries := entries + [MenuItem(PlaceholderId, noChoicesMessage, false, false)];
      }
      assert entries == MenuEntries(items, selectedId, noChoicesMessage);
      menuActive := true;
      popup := Some(Popup(entries, selectedId));
    }

    /** The popup's completion callback: close, then apply a non-zero choice. */
    method ModalStateFinished(returnValue: int)
      modifies this`lastCurrentId, this`currentId, this`labelText, this`updatePending, this`menuActive
      ensures !menuActive
      ensures Snapshot() == if returnValue != 0 then Selection.SetSelectedId(items, old(Snapshot()), returnValue, false)
                            else old(Snapshot())
    {
      menuActive := false;
      if returnValue != 0 {
        SetSelectedId(returnValue, false);
      }
    }
  }

  /** The popup a closed box opens: its entries, anchored on the selected id. */
  function PopupFor(items: seq<ItemInfo>, s: Selection.SelectionState, noChoicesMessage: string): Popup
  {
    var selectedId := Selection.SelectedId(items, s);
    Popup(MenuEntries(items, selectedId, noChoicesMessage), selectedId)
  }
}
