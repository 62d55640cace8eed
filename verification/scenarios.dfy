/**
 * Clients that drive a combo box through short call sequences and check
 * what its own contracts let them conclude.
 */
module ComboBoxScenarios {
  import opened ItemStore
  import Selection
  import opened PopupMenus
  import opened ComboBoxes

  /** A box holding only (1, first). */
  method OneItemBox(first: string) returns (box: ComboBox)
    requires first != ""
    ensures fresh(box) && box.Valid() && !box.separatorPending
    ensures box.items == [ItemInfo(first, 1, true, false)]
    ensures NumItems(box.items) == 1
    ensures box.Snapshot() == Selection.SelectionState(0, 0, "", false)
    ensures !box.editable && !box.menuActive
  {
    box := new ComboBox();
    ghost var s0 := box.Snapshot();
    assert NumItems(box.items) == 0;
    box.AddItem(first, 1);
    assert box.Snapshot() == s0 && !box.editable && !box.menuActive;
  }

  /** A box holding (1, first) and (2, second) with a doubled separator requested between them. */
  method TwoItemBox(first: string, second: string) returns (box: ComboBox)
    requires first != "" && second != ""
    ensures fresh(box) && box.Valid()
    ensures box.items == [ItemInfo(first, 1, true, false), SeparatorEntry, ItemInfo(second, 2, true, false)]
    ensures NumItems(box.items) == 2
    ensures box.Snapshot() == Selection.SelectionState(0, 0, "", false)
    ensures !box.editable && !box.menuActive
  {
    box := OneItemBox(first);
    ghost var its, s0 := box.items, box.Snapshot();
    box.AddSeparator();
    box.AddSeparator();
    assert box.separatorPending && box.items == its;
    box.AddItem(second, 2);
    assert its + [SeparatorEntry] + [ItemInfo(second, 2, true, false)]
        == [ItemInfo(first, 1, true, false), SeparatorEntry, ItemInfo(second, 2, true, false)];
    assert box.Snapshot() == s0 && !box.editable && !box.menuActive;
  }

  /** Selecting by index reads back, and repeating the selection raises nothing. */
  method SelectByIndex()
  {
    var box := TwoItemBox("A", "B");
    ghost var its := box.items;
    assert UniqueIds(its);
    ghost var s0 := box.Snapshot();
    box.SetSelectedItemIndex(1, false);
    Selection.SetSelectedItemIndexRoundTrip(its, s0, 1, false);
    var index := box.GetSelectedItemIndex();
    assert index == 1;

    var selectedId := box.GetSelectedId();
    box.updatePending := false;   // the change message has been delivered
    box.SetSelectedId(selectedId, false);
    Selection.SetSelectedIdRepeatIsNoOp(its, s0, ItemId(its, 1), false, false, false);
    assert !box.updatePending;    // repeating the selection raises nothing
  }

  /** Free text selects a matching entry; other text selects nothing but stays in the label. */
  method TypedText()
  {
    var box := new ComboBox();
    ghost var s0 := box.Snapshot();
    box.AddItem("Foo", 7);
    ghost var its := box.items;
    assert its == [ItemInfo("Foo", 7, true, false)] && box.Snapshot() == s0;
    assert LastRealNamed(its, "Foo") == 0 && FindId(its, 7) == 0 && NameForId(its, 7) == "Foo";
    box.SetText("Foo", false);
    assert box.Snapshot() == Selection.SelectionState(7, 7, "Foo", true);
    var selectedId := box.GetSelectedId();
    assert selectedId == 7;

    assert LastRealNamed(its, "Bar") == -1;
    box.SetText("Bar", false);
    assert box.Snapshot() == Selection.SelectionState(0, 0, "Bar", true);
    selectedId := box.GetSelectedId();
    assert selectedId == 0;
  }

  /** Clearing a box that is not editable leaves no selection and an empty label. */
  method ClearDeselects()
  {
    var box := TwoItemBox("A", "B");
    box.SetSelectedItemIndex(0, false);
    box.Clear(false);
    var selectedId := box.GetSelectedId();
    assert selectedId == 0 && box.labelText == "";
  }

  /** An empty box pops up one disabled placeholder, and only once until the popup finishes. */
  method EmptyPopup()
  {
    var box := new ComboBox();
    var popup := box.ShowPopup();
    assert popup == Some(Popup([MenuItem(1, "(no choices)", false, false)], 0));
    popup := box.ShowPopup();
    assert popup == None;
    box.ModalStateFinished(0);
    assert !box.menuActive && box.Snapshot() == Selection.SelectionState(0, 0, "", false);
  }
}
