/**
 * The content of the popup list that showPopup hands to the menu: one entry
 * per stored entry, in store order, or a single disabled placeholder when
 * the store is empty.
 */
module PopupMenus {
  import opened ItemStore

  datatype MenuEntry =
    | MenuSeparator
    | SectionHeader(name: string)
    | MenuItem(itemId: int, text: string, isEnabled: bool, isTicked: bool)

  /** What is shown: the entries and the id the menu opens on. */
  datatype Popup = Popup(entries: seq<MenuEntry>, highlightedId: int)

  /** The id of the placeholder entry shown for an empty store. */
  const PlaceholderId := 1

  /** The menu entry for one stored entry; an item is ticked when it carries the selected id. */
  function EntryFor(e: ItemInfo, selectedId: int): (r: MenuEntry)
    ensures r.MenuSeparator? <==> e.IsSeparator()
    ensures r.MenuItem? <==> e.IsRealItem()
    ensures r.SectionHeader? ==> r.name == e.name && e.isHeading
    ensures r.MenuItem? ==> r.itemId == e.itemId && r.text == e.name && r.isEnabled == e.isEnabled
    ensures r.MenuItem? ==> (r.isTicked <==> e.itemId == selectedId)
  {
    if e.IsSeparator() then MenuSeparator
    else if e.isHeading then SectionHeader(e.name)
    else MenuItem(e.itemId, e.name, e.isEnabled, e.itemId == selectedId)
  }

  /** The entries of the popup for a store, the selected id and the no-choices text. */
  function MenuEntries(items: seq<ItemInfo>, selectedId: int, noChoicesMessage: string): (r: seq<MenuEntry>)
    ensures items == [] ==> r == [MenuItem(PlaceholderId, noChoicesMessage, false, false)]
    ensures items != [] ==> |r| == |items|
    ensures items != [] ==> forall i :: 0 <= i < |items| ==> r[i] == EntryFor(items[i], selectedId)
  {
    if items == [] then [MenuItem(PlaceholderId, noChoicesMessage, false, false)]
    else seq(|items|, i requires 0 <= i < |items| => EntryFor(items[i], selectedId))
  }

  /** The number of selectable item entries in a menu. */
  function CountMenuItems(entries: seq<MenuEntry>): nat
  {
    if entries == [] then 0
    else CountMenuItems(entries[..|entries| - 1]) + (if entries[|entries| - 1].MenuItem? then 1 else 0)
  }

  /** A non-empty store offers exactly getNumItems() item entries. */
  lemma {:induction false} MenuOffersEveryRealItem(items: seq<ItemInfo>, selectedId: int, noChoicesMessage: string)
    requires items != []
    ensures CountMenuItems(MenuEntries(items, selectedId, noChoicesMessage)) == NumItems(items)
  {
    var n := |items| - 1;
    var entries := MenuEntries(items, selectedId, noChoicesMessage);
    assert items == items[..n] + [items[n]];
    NumItemsAppend(items[..n], items[n]);
    if n > 0 {
      MenuOffersEveryRealItem(items[..n], selectedId, noChoicesMessage);
      assert entries[..n] == MenuEntries(items[..n], selectedId, noChoicesMessage);
    }
  }

  /**
   * With unique ids in a well-formed store at most one entry is ticked, and
   * none when the selected id is 0.
   */
  lemma AtMostOneTicked(items: seq<ItemInfo>, selectedId: int, noChoicesMessage: string, i: int, j: int)
    requires WellFormed(items) && UniqueIds(items)
    requires var r := MenuEntries(items, selectedId, noChoicesMessage);
      0 <= i < |r| && 0 <= j < |r| && r[i].MenuItem? && r[i].isTicked && r[j].MenuItem? && r[j].isTicked
    ensures i == j && selectedId != 0
  {
  }
}
