/**
 * The item store of a combo box: an ordered list of entries (plain items,
 * section headings and separators) and the lookups over it. Lookups by index
 * count only the "real" entries; lookups by id see every entry.
 */
module ItemStore {

  datatype Option<T> = None | Some(value: T)

  /** One stored entry. Separators have an empty name; headings and separators carry id 0. */
  datatype ItemInfo = ItemInfo(name: string, itemId: int, isEnabled: bool, isHeading: bool)
  {
    /** An entry with an empty name is drawn as a separator. */
    predicate IsSeparator() { name == "" }

    /** Selectable, counted and indexable: not a heading and not a separator. */
    predicate IsRealItem() { !(isHeading || name == "") }
  }

  /** The entry that a pending separator turns into. */
  const SeparatorEntry := ItemInfo("", 0, false, false)

  /**
   * The shape the mutators keep: every real entry has a non-zero id, and a
   * separator entry is never the first or the last entry and is never
   * followed by another one.
   */
  ghost predicate WellFormed(items: seq<ItemInfo>)
  {
    && (forall i :: 0 <= i < |items| && items[i].IsRealItem() ==> items[i].itemId != 0)
    && (forall i :: 0 <= i < |items| && items[i] == SeparatorEntry ==>
          0 < i < |items| - 1 && items[i + 1] != SeparatorEntry)
  }

  /** Non-zero ids occur at most once (the callers' duty; nothing checks it at run time). */
  ghost predicate UniqueIds(items: seq<ItemInfo>)
  {
    forall i, j :: 0 <= i < j < |items| && items[i].itemId != 0 ==> items[i].itemId != items[j].itemId
  }

  /** The real entries, in store order. */
  function RealItems(items: seq<ItemInfo>): (r: seq<ItemInfo>)
    ensures |r| <= |items|
    ensures forall e :: e in r <==> e in items && e.IsRealItem()
  {
    if items == [] then []
    else
      var init, last := items[..|items| - 1], items[|items| - 1];
      assert items == init + [last];
      if last.IsRealItem() then RealItems(init) + [last] else RealItems(init)
  }

  /** The number of real entries. */
  function NumItems(items: seq<ItemInfo>): nat
  {
    |RealItems(items)|
  }

  lemma RealItemsAppend(items: seq<ItemInfo>, e: ItemInfo)
    ensures RealItems(items + [e]) == RealItems(items) + (if e.IsRealItem() then [e] else [])
  {
    assert (items + [e])[..|items|] == items;
  }

  /** Filtering the real entries distributes over concatenation. */
  lemma {:induction false} RealItemsConcat(a: seq<ItemInfo>, b: seq<ItemInfo>)
    ensures RealItems(a + b) == RealItems(a) + RealItems(b)
  {
    if b == [] {
      assert a + b == a;
    } else {
      var init, last := b[..|b| - 1], b[|b| - 1];
      assert b == init + [last];
      assert a + b == (a + init) + [last];
      RealItemsConcat(a, init);
      RealItemsAppend(a + init, last);
      RealItemsAppend(init, last);
    }
  }

  /** Appending one entry adds one to the count exactly when that entry is real. */
  lemma NumItemsAppend(items: seq<ItemInfo>, e: ItemInfo)
    ensures NumItems(items + [e]) == NumItems(items) + (if e.IsRealItem() then 1 else 0)
  {
    RealItemsAppend(items, e);
  }

  /** The real entry at a display index, if the index is in range. */
  function ItemForIndex(items: seq<ItemInfo>, index: int): (r: Option<ItemInfo>)
    ensures r.Some? <==> 0 <= index < NumItems(items)
    ensures r.Some? ==> r.value in items && r.value.IsRealItem()
  {
    if 0 <= index < NumItems(items) then Some(RealItems(items)[index]) else None
  }

  /** The name shown at a display index; empty when the index is out of range. */
  function ItemText(items: seq<ItemInfo>, index: int): (r: string)
    ensures r == "" <==> !(0 <= index < NumItems(items))
  {
    match ItemForIndex(items, index)
    case Some(e) => e.name
    case None => ""
  }

  /** The id at a display index; 0 when the index is out of range. */
  function ItemId(items: seq<ItemInfo>, index: int): (r: int)
    ensures !(0 <= index < NumItems(items)) ==> r == 0
    ensures WellFormed(items) ==> (r != 0 <==> 0 <= index < NumItems(items))
  {
    match ItemForIndex(items, index)
    case Some(e) => e.itemId
    case None => 0
  }

  /**
   * The position of the last entry (of any kind) carrying a non-zero id, or -1;
   * id 0 is never found.
   */
  function FindId(items: seq<ItemInfo>, itemId: int): (r: int)
    ensures -1 <= r < |items|
    ensures r >= 0 ==> itemId != 0 && items[r].itemId == itemId
    ensures r >= 0 ==> forall j :: r < j < |items| ==> items[j].itemId != itemId
    ensures r == -1 ==> itemId == 0 || forall j :: 0 <= j < |items| ==> items[j].itemId != itemId
  {
    if itemId == 0 || items == [] then -1
    else if items[|items| - 1].itemId == itemId then |items| - 1
    else FindId(items[..|items| - 1], itemId)
  }

  /** The name of the entry carrying an id; empty when there is none. */
  function NameForId(items: seq<ItemInfo>, itemId: int): string
  {
    var i := FindId(items, itemId);
    if i >= 0 then items[i].name else ""
  }

  /** The display index of the first real entry carrying an id, or -1. */
  function IndexOfItemId(items: seq<ItemInfo>, itemId: int): (r: int)
    ensures -1 <= r < NumItems(items)
    ensures r >= 0 ==> RealItems(items)[r].itemId == itemId
    ensures r >= 0 ==> forall k :: 0 <= k < r ==> RealItems(items)[k].itemId != itemId
    ensures r == -1 ==> forall k :: 0 <= k < NumItems(items) ==> RealItems(items)[k].itemId != itemId
  {
    if items == [] then -1
    else
      var init, last := items[..|items| - 1], items[|items| - 1];
      RealItemsAppend(init, last);
      assert items == init + [last];
      var k := IndexOfItemId(init, itemId);
      if k >= 0 then k
      else if last.IsRealItem() && last.itemId == itemId then NumItems(init)
      else -1
  }

  /** Appending an entry: an earlier match stays, otherwise the new entry may be the match. */
  lemma IndexOfItemIdAppend(items: seq<ItemInfo>, e: ItemInfo, itemId: int)
    ensures IndexOfItemId(items + [e], itemId) ==
      if IndexOfItemId(items, itemId) >= 0 then IndexOfItemId(items, itemId)
      else if e.IsRealItem() && e.itemId == itemId then NumItems(items)
      else -1
  {
    assert (items + [e])[..|items|] == items;
  }

  /** A match in a prefix is the match in the whole store. */
  lemma IndexOfItemIdExtend(a: seq<ItemInfo>, b: seq<ItemInfo>, itemId: int)
    requires IndexOfItemId(a, itemId) >= 0
    ensures IndexOfItemId(a + b, itemId) == IndexOfItemId(a, itemId)
  {
    RealItemsConcat(a, b);
    var k, r := IndexOfItemId(a, itemId), IndexOfItemId(a + b, itemId);
    assert RealItems(a + b)[k] == RealItems(a)[k];
    assert r != -1;
  }

  /**
   * One step of the forward scan of indexOfItemId over items[..i]: either
   * entry i is the match, at display index NumItems(items[..i]), or the scan
   * goes on with no match so far.
   */
  lemma IndexOfItemIdScanStep(items: seq<ItemInfo>, i: int, itemId: int)
    requires 0 <= i < |items| && IndexOfItemId(items[..i], itemId) == -1
    ensures NumItems(items[..i + 1]) == NumItems(items[..i]) + (if items[i].IsRealItem() then 1 else 0)
    ensures items[i].IsRealItem() && items[i].itemId == itemId ==>
      IndexOfItemId(items, itemId) == NumItems(items[..i])
    ensures !(items[i].IsRealItem() && items[i].itemId == itemId) ==>
      IndexOfItemId(items[..i + 1], itemId) == -1
  {
    assert items[..i + 1] == items[..i] + [items[i]];
    NumItemsAppend(items[..i], items[i]);
    IndexOfItemIdAppend(items[..i], items[i], itemId);
    if items[i].IsRealItem() && items[i].itemId == itemId {
      IndexOfItemIdExtend(items[..i + 1], items[i + 1..], itemId);
      assert items == items[..i + 1] + items[i + 1..];
    }
  }

  /** The forward scan of getItemForIndex: the real entry met after `index` others is entry `index`. */
  lemma ItemForIndexScanHit(items: seq<ItemInfo>, i: int, index: int)
    requires 0 <= i < |items| && items[i].IsRealItem() && NumItems(items[..i]) == index
    ensures ItemForIndex(items, index) == Some(items[i])
  {
    var front, back := items[..i], items[i + 1..];
    assert items == front + [items[i]] + back;
    RealItemsConcat(front + [items[i]], back);
    RealItemsAppend(front, items[i]);
    var r := RealItems(items);
    assert r == RealItems(front) + [items[i]] + RealItems(back);
    assert r[index] == items[i];
  }

  /** The position of the last real entry named `text`, or -1 (the scan of setText). */
  function LastRealNamed(items: seq<ItemInfo>, text: string): (r: int)
    ensures -1 <= r < |items|
    ensures r >= 0 ==> items[r].IsRealItem() && items[r].name == text
    ensures r >= 0 ==> forall j :: r < j < |items| ==> !(items[j].IsRealItem() && items[j].name == text)
    ensures r == -1 ==> forall j :: 0 <= j < |items| ==> !(items[j].IsRealItem() && items[j].name == text)
  {
    if items == [] then -1
    else if items[|items| - 1].IsRealItem() && items[|items| - 1].name == text then |items| - 1
    else LastRealNamed(items[..|items| - 1], text)
  }

  /** setItemEnabled: the entry found by id takes the new flag; nothing else changes. */
  function WithEnabled(items: seq<ItemInfo>, itemId: int, shouldBeEnabled: bool): (r: seq<ItemInfo>)
    ensures |r| == |items|
    ensures forall i :: 0 <= i < |items| && i != FindId(items, itemId) ==> r[i] == items[i]
    ensures FindId(items, itemId) >= 0 ==>
      r[FindId(items, itemId)] == items[FindId(items, itemId)].(isEnabled := shouldBeEnabled)
    ensures WellFormed(items) ==> WellFormed(r)
    ensures NumItems(r) == NumItems(items)
  {
    var i := FindId(items, itemId);
    if i >= 0 then
      var r := items[i := items[i].(isEnabled := shouldBeEnabled)];
      SameShapeSameCount(items, r);
      r
    else items
  }

  /** changeItemText: the entry found by id takes the new name; nothing else changes. */
  function Renamed(items: seq<ItemInfo>, itemId: int, newText: string): (r: seq<ItemInfo>)
    ensures |r| == |items|
    ensures forall i :: 0 <= i < |items| ==> r[i].itemId == items[i].itemId
    ensures forall i :: 0 <= i < |items| && i != FindId(items, itemId) ==> r[i] == items[i]
    ensures FindId(items, itemId) >= 0 ==>
      r[FindId(items, itemId)] == items[FindId(items, itemId)].(name := newText)
    ensures WellFormed(items) ==> WellFormed(r)
  {
    var i := FindId(items, itemId);
    if i >= 0 then items[i := items[i].(name := newText)] else items
  }

  /** Two stores whose entries are real at the same positions count the same. */
  lemma {:induction false} SameShapeSameCount(a: seq<ItemInfo>, b: seq<ItemInfo>)
    requires |a| == |b|
    requires forall i :: 0 <= i < |a| ==> (a[i].IsRealItem() <==> b[i].IsRealItem())
    ensures NumItems(a) == NumItems(b)
  {
    if a != [] {
      var n := |a| - 1;
      assert a == a[..n] + [a[n]] && b == b[..n] + [b[n]];
      SameShapeSameCount(a[..n], b[..n]);
      NumItemsAppend(a[..n], a[n]);
      NumItemsAppend(b[..n], b[n]);
    }
  }

  /** Id lookups see through a change that leaves every id in place. */
  lemma FindIdSameIds(a: seq<ItemInfo>, b: seq<ItemInfo>, itemId: int)
    requires |a| == |b|
    requires forall i :: 0 <= i < |a| ==> a[i].itemId == b[i].itemId
    ensures FindId(a, itemId) == FindId(b, itemId)
  {
    var ra, rb := FindId(a, itemId), FindId(b, itemId);
    if ra >= 0 && rb >= 0 {
      assert !(ra < rb) && !(rb < ra);
    }
  }

  /**
   * For every id carried by a real entry, indexOfItemId lands inside
   * [0, getNumItems()) on an entry carrying that id.
   */
  lemma IndexOfItemIdRoundTrip(items: seq<ItemInfo>, itemId: int)
    requires exists i :: 0 <= i < |items| && items[i].IsRealItem() && items[i].itemId == itemId
    ensures 0 <= IndexOfItemId(items, itemId) < NumItems(items)
    ensures ItemId(items, IndexOfItemId(items, itemId)) == itemId
  {
    var i :| 0 <= i < |items| && items[i].IsRealItem() && items[i].itemId == itemId;
    assert items[i] in RealItems(items);
    var k :| 0 <= k < |RealItems(items)| && RealItems(items)[k] == items[i];
  }

  /** Uniqueness of ids carries over from the store to its real entries. */
  lemma {:induction false} RealItemsUniqueIds(items: seq<ItemInfo>)
    requires UniqueIds(items)
    ensures UniqueIds(RealItems(items))
  {
    if items != [] {
      var init, last := items[..|items| - 1], items[|items| - 1];
      assert items == init + [last];
      RealItemsUniqueIds(init);
      if last.IsRealItem() {
        var r := RealItems(init);
        forall k | 0 <= k < |r| && r[k].itemId != 0
          ensures r[k].itemId != last.itemId
        {
          assert r[k] in init;
          var p :| 0 <= p < |init| && init[p] == r[k];
          assert items[p] == r[k];
        }
      }
    }
  }

  /**
   * With unique ids, index and id are inverse: the id at a display index
   * leads back to that index.
   */
  lemma IndexIdRoundTrip(items: seq<ItemInfo>, index: int)
    requires WellFormed(items) && UniqueIds(items)
    requires 0 <= index < NumItems(items)
    ensures IndexOfItemId(items, ItemId(items, index)) == index
  {
    RealItemsUniqueIds(items);
    var r := RealItems(items);
    var x := ItemId(items, index);
    assert r[index] in items;
    assert x == r[index].itemId != 0;
    var k := IndexOfItemId(items, x);
    assert k >= 0;
  }

  /**
   * With unique ids, the entry found by id for the id at a display index is
   * that very entry.
   */
  lemma NameForItemAtIndex(items: seq<ItemInfo>, index: int)
    requires WellFormed(items) && UniqueIds(items)
    requires 0 <= index < NumItems(items)
    ensures NameForId(items, ItemId(items, index)) == ItemText(items, index)
  {
    var e := RealItems(items)[index];
    assert e in items;
    var p :| 0 <= p < |items| && items[p] == e;
    var f := FindId(items, e.itemId);
    assert f >= 0;
  }
}
