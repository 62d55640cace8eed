# ComboBox item list and selection, in Dafny

This project models the data side of JUCE's `ComboBox` widget
(`src/gui/components/controls/juce_ComboBox.cpp`). It covers three parts.

- **The item store.** This is the ordered list of entries: plain items, section headings and
  separators. A separator request is kept pending and only becomes an entry when the next item
  or heading is added.
- **The lookups.** By display index these count only the *real* entries (not a heading, non-empty
  name). By id they see every entry.
- **Selection reconciliation.** A committed id (`lastCurrentId`), the observable current-id value
  (`currentId`) and the label's text are kept consistent. The selection a caller reads is always
  derived again from the (id, text) pair. A change message is scheduled only on a real change.

The files:

- `item_store.dfy`, module `ItemStore`. It holds the `ItemInfo` entry and `IsSeparator`/`IsRealItem`
  (lines 190-198). It also holds the lookups as functions over `seq<ItemInfo>`, with the lemmas
  about them. `WellFormed` is the shape the mutators keep: real entries have non-zero ids, and a
  separator entry is never first, last or doubled. `UniqueIds` is the callers' duty, which the
  source checks only with a debug assertion.
- `selection.dfy`, module `Selection`. `SelectionState` is the value of
  (`lastCurrentId`, `currentId`, label text, pending-message flag). It holds the pure transitions of
  `setSelectedId`, `setSelectedItemIndex`, `setText` and `valueChanged`, and the derived
  `getSelectedId` and `getSelectedItemIndex`. It also holds the arrow-key target index.
- `popup_menu.dfy`, module `PopupMenus`. This is the list of menu entries `showPopup` builds.
- `combo_box.dfy`, module `ComboBoxes`. Class `ComboBox` has the source's state as fields. Its
  read-only queries are the source's counting loops, proved equal to the functions above. Its
  mutators update the fields in place and are proved to move them exactly as those functions say.
  `labelText` stands for the label's text, so `getText` is a read of that field. `updatePending`
  stands for `triggerAsyncUpdate()`; raising it again does nothing.
- `scenarios.dfy`, module `ComboBoxScenarios`. These are client methods that drive a box through
  short call sequences and check what the contracts let a caller conclude.

Two behaviours of the code worth knowing:

- `setText` scans from the end, so with two real entries of the same name the **last** one is
  selected.
- `getSelectedId` looks the current id up among **all** entries, not only real ones. So an item
  renamed to the empty string is drawn as a separator, yet `setSelectedId` on its id makes
  `getSelectedId` return that id while `getSelectedItemIndex` returns -1. `Selection.SelectedId`
  keeps this behaviour.

## Model

| member | source | states |
|---|---|---|
| ItemStore.RealItems | src/gui/components/controls/juce_ComboBox.cpp:195-198 | an entry is among the real entries exactly when it is stored, is not a heading and has a non-empty name; there are never more real entries than stored ones |
| ItemStore.RealItemsConcat | src/gui/components/controls/juce_ComboBox.cpp:229-238 | the real entries of two stretches of the store, in store order, are those of the first followed by those of the second |
| ItemStore.NumItemsAppend | src/gui/components/controls/juce_ComboBox.cpp:229-238 | appending an entry raises getNumItems by one exactly when it is a real entry; headings and separators never change the count |
| ItemStore.ItemForIndex | src/gui/components/controls/juce_ComboBox.cpp:213-227 | an item is found exactly for an index in [0, getNumItems()), and it is a real stored entry |
| ItemStore.ItemText | src/gui/components/controls/juce_ComboBox.cpp:240-248 | the text is empty exactly when the index is out of range (including -1) |
| ItemStore.ItemId | src/gui/components/controls/juce_ComboBox.cpp:250-255 | an out-of-range index gives id 0; in a well-formed store the id is non-zero exactly for an index in range |
| ItemStore.FindId | src/gui/components/controls/juce_ComboBox.cpp:201-211 | finds the last entry carrying a non-zero id, or nothing when no entry carries it; id 0 is never found |
| ItemStore.IndexOfItemId | src/gui/components/controls/juce_ComboBox.cpp:257-275 | the result is the first display index whose real entry carries the id, or -1 exactly when no real entry carries it |
| ItemStore.LastRealNamed | src/gui/components/controls/juce_ComboBox.cpp:332-342 | finds the last real entry with the given name, or -1 exactly when there is none |
| ItemStore.WithEnabled | src/gui/components/controls/juce_ComboBox.cpp:162-168 | only the entry found by id changes, and only its enabled flag; the count and the store's shape are kept |
| ItemStore.Renamed | src/gui/components/controls/juce_ComboBox.cpp:170-178 | only the entry found by id changes, and only its name; every id stays in place and the store's shape is kept |
| ItemStore.IndexOfItemIdRoundTrip | src/gui/components/controls/juce_ComboBox.cpp:250-275 | for an id carried by a real entry, indexOfItemId lies in [0, getNumItems()) and getItemId of it gives the id back |
| ItemStore.IndexIdRoundTrip | src/gui/components/controls/juce_ComboBox.cpp:250-275 | with unique ids, indexOfItemId(getItemId(i)) == i for every index in range |
| ItemStore.NameForItemAtIndex | src/gui/components/controls/juce_ComboBox.cpp:201-248 | with unique ids, the entry found by the id at an index shows that index's text |
| ItemStore.RealItemsUniqueIds | src/gui/components/controls/juce_ComboBox.cpp:97-106 | unique ids in the store stay unique among its real entries |
| Selection.SelectedId | src/gui/components/controls/juce_ComboBox.cpp:293-298 | non-zero only when it is the current id, an entry carries it and that entry's name equals the label's text; otherwise 0 |
| Selection.SelectedItemIndex | src/gui/components/controls/juce_ComboBox.cpp:278-286 | a non-negative result is the first index carrying the current id and showing the label's text; conversely, when the first index carrying the current id shows the label's text, that index is returned; a label text differing from the text at that index gives -1 |
| Selection.SetSelectedId | src/gui/components/controls/juce_ComboBox.cpp:300-316 | afterwards the committed id is the new id and the label shows its name (empty if absent); when neither differed nothing changes; a message is raised on a real change unless suppressed and never otherwise; from a settled state getSelectedId reads the id, or 0 if absent |
| Selection.SetSelectedIdRepeatIsNoOp | src/gui/components/controls/juce_ComboBox.cpp:300-316 | a repeated setSelectedId with the same id changes nothing and raises no message, even after the first message was delivered |
| Selection.SetSelectedItemIndex | src/gui/components/controls/juce_ComboBox.cpp:288-291 | an out-of-range index (including -1) clears the label and commits id 0, so the selection reads as none |
| Selection.SetSelectedItemIndexRoundTrip | src/gui/components/controls/juce_ComboBox.cpp:278-298 | with unique ids, selecting an index in range makes getSelectedItemIndex return it and getSelectedId return the id there |
| Selection.SetText | src/gui/components/controls/juce_ComboBox.cpp:330-356 | without a matching real entry both ids become 0, the label takes the literal text and a message is raised only if the text changed and messages are not suppressed; with one, the result is exactly setSelectedId of the last matching entry's id: that id is committed, a message is raised only on a real change of committed id or text and only when not suppressed, getSelectedId reads the id, and with unique ids the label shows the text |
| Selection.ValueChanged | src/gui/components/controls/juce_ComboBox.cpp:318-322 | an outside write to the current id goes through setSelectedId with a message: that id is committed, the label shows its name (empty for an id no entry carries) and the state is settled; in a settled state (after setSelectedId or setText) nothing happens |
| Selection.RenamedSelectionReadsNone | src/gui/components/controls/juce_ComboBox.cpp:293-298 | renaming the selected entry away from the label's text makes getSelectedId read 0 |
| Selection.ArrowTarget | src/gui/components/controls/juce_ComboBox.cpp:466-481 | the target stays in [0, getNumItems()); with nothing selected either direction gives 0; otherwise one step up (not below 0) or down (not past the last) |
| Selection.ArrowKeySelects | src/gui/components/controls/juce_ComboBox.cpp:466-481 | with unique ids, an arrow key on a non-empty box selects the target index, and getSelectedItemIndex reads it back |
| PopupMenus.EntryFor | src/gui/components/controls/juce_ComboBox.cpp:556-567 | separators, headings and items map to menu separators, section headers and items; an item is ticked exactly when its id is the selected id |
| PopupMenus.MenuEntries | src/gui/components/controls/juce_ComboBox.cpp:556-570 | one menu entry per stored entry in order, or, for an empty store, a single disabled placeholder with id 1 and the no-choices text |
| PopupMenus.MenuOffersEveryRealItem | src/gui/components/controls/juce_ComboBox.cpp:556-567 | a non-empty store's menu holds exactly getNumItems() item entries |
| PopupMenus.AtMostOneTicked | src/gui/components/controls/juce_ComboBox.cpp:565-566 | in a well-formed store with unique ids at most one entry is ticked, and none when the selected id is 0 |
| ComboBoxes.ComboBox.constructor | src/gui/components/controls/juce_ComboBox.cpp:37-45 | a new box is empty, not editable, closed, selects nothing and has the "(no choices)" text |
| ComboBoxes.ComboBox.AddItem | src/gui/components/controls/juce_ComboBox.cpp:97-128 | empty text or id 0 changes nothing; otherwise a pending separator entry, then one enabled real item, is appended, the separator is disarmed and getNumItems grows by exactly 1 |
| ComboBoxes.ComboBox.AddSeparator | src/gui/components/controls/juce_ComboBox.cpp:130-133 | a separator is pending exactly when the store is non-empty, so there is never a leading separator |
| ComboBoxes.ComboBox.AddSectionHeading | src/gui/components/controls/juce_ComboBox.cpp:135-160 | empty text changes nothing; otherwise a pending separator entry, then the heading, is appended and the count is unchanged |
| ComboBoxes.ComboBox.SetItemEnabled | src/gui/components/controls/juce_ComboBox.cpp:162-168 | the store becomes WithEnabled of the old store (unchanged for an unknown id) |
| ComboBoxes.ComboBox.ChangeItemText | src/gui/components/controls/juce_ComboBox.cpp:170-178 | the store becomes Renamed of the old store (unchanged for an unknown id) |
| ComboBoxes.ComboBox.Clear | src/gui/components/controls/juce_ComboBox.cpp:180-187 | the store is empty and no separator is pending; a non-editable box ends with an empty label, committed id 0 and getSelectedId 0; an editable one keeps its text |
| ComboBoxes.ComboBox.GetItemForId | src/gui/components/controls/juce_ComboBox.cpp:201-211 | the backward scan returns FindId's position |
| ComboBoxes.ComboBox.GetItemForIndex | src/gui/components/controls/juce_ComboBox.cpp:213-227 | the forward counting scan returns ItemForIndex |
| ComboBoxes.ComboBox.GetNumItems | src/gui/components/controls/juce_ComboBox.cpp:229-238 | the backward counting loop returns the number of real entries |
| ComboBoxes.ComboBox.GetItemText | src/gui/components/controls/juce_ComboBox.cpp:240-248 | returns ItemText |
| ComboBoxes.ComboBox.GetItemId | src/gui/components/controls/juce_ComboBox.cpp:250-255 | returns ItemId |
| ComboBoxes.ComboBox.IndexOfItemId | src/gui/components/controls/juce_ComboBox.cpp:257-275 | the forward counting scan returns IndexOfItemId |
| ComboBoxes.ComboBox.GetSelectedItemIndex | src/gui/components/controls/juce_ComboBox.cpp:278-286 | returns SelectedItemIndex of the current fields |
| ComboBoxes.ComboBox.SetSelectedItemIndex | src/gui/components/controls/juce_ComboBox.cpp:288-291 | the selection fields move as Selection.SetSelectedItemIndex says |
| ComboBoxes.ComboBox.GetSelectedId | src/gui/components/controls/juce_ComboBox.cpp:293-298 | returns SelectedId of the current fields |
| ComboBoxes.ComboBox.SetSelectedId | src/gui/components/controls/juce_ComboBox.cpp:300-316 | the selection fields move as Selection.SetSelectedId says |
| ComboBoxes.ComboBox.ValueChanged | src/gui/components/controls/juce_ComboBox.cpp:318-322 | the selection fields move as Selection.ValueChanged says |
| ComboBoxes.ComboBox.SetText | src/gui/components/controls/juce_ComboBox.cpp:330-356 | the backward scan plus the update move the selection fields as Selection.SetText says |
| ComboBoxes.ComboBox.LabelTextChanged | src/gui/components/controls/juce_ComboBox.cpp:513-516 | a user edit of the label raises the pending message |
| ComboBoxes.ComboBox.KeyPressed | src/gui/components/controls/juce_ComboBox.cpp:466-489 | up/left and down/right select ArrowTarget of the selected index; return opens the popup; the key is used exactly when it is one of these five; any other key changes nothing |
| ComboBoxes.ComboBox.ShowPopup | src/gui/components/controls/juce_ComboBox.cpp:547-576 | while open it does nothing and shows nothing; otherwise it opens and shows MenuEntries for the selected id, anchored on that id; the selection is untouched |
| ComboBoxes.ComboBox.ModalStateFinished | src/gui/components/controls/juce_ComboBox.cpp:528-537 | the popup is closed; a non-zero result goes through setSelectedId with a message, and 0 leaves the selection untouched |

## Left out

- Painting, layout, look-and-feel, colours, focus handling, mouse handling with drag auto-repeat,
  and `keyStateChanged`. These are graphics and input-device work.
- The label widget itself: editing, `showEditor`, tooltip and justification. Only its text
  (`labelText`) and an `editable` flag are kept. `setEditableText` is not modelled; `editable` is a
  plain field a caller sets.
- Listener registration and delivery (`addListener`, `removeListener`, `handleAsyncUpdate`).
  Only the pending flag `updatePending` is kept. A caller clears it to stand for a delivery.
- The real popup menu, its display (`showAt`), the modal component manager and the `SafePointer`
  liveness check. `ShowPopup` returns the entries it would show. `ModalStateFinished` is a method
  of the box that assumes the box is still alive.
- The current-id `Value` and its listener mechanism. Code outside the box writes `currentId`
  directly; `ValueChanged` is then called to stand for the value's listener callback.
- `setTextWhenNothingSelected`, `setTextWhenNoChoicesAvailable`, `TRANS` localisation, `repaint()`
  and the destructor. `noChoicesMessage` is a plain field, initialised to the untranslated
  "(no choices)".
- Debug assertions (`jassert`) are comments. The duplicate-id check is not enforced, as in a
  release build; lemmas that need distinct ids take `UniqueIds` as a hypothesis.
- Entries are values in a sequence rather than separately allocated objects. `setItemEnabled` and
  `changeItemText` update the entry at its position.
- Ids and indices are unbounded integers. The source's 32-bit `int` never wraps in these
  operations, which only compare ids and step indices by one.
- Selection.SetText: the label is stated to equal the typed text only under unique ids. With a
  duplicate id, `setSelectedId` shows the name of the last entry carrying that id.
- Selection.ArrowKeySelects, Selection.SetSelectedItemIndexRoundTrip: stated only under unique
  ids and a settled state (`lastCurrentId == currentId`). With duplicate ids, or while an outside
  write to the current id is waiting for `valueChanged`, the index need not read back.
