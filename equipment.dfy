// The equipment helpers: listing worn items, each matched to the widget
// of the equipment slot it is worn in.

module Equipment {
  import opened Wrappers
  import opened Items

  /** One row of the client's equipment-slot table: the slot index an
      item reports and the packed id of that slot's widget. */
  datatype EquipmentSlot = EquipmentSlot(slotIdx: int, widgetId: int)

  /** The widget of the first table row whose index is `itemIndex`. */
  function WidgetFor(table: seq<EquipmentSlot>, itemIndex: int): (w: Option<int>)
    ensures w.None? <==> forall k :: 0 <= k < |table| ==> table[k].slotIdx != itemIndex
    ensures w.Some? ==>
      exists k :: 0 <= k < |table| && table[k].slotIdx == itemIndex
        && table[k].widgetId == w.value && forall j :: 0 <= j < k ==> table[j].slotIdx != itemIndex
  {
    if table == [] then None
    else if table[0].slotIdx == itemIndex then Some(table[0].widgetId)
    else
      var w := WidgetFor(table[1..], itemIndex);
      assert forall k :: 0 < k < |table| ==> table[k] == table[1..][k - 1];
      w
  }

  /** Searches the table in order and stops at the first matching row. */
  method GetEquipmentWidgetInfo(table: seq<EquipmentSlot>, itemIndex: int) returns (w: Option<int>)
    ensures w == WidgetFor(table, itemIndex)
  {
    var i := 0;
    while i < |table|
      invariant 0 <= i <= |table|
      invariant forall j :: 0 <= j < i ==> table[j].slotIdx != itemIndex
    {
      if table[i].slotIdx == itemIndex {
        return Some(table[i].widgetId);
      }
      i := i + 1;
    }
    return None;
  }

  /** An entry as the listing leaves it: action parameter cleared, slot
      set to its container index, and the widget id of the slot it
      reported before that, when the table has one. */
  function Stamp(it: Item, i: int, table: seq<EquipmentSlot>): Item {
    var w := WidgetFor(table, it.slot);
    it.(actionParam := -1, slot := i, widgetId := if w.Some? then w.value else it.widgetId)
  }

  /** A container entry after a listing: stamped when usable, otherwise untouched. */
  function After(it: Item, i: int, table: seq<EquipmentSlot>): Item {
    if Usable(it) then Stamp(it, i, table) else it
  }

  /** The container after a listing. */
  function Stamped(c: seq<Item>, table: seq<EquipmentSlot>): (r: seq<Item>)
    ensures |r| == |c|
  {
    seq(|c|, i requires 0 <= i < |c| => After(c[i], i, table))
  }

  /** Whether the listing keeps the entry at all: usable, and worn in a
      slot the table knows. */
  predicate Worn(it: Item, table: seq<EquipmentSlot>) {
    Usable(it) && WidgetFor(table, it.slot).Some?
  }

  /** The worn entries of a container, stamped, in container order. */
  function Equipped(c: seq<Item>, table: seq<EquipmentSlot>): seq<Item>
    decreases |c|
  {
    if c == [] then []
    else
      var i := |c| - 1;
      Equipped(c[..i], table) + (if Worn(c[i], table) then [Stamp(c[i], i, table)] else [])
  }

  /** What a listing returns: nothing without a container, otherwise the
      equipped entries the filter accepts. */
  function Listing(container: Option<seq<Item>>, table: seq<EquipmentSlot>, filter: Item -> bool): seq<Item> {
    if container.None? then [] else Select(Equipped(container.value, table), filter)
  }

  /** Every equipped entry is the stamped form of a worn container entry
      at its own slot, and slots increase along the listing. */
  lemma {:induction false} EquippedAtTheirSlots(c: seq<Item>, table: seq<EquipmentSlot>)
    ensures SlotsIncreasing(Equipped(c, table))
    ensures forall x :: x in Equipped(c, table) ==>
      0 <= x.slot < |c| && Worn(c[x.slot], table) && x == Stamp(c[x.slot], x.slot, table)
    decreases |c|
  {
    if c != [] {
      var i := |c| - 1;
      var init := c[..i];
      EquippedAtTheirSlots(init, table);
      forall x | x in Equipped(init, table)
        ensures x.slot < i && Worn(c[x.slot], table) && x == Stamp(c[x.slot], x.slot, table)
      {
        assert c[x.slot] == init[x.slot];
      }
    }
  }

  /** Every worn entry is equipped. */
  lemma {:induction false} EquippedComplete(c: seq<Item>, table: seq<EquipmentSlot>, i: int)
    requires 0 <= i < |c| && Worn(c[i], table)
    ensures Stamp(c[i], i, table) in Equipped(c, table)
    decreases |c|
  {
    if i < |c| - 1 {
      var init := c[..|c| - 1];
      assert init[i] == c[i];
      EquippedComplete(init, table, i);
    }
  }

  /** A listing is the in-order subsequence of the worn entries, each
      stamped, that pass the filter: an unusable entry, or one whose
      reported slot has no widget, is never listed, and every listed
      entry has its action parameter cleared and its index as slot. */
  lemma ListingIsOrderedSubsequence(c: seq<Item>, table: seq<EquipmentSlot>, filter: Item -> bool)
    ensures SlotsIncreasing(Listing(Some(c), table, filter))
    ensures forall x :: x in Listing(Some(c), table, filter) ==>
      0 <= x.slot < |c| && Worn(c[x.slot], table) && x == Stamp(c[x.slot], x.slot, table)
      && x.actionParam == -1 && filter(x)
    ensures forall i :: 0 <= i < |c| && Worn(c[i], table) && filter(Stamp(c[i], i, table)) ==>
      Stamp(c[i], i, table) in Listing(Some(c), table, filter)
    ensures forall x, i :: x in Listing(Some(c), table, filter) && 0 <= i < |c| && !Worn(c[i], table) ==> x.slot != i
  {
    EquippedAtTheirSlots(c, table);
    SelectKeepsSlotOrder(Equipped(c, table), filter);
    forall i | 0 <= i < |c| && Worn(c[i], table) && filter(Stamp(c[i], i, table))
      ensures Stamp(c[i], i, table) in Listing(Some(c), table, filter)
    {
      EquippedComplete(c, table, i);
    }
  }

  /** Filtering the full listing gives the filtered listing. */
  lemma FilterAfterGetAll(container: Option<seq<Item>>, table: seq<EquipmentSlot>, filter: Item -> bool)
    ensures Select(Listing(container, table, x => true), filter) == Listing(container, table, filter)
  {
    if container.Some? {
      SelectEverything(Equipped(container.value, table), x => true);
    }
  }

  /** One more container entry adds at most its own stamped form to a listing. */
  lemma ListingStep(c: seq<Item>, i: int, table: seq<EquipmentSlot>, filter: Item -> bool)
    requires 0 <= i < |c|
    ensures Select(Equipped(c[..i + 1], table), filter) == Select(Equipped(c[..i], table), filter)
      + (if Worn(c[i], table) && filter(Stamp(c[i], i, table)) then [Stamp(c[i], i, table)] else [])
  {
    var step := if Worn(c[i], table) then [Stamp(c[i], i, table)] else [];
    assert c[..i + 1][..i] == c[..i];
    SelectAppend(Equipped(c[..i], table), step, filter);
    assert Select(step, filter) == if Worn(c[i], table) && filter(Stamp(c[i], i, table)) then step else [] by {
      assert step == [] || step[..0] == [];
    }
  }

  /** Stamps one usable entry: looks up the widget of the slot it
      reports, then clears its action parameter and sets its slot; the
      widget id changes only when the table has that slot. */
  method StampEntry(item: Item, i: int, table: seq<EquipmentSlot>) returns (stamped: Item, worn: bool)
    ensures stamped == Stamp(item, i, table)
    ensures worn == WidgetFor(table, item.slot).Some?
  {
    var widget := GetEquipmentWidgetInfo(table, item.slot);
    stamped := item.(actionParam := -1);
    stamped := stamped.(slot := i);
    if widget.Some? {
      stamped := stamped.(widgetId := widget.value);
    }
    worn := widget.Some?;
  }

  /** Lists the worn items, stamping each usable entry in place. */
  method AllMatching(container: array?<Item>, table: seq<EquipmentSlot>, filter: Item -> bool) returns (items: seq<Item>)
    modifies container
    ensures container == null ==> items == []
    ensures container != null ==> container[..] == Stamped(old(container[..]), table)
    ensures container != null ==> items == Listing(Some(old(container[..])), table, filter)
  {
    items := [];
    if container == null {
      return;
    }
    ghost var c := container[..];
    var i := 0;
    while i < container.Length
      invariant 0 <= i <= container.Length
      invariant forall k :: 0 <= k < i ==> container[k] == After(c[k], k, table)
      invariant forall k :: i <= k < container.Length ==> container[k] == c[k]
      invariant items == Select(Equipped(c[..i], table), filter)
    {
      var item := container[i];
      assert item == c[i];
      ListingStep(c, i, table, filter);
      if Usable(item) {
        var worn;
        item, worn := StampEntry(item, i, table);
        ghost var before := container[..];
        container[i] := item;
        assert forall k :: 0 <= k < container.Length && k != i ==> container[k] == before[k];
        if worn && filter(item) {
          items := items + [item];
        }
      }
      i := i + 1;
    }
    assert c[..i] == c;
    assert container[..] == Stamped(c, table);
  }

  /** Lists every worn item. */
  method GetAll(container: array?<Item>, table: seq<EquipmentSlot>) returns (items: seq<Item>)
    modifies container
    ensures container == null ==> items == []
    ensures container != null ==> container[..] == Stamped(old(container[..]), table)
    ensures container != null ==> items == Equipped(old(container[..]), table)
  {
    items := AllMatching(container, table, x => true);
    if container != null {
      SelectEverything(Equipped(old(container[..]), table), x => true);
    }
  }
}
