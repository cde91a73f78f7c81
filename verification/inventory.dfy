/**
 * The inventory tracker of src/components/dashboard/inventory-card.tsx: the
 * two state updates of the card, as pure functions from the old state to the
 * new one. Quantities are `number`s and are modelled as reals.
 */
module Inventory {
  import opened Wrappers

  datatype Item = Item(name: string, quantity: real, capacity: real, unit: string)

  /** The card's React state: the list, the item whose editor is open, and the editor's value. */
  datatype CardState = CardState(inventory: seq<Item>, selected: Option<Item>, updateValue: real)

  const InitialInventory: seq<Item> := [Item("Urea", 25.0, 50.0, "kg"), Item("Seeds", 60.0, 100.0, "kg")]

  /** `Math.max(0, Math.min(capacity, v))`. */
  function Clamp(capacity: real, v: real): (q: real)
    ensures 0.0 <= q
    ensures capacity >= 0.0 ==> q <= capacity
    ensures 0.0 <= v <= capacity ==> q == v
    ensures v < 0.0 ==> q == 0.0
    ensures 0.0 <= capacity < v ==> q == capacity
  {
    var m := if capacity < v then capacity else v;
    if 0.0 < m then m else 0.0
  }

  /** Every item named `name` gets quantity `Clamp(capacity, f(item))`; the rest stay as they are. */
  predicate UpdatedBy(before: seq<Item>, after: seq<Item>, name: string, target: seq<real>)
    requires |target| == |before|
  {
    && |after| == |before|
    && forall i :: 0 <= i < |before| ==>
         after[i] == if before[i].name == name
           then before[i].(quantity := Clamp(before[i].capacity, target[i]))
           else before[i]
  }

  /** `handleUpdate(itemName, amount)`: the +/- buttons pass an amount of 5 or -5. */
  function HandleUpdate(inventory: seq<Item>, itemName: string, amount: real): (r: seq<Item>)
    ensures UpdatedBy(inventory, r, itemName, seq(|inventory|, i requires 0 <= i < |inventory| => inventory[i].quantity + amount))
  {
    seq(|inventory|, i requires 0 <= i < |inventory| =>
      if inventory[i].name == itemName
      then inventory[i].(quantity := Clamp(inventory[i].capacity, inventory[i].quantity + amount))
      else inventory[i])
  }

  /** The "Set" button: open the editor on `item`, preloaded with its quantity. */
  function OpenEditor(st: CardState, item: Item): (r: CardState)
    ensures r.inventory == st.inventory && r.selected == Some(item) && r.updateValue == item.quantity
  {
    CardState(st.inventory, Some(item), item.quantity)
  }

  /** `handleModalUpdate`: save the editor's value into the selected item, then close the editor. */
  function HandleModalUpdate(st: CardState): (r: CardState)
    ensures r.selected == None && r.updateValue == 0.0
    ensures st.selected.None? ==> r.inventory == st.inventory
    ensures st.selected.Some? ==> UpdatedBy(st.inventory, r.inventory, st.selected.value.name,
      seq(|st.inventory|, i requires 0 <= i < |st.inventory| => st.updateValue))
  {
    var inventory :=
      if st.selected.Some? then
        var name := st.selected.value.name;
        seq(|st.inventory|, i requires 0 <= i < |st.inventory| =>
          if st.inventory[i].name == name
          then st.inventory[i].(quantity := Clamp(st.inventory[i].capacity, st.updateValue))
          else st.inventory[i])
      else st.inventory;
    CardState(inventory, None, 0.0)
  }

  /** An item holds between nothing and its capacity. */
  predicate InRange(it: Item)
  {
    0.0 <= it.quantity <= it.capacity
  }

  /** Both updates keep every item within its capacity, and create items already in range. */
  lemma UpdatesKeepQuantitiesInRange(inventory: seq<Item>, itemName: string, amount: real, st: CardState)
    requires forall i :: 0 <= i < |inventory| ==> InRange(inventory[i])
    requires forall i :: 0 <= i < |st.inventory| ==> InRange(st.inventory[i])
    ensures forall i :: 0 <= i < |inventory| ==> InRange(HandleUpdate(inventory, itemName, amount)[i])
    ensures forall i :: 0 <= i < |st.inventory| ==> InRange(HandleModalUpdate(st).inventory[i])
  {
  }

  /** Adding and then removing the same amount restores an item that had room for it. */
  lemma UpdateUndo(inventory: seq<Item>, itemName: string, amount: real)
    requires forall i :: 0 <= i < |inventory| && inventory[i].name == itemName ==>
      InRange(inventory[i]) && 0.0 <= inventory[i].quantity + amount <= inventory[i].capacity
    ensures HandleUpdate(HandleUpdate(inventory, itemName, amount), itemName, -amount) == inventory
  {
    var once := HandleUpdate(inventory, itemName, amount);
    var twice := HandleUpdate(once, itemName, -amount);
    forall i | 0 <= i < |inventory| ensures twice[i] == inventory[i] {
      if inventory[i].name == itemName {
        assert once[i].quantity == inventory[i].quantity + amount;
        assert once[i].quantity + -amount == inventory[i].quantity;
      }
    }
  }

  /** Opening the editor on a listed in-range item and saving without edits changes nothing. */
  lemma SaveUneditedIsNoOp(st: CardState, k: nat)
    requires k < |st.inventory| && InRange(st.inventory[k])
    requires forall i :: 0 <= i < |st.inventory| && st.inventory[i].name == st.inventory[k].name ==> i == k
    ensures HandleModalUpdate(OpenEditor(st, st.inventory[k])).inventory == st.inventory
  {
    var r := HandleModalUpdate(OpenEditor(st, st.inventory[k])).inventory;
    forall i | 0 <= i < |st.inventory| ensures r[i] == st.inventory[i] {
    }
  }

  /** Saving the same value twice is the same as saving it once. */
  lemma ModalUpdateIdempotent(st: CardState, item: Item, v: real)
    ensures var once := HandleModalUpdate(CardState(st.inventory, Some(item), v));
      HandleModalUpdate(CardState(once.inventory, Some(item), v)).inventory == once.inventory
  {
  }
}
