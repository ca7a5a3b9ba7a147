// The bank helpers: listing the bank and the inventory beside it, the
// withdraw/deposit menu option chosen for an amount, the quantity-mode
// varbit and the free-slot count.

module Bank {
  import opened Wrappers
  import opened Items

  /** Java's Integer.MAX_VALUE, the amount depositAll and withdrawAll ask for. */
  const IntMax: int := 2147483647

  /** The bank interface's widget group; the file's own literal widget
      addresses (main tab, capacity, settings) all use it. */
  const BankGroupId: int := 12

  /** The bank interface components the helpers click. */
  datatype Component =
    | RearrangeSwap | RearrangeInsert | WithdrawItem | WithdrawNote
    | QuantityButtons | QuantityOne | QuantityFive | QuantityTen
    | QuantityX | QuantityAll | PlaceholdersButton | Empty

  function GroupId(c: Component): int {
    if c == Empty then -1 else BankGroupId
  }

  function ChildId(c: Component): int {
    match c
    case RearrangeSwap => 16
    case RearrangeInsert => 18
    case WithdrawItem => 21
    case WithdrawNote => 23
    case QuantityButtons => 25
    case QuantityOne => 27
    case QuantityFive => 29
    case QuantityTen => 31
    case QuantityX => 33
    case QuantityAll => 35
    case PlaceholdersButton => 37
    case Empty => -1
  }

  /** What the helpers do to the interface, in order. */
  datatype UiAction =
    | Interact(item: Item, menuIndex: int)  // pick a menu entry of an item
    | EnterAmount(amount: int)              // type into the amount dialog
    | Click(component: Component, action: int)
    | AwaitWithdrawMode(noted: bool)        // poll until the varbit shows it

  // ---------------------------------------------------------------------
  // Listing a container

  /** An entry as the listing leaves it: its widget id computed from the
      entry as it was, then its slot set to its container index. */
  function Stamp(it: Item, i: int, widgetOf: Item -> int): Item {
    it.(widgetId := widgetOf(it), slot := i)
  }

  /** A container entry after a listing: stamped when usable, otherwise untouched. */
  function After(it: Item, i: int, widgetOf: Item -> int): Item {
    if Usable(it) then Stamp(it, i, widgetOf) else it
  }

  /** The container after a listing. */
  function Stamped(c: seq<Item>, widgetOf: Item -> int): (r: seq<Item>)
    ensures |r| == |c|
  {
    seq(|c|, i requires 0 <= i < |c| => After(c[i], i, widgetOf))
  }

  /** The usable entries of a container, stamped, in container order. */
  function Surfaced(c: seq<Item>, widgetOf: Item -> int): seq<Item>
    decreases |c|
  {
    if c == [] then []
    else
      var i := |c| - 1;
      Surfaced(c[..i], widgetOf) + (if Usable(c[i]) then [Stamp(c[i], i, widgetOf)] else [])
  }

  /** What a listing returns: nothing without a container, otherwise the
      surfaced entries the filter accepts. */
  function Listing(container: Option<seq<Item>>, widgetOf: Item -> int, filter: Item -> bool): seq<Item> {
    if container.None? then [] else Select(Surfaced(container.value, widgetOf), filter)
  }

  /** The surfaced entries are exactly the usable entries of the
      container after the listing has stamped it. */
  lemma {:induction false} SurfacedAreStampedUsable(c: seq<Item>, widgetOf: Item -> int)
    ensures Surfaced(c, widgetOf) == Select(Stamped(c, widgetOf), Usable)
    decreases |c|
  {
    if c != [] {
      var i := |c| - 1;
      SurfacedAreStampedUsable(c[..i], widgetOf);
      assert Stamped(c, widgetOf)[..i] == Stamped(c[..i], widgetOf);
    }
  }

  /** Every surfaced entry sits in the stamped container at its own slot,
      came from a usable entry, and slots increase along the listing. */
  lemma {:induction false} SurfacedAtTheirSlots(c: seq<Item>, widgetOf: Item -> int)
    ensures SlotsIncreasing(Surfaced(c, widgetOf))
    ensures forall x :: x in Surfaced(c, widgetOf) ==>
      0 <= x.slot < |c| && Usable(c[x.slot]) && x == Stamp(c[x.slot], x.slot, widgetOf)
    decreases |c|
  {
    if c != [] {
      var i := |c| - 1;
      var init := c[..i];
      SurfacedAtTheirSlots(init, widgetOf);
      var s := Surfaced(init, widgetOf);
      forall x | x in s
        ensures x.slot < i && Usable(c[x.slot]) && x == Stamp(c[x.slot], x.slot, widgetOf)
      {
        assert c[x.slot] == init[x.slot];
      }
    }
  }

  /** Every usable entry whose stamped form passes the filter is listed. */
  lemma {:induction false} SurfacedComplete(c: seq<Item>, widgetOf: Item -> int, i: int)
    requires 0 <= i < |c| && Usable(c[i])
    ensures Stamp(c[i], i, widgetOf) in Surfaced(c, widgetOf)
    decreases |c|
  {
    if i < |c| - 1 {
      var init := c[..|c| - 1];
      assert init[i] == c[i];
      SurfacedComplete(init, widgetOf, i);
    }
  }

  /** A listing is the in-order subsequence of the container's usable
      entries, each stamped with its index, that pass the filter. */
  lemma ListingIsOrderedSubsequence(c: seq<Item>, widgetOf: Item -> int, filter: Item -> bool)
    ensures SlotsIncreasing(Listing(Some(c), widgetOf, filter))
    ensures forall x :: x in Listing(Some(c), widgetOf, filter) ==>
      0 <= x.slot < |c| && Usable(c[x.slot]) && x == Stamp(c[x.slot], x.slot, widgetOf) && filter(x)
    ensures forall i :: 0 <= i < |c| && Usable(c[i]) && filter(Stamp(c[i], i, widgetOf)) ==>
      Stamp(c[i], i, widgetOf) in Listing(Some(c), widgetOf, filter)
  {
    SurfacedAtTheirSlots(c, widgetOf);
    SelectKeepsSlotOrder(Surfaced(c, widgetOf), filter);
    forall i | 0 <= i < |c| && Usable(c[i]) && filter(Stamp(c[i], i, widgetOf))
      ensures Stamp(c[i], i, widgetOf) in Listing(Some(c), widgetOf, filter)
    {
      SurfacedComplete(c, widgetOf, i);
    }
  }

  /** Filtering the full listing gives the filtered listing. */
  lemma FilterAfterGetAll(container: Option<seq<Item>>, widgetOf: Item -> int, filter: Item -> bool)
    ensures Select(Listing(container, widgetOf, x => true), filter) == Listing(container, widgetOf, filter)
  {
    if container.Some? {
      SelectEverything(Surfaced(container.value, widgetOf), x => true);
    }
  }

  /** The bank counts as empty exactly when no entry is usable. */
  lemma EmptyIffNothingUsable(c: seq<Item>, widgetOf: Item -> int)
    ensures Listing(Some(c), widgetOf, x => true) == [] <==> forall i :: 0 <= i < |c| ==> !Usable(c[i])
  {
    ListingIsOrderedSubsequence(c, widgetOf, x => true);
  }

  /** One more container entry adds at most its own stamped form to a listing. */
  lemma ListingStep(c: seq<Item>, i: int, widgetOf: Item -> int, filter: Item -> bool)
    requires 0 <= i < |c|
    ensures Select(Surfaced(c[..i + 1], widgetOf), filter) == Select(Surfaced(c[..i], widgetOf), filter)
      + (if Usable(c[i]) && filter(Stamp(c[i], i, widgetOf)) then [Stamp(c[i], i, widgetOf)] else [])
  {
    var step := if Usable(c[i]) then [Stamp(c[i], i, widgetOf)] else [];
    assert c[..i + 1][..i] == c[..i];
    SelectAppend(Surfaced(c[..i], widgetOf), step, filter);
    assert Select(step, filter) == if Usable(c[i]) && filter(Stamp(c[i], i, widgetOf)) then step else [] by {
      assert step == [] || step[..0] == [];
    }
  }

  /** Stamps one usable entry: its widget id first, from the entry as it
      was, then its slot. */
  method StampEntry(item: Item, i: int, widgetOf: Item -> int) returns (stamped: Item)
    ensures stamped == Stamp(item, i, widgetOf)
    ensures Usable(stamped) == Usable(item)
  {
    stamped := item.(widgetId := widgetOf(item));
    stamped := stamped.(slot := i);
  }

  /** Lists a container, stamping each usable entry in place. */
  method AllMatching(container: array?<Item>, widgetOf: Item -> int, filter: Item -> bool) returns (items: seq<Item>)
    modifies container
    ensures container == null ==> items == []
    ensures container != null ==> container[..] == Stamped(old(container[..]), widgetOf)
    ensures container != null ==> items == Listing(Some(old(container[..])), widgetOf, filter)
  {
    items := [];
    if container == null {
      return;
    }
    ghost var c := container[..];
    var i := 0;
    while i < container.Length
      invariant 0 <= i <= container.Length
      invariant forall k :: 0 <= k < i ==> container[k] == After(c[k], k, widgetOf)
      invariant forall k :: i <= k < container.Length ==> container[k] == c[k]
      invariant items == Select(Surfaced(c[..i], widgetOf), filter)
    {
      var item := container[i];
      assert item == c[i];
      ListingStep(c, i, widgetOf, filter);
      if Usable(item) {
        item := StampEntry(item, i, widgetOf);
        ghost var before := container[..];
        container[i] := item;
        assert forall k :: 0 <= k < container.Length && k != i ==> container[k] == before[k];
        if filter(item) {
          items := items + [item];
        }
      }
      i := i + 1;
    }
    assert c[..i] == c;
    assert container[..] == Stamped(c, widgetOf);
  }

  /** Lists the inventory shown beside the bank; the same scan as AllMatching. */
  method GetInventory(inventory: array?<Item>, widgetOf: Item -> int, filter: Item -> bool) returns (items: seq<Item>)
    modifies inventory
    ensures inventory == null ==> items == []
    ensures inventory != null ==> inventory[..] == Stamped(old(inventory[..]), widgetOf)
    ensures inventory != null ==> items == Listing(Some(old(inventory[..])), widgetOf, filter)
  {
    items := AllMatching(inventory, widgetOf, filter);
  }

  // ---------------------------------------------------------------------
  // Withdraw options

  /** The entries of an item's bank menu. */
  datatype WithdrawOption = One | Five | Ten | DefaultQuantity | X | All | AllBut1

  /** The option's entry in the withdraw menu. */
  function MenuIndex(o: WithdrawOption): int {
    match o
    case One => 1
    case Five => 3
    case Ten => 4
    case DefaultQuantity => 5
    case X => 6
    case All => 7
    case AllBut1 => 8
  }

  /** The option chosen for moving `amount` of a stack of `quantity`. The
      checks run in order: at most one, exactly five, exactly ten, more
      than the stack, anything else typed in. */
  function OfAmount(quantity: int, amount: int): (o: WithdrawOption)
    ensures o != DefaultQuantity && o != AllBut1
    ensures o == One <==> amount <= 1
    ensures o == Five <==> amount == 5
    ensures o == Ten <==> amount == 10
    ensures o == All <==> 1 < amount && amount != 5 && amount != 10 && quantity < amount
    ensures o == X <==> 1 < amount && amount != 5 && amount != 10 && amount <= quantity
  {
    if amount <= 1 then One
    else if amount == 5 then Five
    else if amount == 10 then Ten
    else if amount > quantity then All
    else X
  }

  function Min(a: int, b: int): int {
    if a <= b then a else b
  }

  /** How many of a stack of `quantity` an option moves when `typed` is
      entered for X: the option's own count, never more than the stack. */
  function Moved(o: WithdrawOption, quantity: int, typed: int): int {
    match o
    case One => Min(1, quantity)
    case Five => Min(5, quantity)
    case Ten => Min(10, quantity)
    case X => Min(typed, quantity)
    case All => quantity
    case DefaultQuantity => quantity
    case AllBut1 => quantity - 1
  }

  /** For any positive amount, the chosen option (with the amount typed
      in when it is X) moves the amount asked for, capped by the stack. */
  lemma OfAmountMovesAmount(quantity: int, amount: int)
    requires amount >= 1
    ensures Moved(OfAmount(quantity, amount), quantity, amount) == Min(amount, quantity)
  {
  }

  /** Asking for Integer.MAX_VALUE chooses All for every smaller stack. */
  lemma MaxAmountChoosesAll(quantity: int)
    ensures OfAmount(quantity, IntMax) == All <==> quantity < IntMax
  {
  }

  // ---------------------------------------------------------------------
  // Deposit and withdraw

  datatype WithdrawMode = Noted | ItemMode | Default

  /** The withdraw-mode varbit reads 1 when withdrawing notes. */
  predicate IsNotedWithdrawMode(varbit: int) {
    varbit == 1
  }

  /** Clicks the note or item toggle, if the widget exists. */
  function SetWithdrawMode(noted: bool, widgetPresent: bool): seq<UiAction> {
    if widgetPresent then [Click(if noted then WithdrawNote else WithdrawItem, 0)] else []
  }

  /** Switches the withdraw mode when the requested one differs from the
      varbit, then waits for the varbit to follow. */
  function SwitchMode(mode: WithdrawMode, varbit: int, widgetPresent: bool): (r: seq<UiAction>)
    ensures forall a :: a in r ==> a.Click? || a.AwaitWithdrawMode?
  {
    if mode == Noted && !IsNotedWithdrawMode(varbit) then
      SetWithdrawMode(true, widgetPresent) + [AwaitWithdrawMode(true)]
    else if mode == ItemMode && IsNotedWithdrawMode(varbit) then
      SetWithdrawMode(false, widgetPresent) + [AwaitWithdrawMode(false)]
    else []
  }

  /** The menu action on `item` for `amount`, one entry further down the
      menu when depositing, followed by the typed amount for X. */
  function Pick(item: Item, amount: int, deposit: bool): (r: seq<UiAction>)
    ensures r != [] && r[0] == Interact(item, MenuIndex(OfAmount(item.quantity, amount)) + (if deposit then 1 else 0))
    ensures forall a :: a in r[1..] ==> a == EnterAmount(amount)
    ensures forall a :: a in r && a.Interact? ==> a == r[0]
    ensures (exists a :: a in r && a.EnterAmount?) <==> OfAmount(item.quantity, amount) == X
  {
    var o := OfAmount(item.quantity, amount);
    var r := [Interact(item, MenuIndex(o) + (if deposit then 1 else 0))]
      + (if o == X then [EnterAmount(amount)] else []);
    assert o == X ==> r[1] in r;
    r
  }

  /** Deposits from the first inventory entry the filter accepts. */
  function DepositPlan(inventory: Option<seq<Item>>, widgetOf: Item -> int, filter: Item -> bool, amount: int): (r: seq<UiAction>)
    ensures r == [] <==> Listing(inventory, widgetOf, filter) == []
    ensures r != [] ==>
      r[0].Interact? && r[0].item == Listing(inventory, widgetOf, filter)[0]
      && r[0].menuIndex == MenuIndex(OfAmount(r[0].item.quantity, amount)) + 1
    ensures forall a :: a in r && a.EnterAmount? ==> a.amount == amount
    ensures (exists a :: a in r && a.EnterAmount?) <==> r != [] && OfAmount(r[0].item.quantity, amount) == X
  {
    var listed := Listing(inventory, widgetOf, filter);
    if listed == [] then [] else Pick(listed[0], amount, true)
  }

  /** Withdraws from the first bank entry that the filter accepts and
      that is not a placeholder. */
  function WithdrawPlan(bank: Option<seq<Item>>, widgetOf: Item -> int, filter: Item -> bool,
                        amount: int, mode: WithdrawMode, varbit: int, widgetPresent: bool): (r: seq<UiAction>)
    ensures r == [] <==> Listing(bank, widgetOf, x => filter(x) && !x.placeholder) == []
    ensures forall a :: a in r && a.Interact? ==>
      a.item == Listing(bank, widgetOf, x => filter(x) && !x.placeholder)[0]
      && !a.item.placeholder && filter(a.item) && a.menuIndex == MenuIndex(OfAmount(a.item.quantity, amount))
    ensures forall a :: a in r && a.EnterAmount? ==> a.amount == amount
    ensures r != [] ==>
      var listed := Listing(bank, widgetOf, x => filter(x) && !x.placeholder);
      && (exists k :: 0 <= k < |r| && r[k] == Interact(listed[0], MenuIndex(OfAmount(listed[0].quantity, amount))))
      && ((exists a :: a in r && a.EnterAmount?) <==> OfAmount(listed[0].quantity, amount) == X)
      && |SwitchMode(mode, varbit, widgetPresent)| < |r|
      && r[..|SwitchMode(mode, varbit, widgetPresent)|] == SwitchMode(mode, varbit, widgetPresent)
  {
    var listed := Listing(bank, widgetOf, x => filter(x) && !x.placeholder);
    if listed == [] then []
    else
      assert listed[0] in listed;
      var switch := SwitchMode(mode, varbit, widgetPresent);
      var pick := Pick(listed[0], amount, false);
      var r := switch + pick;
      assert r[|switch|] == pick[0];
      assert forall a :: a in r <==> a in switch || a in pick;
      r
  }

  /** Deposits from the inventory beside the bank. */
  method Deposit(inventory: array?<Item>, widgetOf: Item -> int, filter: Item -> bool, amount: int)
    returns (actions: seq<UiAction>)
    modifies inventory
    ensures inventory == null ==> actions == []
    ensures inventory != null ==> inventory[..] == Stamped(old(inventory[..]), widgetOf)
    ensures inventory != null ==> actions == DepositPlan(Some(old(inventory[..])), widgetOf, filter, amount)
  {
    var items := GetInventory(inventory, widgetOf, filter);
    actions := if items == [] then [] else Pick(items[0], amount, true);
  }

  /** Withdraws from the bank, skipping placeholders. */
  method Withdraw(bank: array?<Item>, widgetOf: Item -> int, filter: Item -> bool,
                  amount: int, mode: WithdrawMode, varbit: int, widgetPresent: bool)
    returns (actions: seq<UiAction>)
    modifies bank
    ensures bank == null ==> actions == []
    ensures bank != null ==> bank[..] == Stamped(old(bank[..]), widgetOf)
    ensures bank != null ==> actions == WithdrawPlan(Some(old(bank[..])), widgetOf, filter, amount, mode, varbit, widgetPresent)
  {
    var items := AllMatching(bank, widgetOf, x => filter(x) && !x.placeholder);
    actions := if items == [] then [] else SwitchMode(mode, varbit, widgetPresent) + Pick(items[0], amount, false);
  }

  /** The item withdrawn is the first entry of the filtered listing that
      is not a placeholder: the placeholder test is one more filter on top
      of the caller's. */
  lemma WithdrawSkipsPlaceholders(bank: Option<seq<Item>>, widgetOf: Item -> int, filter: Item -> bool)
    ensures Listing(bank, widgetOf, x => filter(x) && !x.placeholder)
      == Select(Listing(bank, widgetOf, filter), (x: Item) => !x.placeholder)
  {
    if bank.Some? {
      var s := Surfaced(bank.value, widgetOf);
      SelectTwice(s, filter, (x: Item) => !x.placeholder);
      SelectSameTest(s, x => filter(x) && !x.placeholder, x => filter(x) && ((y: Item) => !y.placeholder)(x));
    }
  }

  /** Depositing everything of a stack below Integer.MAX_VALUE picks the
      deposit-all entry and types nothing. */
  lemma DepositAllEntry(inventory: Option<seq<Item>>, widgetOf: Item -> int, filter: Item -> bool)
    requires Listing(inventory, widgetOf, filter) != []
    requires Listing(inventory, widgetOf, filter)[0].quantity < IntMax
    ensures DepositPlan(inventory, widgetOf, filter, IntMax)
      == [Interact(Listing(inventory, widgetOf, filter)[0], MenuIndex(All) + 1)]
  {
  }

  /** Withdrawing everything of a stack below Integer.MAX_VALUE ends with
      the withdraw-all entry and types nothing. */
  lemma WithdrawAllEntry(bank: Option<seq<Item>>, widgetOf: Item -> int, filter: Item -> bool,
                         mode: WithdrawMode, varbit: int, widgetPresent: bool)
    requires Listing(bank, widgetOf, x => filter(x) && !x.placeholder) != []
    requires Listing(bank, widgetOf, x => filter(x) && !x.placeholder)[0].quantity < IntMax
    ensures var r := WithdrawPlan(bank, widgetOf, filter, IntMax, mode, varbit, widgetPresent);
      r != [] && r[|r| - 1] == Interact(Listing(bank, widgetOf, x => filter(x) && !x.placeholder)[0], MenuIndex(All))
  {
  }

  /** No mode switch is ever needed for the default mode or a matching varbit. */
  lemma SwitchOnlyWhenDiffering(mode: WithdrawMode, varbit: int, widgetPresent: bool)
    ensures SwitchMode(mode, varbit, widgetPresent) == [] <==>
      mode == Default || (mode == Noted) == IsNotedWithdrawMode(varbit)
  {
  }

  // ---------------------------------------------------------------------
  // Quantity mode and free slots

  datatype QuantityMode = QuantityModeOne | QuantityModeFive | QuantityModeTen | QuantityModeX | QuantityModeAll | Unknown

  /** The varbit value that selects each mode, -1 for the unknown one. */
  function BitValue(m: QuantityMode): int {
    match m
    case QuantityModeOne => 0
    case QuantityModeFive => 1
    case QuantityModeTen => 2
    case QuantityModeX => 3
    case QuantityModeAll => 4
    case Unknown => -1
  }

  /** The button that selects each mode. */
  function ModeButton(m: QuantityMode): Component {
    match m
    case QuantityModeOne => QuantityOne
    case QuantityModeFive => QuantityFive
    case QuantityModeTen => QuantityTen
    case QuantityModeX => QuantityX
    case QuantityModeAll => QuantityAll
    case Unknown => Empty
  }

  /** The mode a varbit value shows. */
  function GetCurrent(varbit: int): (m: QuantityMode)
    ensures m != Unknown <==> 0 <= varbit <= 4
    ensures m != Unknown ==> BitValue(m) == varbit
  {
    match varbit
    case 0 => QuantityModeOne
    case 1 => QuantityModeFive
    case 2 => QuantityModeTen
    case 3 => QuantityModeX
    case 4 => QuantityModeAll
    case _ => Unknown
  }

  /** Every known mode reads back from its own varbit value. */
  lemma QuantityModeRoundTrip(m: QuantityMode)
    requires m != Unknown
    ensures GetCurrent(BitValue(m)) == m
  {
  }

  /** Clicks the mode's button when the current mode differs and the button shows. */
  function SetQuantityMode(varbit: int, m: QuantityMode, buttonVisible: bool): (r: seq<UiAction>)
    ensures r != [] ==> r == [Click(ModeButton(m), 0)] && GetCurrent(varbit) != m
    ensures r == [] ==> GetCurrent(varbit) == m || !buttonVisible
  {
    if GetCurrent(varbit) != m && buttonVisible then [Click(ModeButton(m), 0)] else []
  }

  /** Once the varbit shows the mode, setting it again does nothing. */
  lemma SetQuantityModeSettled(m: QuantityMode, buttonVisible: bool)
    requires m != Unknown
    ensures SetQuantityMode(BitValue(m), m, buttonVisible) == []
  {
    QuantityModeRoundTrip(m);
  }

  /** A number widget's value, -1 when the widget is not visible. */
  function WidgetNumber(w: Option<int>): int {
    if w.Some? then w.value else -1
  }

  /** Free bank slots: -1 while the bank is closed, otherwise the
      capacity widget's number less the occupied-count widget's. */
  function GetFreeSlots(open: bool, capacity: Option<int>, occupied: Option<int>): (r: int)
    ensures !open ==> r == -1
    ensures open && capacity.Some? && occupied.Some? ==> r + occupied.value == capacity.value
    ensures open && capacity.None? && occupied.Some? ==> r == -1 - occupied.value
  {
    if !open then -1 else WidgetNumber(capacity) - WidgetNumber(occupied)
  }
}
