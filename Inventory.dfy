/*
 * MachineInventory (Utilities/MachineInventory.cs): a capacity-bounded item
 * list owned by a machine. It exposes the list-transfer algorithms as
 * methods on its own list, answers capacity queries, drains itself into the
 * world when the machine is deleted, and reads and writes a versioned save
 * format.
 *
 * Collaborators the inventory calls but does not define are parameters:
 * the item codec (ItemFile) is a pair of functions over a stream of
 * integer words standing for Int32 writes, the server flag (WorldScript.mbIsServer) is a boolean, and the
 * world's drop routine (ItemManager.DropItem) is recorded as a trace.
 */
module Inventory {
  import opened Items
  import opened ListTransfer

  /** The owning machine, reduced to what the inventory reads from it: its position. */
  datatype MachineEntity = MachineEntity(mnX: int, mnY: int, mnZ: int)

  /** One call of the world's drop routine. The random velocity it is given is not recorded. */
  datatype Drop = Drop(item: Item, x: int, y: int, z: int)

  /** The drops of a drain: every entry once, in list order, at the machine's position. */
  function DropTrace(items: seq<Item>, machine: MachineEntity): (r: seq<Drop>)
    ensures |r| == |items|
    ensures forall j :: 0 <= j < |items| ==> r[j] == Drop(items[j], machine.mnX, machine.mnY, machine.mnZ)
  {
    if items == [] then []
    else [Drop(items[0], machine.mnX, machine.mnY, machine.mnZ)] + DropTrace(items[1..], machine)
  }

  // ---------------------------------------------------------------------------
  // Filter policy
  // ---------------------------------------------------------------------------

  /**
   * An entry passes a whitelist when it matches (by Compare) some filter
   * entry, and passes a blacklist when it matches none.
   */
  predicate PassesFilter(filter: seq<Item>, isWhitelist: bool, item: Item)
  {
    (exists f :: f in filter && Compare(f, item)) == isWhitelist
  }

  function ListFilter(filter: seq<Item>, isWhitelist: bool): Item -> bool
  {
    (item: Item) => PassesFilter(filter, isWhitelist, item)
  }

  /** A filtered move over a list whose entries the filter all rejects changes nothing. */
  lemma FilteredMoveSkipsRejected(fromlist: seq<Item>, tolist: seq<Item>, amount: int, storageCapacity: int,
                                  takefirstitem: bool, filter: seq<Item>, isWhitelist: bool)
    requires forall j :: 0 <= j < |fromlist| ==> !PassesFilter(filter, isWhitelist, fromlist[j])
    ensures Moved(fromlist, tolist, amount, storageCapacity, takefirstitem, ListFilter(filter, isWhitelist))
      == MoveOutcome(fromlist, tolist, Finished)
  {
  }

  /** A whitelist and a blacklist built from the same entries split the items between them. */
  lemma WhiteAndBlackListComplement(filter: seq<Item>, item: Item)
    ensures ListFilter(filter, true)(item) != ListFilter(filter, false)(item)
  {
  }

  // ---------------------------------------------------------------------------
  // RemoveAnySingle
  // ---------------------------------------------------------------------------

  /**
   * RemoveAnySingle as a function: move into a fresh list capped at
   * `amount`, taking the first item only, and hand back the first entry of
   * that list (None when it stayed empty). Returns the new inventory list
   * and the handed-back item.
   */
  function RemovedAnySingle(inventory: seq<Item>, amount: int): (seq<Item>, Option<Item>)
  {
    var out := Moved(inventory, [], amount, amount, true, AllPass);
    (out.from, if |out.to| == 0 then None else Some(out.to[0]))
  }

  /**
   * An item comes back exactly when the request is positive and the first
   * entry is not a stack; it is a clone of that entry, which leaves the
   * inventory. A stack never arrives in the fresh list (it finds no partner
   * there), so for a stack the result is null although units leave the
   * inventory.
   */
  lemma RemovedAnySingleResult(inventory: seq<Item>, amount: int)
    ensures var (rest, r) := RemovedAnySingle(inventory, amount);
      (r.Some? <==> amount > 0 && inventory != [] && !IsStack(inventory[0])) &&
      (r.Some? ==> r.value == NewInstance(inventory[0]) && rest == inventory[1..]) &&
      (amount > 0 && inventory != [] && IsStack(inventory[0]) ==>
        GetItemCount(rest) == GetItemCount(inventory) - (if GetAmount(inventory[0]) < amount then GetAmount(inventory[0]) else amount))
  {
    if amount > 0 && inventory != [] {
      MovedAnyTakesFirstEntry(inventory, [], amount, amount, true);
      var i := inventory[0];
      if IsStack(i) {
        FirstStackPartnerIgnoresAmount([], SetAmount(NewInstance(i), amount), i);
        if GetAmount(i) > amount {
          GetItemCountUpdate(inventory, 0, DecrementStack(i, amount));
        } else {
          GetItemCountRemove(inventory, 0);
        }
      } else {
        AddedPlacement(NewInstance(i), [], IntMaxValue);
        assert RemoveAt(inventory, 0) == inventory[1..];
      }
    }
  }

  // ---------------------------------------------------------------------------
  // Save format
  // ---------------------------------------------------------------------------

  /** The only version of the save format. */
  const InventoryVersion: int := 0

  /** What the item codec reads from a stream: an item, or null for a corrupt slot, and the rest of the stream. */
  datatype Decoded = Decoded(item: Option<Item>, rest: seq<int>)

  /** The codec reads back exactly what it wrote for each of `items`, whatever follows in the stream. */
  ghost predicate RoundTripsOn(items: seq<Item>, encode: Item -> seq<int>, decode: seq<int> -> Option<Decoded>)
  {
    forall x: Item, rest: seq<int> :: x in items ==> decode(encode(x) + rest) == Some(Decoded(Some(x), rest))
  }

  /** A codec for item stacks: id and amount as two words. */
  function StackWords(x: Item): seq<int>
  {
    if x.Stack? then [x.itemId, x.amount] else []
  }

  function StackFromWords(words: seq<int>): Option<Decoded>
  {
    if |words| < 2 then None else Some(Decoded(Some(Stack(words[0], words[1])), words[2..]))
  }

  /** The round-trip hypothesis can be met: the two-word stack codec meets it on any list of item stacks. */
  lemma StackCodecRoundTrips(items: seq<Item>)
    requires forall j :: 0 <= j < |items| ==> items[j].Stack?
    ensures RoundTripsOn(items, StackWords, StackFromWords)
  {
    forall x: Item, rest: seq<int> | x in items
      ensures StackFromWords(StackWords(x) + rest) == Some(Decoded(Some(x), rest))
    {
      assert ([x.itemId, x.amount] + rest)[2..] == rest;
    }
  }

  /** The encodings of the items, concatenated in list order. */
  function EncodeAll(items: seq<Item>, encode: Item -> seq<int>): seq<int>
  {
    if items == [] then [] else encode(items[0]) + EncodeAll(items[1..], encode)
  }

  /** The words WriteInventory emits: version, entry count, entries. */
  function Serialised(items: seq<Item>, encode: Item -> seq<int>): seq<int>
  {
    [InventoryVersion, |items|] + EncodeAll(items, encode)
  }

  /**
   * How a read ends. `UnknownVersion` is the logged "version does not exist"
   * error; `EndOfStream` is the exception the reader throws when the stream
   * runs out.
   */
  datatype ReadStatus = Loaded | UnknownVersion | EndOfStream

  /** The items a read appends, how it ended and the unread rest of the stream. */
  datatype ReadOutcome = ReadOutcome(items: seq<Item>, status: ReadStatus, rest: seq<int>)

  /** Reads `count` item slots after the items `acc` already read; a null slot is skipped. */
  function ReadItems(stream: seq<int>, count: int, decode: seq<int> -> Option<Decoded>, acc: seq<Item>): ReadOutcome
    decreases if count < 0 then 0 else count
  {
    if count <= 0 then ReadOutcome(acc, Loaded, stream)
    else
      match decode(stream)
      case None => ReadOutcome(acc, EndOfStream, stream)
      case Some(d) => ReadItems(d.rest, count - 1, decode, acc + (if d.item.Some? then [d.item.value] else []))
  }

  /** ReadInventory as a function of the stream. */
  function Deserialised(stream: seq<int>, decode: seq<int> -> Option<Decoded>): ReadOutcome
  {
    if |stream| == 0 then ReadOutcome([], EndOfStream, stream)
    else if stream[0] != InventoryVersion then ReadOutcome([], UnknownVersion, stream[1..])
    else if |stream| == 1 then ReadOutcome([], EndOfStream, stream[1..])
    else ReadItems(stream[2..], stream[1], decode, [])
  }

  lemma {:induction false} EncodeAllAppend(items: seq<Item>, x: Item, encode: Item -> seq<int>)
    ensures EncodeAll(items + [x], encode) == EncodeAll(items, encode) + encode(x)
  {
    if items == [] {
      assert items + [x] == [x];
      assert [x][1..] == [];
    } else {
      assert (items + [x])[1..] == items[1..] + [x];
      EncodeAllAppend(items[1..], x, encode);
    }
  }

  /** Encoding distributes over concatenation. */
  lemma {:induction false} EncodeAllConcat(a: seq<Item>, b: seq<Item>, encode: Item -> seq<int>)
    ensures EncodeAll(a + b, encode) == EncodeAll(a, encode) + EncodeAll(b, encode)
    decreases |b|
  {
    if b == [] {
      assert a + b == a;
    } else {
      var front, x := b[..|b| - 1], b[|b| - 1];
      assert b == front + [x];
      assert a + b == (a + front) + [x];
      EncodeAllConcat(a, front, encode);
      EncodeAllAppend(a + front, x, encode);
      EncodeAllAppend(front, x, encode);
    }
  }

  /** A read only appends: what was read before stays in front, and at most one item per slot is added. */
  lemma {:induction false} ReadItemsAppends(stream: seq<int>, count: int, decode: seq<int> -> Option<Decoded>,
                                            acc: seq<Item>)
    ensures var out := ReadItems(stream, count, decode, acc);
      |acc| <= |out.items| <= |acc| + (if count < 0 then 0 else count) &&
      out.items[..|acc|] == acc &&
      out.status != UnknownVersion
    decreases if count < 0 then 0 else count
  {
    if count > 0 {
      match decode(stream)
      case None =>
      case Some(d) =>
        var acc' := acc + (if d.item.Some? then [d.item.value] else []);
        ReadItemsAppends(d.rest, count - 1, decode, acc');
        assert acc'[..|acc|] == acc;
    }
  }

  /** Reading the encodings of a list back gives the list, in order, and stops just after it. */
  lemma {:induction false} ReadItemsOfEncoded(items: seq<Item>, rest: seq<int>, acc: seq<Item>,
                                              encode: Item -> seq<int>, decode: seq<int> -> Option<Decoded>)
    requires RoundTripsOn(items, encode, decode)
    ensures ReadItems(EncodeAll(items, encode) + rest, |items|, decode, acc) == ReadOutcome(acc + items, Loaded, rest)
  {
    if items == [] {
      assert acc + items == acc;
    } else {
      var tail := EncodeAll(items[1..], encode) + rest;
      assert EncodeAll(items, encode) + rest == encode(items[0]) + tail;
      assert items[0] in items;
      assert decode(encode(items[0]) + tail) == Some(Decoded(Some(items[0]), tail));
      forall x: Item, r: seq<int> | x in items[1..]
        ensures decode(encode(x) + r) == Some(Decoded(Some(x), r))
      {
        assert x in items;
      }
      ReadItemsOfEncoded(items[1..], rest, acc + [items[0]], encode, decode);
      assert acc + [items[0]] + items[1..] == acc + items;
    }
  }

  /** With a round-tripping codec, reading what was written restores the list exactly. */
  lemma SerialisedRoundTrip(items: seq<Item>, rest: seq<int>, encode: Item -> seq<int>,
                            decode: seq<int> -> Option<Decoded>)
    requires RoundTripsOn(items, encode, decode)
    ensures Deserialised(Serialised(items, encode) + rest, decode) == ReadOutcome(items, Loaded, rest)
  {
    var stream := Serialised(items, encode) + rest;
    assert stream[2..] == EncodeAll(items, encode) + rest;
    ReadItemsOfEncoded(items, rest, [], encode, decode);
  }

  /** A stream of another version adds nothing. */
  lemma DeserialisedUnknownVersion(stream: seq<int>, decode: seq<int> -> Option<Decoded>)
    requires |stream| > 0 && stream[0] != InventoryVersion
    ensures Deserialised(stream, decode) == ReadOutcome([], UnknownVersion, stream[1..])
  {
  }

  /** A version-0 read adds at most one item per announced slot. */
  lemma DeserialisedBounded(stream: seq<int>, decode: seq<int> -> Option<Decoded>)
    requires |stream| >= 2 && stream[0] == InventoryVersion
    ensures |Deserialised(stream, decode).items| <= (if stream[1] < 0 then 0 else stream[1])
    ensures Deserialised(stream, decode).status != UnknownVersion
  {
    ReadItemsAppends(stream[2..], stream[1], decode, []);
  }

  // ---------------------------------------------------------------------------
  // The inventory
  // ---------------------------------------------------------------------------

  class MachineInventory {
    /** The owning machine. */
    var Machine: MachineEntity
    /** The total item capacity. */
    var StorageCapacity: int
    /** The items, in insertion order. */
    var Inventory: seq<Item>
    /** Set once DropOnDelete has discarded the list (the C# field is then null, and every member that reads or changes the list would throw). */
    var Discarded: bool

    constructor(machineentity: MachineEntity, storagecapacity: int)
      ensures Machine == machineentity && StorageCapacity == storagecapacity
      ensures Inventory == [] && !Discarded
    {
      Machine := machineentity;
      StorageCapacity := storagecapacity;
      Inventory := [];
      Discarded := false;
    }

    // ----- capacity queries -----

    function ItemCount(): (n: int)
      reads this
      requires !Discarded
      ensures n == GetItemCount(Inventory)
    {
      GetItemCount(Inventory)
    }

    function SpareCapacity(): (n: int)
      reads this
      requires !Discarded
      ensures n + ItemCount() == StorageCapacity
    {
      StorageCapacity - GetItemCount(Inventory)
    }

    predicate HasSpareCapcity()
      reads this
      requires !Discarded
      ensures HasSpareCapcity() <==> !IsFull()
    {
      SpareCapacity() > 0
    }

    /** Empty means a count of zero; an empty list is empty. */
    predicate IsEmpty()
      reads this
      requires !Discarded
      ensures Inventory == [] ==> IsEmpty()
    {
      ItemCount() == 0
    }

    predicate IsFull()
      reads this
      requires !Discarded
      ensures IsFull() <==> SpareCapacity() <= 0
    {
      ItemCount() >= StorageCapacity
    }

    // ----- adding -----

    /** Adds one item (the `amount` argument is ignored) and returns what does not fit. */
    method AddItem(item: Item, amount: int) returns (remainder: Option<Item>)
      requires !Discarded
      modifies this`Inventory
      ensures var out := Added(item, old(Inventory), StorageCapacity);
        Inventory == out.list && remainder == out.returnitem
    {
      var added;
      Inventory, added, remainder := AddListItem(item, Inventory, StorageCapacity);
    }

    /** Moves up to `amount` units from `items` into the inventory. */
    method AddItems(items: seq<Item>, amount: int) returns (itemsAfter: seq<Item>, status: MoveStatus)
      requires !Discarded
      modifies this`Inventory
      ensures var out := Moved(items, old(Inventory), amount, StorageCapacity, false, AllPass);
        itemsAfter == out.from && Inventory == out.to && status == out.status
      ensures old(ItemCount()) <= StorageCapacity <= IntMaxValue ==> ItemCount() <= StorageCapacity
    {
      if GetItemCount(Inventory) <= StorageCapacity <= IntMaxValue {
        MovedRespectsCapacity(items, Inventory, amount, StorageCapacity, false, AllPass);
      }
      itemsAfter, Inventory, status := MoveItems(items, Inventory, amount, StorageCapacity, false, AllPass);
    }

    /** Moves up to `amount` units of whitelisted items from `items` into the inventory. */
    method AddWhiteList(items: seq<Item>, whitelist: seq<Item>, amount: int)
      returns (itemsAfter: seq<Item>, status: MoveStatus)
      requires !Discarded
      modifies this`Inventory
      ensures var out := Moved(items, old(Inventory), amount, StorageCapacity, false, ListFilter(whitelist, true));
        itemsAfter == out.from && Inventory == out.to && status == out.status
      ensures old(ItemCount()) <= StorageCapacity <= IntMaxValue ==> ItemCount() <= StorageCapacity
    {
      if GetItemCount(Inventory) <= StorageCapacity <= IntMaxValue {
        MovedRespectsCapacity(items, Inventory, amount, StorageCapacity, false, ListFilter(whitelist, true));
      }
      itemsAfter, Inventory, status :=
        MoveItems(items, Inventory, amount, StorageCapacity, false, ListFilter(whitelist, true));
    }

    /** Moves up to `amount` units of items not on the blacklist from `items` into the inventory. */
    method AddBlackList(items: seq<Item>, blacklist: seq<Item>, amount: int)
      returns (itemsAfter: seq<Item>, status: MoveStatus)
      requires !Discarded
      modifies this`Inventory
      ensures var out := Moved(items, old(Inventory), amount, StorageCapacity, false, ListFilter(blacklist, false));
        itemsAfter == out.from && Inventory == out.to && status == out.status
      ensures old(ItemCount()) <= StorageCapacity <= IntMaxValue ==> ItemCount() <= StorageCapacity
    {
      if GetItemCount(Inventory) <= StorageCapacity <= IntMaxValue {
        MovedRespectsCapacity(items, Inventory, amount, StorageCapacity, false, ListFilter(blacklist, false));
      }
      itemsAfter, Inventory, status :=
        MoveItems(items, Inventory, amount, StorageCapacity, false, ListFilter(blacklist, false));
    }

    /** Requests exactly the spare capacity from `items`. `takefirstitem` is the helper's default for that argument. */
    method Fill(items: seq<Item>, takefirstitem: bool) returns (itemsAfter: seq<Item>, status: MoveStatus)
      requires !Discarded
      modifies this`Inventory
      ensures var out := Moved(items, old(Inventory), old(SpareCapacity()), StorageCapacity, takefirstitem, AllPass);
        itemsAfter == out.from && Inventory == out.to && status == out.status
      ensures old(ItemCount()) <= StorageCapacity <= IntMaxValue ==> ItemCount() <= StorageCapacity
    {
      if GetItemCount(Inventory) <= StorageCapacity <= IntMaxValue {
        MovedRespectsCapacity(items, Inventory, SpareCapacity(), StorageCapacity, takefirstitem, AllPass);
      }
      itemsAfter, Inventory, status := MoveItems(items, Inventory, SpareCapacity(), StorageCapacity, takefirstitem, AllPass);
    }

    /** Requests exactly the spare capacity of whitelisted items from `items`. */
    method FillWhiteList(items: seq<Item>, whitelist: seq<Item>) returns (itemsAfter: seq<Item>, status: MoveStatus)
      requires !Discarded
      modifies this`Inventory
      ensures var out := Moved(items, old(Inventory), old(SpareCapacity()), StorageCapacity, false,
                               ListFilter(whitelist, true));
        itemsAfter == out.from && Inventory == out.to && status == out.status
      ensures old(ItemCount()) <= StorageCapacity <= IntMaxValue ==> ItemCount() <= StorageCapacity
    {
      if GetItemCount(Inventory) <= StorageCapacity <= IntMaxValue {
        MovedRespectsCapacity(items, Inventory, SpareCapacity(), StorageCapacity, false, ListFilter(whitelist, true));
      }
      itemsAfter, Inventory, status :=
        MoveItems(items, Inventory, SpareCapacity(), StorageCapacity, false, ListFilter(whitelist, true));
    }

    /** Requests exactly the spare capacity of items not on the blacklist from `items`. */
    method FillBlackList(items: seq<Item>, blacklist: seq<Item>) returns (itemsAfter: seq<Item>, status: MoveStatus)
      requires !Discarded
      modifies this`Inventory
      ensures var out := Moved(items, old(Inventory), old(SpareCapacity()), StorageCapacity, false,
                               ListFilter(blacklist, false));
        itemsAfter == out.from && Inventory == out.to && status == out.status
      ensures old(ItemCount()) <= StorageCapacity <= IntMaxValue ==> ItemCount() <= StorageCapacity
    {
      if GetItemCount(Inventory) <= StorageCapacity <= IntMaxValue {
        MovedRespectsCapacity(items, Inventory, SpareCapacity(), StorageCapacity, false, ListFilter(blacklist, false));
      }
      itemsAfter, Inventory, status :=
        MoveItems(items, Inventory, SpareCapacity(), StorageCapacity, false, ListFilter(blacklist, false));
    }

    // ----- removing -----

    /**
     * Moves up to `amount` units from the inventory into `items`.
     * `storagecapacity` and `takefirstitem` are the helper's defaults for
     * the arguments the call leaves out.
     */
    method Empty(items: seq<Item>, amount: int, storagecapacity: int, takefirstitem: bool)
      returns (itemsAfter: seq<Item>, status: MoveStatus)
      requires !Discarded
      modifies this`Inventory
      ensures var out := Moved(old(Inventory), items, amount, storagecapacity, takefirstitem, AllPass);
        Inventory == out.from && itemsAfter == out.to && status == out.status
    {
      Inventory, itemsAfter, status := MoveItems(Inventory, items, amount, storagecapacity, takefirstitem, AllPass);
    }

    /** Takes an item by example, all or nothing for stacks. */
    method RemoveItem(item: Item) returns (r: Option<Item>)
      requires !Discarded
      modifies this`Inventory
      ensures var out := Taken(item, old(Inventory), false); Inventory == out.list && r == out.result
    {
      Inventory, r := TakeListItem(item, Inventory, false);
    }

    /** Takes an item by example, accepting a partial stack. */
    method RemovePartialStack(item: Item) returns (r: Option<Item>)
      requires !Discarded
      modifies this`Inventory
      ensures var out := Taken(item, old(Inventory), true); Inventory == out.list && r == out.result
    {
      Inventory, r := TakeListItem(item, Inventory, true);
    }

    /** Removes the first entry, up to `amount` units of it, and returns what arrived in a fresh list. */
    method RemoveAnySingle(amount: int) returns (r: Option<Item>)
      requires !Discarded
      modifies this`Inventory
      ensures (Inventory, r) == RemovedAnySingle(old(Inventory), amount)
    {
      var output: seq<Item> := [];
      var status;
      Inventory, output, status := MoveItems(Inventory, output, amount, amount, true, AllPass);
      if |output| == 0 {
        return None;
      }
      return Some(output[0]);
    }

    /** Moves up to `amount` units of whitelisted items from the inventory into `items`, within `storagecapacity`. */
    method RemoveWhiteList(items: seq<Item>, whitelist: seq<Item>, storagecapacity: int, amount: int)
      returns (itemsAfter: seq<Item>, status: MoveStatus)
      requires !Discarded
      modifies this`Inventory
      ensures var out := Moved(old(Inventory), items, amount, storagecapacity, false, ListFilter(whitelist, true));
        Inventory == out.from && itemsAfter == out.to && status == out.status
    {
      Inventory, itemsAfter, status :=
        MoveItems(Inventory, items, amount, storagecapacity, false, ListFilter(whitelist, true));
    }

    /** Moves up to `amount` units of items not on the blacklist from the inventory into `items`. */
    method RemoveBlackList(items: seq<Item>, blacklist: seq<Item>, storagecapacity: int, amount: int)
      returns (itemsAfter: seq<Item>, status: MoveStatus)
      requires !Discarded
      modifies this`Inventory
      ensures var out := Moved(old(Inventory), items, amount, storagecapacity, false, ListFilter(blacklist, false));
        Inventory == out.from && itemsAfter == out.to && status == out.status
    {
      Inventory, itemsAfter, status :=
        MoveItems(Inventory, items, amount, storagecapacity, false, ListFilter(blacklist, false));
    }

    // ----- machine deletion -----

    /**
     * On a server, hands every entry to the world's drop routine once, in
     * order, then discards the list; elsewhere does nothing.
     */
    method DropOnDelete(isServer: bool) returns (drops: seq<Drop>)
      requires !Discarded
      modifies this`Inventory, this`Discarded
      ensures !isServer ==> drops == [] && Inventory == old(Inventory) && !Discarded
      ensures isServer ==> drops == DropTrace(old(Inventory), Machine) && Inventory == [] && Discarded
    {
      drops := [];
      if !isServer {
        return;
      }
      var index := 0;
      while index < |Inventory|
        invariant 0 <= index <= |Inventory|
        invariant |drops| == index
        invariant forall j :: 0 <= j < index ==> drops[j] == Drop(Inventory[j], Machine.mnX, Machine.mnY, Machine.mnZ)
      {
        drops := drops + [Drop(Inventory[index], Machine.mnX, Machine.mnY, Machine.mnZ)];
        index := index + 1;
      }
      Inventory := [];
      Discarded := true;
    }

    // ----- save format -----

    /** Writes version 0, the entry count and every entry in list order. */
    method WriteInventory(encode: Item -> seq<int>) returns (written: seq<int>)
      requires !Discarded
      ensures written == Serialised(Inventory, encode)
    {
      var listcount := |Inventory|;
      var version := 0;
      written := [version, listcount];
      var index := 0;
      while index < listcount
        invariant 0 <= index <= listcount
        invariant written == [version, listcount] + EncodeAll(Inventory[..index], encode)
      {
        EncodeAllAppend(Inventory[..index], Inventory[index], encode);
        assert Inventory[..index + 1] == Inventory[..index] + [Inventory[index]];
        written := written + encode(Inventory[index]);
        index := index + 1;
      }
      assert Inventory[..listcount] == Inventory;
    }

    /**
     * Reads a save: for version 0 appends every item the codec decodes,
     * skipping null slots; any other version adds nothing.
     */
    method ReadInventory(stream: seq<int>, decode: seq<int> -> Option<Decoded>)
      returns (status: ReadStatus, rest: seq<int>)
      requires !Discarded
      modifies this`Inventory
      ensures var out := Deserialised(stream, decode);
        Inventory == old(Inventory) + out.items && status == out.status && rest == out.rest
    {
      if |stream| == 0 {
        return EndOfStream, stream;
      }
      var version := stream[0];
      rest := stream[1..];
      if version == 0 {
        if |rest| == 0 {
          return EndOfStream, rest;
        }
        var listcount := rest[0];
        rest := rest[1..];
        ghost var read: seq<Item> := [];
        var index := 0;
        while index < listcount
          invariant 0 <= index && (index <= listcount || listcount < 0)
          invariant Inventory == old(Inventory) + read
          invariant ReadItems(stream[2..], listcount, decode, []) == ReadItems(rest, listcount - index, decode, read)
          decreases listcount - index
        {
          var slot := decode(rest);
          if slot.None? {
            return EndOfStream, rest;
          }
          ghost var found := if slot.value.item.Some? then [slot.value.item.value] else [];
          assert ReadItems(rest, listcount - index, decode, read)
              == ReadItems(slot.value.rest, listcount - index - 1, decode, read + found);
          if slot.value.item.Some? {
            Inventory := Inventory + [slot.value.item.value];
          }
          // else: the null slot is logged as a corrupt save and skipped
          read := read + found;
          rest := slot.value.rest;
          index := index + 1;
        }
        status := Loaded;
      } else {
        // logged: the version does not exist
        status := UnknownVersion;
      }
    }
  }

  /**
   * With non-negative amounts, an empty inventory may still hold stacks of
   * size zero, and nothing else.
   */
  lemma IsEmptyHoldsOnlyEmptyStacks(inv: MachineInventory)
    requires !inv.Discarded && NonNegativeAmounts(inv.Inventory)
    ensures inv.IsEmpty() <==>
      forall j :: 0 <= j < |inv.Inventory| ==> IsStack(inv.Inventory[j]) && inv.Inventory[j].amount == 0
  {
    GetItemCountNonNegative(inv.Inventory);
  }

  /** Writing an inventory and reading the words into a fresh inventory restores its list. */
  method Reload(source: MachineInventory, encode: Item -> seq<int>, decode: seq<int> -> Option<Decoded>)
    returns (copy: MachineInventory)
    requires !source.Discarded && RoundTripsOn(source.Inventory, encode, decode)
    ensures copy.Inventory == source.Inventory && copy.StorageCapacity == source.StorageCapacity
  {
    var words := source.WriteInventory(encode);
    copy := new MachineInventory(source.Machine, source.StorageCapacity);
    SerialisedRoundTrip(source.Inventory, [], encode, decode);
    assert words + [] == words;
    var status, rest := copy.ReadInventory(words, decode);
  }
}
