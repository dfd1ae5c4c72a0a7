/*
 * The list-transfer algorithms of ItemBaseUtil.cs: AddListItem (add with
 * stack consolidation and a capacity remainder), TakeListItem (take by
 * example) and TakeAnyListItem (greedy bulk move), the last one also in the
 * filtered form MoveItems that MachineInventory calls.
 *
 * The C# methods receive their lists by `ref` and mutate them; each method
 * here receives the list and returns its new value. Every method is proved
 * equal to a specification function (Added, Taken, Moved), and the
 * properties of the algorithms are lemmas about those functions.
 */
module ListTransfer {
  import opened Items

  /** `int.MaxValue`, the default storage capacity of AddListItem. */
  const IntMaxValue: int := 0x7fff_ffff

  /** List minus its k-th entry, the others in order (`List.Remove` of that entry). */
  function RemoveAt(list: seq<Item>, k: nat): (r: seq<Item>)
    requires k < |list|
    ensures |r| == |list| - 1
    ensures forall j :: 0 <= j < k ==> r[j] == list[j]
    ensures forall j :: k <= j < |r| ==> r[j] == list[j + 1]
  {
    list[..k] + list[k + 1..]
  }

  // ---------------------------------------------------------------------------
  // AddListItem
  // ---------------------------------------------------------------------------

  /**
   * The outcome of AddListItem: the new target list, the caller's item after
   * its amount was cut down to what fits, and the returned remainder.
   */
  datatype AddOutcome = AddOutcome(list: seq<Item>, item: Item, returnitem: Option<Item>)

  /** Index of the first entry that IsStackAndSame accepts for `item`, or |list| when none does. */
  function FirstStackPartner(list: seq<Item>, item: Item): (k: nat)
    ensures k <= |list|
    ensures k < |list| ==> IsStackAndSame(list[k], item)
    ensures forall j :: 0 <= j < k ==> !IsStackAndSame(list[j], item)
  {
    if list == [] then 0
    else if IsStackAndSame(list[0], item) then 0
    else 1 + FirstStackPartner(list[1..], item)
  }

  /** AddListItem as a function of its inputs. */
  function Added(item: Item, targetlist: seq<Item>, storagecapacity: int): AddOutcome
  {
    var listcount := GetItemCount(targetlist);
    var itemcount := GetAmount(item);
    var newtotal := listcount + itemcount;
    var remainder := newtotal - storagecapacity;
    var overflow := newtotal > storagecapacity;
    var kept := if overflow then SetAmount(item, itemcount - remainder) else item;
    var keptcount := if overflow then itemcount - remainder else itemcount;
    var returnitem := if overflow then Some(SetAmount(NewInstance(kept), remainder)) else None;
    var k := FirstStackPartner(targetlist, kept);
    var list :=
      if IsStack(kept) then
        (if k < |targetlist| then targetlist[k := IncrementStack(targetlist[k], keptcount)] else targetlist)
      else targetlist + [kept];
    AddOutcome(list, kept, returnitem)
  }

  /** Adds `item` to `targetlist`, consolidating stacks; returns the part that does not fit. */
  method AddListItem(item: Item, targetlist: seq<Item>, storagecapacity: int)
    returns (list: seq<Item>, added: Item, returnitem: Option<Item>)
    ensures AddOutcome(list, added, returnitem) == Added(item, targetlist, storagecapacity)
  {
    var remainder := 0;
    var listcount := GetItemCount(targetlist);
    var itemcount := GetAmount(item);
    var newtotal := listcount + itemcount;
    added := item;
    returnitem := None;
    if newtotal > storagecapacity {
      remainder := newtotal - storagecapacity;
      itemcount := itemcount - remainder;
      added := SetAmount(added, itemcount);
      returnitem := Some(SetAmount(NewInstance(added), remainder));
    }
    list := targetlist;
    if IsStack(added) {
      var k := 0;
      while k < |list|
        invariant 0 <= k <= |list| && list == targetlist
        invariant forall j :: 0 <= j < k ==> !IsStackAndSame(list[j], added)
      {
        if IsStackAndSame(list[k], added) {
          list := list[k := IncrementStack(list[k], itemcount)];
          break;
        }
        k := k + 1;
      }
    } else {
      list := list + [added];
    }
  }

  /** IsStackAndSame never reads the amount of its second argument. */
  lemma IsStackAndSameIgnoresAmount(e: Item, a: Item, b: Item)
    requires SameExceptAmount(a, b)
    ensures IsStackAndSame(e, a) == IsStackAndSame(e, b)
  {
    if IsStack(a) {
      assert WithoutAmount(b) == a.(amount := 0);
      assert IsStack(b);
    } else {
      assert WithoutAmount(b) == a;
      assert !IsStack(b);
    }
  }

  lemma FirstStackPartnerIgnoresAmount(list: seq<Item>, a: Item, b: Item)
    requires SameExceptAmount(a, b)
    ensures FirstStackPartner(list, a) == FirstStackPartner(list, b)
  {
    var ka, kb := FirstStackPartner(list, a), FirstStackPartner(list, b);
    if ka < kb {
      IsStackAndSameIgnoresAmount(list[ka], a, b);
    } else if kb < ka {
      IsStackAndSameIgnoresAmount(list[kb], a, b);
    }
  }

  /** When everything fits nothing is returned and the caller's item is untouched. */
  lemma AddedFits(item: Item, targetlist: seq<Item>, storagecapacity: int)
    requires GetItemCount(targetlist) + GetAmount(item) <= storagecapacity
    ensures Added(item, targetlist, storagecapacity).returnitem == None
    ensures Added(item, targetlist, storagecapacity).item == item
  {
  }

  /**
   * Overflow into a list that is not already over capacity: a remainder of
   * the same variant is returned; for a stack, the amount kept plus the
   * remainder's amount is the original amount and the kept amount exactly
   * fills the capacity; a non-stack item is kept whole and a clone of it is
   * returned as well.
   */
  lemma AddedOverflow(item: Item, targetlist: seq<Item>, storagecapacity: int)
    requires GetItemCount(targetlist) <= storagecapacity < GetItemCount(targetlist) + GetAmount(item)
    ensures var out := Added(item, targetlist, storagecapacity);
      out.returnitem.Some? &&
      TypeOf(out.returnitem.value) == TypeOf(item) && out.returnitem.value.itemId == item.itemId &&
      SameExceptAmount(out.item, item) &&
      (IsStack(item) ==>
        GetAmount(out.item) + GetAmount(out.returnitem.value) == GetAmount(item) &&
        GetAmount(out.item) == storagecapacity - GetItemCount(targetlist) &&
        GetAmount(out.returnitem.value) > 0) &&
      (!IsStack(item) ==> out.item == item && out.returnitem.value == NewInstance(item))
  {
  }

  /**
   * Placement: a non-stack item is appended at the end; a stack increments
   * the first entry that IsStackAndSame accepts, by the amount kept, and
   * nothing else; a stack that finds no such entry is not added at all.
   */
  lemma AddedPlacement(item: Item, targetlist: seq<Item>, storagecapacity: int)
    ensures var out := Added(item, targetlist, storagecapacity);
      var k := FirstStackPartner(targetlist, item);
      (!IsStack(item) ==> out.list == targetlist + [item]) &&
      (IsStack(item) && k < |targetlist| ==>
        out.list == targetlist[k := IncrementStack(targetlist[k], GetAmount(out.item))]) &&
      (IsStack(item) && k == |targetlist| ==> out.list == targetlist)
  {
    var out := Added(item, targetlist, storagecapacity);
    FirstStackPartnerIgnoresAmount(targetlist, out.item, item);
  }

  /** The count of the new list: +1 for a non-stack, + the kept amount for a consolidated stack, +0 otherwise. */
  lemma AddedCount(item: Item, targetlist: seq<Item>, storagecapacity: int)
    ensures var out := Added(item, targetlist, storagecapacity);
      var k := FirstStackPartner(targetlist, item);
      GetItemCount(out.list) ==
        GetItemCount(targetlist) +
        (if !IsStack(item) then 1 else if k < |targetlist| then GetAmount(out.item) else 0)
  {
    var out := Added(item, targetlist, storagecapacity);
    var k := FirstStackPartner(targetlist, item);
    AddedPlacement(item, targetlist, storagecapacity);
    if !IsStack(item) {
      GetItemCountAppend(targetlist, [item]);
      assert GetItemCount([item]) == 1 by {
        assert [item][1..] == [];
      }
    } else if k < |targetlist| {
      GetItemCountUpdate(targetlist, k, IncrementStack(targetlist[k], GetAmount(out.item)));
    }
  }

  /**
   * Conservation and the capacity bound for a stack that finds a partner in
   * a list not already over capacity: what the list gains plus the returned
   * remainder is the item's amount, and the list stays within capacity.
   */
  lemma AddedStackConserves(item: Item, targetlist: seq<Item>, storagecapacity: int)
    requires IsStack(item) && FirstStackPartner(targetlist, item) < |targetlist|
    requires GetItemCount(targetlist) <= storagecapacity
    ensures var out := Added(item, targetlist, storagecapacity);
      GetItemCount(out.list) + (if out.returnitem.Some? then GetAmount(out.returnitem.value) else 0)
        == GetItemCount(targetlist) + GetAmount(item) &&
      GetItemCount(out.list) <= storagecapacity
  {
    AddedCount(item, targetlist, storagecapacity);
  }

  /** A stack with no partner is lost: the list is unchanged even though nothing is returned. */
  lemma AddedStackWithoutPartnerIsLost(item: Item, targetlist: seq<Item>, storagecapacity: int)
    requires IsStack(item) && FirstStackPartner(targetlist, item) == |targetlist|
    requires GetItemCount(targetlist) + GetAmount(item) <= storagecapacity
    ensures Added(item, targetlist, storagecapacity) == AddOutcome(targetlist, item, None)
  {
  }

  /**
   * A non-stack item added to a full list is still appended, so the list
   * ends over capacity, and a clone of it is returned as the remainder.
   */
  lemma AddedNonStackOverflowExceedsCapacity(item: Item, targetlist: seq<Item>, storagecapacity: int)
    requires !IsStack(item) && GetItemCount(targetlist) == storagecapacity
    ensures Added(item, targetlist, storagecapacity).list == targetlist + [item]
    ensures Added(item, targetlist, storagecapacity).returnitem == Some(NewInstance(item))
    ensures GetItemCount(Added(item, targetlist, storagecapacity).list) == storagecapacity + 1
  {
    AddedCount(item, targetlist, storagecapacity);
  }

  /** Worked cases: two equal cube stacks consolidate; two durability items stay two entries; a stack into an empty list. */
  lemma AddedExamples()
    ensures Added(CubeStack(5, 2, 0, 3), [CubeStack(5, 2, 0, 4)], IntMaxValue).list == [CubeStack(5, 2, 0, 7)]
    ensures Added(Durability(9, 50, 100), Added(Durability(9, 50, 100), [], IntMaxValue).list, IntMaxValue).list
      == [Durability(9, 50, 100), Durability(9, 50, 100)]
    ensures Added(Stack(2, 20), [], 15) == AddOutcome([], Stack(2, 15), Some(Stack(2, 5)))
  {
  }

  // ---------------------------------------------------------------------------
  // TakeListItem
  // ---------------------------------------------------------------------------

  /** The outcome of TakeListItem: the new source list and the item handed back (None for null). */
  datatype TakeOutcome = TakeOutcome(list: seq<Item>, result: Option<Item>)

  /** Index of the first entry that Compare accepts for `item`, or |list| when none does. */
  function FirstMatch(list: seq<Item>, item: Item): (k: nat)
    ensures k <= |list|
    ensures k < |list| ==> Compare(list[k], item)
    ensures forall j :: 0 <= j < k ==> !Compare(list[j], item)
  {
    if list == [] then 0
    else if Compare(list[0], item) then 0
    else 1 + FirstMatch(list[1..], item)
  }

  /**
   * TakeListItem as a function of its inputs. For a stack example the scan
   * returns on its first iteration whatever happens, so only entry 0 is
   * inspected; the partial branch resizes the example without checking
   * Compare and without removing anything.
   */
  function Taken(item: Item, fromlist: seq<Item>, returnpartialstack: bool): TakeOutcome
  {
    if IsStack(item) then
      if fromlist == [] then TakeOutcome(fromlist, None)
      else
        var i := fromlist[0];
        var itemcount := GetAmount(item);
        var listitemcount := GetAmount(i);
        if Compare(i, item) && listitemcount > itemcount then
          TakeOutcome(fromlist[0 := DecrementStack(i, itemcount)], Some(item))
        else if Compare(i, item) && listitemcount == itemcount then
          TakeOutcome(RemoveAt(fromlist, 0), Some(item))
        else if returnpartialstack then
          TakeOutcome(fromlist, Some(SetAmount(item, listitemcount)))
        else
          TakeOutcome(fromlist, None)
    else
      var k := FirstMatch(fromlist, item);
      if k < |fromlist| then TakeOutcome(RemoveAt(fromlist, k), Some(fromlist[k]))
      else TakeOutcome(fromlist, None)
  }

  /** Deducts an item from `fromlist` by example. */
  method TakeListItem(item: Item, fromlist: seq<Item>, returnpartialstack: bool)
    returns (list: seq<Item>, result: Option<Item>)
    ensures TakeOutcome(list, result) == Taken(item, fromlist, returnpartialstack)
  {
    list := fromlist;
    result := None;
    if IsStack(item) {
      var itemcount := GetAmount(item);
      if |list| > 0 {
        var i := list[0];
        var listitemcount := GetAmount(i);
        if Compare(i, item) && listitemcount > itemcount {
          list := list[0 := DecrementStack(i, itemcount)];
          result := Some(item);
        } else if Compare(i, item) && listitemcount == itemcount {
          list := RemoveAt(list, 0);
          result := Some(item);
        } else if returnpartialstack {
          result := Some(SetAmount(item, listitemcount));
        }
      }
    } else {
      var k := 0;
      while k < |list|
        invariant 0 <= k <= |list| && list == fromlist && result == None
        invariant forall j :: 0 <= j < k ==> !Compare(list[j], item)
      {
        var i := list[k];
        if Compare(i, item) {
          list := RemoveAt(list, k);
          result := Some(i);
          return;
        }
        k := k + 1;
      }
    }
  }

  /** Nothing can be taken from an empty list. */
  lemma TakenFromEmpty(item: Item, returnpartialstack: bool)
    ensures Taken(item, [], returnpartialstack) == TakeOutcome([], None)
  {
  }

  /**
   * A non-stack example removes and returns the first Compare-matching entry,
   * the others keeping their order, and the count drops by one; with no
   * matching entry the result is null and the list is unchanged.
   */
  lemma TakenNonStack(item: Item, fromlist: seq<Item>, returnpartialstack: bool)
    requires !IsStack(item)
    ensures var out := Taken(item, fromlist, returnpartialstack);
      (out.result == None <==> forall j :: 0 <= j < |fromlist| ==> !Compare(fromlist[j], item)) &&
      (out.result == None ==> out.list == fromlist) &&
      (out.result.Some? ==>
        var k := FirstMatch(fromlist, item);
        k < |fromlist| && out.result.value == fromlist[k] && Compare(out.result.value, item) &&
        out.list == fromlist[..k] + fromlist[k + 1..] &&
        GetItemCount(out.list) + GetAmount(out.result.value) == GetItemCount(fromlist))
  {
    var k := FirstMatch(fromlist, item);
    if k < |fromlist| {
      GetItemCountRemove(fromlist, k);
    }
  }

  /**
   * A stack example looks at entry 0 only. A larger matching entry is
   * decremented by the example's amount, keeping its kind, id and other
   * fields, an equal one removed, and in both
   * cases the example is returned and the count drops by its amount.
   * Otherwise nothing is removed: with partial set the example is returned
   * resized to entry 0's amount (whether or not entry 0 matches), else null.
   */
  lemma TakenStack(item: Item, fromlist: seq<Item>, returnpartialstack: bool)
    requires IsStack(item) && fromlist != []
    ensures var out := Taken(item, fromlist, returnpartialstack);
      var e := fromlist[0];
      (Compare(e, item) && GetAmount(e) > GetAmount(item) ==>
        out.result == Some(item) && out.list[1..] == fromlist[1..] && |out.list| == |fromlist| &&
        SameExceptAmount(out.list[0], e) && GetAmount(out.list[0]) == GetAmount(e) - GetAmount(item) &&
        GetItemCount(out.list) + GetAmount(item) == GetItemCount(fromlist)) &&
      (Compare(e, item) && GetAmount(e) == GetAmount(item) ==>
        out.result == Some(item) && out.list == fromlist[1..] &&
        GetItemCount(out.list) + GetAmount(item) == GetItemCount(fromlist)) &&
      (!(Compare(e, item) && GetAmount(e) >= GetAmount(item)) ==>
        out.list == fromlist &&
        out.result == (if returnpartialstack then Some(SetAmount(item, GetAmount(e))) else None))
  {
    var e := fromlist[0];
    if Compare(e, item) && GetAmount(e) > GetAmount(item) {
      GetItemCountUpdate(fromlist, 0, DecrementStack(e, GetAmount(item)));
      assert Compare(e, item) && IsStack(e);
    } else if Compare(e, item) && GetAmount(e) == GetAmount(item) {
      GetItemCountRemove(fromlist, 0);
    }
  }

  /** For a stack example the entries after the first play no part. */
  lemma TakenStackOnlyFirst(item: Item, e: Item, rest: seq<Item>, returnpartialstack: bool)
    requires IsStack(item)
    ensures Taken(item, [e] + rest, returnpartialstack).result == Taken(item, [e], returnpartialstack).result
    ensures Taken(item, [e] + rest, returnpartialstack).list == Taken(item, [e], returnpartialstack).list + rest
  {
    assert ([e] + rest)[0] == e;
    assert ([e] + rest)[1..] == rest;
  }

  /** Worked cases of the partial branch: a short matching stack is returned but not removed; a mismatch is resized. */
  lemma TakenPartialExamples()
    ensures Taken(Stack(1, 10), [Stack(1, 4)], true) == TakeOutcome([Stack(1, 4)], Some(Stack(1, 4)))
    ensures Taken(Stack(1, 10), [Stack(1, 4)], false) == TakeOutcome([Stack(1, 4)], None)
    ensures Taken(Stack(1, 10), [Single(5), Stack(1, 40)], true)
      == TakeOutcome([Single(5), Stack(1, 40)], Some(Stack(1, 1)))
  {
  }

  // ---------------------------------------------------------------------------
  // TakeAnyListItem / MoveItems
  // ---------------------------------------------------------------------------

  /**
   * How a bulk move ends. `EnumeratorFault`: the `foreach` over the source
   * list went on after `Remove` had changed that list, so the enumerator's
   * next step throws; the lists keep the changes made before it.
   */
  datatype MoveStatus = Finished | EnumeratorFault

  datatype MoveOutcome = MoveOutcome(from: seq<Item>, to: seq<Item>, status: MoveStatus)

  /** The filter that lets every entry through (TakeAnyListItem has none). */
  function AllPass(item: Item): bool
  {
    true
  }

  /** Index of the first entry the filter lets through, or |list| when none. */
  function FirstPassing(list: seq<Item>, passes: Item -> bool): (k: nat)
    ensures k <= |list|
    ensures k < |list| ==> passes(list[k])
    ensures forall j :: 0 <= j < k ==> !passes(list[j])
  {
    if list == [] then 0
    else if passes(list[0]) then 0
    else 1 + FirstPassing(list[1..], passes)
  }

  /** The target list after `q` units of stack `i` are handed to it (AddListItem's remainder is discarded). */
  function Delivered(i: Item, q: int, tolist: seq<Item>): seq<Item>
  {
    Added(SetAmount(NewInstance(i), q), tolist, IntMaxValue).list
  }

  /** The body of the scan for entry k, the first one the filter lets through. */
  function MovedEntry(fromlist: seq<Item>, k: nat, tolist: seq<Item>, amount: int, storageCapacity: int,
                      takefirstitem: bool): MoveOutcome
    requires k < |fromlist|
  {
    var i := fromlist[k];
    var listcount := GetAmount(i);
    var freespace := storageCapacity - GetItemCount(tolist);
    var afterRemoval := if takefirstitem then Finished else EnumeratorFault;
    if IsStack(i) then
      if listcount > amount then
        var q := if amount > freespace then freespace else amount;
        MoveOutcome(fromlist[k := DecrementStack(i, q)], Delivered(i, q, tolist), Finished)
      else if listcount == amount then
        var q := if amount > freespace then freespace else amount;
        MoveOutcome(RemoveAt(fromlist, k), Delivered(i, q, tolist), Finished)
      else if listcount > freespace then
        MoveOutcome(RemoveAt(fromlist, k), Delivered(i, freespace, tolist), Finished)
      else
        MoveOutcome(RemoveAt(fromlist, k), Delivered(i, listcount, tolist), afterRemoval)
    else if freespace > 0 then
      MoveOutcome(RemoveAt(fromlist, k), Added(NewInstance(i), tolist, IntMaxValue).list, afterRemoval)
    else
      MoveOutcome(fromlist, tolist, Finished)
  }

  /** TakeAnyListItem / MoveItems as a function of their inputs. */
  function Moved(fromlist: seq<Item>, tolist: seq<Item>, amount: int, storageCapacity: int,
                 takefirstitem: bool, passes: Item -> bool): MoveOutcome
  {
    if amount <= 0 then MoveOutcome(fromlist, tolist, Finished)
    else
      var k := FirstPassing(fromlist, passes);
      if k == |fromlist| then MoveOutcome(fromlist, tolist, Finished)
      else MovedEntry(fromlist, k, tolist, amount, storageCapacity, takefirstitem)
  }

  /**
   * Moves up to `amount` units from `fromlist` to `tolist` within
   * `storageCapacity`, skipping the entries `passes` rejects.
   */
  method MoveItems(fromlist: seq<Item>, tolist: seq<Item>, amount: int, storageCapacity: int,
                   takefirstitem: bool, passes: Item -> bool)
    returns (from: seq<Item>, to: seq<Item>, status: MoveStatus)
    ensures MoveOutcome(from, to, status) == Moved(fromlist, tolist, amount, storageCapacity, takefirstitem, passes)
  {
    from, to, status := fromlist, tolist, Finished;
    if amount <= 0 {
      return;
    }
    var discardedItem: Item, discardedRemainder: Option<Item>;
    var k := 0;
    while k < |from|
      invariant 0 <= k <= |from| && from == fromlist && to == tolist && status == Finished
      invariant forall j :: 0 <= j < k ==> !passes(from[j])
    {
      var i := from[k];
      if passes(i) {
        var listcount := GetAmount(i);
        var freespace := storageCapacity - GetItemCount(to);
        if IsStack(i) {
          if listcount > amount {
            if amount > freespace {
              to, discardedItem, discardedRemainder := AddListItem(SetAmount(NewInstance(i), freespace), to, IntMaxValue);
              from := from[k := DecrementStack(i, freespace)];
              return;
            } else {
              to, discardedItem, discardedRemainder := AddListItem(SetAmount(NewInstance(i), amount), to, IntMaxValue);
              from := from[k := DecrementStack(i, amount)];
              return;
            }
          } else if listcount == amount {
            if amount > freespace {
              to, discardedItem, discardedRemainder := AddListItem(SetAmount(NewInstance(i), freespace), to, IntMaxValue);
              from := RemoveAt(from, k);
              return;
            } else {
              to, discardedItem, discardedRemainder := AddListItem(SetAmount(NewInstance(i), amount), to, IntMaxValue);
              from := RemoveAt(from, k);
              return;
            }
          } else {
            if listcount > freespace {
              to, discardedItem, discardedRemainder := AddListItem(SetAmount(NewInstance(i), freespace), to, IntMaxValue);
              from := RemoveAt(from, k);
              return;
            } else {
              // The source also counts `amount` down by `listcount` here; the
              // count is never read again, because the scan ends below.
              to, discardedItem, discardedRemainder := AddListItem(SetAmount(NewInstance(i), listcount), to, IntMaxValue);
              from := RemoveAt(from, k);
            }
          }
        } else {
          if freespace > 0 {
            to, discardedItem, discardedRemainder := AddListItem(NewInstance(i), to, IntMaxValue);
            from := RemoveAt(from, k);
          } else {
            return;
          }
        }
        if takefirstitem {
          break;
        }
        // The source list was changed by Remove: the next step of the
        // enumerator throws.
        status := EnumeratorFault;
        return;
      }
      k := k + 1;
    }
  }

  /** Moves up to `amount` units of any items from `fromlist` to `tolist` within `StorageCapacity`. */
  method TakeAnyListItem(fromlist: seq<Item>, tolist: seq<Item>, amount: int, StorageCapacity: int,
                         takefirstitem: bool)
    returns (from: seq<Item>, to: seq<Item>, status: MoveStatus)
    ensures MoveOutcome(from, to, status) == Moved(fromlist, tolist, amount, StorageCapacity, takefirstitem, AllPass)
  {
    from, to, status := MoveItems(fromlist, tolist, amount, StorageCapacity, takefirstitem, AllPass);
  }

  /** A request for nothing (or less) changes nothing. */
  lemma MovedNonPositiveAmount(fromlist: seq<Item>, tolist: seq<Item>, amount: int, storageCapacity: int,
                               takefirstitem: bool, passes: Item -> bool)
    requires amount <= 0
    ensures Moved(fromlist, tolist, amount, storageCapacity, takefirstitem, passes)
      == MoveOutcome(fromlist, tolist, Finished)
  {
  }

  /**
   * At most one source entry is touched: the first one the filter lets
   * through. It is either updated in place or removed, and every other entry
   * keeps its value and relative order. The move faults only after a
   * removal and only when `takefirstitem` is false.
   */
  lemma MovedTouchesOneEntry(fromlist: seq<Item>, tolist: seq<Item>, amount: int, storageCapacity: int,
                             takefirstitem: bool, passes: Item -> bool)
    ensures var out := Moved(fromlist, tolist, amount, storageCapacity, takefirstitem, passes);
      var k := FirstPassing(fromlist, passes);
      (|out.from| == |fromlist| ==>
        out.status == Finished &&
        forall j :: 0 <= j < |fromlist| && j != k ==> out.from[j] == fromlist[j]) &&
      (|out.from| != |fromlist| ==> k < |fromlist| && out.from == RemoveAt(fromlist, k)) &&
      (out.status == EnumeratorFault ==> !takefirstitem && |out.from| == |fromlist| - 1)
  {
  }

  /** Without a filter only the first entry of the source list is ever processed. */
  lemma MovedAnyTakesFirstEntry(fromlist: seq<Item>, tolist: seq<Item>, amount: int, storageCapacity: int,
                                takefirstitem: bool)
    requires amount > 0 && fromlist != []
    ensures Moved(fromlist, tolist, amount, storageCapacity, takefirstitem, AllPass)
      == MovedEntry(fromlist, 0, tolist, amount, storageCapacity, takefirstitem)
  {
  }

  /**
   * A stack entry larger than the request: min(amount, freespace) units are
   * handed to the target and the entry is decremented by exactly that many;
   * the move then finishes.
   */
  lemma MovedLargerStack(fromlist: seq<Item>, tolist: seq<Item>, amount: int, storageCapacity: int,
                         takefirstitem: bool, passes: Item -> bool)
    requires amount > 0
    requires FirstPassing(fromlist, passes) < |fromlist|
    requires IsStack(fromlist[FirstPassing(fromlist, passes)])
    requires GetAmount(fromlist[FirstPassing(fromlist, passes)]) > amount
    ensures var out := Moved(fromlist, tolist, amount, storageCapacity, takefirstitem, passes);
      var k := FirstPassing(fromlist, passes);
      var freespace := storageCapacity - GetItemCount(tolist);
      var q := if amount < freespace then amount else freespace;
      out.status == Finished &&
      |out.from| == |fromlist| &&
      SameExceptAmount(out.from[k], fromlist[k]) &&
      GetAmount(out.from[k]) == GetAmount(fromlist[k]) - q &&
      (forall j :: 0 <= j < |fromlist| && j != k ==> out.from[j] == fromlist[j]) &&
      out.to == Added(SetAmount(NewInstance(fromlist[k]), q), tolist, IntMaxValue).list
  {
  }

  /**
   * The target never ends over its capacity when it starts within it
   * (and the capacity is a valid Int32).
   */
  lemma MovedRespectsCapacity(fromlist: seq<Item>, tolist: seq<Item>, amount: int, storageCapacity: int,
                              takefirstitem: bool, passes: Item -> bool)
    requires GetItemCount(tolist) <= storageCapacity <= IntMaxValue
    ensures GetItemCount(Moved(fromlist, tolist, amount, storageCapacity, takefirstitem, passes).to) <= storageCapacity
  {
    var k := FirstPassing(fromlist, passes);
    if amount > 0 && k < |fromlist| {
      var i := fromlist[k];
      var freespace := storageCapacity - GetItemCount(tolist);
      if IsStack(i) {
        var q :=
          if GetAmount(i) > amount || GetAmount(i) == amount then (if amount > freespace then freespace else amount)
          else if GetAmount(i) > freespace then freespace else GetAmount(i);
        assert q <= freespace;
        DeliveredCount(i, q, tolist);
      } else if freespace > 0 {
        AddedCount(NewInstance(i), tolist, IntMaxValue);
      }
    }
  }

  /** What a delivery of q units of a stack adds to the target's count: q with a partner, nothing without. */
  lemma DeliveredCount(i: Item, q: int, tolist: seq<Item>)
    requires IsStack(i) && GetItemCount(tolist) + q <= IntMaxValue
    ensures GetItemCount(Delivered(i, q, tolist)) ==
      GetItemCount(tolist) + (if FirstStackPartner(tolist, i) < |tolist| then q else 0)
  {
    var x := SetAmount(NewInstance(i), q);
    AddedCount(x, tolist, IntMaxValue);
    FirstStackPartnerIgnoresAmount(tolist, x, i);
  }

  /**
   * Conservation for a stack entry whose units all fit: when the target has
   * a consolidation partner and min(entry, request) units fit in the free
   * space, the total over both lists is unchanged.
   */
  lemma MovedStackConservesWhenItFits(fromlist: seq<Item>, tolist: seq<Item>, amount: int, storageCapacity: int,
                                      takefirstitem: bool, passes: Item -> bool)
    requires amount > 0
    requires FirstPassing(fromlist, passes) < |fromlist|
    requires IsStack(fromlist[FirstPassing(fromlist, passes)])
    requires FirstStackPartner(tolist, fromlist[FirstPassing(fromlist, passes)]) < |tolist|
    requires var listcount := GetAmount(fromlist[FirstPassing(fromlist, passes)]);
      (if listcount < amount then listcount else amount) <= storageCapacity - GetItemCount(tolist)
    requires GetItemCount(tolist) <= storageCapacity <= IntMaxValue
    ensures var out := Moved(fromlist, tolist, amount, storageCapacity, takefirstitem, passes);
      GetItemCount(out.from) + GetItemCount(out.to) == GetItemCount(fromlist) + GetItemCount(tolist)
  {
    var k := FirstPassing(fromlist, passes);
    var i := fromlist[k];
    if GetAmount(i) > amount {
      DeliveredCount(i, amount, tolist);
      GetItemCountUpdate(fromlist, k, DecrementStack(i, amount));
    } else {
      DeliveredCount(i, GetAmount(i), tolist);
      GetItemCountRemove(fromlist, k);
    }
  }

  /**
   * What the source gives up for a stack entry: a larger entry is
   * decremented by the units handed over, the smaller of the request and
   * the free space; a smaller or equal one is removed whole.
   */
  lemma MovedStackSourceCount(fromlist: seq<Item>, tolist: seq<Item>, amount: int, storageCapacity: int,
                              takefirstitem: bool, passes: Item -> bool)
    requires amount > 0
    requires FirstPassing(fromlist, passes) < |fromlist|
    requires IsStack(fromlist[FirstPassing(fromlist, passes)])
    ensures var out := Moved(fromlist, tolist, amount, storageCapacity, takefirstitem, passes);
      var i := fromlist[FirstPassing(fromlist, passes)];
      var freespace := storageCapacity - GetItemCount(tolist);
      var handed := if amount > freespace then freespace else amount;
      GetItemCount(out.from) == GetItemCount(fromlist) - (if GetAmount(i) > amount then handed else GetAmount(i))
  {
    var k := FirstPassing(fromlist, passes);
    var i := fromlist[k];
    var freespace := storageCapacity - GetItemCount(tolist);
    var handed := if amount > freespace then freespace else amount;
    if GetAmount(i) > amount {
      GetItemCountUpdate(fromlist, k, DecrementStack(i, handed));
    } else {
      GetItemCountRemove(fromlist, k);
    }
  }

  /**
   * A stack entry moved into a target with no consolidation partner never
   * arrives: the target is unchanged, while the source gives up the units
   * handed over (a larger entry is decremented by them) or the whole entry
   * (a smaller or equal one is removed).
   */
  lemma MovedStackWithoutPartnerIsLost(fromlist: seq<Item>, tolist: seq<Item>, amount: int, storageCapacity: int,
                                       takefirstitem: bool, passes: Item -> bool)
    requires amount > 0
    requires FirstPassing(fromlist, passes) < |fromlist|
    requires IsStack(fromlist[FirstPassing(fromlist, passes)])
    requires FirstStackPartner(tolist, fromlist[FirstPassing(fromlist, passes)]) == |tolist|
    requires GetItemCount(tolist) <= storageCapacity <= IntMaxValue
    ensures var out := Moved(fromlist, tolist, amount, storageCapacity, takefirstitem, passes);
      var i := fromlist[FirstPassing(fromlist, passes)];
      var freespace := storageCapacity - GetItemCount(tolist);
      var handed := if amount > freespace then freespace else amount;
      out.to == tolist &&
      GetItemCount(out.from) == GetItemCount(fromlist) - (if GetAmount(i) > amount then handed else GetAmount(i))
  {
    var k := FirstPassing(fromlist, passes);
    var i := fromlist[k];
    var freespace := storageCapacity - GetItemCount(tolist);
    var q :=
      if GetAmount(i) > amount || GetAmount(i) == amount then (if amount > freespace then freespace else amount)
      else if GetAmount(i) > freespace then freespace else GetAmount(i);
    var x := SetAmount(NewInstance(i), q);
    FirstStackPartnerIgnoresAmount(tolist, x, i);
    AddedPlacement(x, tolist, IntMaxValue);
    MovedStackSourceCount(fromlist, tolist, amount, storageCapacity, takefirstitem, passes);
  }

  /**
   * A stack entry no larger than the request but larger than the free space
   * is removed whole while only the free space is delivered: the units
   * beyond it vanish, and the total over both lists strictly drops.
   */
  lemma MovedStackOverflowLosesUnits(fromlist: seq<Item>, tolist: seq<Item>, amount: int, storageCapacity: int,
                                     takefirstitem: bool, passes: Item -> bool)
    requires amount > 0
    requires FirstPassing(fromlist, passes) < |fromlist|
    requires IsStack(fromlist[FirstPassing(fromlist, passes)])
    requires 0 <= storageCapacity - GetItemCount(tolist) < GetAmount(fromlist[FirstPassing(fromlist, passes)]) <= amount
    requires storageCapacity <= IntMaxValue
    ensures var out := Moved(fromlist, tolist, amount, storageCapacity, takefirstitem, passes);
      var k := FirstPassing(fromlist, passes);
      out.from == RemoveAt(fromlist, k) &&
      out.status == Finished &&
      GetItemCount(out.from) + GetItemCount(out.to) < GetItemCount(fromlist) + GetItemCount(tolist)
  {
    var k := FirstPassing(fromlist, passes);
    var i := fromlist[k];
    var freespace := storageCapacity - GetItemCount(tolist);
    DeliveredCount(i, freespace, tolist);
    GetItemCountRemove(fromlist, k);
  }

  /**
   * A non-stack entry is moved whole when there is free space: it leaves
   * the source, a clone is appended to the target, and the total over both
   * lists is unchanged.
   */
  lemma MovedNonStack(fromlist: seq<Item>, tolist: seq<Item>, amount: int, storageCapacity: int,
                      takefirstitem: bool, passes: Item -> bool)
    requires amount > 0
    requires FirstPassing(fromlist, passes) < |fromlist|
    requires !IsStack(fromlist[FirstPassing(fromlist, passes)])
    requires GetItemCount(tolist) < storageCapacity
    ensures var out := Moved(fromlist, tolist, amount, storageCapacity, takefirstitem, passes);
      var k := FirstPassing(fromlist, passes);
      out.from == RemoveAt(fromlist, k) &&
      out.to == tolist + [NewInstance(fromlist[k])] &&
      GetItemCount(out.from) + GetItemCount(out.to) == GetItemCount(fromlist) + GetItemCount(tolist) &&
      out.status == (if takefirstitem then Finished else EnumeratorFault)
  {
    var k := FirstPassing(fromlist, passes);
    AddedPlacement(NewInstance(fromlist[k]), tolist, IntMaxValue);
    AddedCount(NewInstance(fromlist[k]), tolist, IntMaxValue);
    GetItemCountRemove(fromlist, k);
  }

  /**
   * Fifty units requested into an empty target with ten free: the source
   * entry is removed whole and nothing arrives, as the target holds no
   * stack to consolidate with.
   */
  lemma MovedIntoEmptyTargetExample()
    ensures Moved([Stack(1, 50)], [], 50, 10, false, AllPass) == MoveOutcome([], [], Finished)
  {
    assert RemoveAt([Stack(1, 50)], 0) == [];
  }

  /** The same request into a target holding an empty partner stack: only ten units arrive. */
  lemma MovedIntoPartnerExample()
    ensures Moved([Stack(1, 50)], [Stack(1, 0)], 50, 10, false, AllPass)
      == MoveOutcome([], [Stack(1, 10)], Finished)
  {
    assert RemoveAt([Stack(1, 50)], 0) == [];
    assert GetItemCount([Stack(1, 0)]) == 0;
  }

  /** Moving singles: the first is moved, then the enumeration of the changed list faults. */
  lemma MovedSinglesExample()
    ensures Moved([Single(3), Single(4)], [], 2, 10, false, AllPass)
      == MoveOutcome([Single(4)], [Single(3)], EnumeratorFault)
  {
    assert RemoveAt([Single(3), Single(4)], 0) == [Single(4)];
  }
}
