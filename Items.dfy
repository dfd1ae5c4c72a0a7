/*
 * The item model of ItemBaseUtil.cs: the six item variants of the game,
 * their comparison rules, stack arithmetic, cloning and counting.
 *
 * Items are modelled as values. Where the C# code mutates an item's
 * mnAmount field in place, the functions here return the updated item.
 */
module Items {

  /** A null-able reference: `None` stands for C#'s `null`. */
  datatype Option<T> = None | Some(value: T)

  /** The `mType` tag every ItemBase carries. */
  datatype ItemType =
    | ItemCubeStack
    | ItemStack
    | ItemSingle
    | ItemCharge
    | ItemDurability
    | ItemLocation

  /**
   * One item. Charge levels and look vectors are single-precision floats in
   * the game; here they are exact reals.
   */
  datatype Item =
    | CubeStack(itemId: int, cubeType: int, cubeValue: int, amount: int)
    | Stack(itemId: int, amount: int)
    | Single(itemId: int)
    | Charge(itemId: int, chargeLevel: real)
    | Durability(itemId: int, currentDurability: int, maxDurability: int)
    | Location(itemId: int, locX: int, locY: int, locZ: int, lookX: real, lookY: real, lookZ: real)

  /** The variant tag of an item (its `mType`). */
  function TypeOf(item: Item): ItemType
  {
    match item
    case CubeStack(_, _, _, _) => ItemCubeStack
    case Stack(_, _) => ItemStack
    case Single(_) => ItemSingle
    case Charge(_, _) => ItemCharge
    case Durability(_, _, _) => ItemDurability
    case Location(_, _, _, _, _, _, _) => ItemLocation
  }

  // ---------------------------------------------------------------------------
  // Comparison
  // ---------------------------------------------------------------------------

  /** Identity comparison: same item id and same variant tag. */
  predicate Compare(original: Item, comparer: Item)
  {
    original.itemId == comparer.itemId && TypeOf(original) == TypeOf(comparer)
  }

  function Abs(x: real): real
  {
    if x < 0.0 then -x else x
  }

  /** The tolerance used for every float comparison of the item model. */
  const FloatToleranceFactor: real := 0.1

  /**
   * Relative float equality: the difference may be at most the first
   * argument scaled by the tolerance. Note the asymmetry: only `f1` is scaled.
   */
  predicate FloatTolerance(f1: real, f2: real, tolerance: real)
  {
    Abs(f1 - f2) <= Abs(f1 * tolerance)
  }

  /*
   * The per-variant Compare overloads. Each receives the result of an
   * `As<T>()` cast, which is null when the item is not of that variant, and
   * is false on a null argument.
   */

  predicate CompareCubeStack(original: Item, comparer: Item)
  {
    original.CubeStack? && comparer.CubeStack? && Compare(original, comparer) &&
    original.cubeType == comparer.cubeType && original.cubeValue == comparer.cubeValue
  }

  predicate CompareDurability(original: Item, comparer: Item)
  {
    original.Durability? && comparer.Durability? && Compare(original, comparer) &&
    original.currentDurability == comparer.currentDurability &&
    original.maxDurability == comparer.maxDurability
  }

  predicate CompareStack(original: Item, comparer: Item)
  {
    original.Stack? && comparer.Stack? && Compare(original, comparer)
  }

  predicate CompareSingle(original: Item, comparer: Item)
  {
    original.Single? && comparer.Single? && Compare(original, comparer)
  }

  predicate CompareCharge(original: Item, comparer: Item)
  {
    original.Charge? && comparer.Charge? && Compare(original, comparer) &&
    FloatTolerance(original.chargeLevel, comparer.chargeLevel, FloatToleranceFactor)
  }

  predicate CompareLocation(original: Item, comparer: Item)
  {
    original.Location? && comparer.Location? && Compare(original, comparer) &&
    original.locX == comparer.locX && original.locY == comparer.locY && original.locZ == comparer.locZ &&
    FloatTolerance(original.lookX, comparer.lookX, FloatToleranceFactor) &&
    FloatTolerance(original.lookY, comparer.lookY, FloatToleranceFactor) &&
    FloatTolerance(original.lookZ, comparer.lookZ, FloatToleranceFactor)
  }

  /** Identity comparison followed by every per-variant comparison. */
  predicate CompareDeep(original: Item, comparer: Item)
  {
    Compare(original, comparer) &&
    (CompareCubeStack(original, comparer) || CompareDurability(original, comparer) ||
     CompareStack(original, comparer) || CompareSingle(original, comparer) ||
     CompareCharge(original, comparer) || CompareLocation(original, comparer))
  }

  lemma CompareIsEquivalence(a: Item, b: Item, c: Item)
    ensures Compare(a, a)
    ensures Compare(a, b) ==> Compare(b, a)
    ensures Compare(a, b) && Compare(b, c) ==> Compare(a, c)
    ensures Compare(a, b) <==> a.itemId == b.itemId && TypeOf(a) == TypeOf(b)
  {
  }

  /**
   * Deep equality implies identity; for two cube stacks it is exactly equal
   * cube type and value; for durability items exactly equal current and
   * maximum durability; and it never looks at a stack's amount.
   */
  lemma CompareDeepCharacterised(a: Item, b: Item, n: int)
    ensures CompareDeep(a, b) ==> Compare(a, b)
    ensures a.CubeStack? && b.CubeStack? ==>
      (CompareDeep(a, b) <==> a.itemId == b.itemId && a.cubeType == b.cubeType && a.cubeValue == b.cubeValue)
    ensures a.Durability? && b.Durability? ==>
      (CompareDeep(a, b) <==>
        a.itemId == b.itemId && a.currentDurability == b.currentDurability && a.maxDurability == b.maxDurability)
    ensures a.Stack? && b.Stack? ==> (CompareDeep(a, b) <==> a.itemId == b.itemId)
    ensures CompareDeep(SetAmount(a, n), b) == CompareDeep(a, b)
    ensures CompareDeep(a, SetAmount(b, n)) == CompareDeep(a, b)
  {
  }

  /** Deep equality is reflexive: the tolerance rule accepts equal floats. */
  lemma CompareDeepReflexive(a: Item)
    ensures CompareDeep(a, a)
  {
  }

  /**
   * Deep equality is not symmetric for charge items: the tolerance is
   * relative to the first argument only.
   */
  lemma CompareDeepNotSymmetric()
    ensures CompareDeep(Charge(7, 11.05), Charge(7, 10.0))
    ensures !CompareDeep(Charge(7, 10.0), Charge(7, 11.05))
  {
  }

  // ---------------------------------------------------------------------------
  // Stacks
  // ---------------------------------------------------------------------------

  /** Stackable items are exactly the two stack variants. */
  predicate IsStack(item: Item)
  {
    TypeOf(item) == ItemCubeStack || TypeOf(item) == ItemStack
  }

  lemma IsStackVariants(item: Item)
    ensures IsStack(item) <==> item.CubeStack? || item.Stack?
  {
  }

  /**
   * Both items are stacks and "the same". The second disjunct compares the
   * first argument with itself, so an entry of variant Stack matches every
   * incoming stack, cube stacks included.
   */
  predicate IsStackAndSame(item: Item, comparer: Item)
  {
    if !IsStack(item) || !IsStack(comparer) then false
    else CompareCubeStack(item, comparer) || CompareStack(item, item)
  }

  /** IsStackAndSame in closed form, showing which pairs it accepts. */
  lemma IsStackAndSameCharacterised(item: Item, comparer: Item)
    ensures IsStackAndSame(item, comparer) <==>
      IsStack(comparer) &&
      (item.Stack? ||
       (item.CubeStack? && comparer.CubeStack? && item.itemId == comparer.itemId &&
        item.cubeType == comparer.cubeType && item.cubeValue == comparer.cubeValue))
  {
  }

  /**
   * A plain stack entry is "the same" as every stack, whatever its item id
   * or variant, even one it is not deep-equal to.
   */
  lemma IsStackAndSameIgnoresIdentityOfStackEntry(e: Item, x: Item)
    requires e.Stack? && IsStack(x)
    ensures IsStackAndSame(e, x)
    ensures x.CubeStack? || x.itemId != e.itemId ==> !CompareDeep(e, x)
  {
  }

  /** The amount an item contributes to any count: a stack's size, otherwise 1. */
  function GetAmount(item: Item): (n: int)
    ensures IsStack(item) ==> n == item.amount
    ensures !IsStack(item) ==> n == 1
  {
    match item
    case CubeStack(_, _, _, amount) => amount
    case Stack(_, amount) => amount
    case _ => 1
  }

  /** The item with its amount (if any) blanked: what an amount update must preserve. */
  function WithoutAmount(item: Item): Item
  {
    if IsStack(item) then item.(amount := 0) else item
  }

  /** Two stacks (or one non-stack twice) that differ at most in their amount. */
  predicate SameExceptAmount(a: Item, b: Item)
  {
    WithoutAmount(a) == WithoutAmount(b)
  }

  function SetAmount(item: Item, amount: int): (r: Item)
    ensures SameExceptAmount(r, item)
    ensures IsStack(item) ==> GetAmount(r) == amount
    ensures !IsStack(item) ==> r == item
  {
    if !IsStack(item) then item else item.(amount := amount)
  }

  function IncrementStack(item: Item, amount: int): (r: Item)
    ensures SameExceptAmount(r, item)
    ensures IsStack(item) ==> GetAmount(r) == GetAmount(item) + amount
    ensures !IsStack(item) ==> r == item
  {
    if !IsStack(item) then item else item.(amount := item.amount + amount)
  }

  function DecrementStack(item: Item, amount: int): (r: Item)
    ensures SameExceptAmount(r, item)
    ensures IsStack(item) ==> GetAmount(r) == GetAmount(item) - amount
    ensures !IsStack(item) ==> r == item
  {
    if !IsStack(item) then item else item.(amount := item.amount - amount)
  }

  /** An item is determined by its variant fields and its amount. */
  lemma SameExceptAmountAndAmountEqual(a: Item, b: Item)
    requires SameExceptAmount(a, b) && GetAmount(a) == GetAmount(b)
    ensures a == b
  {
  }

  /** Decrementing undoes incrementing, and setting an item's own amount changes nothing. */
  lemma StackArithmeticInverse(item: Item, n: int, m: int)
    ensures DecrementStack(IncrementStack(item, n), n) == item
    ensures IncrementStack(DecrementStack(item, n), n) == item
    ensures SetAmount(item, GetAmount(item)) == item
    ensures SetAmount(SetAmount(item, n), m) == SetAmount(item, m)
  {
    SameExceptAmountAndAmountEqual(DecrementStack(IncrementStack(item, n), n), item);
    SameExceptAmountAndAmountEqual(IncrementStack(DecrementStack(item, n), n), item);
    SameExceptAmountAndAmountEqual(SetAmount(item, GetAmount(item)), item);
  }

  /** Amount updates keep identity and deep equality with the original. */
  lemma AmountUpdatesKeepKind(item: Item, n: int)
    ensures CompareDeep(SetAmount(item, n), item)
    ensures CompareDeep(IncrementStack(item, n), item)
    ensures CompareDeep(DecrementStack(item, n), item)
  {
  }

  // ---------------------------------------------------------------------------
  // Cloning
  // ---------------------------------------------------------------------------

  /** C#'s `(int)` cast of a float: truncation toward zero. */
  function TruncateToInt(f: real): (n: int)
    ensures 0.0 <= f ==> 0 <= n && n as real <= f < n as real + 1.0
    ensures f < 0.0 ==> n <= 0 && n as real - 1.0 < f <= n as real
  {
    if f >= 0.0 then f.Floor else -((-f).Floor)
  }

  /**
   * A fresh item of the same variant. Every integer field is copied; the
   * charge level goes through an `(int)` cast. The cube stack's item id is
   * assigned by the engine's constructor; the model keeps the original's.
   */
  function NewInstance(item: Item): (r: Item)
    ensures TypeOf(r) == TypeOf(item) && r.itemId == item.itemId
    ensures GetAmount(r) == GetAmount(item)
    ensures !item.Charge? ==> r == item
    ensures item.Charge? ==> r.chargeLevel == TruncateToInt(item.chargeLevel) as real
  {
    match item
    case CubeStack(id, cubeType, cubeValue, amount) => CubeStack(id, cubeType, cubeValue, amount)
    case Stack(id, amount) => Stack(id, amount)
    case Charge(id, level) => Charge(id, TruncateToInt(level) as real)
    case Durability(id, current, max) => Durability(id, current, max)
    case Location(id, x, y, z, lx, ly, lz) => Location(id, x, y, z, lx, ly, lz)
    case Single(id) => Single(id)
  }

  /** A clone is deep-equal to its original, except possibly a charge item. */
  lemma NewInstanceDeepEqual(item: Item)
    ensures Compare(NewInstance(item), item)
    ensures !item.Charge? ==> CompareDeep(NewInstance(item), item)
  {
    CompareDeepReflexive(item);
  }

  /** The `(int)` cast loses a fractional charge level, so the clone is not deep-equal. */
  lemma NewInstanceLosesCharge()
    ensures NewInstance(Charge(3, 0.5)) == Charge(3, 0.0)
    ensures !CompareDeep(NewInstance(Charge(3, 0.5)), Charge(3, 0.5))
  {
  }

  // ---------------------------------------------------------------------------
  // Counting
  // ---------------------------------------------------------------------------

  /** Total count of a list: the sum of GetAmount over its entries. */
  function GetItemCount(items: seq<Item>): int
  {
    if items == [] then 0 else GetAmount(items[0]) + GetItemCount(items[1..])
  }

  /** The entries with the given item id, in order (LINQ `Where`). */
  function WithItemId(items: seq<Item>, itemId: int): (r: seq<Item>)
    ensures forall x :: x in r <==> x in items && x.itemId == itemId
  {
    if items == [] then []
    else (if items[0].itemId == itemId then [items[0]] else []) + WithItemId(items[1..], itemId)
  }

  /** The cube stacks with the given cube type and value, in order (LINQ `Where`). */
  function WithCube(items: seq<Item>, cubeId: int, cubeValue: int): (r: seq<Item>)
    ensures forall x :: x in r <==> x in items && x.CubeStack? && x.cubeType == cubeId && x.cubeValue == cubeValue
  {
    if items == [] then []
    else
      (if items[0].CubeStack? && items[0].cubeType == cubeId && items[0].cubeValue == cubeValue
       then [items[0]] else []) + WithCube(items[1..], cubeId, cubeValue)
  }

  function GetItemCountOfId(items: seq<Item>, itemId: int): int
  {
    GetItemCount(WithItemId(items, itemId))
  }

  function GetItemCountOfCube(items: seq<Item>, cubeId: int, cubeValue: int): int
  {
    GetItemCount(WithCube(items, cubeId, cubeValue))
  }

  /** Count restricted by an example: by cube type and value for a cube stack, otherwise by item id. */
  function GetItemCountLike(items: seq<Item>, restraints: Item): int
  {
    if TypeOf(restraints) != ItemCubeStack then GetItemCountOfId(items, restraints.itemId)
    else GetItemCountOfCube(items, restraints.cubeType, restraints.cubeValue)
  }

  /** Every stack in the list has a non-negative amount. */
  predicate NonNegativeAmounts(items: seq<Item>)
  {
    forall i :: 0 <= i < |items| ==> GetAmount(items[i]) >= 0
  }

  lemma {:induction false} GetItemCountAppend(a: seq<Item>, b: seq<Item>)
    ensures GetItemCount(a + b) == GetItemCount(a) + GetItemCount(b)
  {
    if a == [] {
      assert a + b == b;
    } else {
      assert (a + b)[1..] == a[1..] + b;
      GetItemCountAppend(a[1..], b);
    }
  }

  /** Replacing one entry changes the count by the difference of the amounts. */
  lemma {:induction false} GetItemCountUpdate(items: seq<Item>, k: nat, x: Item)
    requires k < |items|
    ensures GetItemCount(items[k := x]) == GetItemCount(items) - GetAmount(items[k]) + GetAmount(x)
  {
    if k == 0 {
      assert items[k := x][1..] == items[1..];
    } else {
      assert items[k := x][1..] == items[1..][k - 1 := x];
      GetItemCountUpdate(items[1..], k - 1, x);
    }
  }

  /** Removing one entry lowers the count by that entry's amount. */
  lemma GetItemCountRemove(items: seq<Item>, k: nat)
    requires k < |items|
    ensures GetItemCount(items[..k] + items[k + 1..]) == GetItemCount(items) - GetAmount(items[k])
  {
    var front, back := items[..k], items[k + 1..];
    var tail := [items[k]] + back;
    assert items == front + tail;
    assert tail[1..] == back;
    assert GetItemCount(tail) == GetAmount(items[k]) + GetItemCount(back);
    GetItemCountAppend(front, tail);
    GetItemCountAppend(front, back);
  }

  /**
   * With non-negative amounts the total is non-negative, and zero exactly
   * when every entry is a stack of size zero.
   */
  lemma {:induction false} GetItemCountNonNegative(items: seq<Item>)
    requires NonNegativeAmounts(items)
    ensures GetItemCount(items) >= 0
    ensures GetItemCount(items) == 0 <==> forall i :: 0 <= i < |items| ==> IsStack(items[i]) && items[i].amount == 0
  {
    if items != [] {
      assert NonNegativeAmounts(items[1..]) by {
        forall i | 0 <= i < |items[1..]| ensures GetAmount(items[1..][i]) >= 0 {
          assert items[1..][i] == items[i + 1];
        }
      }
      GetItemCountNonNegative(items[1..]);
      forall i | 0 <= i < |items| && GetItemCount(items) == 0
        ensures IsStack(items[i]) && items[i].amount == 0
      {
        if i > 0 {
          assert items[i] == items[1..][i - 1];
        }
      }
    }
  }

  /** A restricted count never exceeds the total when amounts are non-negative. */
  lemma {:induction false} GetItemCountOfIdBounded(items: seq<Item>, itemId: int)
    requires NonNegativeAmounts(items)
    ensures 0 <= GetItemCountOfId(items, itemId) <= GetItemCount(items)
  {
    if items != [] {
      assert NonNegativeAmounts(items[1..]) by {
        forall i | 0 <= i < |items[1..]| ensures GetAmount(items[1..][i]) >= 0 {
          assert items[1..][i] == items[i + 1];
        }
      }
      GetItemCountOfIdBounded(items[1..], itemId);
      var head := if items[0].itemId == itemId then [items[0]] else [];
      GetItemCountAppend(head, WithItemId(items[1..], itemId));
      assert GetItemCount(head) == (if items[0].itemId == itemId then GetAmount(items[0]) else 0) by {
        if items[0].itemId == itemId {
          assert head[1..] == [];
        }
      }
    }
  }

  /** A cube-restricted count never exceeds the total when amounts are non-negative. */
  lemma {:induction false} GetItemCountOfCubeBounded(items: seq<Item>, cubeId: int, cubeValue: int)
    requires NonNegativeAmounts(items)
    ensures 0 <= GetItemCountOfCube(items, cubeId, cubeValue) <= GetItemCount(items)
  {
    if items != [] {
      assert NonNegativeAmounts(items[1..]) by {
        forall i | 0 <= i < |items[1..]| ensures GetAmount(items[1..][i]) >= 0 {
          assert items[1..][i] == items[i + 1];
        }
      }
      GetItemCountOfCubeBounded(items[1..], cubeId, cubeValue);
      var hit := items[0].CubeStack? && items[0].cubeType == cubeId && items[0].cubeValue == cubeValue;
      var head := if hit then [items[0]] else [];
      GetItemCountAppend(head, WithCube(items[1..], cubeId, cubeValue));
      assert GetItemCount(head) == (if hit then GetAmount(items[0]) else 0) by {
        if hit {
          assert head[1..] == [];
        }
      }
    }
  }

  /** Selecting by item id keeps the order: it distributes over concatenation. */
  lemma {:induction false} WithItemIdAppend(a: seq<Item>, b: seq<Item>, itemId: int)
    ensures WithItemId(a + b, itemId) == WithItemId(a, itemId) + WithItemId(b, itemId)
  {
    if a == [] {
      assert a + b == b;
    } else {
      assert (a + b)[0] == a[0];
      assert (a + b)[1..] == a[1..] + b;
      WithItemIdAppend(a[1..], b, itemId);
    }
  }

  /** Selecting by cube type and value keeps the order: it distributes over concatenation. */
  lemma {:induction false} WithCubeAppend(a: seq<Item>, b: seq<Item>, cubeId: int, cubeValue: int)
    ensures WithCube(a + b, cubeId, cubeValue) == WithCube(a, cubeId, cubeValue) + WithCube(b, cubeId, cubeValue)
  {
    if a == [] {
      assert a + b == b;
    } else {
      assert (a + b)[0] == a[0];
      assert (a + b)[1..] == a[1..] + b;
      WithCubeAppend(a[1..], b, cubeId, cubeValue);
    }
  }

  /** Selecting by item id keeps every copy of a matching entry and drops every copy of the others. */
  lemma {:induction false} WithItemIdMultiplicity(items: seq<Item>, itemId: int, x: Item)
    ensures multiset(WithItemId(items, itemId))[x] == if x.itemId == itemId then multiset(items)[x] else 0
  {
    if items != [] {
      assert items == [items[0]] + items[1..];
      WithItemIdMultiplicity(items[1..], itemId, x);
    }
  }

  /** Selecting by cube type and value keeps every copy of a matching cube stack and drops every copy of the rest. */
  lemma {:induction false} WithCubeMultiplicity(items: seq<Item>, cubeId: int, cubeValue: int, x: Item)
    ensures multiset(WithCube(items, cubeId, cubeValue))[x] ==
      if x.CubeStack? && x.cubeType == cubeId && x.cubeValue == cubeValue then multiset(items)[x] else 0
  {
    if items != [] {
      assert items == [items[0]] + items[1..];
      WithCubeMultiplicity(items[1..], cubeId, cubeValue, x);
    }
  }

  /** The count of a one-entry list is that entry's amount. */
  lemma GetItemCountSingleton(x: Item)
    ensures GetItemCount([x]) == GetAmount(x)
  {
    assert [x][1..] == [];
  }

  /**
   * Counting by an example that is not a cube stack matches on item id
   * alone: an entry of any variant with that id adds its amount.
   */
  lemma GetItemCountLikeIgnoresVariant(items: seq<Item>, x: Item, restraints: Item)
    requires !restraints.CubeStack?
    ensures GetItemCountLike(items + [x], restraints) ==
      GetItemCountLike(items, restraints) + (if x.itemId == restraints.itemId then GetAmount(x) else 0)
  {
    var id := restraints.itemId;
    WithItemIdAppend(items, [x], id);
    GetItemCountAppend(WithItemId(items, id), WithItemId([x], id));
    assert [x][1..] == [];
    GetItemCountSingleton(x);
  }

  /**
   * Counting by a cube-stack example matches on cube type and value alone:
   * a cube stack of any item id adds its amount, any other entry nothing.
   */
  lemma GetItemCountLikeCubeOnly(items: seq<Item>, x: Item, restraints: Item)
    requires restraints.CubeStack?
    ensures GetItemCountLike(items + [x], restraints) ==
      GetItemCountLike(items, restraints) +
      (if x.CubeStack? && x.cubeType == restraints.cubeType && x.cubeValue == restraints.cubeValue
       then GetAmount(x) else 0)
  {
    WithCubeAppend(items, [x], restraints.cubeType, restraints.cubeValue);
    GetItemCountAppend(WithCube(items, restraints.cubeType, restraints.cubeValue),
                       WithCube([x], restraints.cubeType, restraints.cubeValue));
    assert [x][1..] == [];
    GetItemCountSingleton(x);
  }

  /** Worked case: a single, an item stack and a durability item of id 4 all count for a stack example of id 4. */
  lemma GetItemCountLikeIdExample()
    ensures GetItemCountLike([Single(4), Stack(4, 6), Durability(4, 1, 2)], Stack(4, 1)) == 8
  {
    var r := Stack(4, 1);
    var l1, l2, l3 := [Single(4)], [Single(4), Stack(4, 6)], [Single(4), Stack(4, 6), Durability(4, 1, 2)];
    assert GetItemCountLike([], r) == 0;
    assert [] + [Single(4)] == l1;
    GetItemCountLikeIgnoresVariant([], Single(4), r);
    assert GetItemCountLike(l1, r) == 1;
    assert l1 + [Stack(4, 6)] == l2;
    GetItemCountLikeIgnoresVariant(l1, Stack(4, 6), r);
    assert GetItemCountLike(l2, r) == 7;
    assert l2 + [Durability(4, 1, 2)] == l3;
    GetItemCountLikeIgnoresVariant(l2, Durability(4, 1, 2), r);
  }

  /** Worked case: a cube-stack example does not count an item stack of the same id. */
  lemma GetItemCountLikeCubeExample()
    ensures GetItemCountLike([CubeStack(9, 2, 0, 6), Stack(9, 5)], CubeStack(9, 2, 0, 1)) == 6
  {
    var items := [CubeStack(9, 2, 0, 6), Stack(9, 5)];
    assert items[1..] == [Stack(9, 5)];
    assert WithCube([Stack(9, 5)], 2, 0) == [];
    assert WithCube(items, 2, 0) == [CubeStack(9, 2, 0, 6)];
    assert GetItemCount([CubeStack(9, 2, 0, 6)]) == 6;
  }
}
