# FortressCraft item and machine-inventory utilities, modelled in Dafny

This project models the inventory core of the FortressCraft Evolved community tools:

- `ItemBaseUtil.cs`, the extension methods on the game's items. These cover item comparison (shallow by id and
  type, and deep per item kind with a 10 % float tolerance), stack queries and arithmetic (`IsStack`,
  `IsStackAndSame`, `GetAmount`, `SetAmount`, `IncrementStack`, `DecrementStack`), cloning (`NewInstance`), and the
  `GetItemCount` overloads. They also cover the three list transfers that all machines rely on: `AddListItem`
  (insert into a capacity-bounded list and return the overflow), `TakeListItem` (take one matching item or stack)
  and `TakeAnyListItem` (move up to an amount from one list to another).
- `Utilities/MachineInventory.cs`, the per-machine inventory object. It holds a capacity and a list of items. On
  top of the list transfers it offers add, fill and remove operations, with optional whitelist or blacklist
  filters. It also has capacity queries, dropping of the whole contents when the machine is deleted, and a
  versioned save format.

Modules:

- `Items` (`Items.dfy`) covers the items themselves. An `Item` is a value with one variant per item kind. The game
  changes an item's amount in place; here that update is a function that returns the changed item.
- `ListTransfer` (`ListTransfer.dfy`) covers the list transfers. Each transfer is a Dafny `method` whose
  postcondition equates its outcome with a specification function (`Added`, `Taken`, `Moved`). Where the C# code
  scans a list with `foreach`, the method has a `while` loop with invariants. The stack case of `TakeListItem`
  looks only at the first entry, so it is an `if` on that entry rather than a loop. The properties of each
  transfer are proved about its specification function as lemmas.
- `Inventory` (`Inventory.dfy`) covers the machine inventory. `MachineInventory` is a class whose `Inventory` field
  (a `seq<Item>`) the methods reassign. The pure queries are functions reading the object.
- The LINQ sums and filters (`GetItemCount`, `Where`) are recursive functions over sequences.
- The save format is modelled as a stream of integer words, with the per-item codec passed in as a pair of
  functions. A write followed by a read restores the list, given a codec that reads back each written item
  (`SerialisedRoundTrip`, `Reload`). `StackCodecRoundTrips` shows that such a codec exists.

The model follows the code as written, also where it differs from what the method names and doc comments
suggest:

- A stack with no matching partner in the target list is not appended by `AddListItem` (`ItemBaseUtil.cs`
  lines 347-357). Only an overflow beyond the capacity is returned (lines 339-345), so the part that fits is lost.
  `AddedStackWithoutPartnerIsLost` states this for a stack that fits whole.
- For stacks, `TakeListItem` inspects only the first entry of the list (lines 389-409). A partial take that finds
  too few items leaves that entry untouched and returns the example resized to the entry's amount
  (lines 402-406).
- `TakeAnyListItem` processes at most one source entry. It has no early stop when the target is full for
  stacks.
- When a stack entry is no larger than the request but larger than the free space, `TakeAnyListItem` removes
  the entry whole while delivering only the free space (lines 460-467 and 477-481). The rest of the units
  vanish (`MovedStackOverflowLosesUnits`).
- After removing an entry without a `return`, `TakeAnyListItem` continues the enumeration of a modified list.
  This happens for a small stack (lines 483-488) and for a non-stack (lines 493-498). The model records that as
  the status `EnumeratorFault`.
- An unknown save version is only logged (`MachineInventory.cs` lines 357-359). `ReadInventory` leaves the
  contents unchanged and reports `UnknownVersion`.

## Model

| member | source | states |
|---|---|---|
| Items.Compare | ItemBaseUtil.cs:36-39 | the base overload: two items match when their item ids and item types agree; its properties are in `CompareIsEquivalence` |
| Items.CompareDeep | ItemBaseUtil.cs:18-28 | dispatch to the overload of the items' kind, after the base comparison; its properties are in `CompareDeepCharacterised`, `CompareDeepReflexive` and `CompareDeepNotSymmetric` |
| Items.CompareCubeStack | ItemBaseUtil.cs:48-54 | the cube-stack overload: both cube stacks, base match, equal cube type and value, amount ignored |
| Items.CompareDurability | ItemBaseUtil.cs:62-67 | the durability overload: both durability items, base match, equal current and maximum durability |
| Items.CompareStack | ItemBaseUtil.cs:75-79 | the item-stack overload: both item stacks and a base match, amount ignored |
| Items.CompareSingle | ItemBaseUtil.cs:87-90 | the single-item overload: both single items and a base match |
| Items.CompareCharge | ItemBaseUtil.cs:98-102 | the charge overload: both charged items, base match, charge levels within the tolerance |
| Items.CompareLocation | ItemBaseUtil.cs:113-127 | the location overload: both location items, base match, equal integer location, and the three look-vector components each within the tolerance |
| Items.FloatTolerance | ItemBaseUtil.cs:318-322 | the difference of the two values is at most the first value times the tolerance, in absolute terms |
| Items.CompareIsEquivalence | ItemBaseUtil.cs:36-39 | shallow comparison (same item id and same item type) is reflexive, symmetric and transitive |
| Items.CompareDeepCharacterised | ItemBaseUtil.cs:18-67 | deep comparison implies the shallow one; between two cube stacks it holds exactly when id, cube type and value agree, between two durability items exactly when id, current and maximum durability agree, between two item stacks exactly when the ids agree; a stack's amount never matters |
| Items.CompareDeepReflexive | ItemBaseUtil.cs:18-28 | every item is deep-equal to itself |
| Items.CompareDeepNotSymmetric | ItemBaseUtil.cs:318-322 | the tolerance is relative to the first argument, so deep comparison is not symmetric: charge 11.05 matches 10.0 but 10.0 does not match 11.05 |
| Items.IsStack | ItemBaseUtil.cs:134-137 | the item type is cube stack or item stack; characterised by `IsStackVariants` |
| Items.IsStackVariants | ItemBaseUtil.cs:134-137 | an item is a stack exactly when it is a cube stack or an item stack |
| Items.IsStackAndSame | ItemBaseUtil.cs:145-151 | both are stacks, and either the cube-stack overload matches or the item matches itself as an item stack; characterised by `IsStackAndSameCharacterised` |
| Items.IsStackAndSameCharacterised | ItemBaseUtil.cs:145-151 | two items are stack partners exactly when both are stacks and either the cube stacks agree on id, cube type and value, or the item is an item stack of any id |
| Items.IsStackAndSameIgnoresIdentityOfStackEntry | ItemBaseUtil.cs:145-151 | for every item-stack entry and every stack, the entry is a partner of the stack, whatever its id or kind, also when the two are not deep-equal |
| Items.GetAmount | ItemBaseUtil.cs:236-247 | a stack reports its amount and every other item reports 1 |
| Items.SetAmount | ItemBaseUtil.cs:189-198 | a stack gets exactly the new amount and keeps every other field; any other item is unchanged |
| Items.IncrementStack | ItemBaseUtil.cs:158-166 | a stack's amount grows by the given amount and its other fields are kept; any other item is unchanged |
| Items.DecrementStack | ItemBaseUtil.cs:173-181 | a stack's amount shrinks by the given amount and its other fields are kept; any other item is unchanged |
| Items.StackArithmeticInverse | ItemBaseUtil.cs:158-198 | decrementing undoes incrementing, and setting a stack's current amount leaves it unchanged |
| Items.AmountUpdatesKeepKind | ItemBaseUtil.cs:158-198 | setting, incrementing or decrementing an amount leaves the item deep-equal to the original |
| Items.TruncateToInt | ItemBaseUtil.cs:215-217 | the cast of the charge level to an integer rounds toward zero: the result lies within one of the value, on the zero side |
| Items.NewInstance | ItemBaseUtil.cs:205-229 | the clone has the original's kind, id and amount and equals it field for field, except that a charged item's charge is truncated to a whole number |
| Items.NewInstanceDeepEqual | ItemBaseUtil.cs:205-229 | a clone is shallow-equal to its original, and deep-equal to it unless it is a charged item |
| Items.NewInstanceLosesCharge | ItemBaseUtil.cs:215-217 | cloning a charged item with charge 0.5 yields charge 0, which is not deep-equal to the original |
| Items.WithItemId | ItemBaseUtil.cs:265-268 | every entry of the selection has the given id and comes from the list, and every such entry of the list is in the selection |
| Items.WithCube | ItemBaseUtil.cs:277-286 | every entry of the selection is a cube stack of the given type and value and comes from the list, and every such entry of the list is in the selection |
| Items.GetItemCount | ItemBaseUtil.cs:254-257 | the sum of `GetAmount` over the list; its properties are in the lemmas below |
| Items.GetItemCountOfId | ItemBaseUtil.cs:265-268 | the item-id overload: the count of the entries with that id |
| Items.GetItemCountOfCube | ItemBaseUtil.cs:277-286 | the cube overload: the count of the cube stacks with that type and value |
| Items.GetItemCountLike | ItemBaseUtil.cs:294-301 | the example overload: by cube type and value for a cube-stack example, by item id otherwise |
| Items.WithItemIdMultiplicity | ItemBaseUtil.cs:265-268 | selecting by id keeps every copy of an entry with that id and no copy of any other entry |
| Items.WithCubeMultiplicity | ItemBaseUtil.cs:277-286 | selecting by cube keeps every copy of a matching cube stack and no copy of any other entry |
| Items.WithItemIdAppend | ItemBaseUtil.cs:265-268 | selecting by id keeps the list order: it distributes over concatenation |
| Items.WithCubeAppend | ItemBaseUtil.cs:277-286 | selecting by cube keeps the list order: it distributes over concatenation |
| Items.GetItemCountAppend | ItemBaseUtil.cs:254-257 | the total count of a concatenation is the sum of the counts |
| Items.GetItemCountUpdate | ItemBaseUtil.cs:254-257 | replacing one entry changes the total count by the difference of the two amounts |
| Items.GetItemCountRemove | ItemBaseUtil.cs:254-257 | removing one entry lowers the total count by that entry's amount |
| Items.GetItemCountNonNegative | ItemBaseUtil.cs:254-257 | with non-negative stack amounts the count is non-negative, and it is zero exactly when every entry is a stack of amount zero |
| Items.GetItemCountOfIdBounded | ItemBaseUtil.cs:265-268 | the count of one item id never exceeds the total count |
| Items.GetItemCountOfCubeBounded | ItemBaseUtil.cs:277-286 | the count of one cube type and value never exceeds the total count |
| Items.GetItemCountLikeIgnoresVariant | ItemBaseUtil.cs:294-301 | for every list, entry and example that is not a cube stack, appending the entry adds its amount exactly when its item id equals the example's, whatever the entry's kind |
| Items.GetItemCountLikeCubeOnly | ItemBaseUtil.cs:294-301 | for every list, entry and cube-stack example, appending the entry adds its amount exactly when it is a cube stack of the example's type and value, whatever its item id |
| Items.GetItemCountLikeIdExample | ItemBaseUtil.cs:294-301 | worked case: a single, an item stack of 6 and a durability item, all of id 4, count 8 for an item-stack example of id 4 |
| Items.GetItemCountLikeCubeExample | ItemBaseUtil.cs:294-301 | worked case: a cube-stack example counts a matching cube stack of 6 and not an item stack of the same id |
| ListTransfer.FirstStackPartner | ItemBaseUtil.cs:349-356 | the result is the first index holding a stack partner of the item, or the list's length when there is none |
| ListTransfer.Added | ItemBaseUtil.cs:332-361 | the outcome of `AddListItem` as a function of its inputs; its properties are in the `Added…` lemmas |
| ListTransfer.AddListItem | ItemBaseUtil.cs:332-361 | the list and returned overflow produced by the loop are those of the specification `Added` |
| ListTransfer.AddedFits | ItemBaseUtil.cs:334-360 | an item that fits in the spare capacity is kept unchanged and nothing is returned |
| ListTransfer.AddedOverflow | ItemBaseUtil.cs:339-346 | when the item does not fit, something of the same kind and id is always returned: a stack is cut to exactly the spare capacity and the positive remainder is returned, and the list receives the cut stack only when it holds a partner (`AddedPlacement`); a non-stack is kept whole and a clone of it is returned |
| ListTransfer.AddedPlacement | ItemBaseUtil.cs:347-359 | a non-stack is appended at the end; a stack increments its first partner by the amount kept and changes nothing else; a stack without a partner leaves the list unchanged |
| ListTransfer.AddedCount | ItemBaseUtil.cs:347-359 | the list's count grows by 1 for a non-stack, by the amount kept for a stack with a partner, and by 0 otherwise |
| ListTransfer.AddedStackConserves | ItemBaseUtil.cs:334-360 | for a stack with a partner, what the list gains plus what is returned equals the stack's amount, and the list stays within capacity |
| ListTransfer.AddedStackWithoutPartnerIsLost | ItemBaseUtil.cs:347-357 | a stack without a partner that would fit leaves the list unchanged and nothing is returned, so its units are lost |
| ListTransfer.AddedNonStackOverflowExceedsCapacity | ItemBaseUtil.cs:339-359 | a non-stack added to a full list is appended anyway, so the count exceeds the capacity by one, and a clone is also returned |
| ListTransfer.AddedExamples | ItemBaseUtil.cs:332-361 | worked cases: a cube stack merges into its partner, a durability item added twice is appended twice, and a 20-stack added to an empty list of capacity 15 returns 5 while the other 15 are lost |
| ListTransfer.FirstMatch | ItemBaseUtil.cs:412-419 | the result is the first index whose entry shallowly matches the item, or the list's length when there is none |
| ListTransfer.Taken | ItemBaseUtil.cs:383-421 | the outcome of `TakeListItem` as a function of its inputs; its properties are in the `Taken…` lemmas |
| ListTransfer.TakeListItem | ItemBaseUtil.cs:383-421 | the list and result produced by the method are those of the specification `Taken` |
| ListTransfer.TakenFromEmpty | ItemBaseUtil.cs:385-420 | taking from an empty list returns nothing and leaves the list empty |
| ListTransfer.TakenNonStack | ItemBaseUtil.cs:411-420 | a non-stack take returns nothing exactly when no entry matches, and then leaves the list alone; otherwise it removes and returns the first match, and the count drops by its amount |
| ListTransfer.TakenStack | ItemBaseUtil.cs:385-410 | a stack take looks at the first entry: if it matches and is larger, it is decremented by the request and keeps its kind, id and other fields; if it matches and is equal, it is removed; in both cases the request is returned and the count drops by its amount; otherwise the list is unchanged and a partial take returns the request resized to the first entry's amount, a whole take nothing |
| ListTransfer.TakenStackOnlyFirst | ItemBaseUtil.cs:389-409 | for a stack take, the entries after the first play no part in the result and are left as they were |
| ListTransfer.TakenPartialExamples | ItemBaseUtil.cs:402-406 | worked cases: a partial take of 10 from a stack of 4 returns 4 and does not remove it, a whole take returns nothing, and a mismatching first entry yields the request resized to that entry's amount |
| ListTransfer.FirstPassing | ItemBaseUtil.cs:439 | the result is the first index whose entry passes the filter, or the list's length when there is none |
| ListTransfer.Moved | ItemBaseUtil.cs:431-505 | the outcome of a filtered `TakeAnyListItem` as a function of its inputs; its properties are in the `Moved…` lemmas |
| ListTransfer.MovedEntry | ItemBaseUtil.cs:441-503 | the loop body for the first entry that passes the filter, with its seven branches |
| ListTransfer.Delivered | ItemBaseUtil.cs:449-450 | handing q units of an entry to the target: a clone resized to q, added at the default capacity |
| ListTransfer.MoveItems | ItemBaseUtil.cs:431-505 | the source list, target list and status after the loop are those of the specification `Moved` for the given filter |
| ListTransfer.TakeAnyListItem | ItemBaseUtil.cs:431-505 | the outcome is `Moved` with every entry passing the filter |
| ListTransfer.MovedNonPositiveAmount | ItemBaseUtil.cs:435-438 | a move of zero or fewer items changes nothing and finishes |
| ListTransfer.MovedTouchesOneEntry | ItemBaseUtil.cs:439-504 | a move changes at most the first source entry that passes the filter, either in place or by removing it; all other entries keep their value and order; a fault happens only after a removal and only when not taking the first item alone |
| ListTransfer.MovedAnyTakesFirstEntry | ItemBaseUtil.cs:439-504 | with no filter, the first source entry is the one processed |
| ListTransfer.MovedLargerStack | ItemBaseUtil.cs:445-459 | a source stack larger than the request is decremented by the smaller of the request and the free space, that many units are delivered, and the move finishes |
| ListTransfer.MovedRespectsCapacity | ItemBaseUtil.cs:442-500 | if the target starts within its capacity, it ends within it |
| ListTransfer.DeliveredCount | ItemBaseUtil.cs:449-485 | delivering q units of a stack raises the target's count by q when the target holds a partner, and by nothing otherwise |
| ListTransfer.MovedStackConservesWhenItFits | ItemBaseUtil.cs:445-488 | when the target holds a partner and the units fit in the free space, the total over both lists is unchanged |
| ListTransfer.MovedStackSourceCount | ItemBaseUtil.cs:443-489 | for a stack entry, the source count drops by the smaller of the request and the free space when the entry is larger than the request, and by the whole entry otherwise |
| ListTransfer.MovedStackWithoutPartnerIsLost | ItemBaseUtil.cs:443-489 | when the target holds no partner for the stack, the target is unchanged while the source gives up the units handed over (from a larger entry) or the whole entry (otherwise) |
| ListTransfer.MovedStackOverflowLosesUnits | ItemBaseUtil.cs:460-481 | a stack entry no larger than the request but larger than the free space is removed whole, the move finishes, and the total over both lists strictly drops |
| ListTransfer.MovedNonStack | ItemBaseUtil.cs:491-503 | with free space, a non-stack leaves the source, a clone is appended to the target, the total over both lists is unchanged, and the enumeration faults unless only the first item was to be taken |
| ListTransfer.MovedIntoEmptyTargetExample | ItemBaseUtil.cs:439-489 | 50 units moved into an empty target of capacity 10 empty the source and deliver nothing |
| ListTransfer.MovedIntoPartnerExample | ItemBaseUtil.cs:439-489 | the same move into a target holding a partner delivers only 10 units and empties the source |
| ListTransfer.MovedSinglesExample | ItemBaseUtil.cs:439-504 | moving two singles moves the first and then faults |
| Inventory.DropTrace | Utilities/MachineInventory.cs:307-314 | one drop per inventory entry, in order, each at the machine's position |
| Inventory.PassesFilter | Utilities/MachineInventory.cs:67-107 | an entry passes a whitelist when it matches some entry of it, and a blacklist when it matches none |
| Inventory.FilteredMoveSkipsRejected | Utilities/MachineInventory.cs:67-107 | a filtered move over a list whose every entry the filter rejects changes nothing |
| Inventory.WhiteAndBlackListComplement | Utilities/MachineInventory.cs:67-107 | the blacklist built from a list passes exactly the items that the whitelist built from the same list rejects |
| Inventory.RemovedAnySingle | Utilities/MachineInventory.cs:195-202 | `RemoveAnySingle` as a function: a first-item move into a fresh list capped at the amount, returning its first entry |
| Inventory.RemovedAnySingleResult | Utilities/MachineInventory.cs:195-202 | an item comes back exactly when the request is positive and the first entry is not a stack; it is a clone of that entry, which leaves the inventory; a first stack entry loses units but nothing comes back |
| Inventory.Serialised | Utilities/MachineInventory.cs:322-333 | the words `WriteInventory` emits: version 0, the entry count, then each entry's encoding |
| Inventory.ReadItems | Utilities/MachineInventory.cs:346-356 | reading the announced number of slots, skipping null slots, stopping when the stream runs out |
| Inventory.Deserialised | Utilities/MachineInventory.cs:339-361 | `ReadInventory` as a function of the stream: version check, count, then the slots |
| Inventory.EncodeAllAppend | Utilities/MachineInventory.cs:329-332 | encoding a list with one more entry appends that entry's encoding |
| Inventory.EncodeAllConcat | Utilities/MachineInventory.cs:329-332 | encoding the concatenation of two lists is the concatenation of their encodings |
| Inventory.ReadItemsAppends | Utilities/MachineInventory.cs:346-356 | reading keeps what has already been read as a prefix of the result |
| Inventory.ReadItemsOfEncoded | Utilities/MachineInventory.cs:346-356 | with a codec that reads back each of the items, reading back their encodings yields exactly those items and the rest of the stream |
| Inventory.SerialisedRoundTrip | Utilities/MachineInventory.cs:322-356 | with a codec that reads back each of the items, reading the written save restores the inventory list exactly |
| Inventory.StackCodecRoundTrips | Utilities/MachineInventory.cs:329-356 | the round-trip hypothesis can be met: a two-word codec for item stacks reads back every item stack it wrote |
| Inventory.DeserialisedUnknownVersion | Utilities/MachineInventory.cs:357-359 | a save with a version other than 0 loads nothing |
| Inventory.DeserialisedBounded | Utilities/MachineInventory.cs:346-356 | a load yields at most as many items as the save's count says |
| Inventory.MachineInventory.constructor | Utilities/MachineInventory.cs:33-38 | a new inventory belongs to its machine, has the given capacity and is empty |
| Inventory.MachineInventory.ItemCount | Utilities/MachineInventory.cs:267-270 | the count is the total count of the inventory list |
| Inventory.MachineInventory.SpareCapacity | Utilities/MachineInventory.cs:258-261 | the spare capacity plus the count equals the capacity |
| Inventory.MachineInventory.HasSpareCapcity | Utilities/MachineInventory.cs:276-279 | there is spare capacity exactly when the inventory is not full |
| Inventory.MachineInventory.IsEmpty | Utilities/MachineInventory.cs:285-288 | an inventory with no entries is empty |
| Inventory.MachineInventory.IsFull | Utilities/MachineInventory.cs:294-297 | full exactly when the spare capacity is zero or less |
| Inventory.IsEmptyHoldsOnlyEmptyStacks | Utilities/MachineInventory.cs:285-288 | with non-negative amounts, the inventory is empty exactly when every entry is a stack of amount zero |
| Inventory.MachineInventory.AddItem | Utilities/MachineInventory.cs:46-49 | the inventory and overflow are those of `Added` at the machine's capacity; the amount argument is ignored |
| Inventory.MachineInventory.AddItems | Utilities/MachineInventory.cs:56-59 | the source and inventory after the call are those of an unfiltered `Moved` into the inventory; if the inventory started within its capacity, it ends within it |
| Inventory.MachineInventory.AddWhiteList | Utilities/MachineInventory.cs:67-82 | as `AddItems`, moving only items that match the whitelist |
| Inventory.MachineInventory.AddBlackList | Utilities/MachineInventory.cs:90-107 | as `AddItems`, moving only items that match none of the blacklist |
| Inventory.MachineInventory.Fill | Utilities/MachineInventory.cs:113-116 | the outcome is a `Moved` of up to the spare capacity from the source into the inventory; if the inventory started within its capacity, it ends within it |
| Inventory.MachineInventory.FillWhiteList | Utilities/MachineInventory.cs:123-137 | as `Fill`, moving only items that match the whitelist |
| Inventory.MachineInventory.FillBlackList | Utilities/MachineInventory.cs:144-158 | as `Fill`, moving only items that match none of the blacklist |
| Inventory.MachineInventory.Empty | Utilities/MachineInventory.cs:165-168 | the outcome is an unfiltered `Moved` from the inventory into the target list |
| Inventory.MachineInventory.RemoveItem | Utilities/MachineInventory.cs:175-178 | the inventory and result are those of a whole-stack `Taken` |
| Inventory.MachineInventory.RemovePartialStack | Utilities/MachineInventory.cs:185-188 | the inventory and result are those of a partial `Taken` |
| Inventory.MachineInventory.RemoveAnySingle | Utilities/MachineInventory.cs:195-202 | the inventory and result are those of `RemovedAnySingle`: a move into a fresh list, returning its first entry |
| Inventory.MachineInventory.RemoveWhiteList | Utilities/MachineInventory.cs:211-227 | as `Empty`, moving only items that match the whitelist |
| Inventory.MachineInventory.RemoveBlackList | Utilities/MachineInventory.cs:236-252 | as `Empty`, moving only items that match none of the blacklist |
| Inventory.MachineInventory.DropOnDelete | Utilities/MachineInventory.cs:302-316 | on the server, one drop per entry in order at the machine's position, after which the inventory is discarded; on a client there are no drops and the inventory is kept |
| Inventory.MachineInventory.WriteInventory | Utilities/MachineInventory.cs:322-333 | the written words are the version, the count and each entry's encoding in order |
| Inventory.MachineInventory.ReadInventory | Utilities/MachineInventory.cs:339-361 | the status and remaining stream are those of `Deserialised`, and the items it reads are appended to the existing inventory: for version 0, each decoded entry in order, skipping null slots; for any other version, nothing |
| Inventory.Reload | Utilities/MachineInventory.cs:322-361 | with a codec that reads back each entry of the inventory, writing it and reading the words into a new inventory with the same machine and capacity reproduces the list |

## Left out

- Floating point: charge levels and the look vector of location items are exact reals (the location coordinates are integers, as in the C# code). NaN, infinities and the rounding of the tolerance product `|f1 * 0.1|` are not modelled.
- TruncateToInt: the `(int)` cast of a charge level outside the Int32 range has an unspecified result in C#; the model truncates it mathematically.
- Integer width: item amounts and counts are unbounded integers. The LINQ `Sum` in `GetItemCount` is checked and throws on 32-bit overflow; that exception is not modelled. The amount arithmetic (`mnAmount += amount` and `-= amount` in `IncrementStack` and `DecrementStack`, and `listcount + itemcount` in `AddListItem`) is unchecked C# and wraps around at 32 bits; the model does not wrap. In particular, at the default capacity `int.MaxValue` (the constant `IntMaxValue`) the C# test `newtotal > storagecapacity` can never hold, while `Added` splits an item whose total exceeds `IntMaxValue`.
- Object identity and aliasing: items are values. The C# methods change the caller's item in place. The model does not follow that: `AddListItem` writes the kept amount into the caller's item and returns the overflow as a new item; the model returns the kept item (`AddOutcome.item`) alongside the overflow, and `SetAmount` returns the changed item. `MachineInventory.AddItem` discards the kept item, so its contract does not show the caller's item being cut down to what fits. Sharing of one item object between two lists is not modelled either. `List.Remove(i)` removes the first reference-equal entry; the model removes the entry at the index the loop reached, which is the same entry when the list holds no duplicate references.
- Null entries and null arguments: lists never hold null items, and passing null items throws in the C# code; neither is modelled. Only null slots read back from a save are modelled: they are skipped.
- `NewInstance` on an unknown item type returns null in the C# code. The model has exactly the six item kinds, so that branch cannot occur.
- The engine's `ItemCubeStack` constructor that `NewInstance` calls is not part of this model. The clone is assumed to keep the original's item id.
- `MoveItems`, `RemoveListItem` and the four-argument `AddListItem`, which `MachineInventory.cs` calls, are not part of this model's source files. `MoveItems` is modelled as `TakeAnyListItem` that skips entries rejected by a whitelist or blacklist, using shallow comparison. `RemoveListItem` is modelled as `TakeListItem`. The four-argument `AddListItem` is modelled as the three-argument one. Default arguments whose values are not visible (`takefirstitem`, the capacity) are explicit parameters.
- The single-item overloads of the whitelist and blacklist methods are not separate members. They are the list versions applied to a one-entry list.
- `TakeAnyListItem`'s local countdown of `amount` is not observable after the single processed entry, so it is not modelled.
- `DropOnDelete`: the random drop velocity and the item-manager call that spawns drops are left out. Drops are returned as a trace of item and position. The machine entity is reduced to its position.
- Saving: `BinaryWriter` and `BinaryReader` are modelled as a stream of unbounded integer words; the 32-bit width of the version and count fields and the byte layout are not modelled. The per-item `ItemFile` codec is not part of this model. It is a pair of function parameters, and the round-trip results assume it reads back each item that was written.
- Discarded inventory: after `DropOnDelete` on the server the C# field holding the list is null, and every later call that reads or changes the list throws. `ReadInventory` on a version other than 0, or on a version-0 save whose count is 0 or less, does not touch the list and returns normally; the model does not cover those calls after a discard either. The model records this as the flag `Discarded`. Every `MachineInventory` member requires it to be false, so the throwing calls are not modelled.
- Logging: the "unknown version" and "null item" messages are not modelled beyond their effect on the result.
- The user-interface helpers (`UIUtil.cs` and the UI example window) are not part of this model.
- Concurrency between the game's network and simulation threads is not modelled.
