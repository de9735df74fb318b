# A model of the game server's item, persistence and economy core

The project models the parts of a C++ role-playing game server that move things around and must not lose any of
them, and proves what they keep. Each module follows one part of the program:

- **Items and containers** (`Forest`, `Stacks`, `Pouring`, `Containers`, `ForestRuns`, `ItemMoves`). Containers hold items and
  other containers and cache the weight and the pokemon count of everything inside. `Containers` has the mutable
  objects; every method is proved against a function on the value of the whole forest (`Forest`), about which the
  laws are proved. `ItemMoves` splits, merges and moves stacks, and `Pouring` says how
  units spread over the stacks of a container.
- **Saving a player's items as rows** (`ItemRows`): breadth first out, rebuilt by descending id with push-front.
- **Saving items and conditions as bytes** (`Streams`, `ItemStream`, `ConditionStream`): a recursive tagged stream of
  item attributes and contained items, and the tagged stream of a player's conditions.
- **The binary tree format of the item and map files** (`OtbLoader`): an iterator, a stack of pointers, escaped bytes.
- **The walk cache** (`WalkCache`): a 23 by 23 grid around a creature, shifted in place on every step.
- **The market** (`MarketStock`, `Market`): the search through depot and inbox with a 16-bit counter, and offers that
  hold money and goods in escrow.
- **The decay wheel** (`Decay`): four buckets, one visited every 250 milliseconds.
- **Trades between two players** (`Trade`): partner links, the table of offered items and their extra references.
- **Combat areas** (`AreaMatrix`), **money and change** (`Money`), **damage over time** (`DamageList`) and the
  **base32 text of a secret** (`Base32`, section 6 of RFC 4648).

`Options`, `Words` and `Sums` hold shared vocabulary: optional values, machine integers of fixed width, and sums.

The code changes its state in place, and so does the model: loops are loops with invariants, objects are classes, the
grid and the matrices are arrays. Parameters called `S`, `players`, `order`, `tick` and the like that are ghost carry
no run-time meaning; they name the world, the order or the time that a contract speaks about.

## What the code does differently from what one would expect

Each of these is proved, with the exact condition under which the code does meet the expectation.

- `Position::getDistanceY` returns an absolute value (src/position.h:68-70), although the sideways shift of the walk
  cache has a branch for negative values. After a step to the south-east or south-west the first row is left one
  column behind and the last row, already fresh, is moved one column too far. The cache is then exact if and only if
  the tiles along both rows agree with those neighbours (`WalkCache.StepKeepsExact`); every other step keeps it exact.
- The damage list adds up to its amount if and only if the amount is at least 1 + 2 + ... + start. With the start value
  that a condition picks for itself this holds for the amounts 1 to 760 and for 780, and for no other.
- Pokemon counts pass through `uint8_t` and `int8_t`. The cached counts stay right if and only if an item that is taken
  in counts fewer than 256, one that is given up fewer than 128 (or is within 128 of wrapping at 32 bits), and for a
  replacement both bytes cut off the same. Weights are always right modulo 2^32.
- An item that is replaced by itself stays in its container but loses its parent; the links are kept if and only if the
  replacement is another item (`Forest.ReplaceKeepsShape`).
- A node file with a bare root is well-formed but is refused for its size (`OtbLoader.SmallestFile`).
- `addMoney` never ends for 2^32 or more notes of the highest kind.
- The market search can miss goods that are there: it is right for every stock of stacks of at most `max` if and only
  if `max` plus the requested amount is at most 65536. What it does find is always enough.
- The market counts an item that does not stack by its charges, but takes it whole: with one item of five charges an
  offer of three loses two (`MarketStock.ChargesLost`). Every amount that is found is taken exactly if and only if the
  search counts the stock one by one (`MarketStock.FairExactly`); while the counter cannot wrap, that is if and only if
  no item for sale counts more than one (`MarketStock.FairIfOnes`). What an offer takes too much is stated exactly.
- An expiring sell offer loses its goods when its item type is unknown or its owner cannot be loaded.
- A transfer between traders looks at the answer of the first move only: if the second then fails, one side has both
  items, and the trade counts as done (`Trade.TransferIsFair`).
- Mirrored and flipped areas compute their centre from the other dimension: they are the mirror images if and only if
  the matrix is square or covers nothing.
- A custom attribute without a value makes a saved item unreadable; an action id below 100 comes back as 100; a
  running decay comes back as pending; strings above 65535 bytes come back empty.

## Model

| member | source | states |
|---|---|---|
| Containers.Item.GetWeight | src/container.cpp:155-158 | the weight an item adds to its container is the share the laws about the cache speak of |
| Containers.Item.GetPokemonCount | src/container.cpp:168-171 | the pokemon count that leaves an item is its share cut to a byte |
| Containers.Item.UpdateItemWeight | src/container.cpp:147-153 | a difference reaches every container up to the outermost, and the way up ends |
| Containers.Item.UpdateItemPokemonCount | src/container.cpp:160-166 | the same for pokemon counts |
| Containers.Item.AddThing | src/container.cpp:495-515 | the item goes in front and all caches above move; at an index beyond the capacity nothing happens |
| Containers.Item.AddItemBack | src/container.cpp:517-527 | the item goes behind all others and all caches above move |
| Containers.Item.InternalAddThing | src/container.cpp:693-709 | the item goes in front whatever the capacity, and all caches above move |
| Containers.Item.GetThingIndex | src/container.cpp:617-627 | the first position of a held item, -1 exactly for one that is not held |
| Containers.Item.UpdateThing | src/container.cpp:529-552 | a held item changes kind and count in place, the caches above take the difference; nothing for an item held elsewhere |
| Containers.Item.ReplaceThing | src/container.cpp:554-577 | one item takes the place of another, whose parent link is cleared, even when both are the same item; nothing beyond the last position |
| Containers.Item.RemoveThing | src/container.cpp:579-615 | part of a stack stays with the count left, anything else leaves and loses its parent |
| Containers.Item.QueryAdd | src/container.cpp:280-344 | which error, if any: not to be picked up, inside itself at any depth, or no room |
| Containers.Item.QueryMaxCount | src/container.cpp:346-397 | how many units fit: the free slots and what every stack of the kind still takes |
| Containers.Item.QueryRemove | src/container.cpp:399-419 | exactly the held, moveable items in a possible count may be removed, and which error answers the others |
| Containers.Item.QueryDestination | src/container.cpp:421-488 | where an index leads: up, into the container at the slot, to the first stack that takes the item, or the slot |
| Forest.Propagate | src/container.cpp:147-166 | propagating changes no link, and only the caches of the container and those around it |
| Forest.BumpExact | src/container.cpp:147-166 | where one sum has moved, propagating a difference makes all caches right exactly when it agrees modulo 2^32 |
| Forest.AddCaches | src/container.cpp:495-527 | adding keeps all weights right, and all pokemon counts if and only if the item counts fewer than 256 |
| Forest.RemoveCaches | src/container.cpp:605-613 | removing keeps all weights right, and pokemon counts if and only if the signed byte holds the item's count |
| Forest.RewriteCaches | src/container.cpp:529-546 | changing in place keeps all caches right, but for a container whose count does not fit the signed byte |
| Forest.ReplaceCaches | src/container.cpp:554-571 | replacing by another item keeps weights right, and pokemon counts if and only if both bytes cut off the same |
| Forest.ReplaceKeepsShape | src/container.cpp:554-577 | the links stay sound if and only if an item is not replaced by itself |
| Forest.CacheIsTotal | src/container.cpp:147-171 | right caches mean that each container's is the sum over everything inside it, at every depth |
| ForestRuns.StepCaches | src/container.cpp:495-615 | any one operation keeps the caches right if and only if no count is cut off on the way up |
| ForestRuns.RunCaches | src/container.cpp:495-615 | after any run of such operations without a cut every cache is the sum over all contents, and no item lies inside itself |
| ForestRuns.RunWeights | src/container.cpp:495-615 | after any run whatever every cached weight is the sum over all contents |
| ItemMoves.TopUp | src/game.cpp:1314-1317 | topping up a stack adds exactly that many units to its container and keeps stacks and caches sound |
| ItemMoves.Clone | src/item.cpp:181-188 | a new stack of the kind, lying nowhere, changes nothing that any container holds |
| ItemMoves.Refused | src/game.cpp:1292-1307 | where the first query refuses, the whole item would not have fitted either |
| ItemMoves.MergeAndAdd | src/game.cpp:1313-1345 | the first stack with room is filled, the recursive remainder never fails, and in all the units fill the stacks in their order and the rest is one new stack in front |
| Pouring.PouredOnce | src/game.cpp:1313-1320 | when the first stack with room takes all, no other takes any |
| Pouring.PouredTwice | src/game.cpp:1313-1325 | filling the first stack and pouring the rest over the others is pouring all over all |
| ItemMoves.InternalAddItem | src/game.cpp:1281-1356 | all or nothing: succeeds exactly when all of it fits; then each stack of the kind, in list order, takes what the ones before it leave, and exactly what none takes is new in front; all else keeps parent, count and order, or everything does |
| ItemMoves.Resolve | src/game.cpp:1101-1114 | following the destinations ends after at most one step, at the place the index means |
| ItemMoves.Permit | src/game.cpp:1125-1186 | the queries let a move through exactly when something moves, and it is then safe to carry out |
| ItemMoves.Carry | src/game.cpp:1203-1236 | the units leave one container and arrive in the other: the stack at the slot takes exactly what it has room for, the rest is one new stack in front; every other item keeps its parent, its count and the order it stands in |
| ItemMoves.InternalMoveItem | src/game.cpp:1090-1272 | exactly the units that may be taken and fit are moved; the stack found there is filled first and only the rest is a new stack in front; every other item keeps its parent, count and order; stacks, sizes, links and caches stay sound; no error means all of the count |
| ItemRows.SaveItems | src/iologindata.cpp:534-592 | the rows have the sids 101, 102, ... and each nested row names the earlier row of its container; children keep their order |
| ItemRows.Loader.LoadItems | src/iologindata.cpp:854-878 | the item map has exactly the rows |
| ItemRows.Loader.Attach | src/iologindata.cpp:419-507 | rebuilding by descending sid leaves every child list in ascending order |
| ItemRows.GrowsUpwards | src/iologindata.cpp:419-445 | what is rebuilt has no cycle: containers only hold items with larger sids |
| ItemRows.RoundTrip | src/iologindata.cpp:419-592 | what grows under a slot, depot or inbox number is what was saved under it, to any depth, in order |
| ItemRows.SaveAndLoad | src/iologindata.cpp:419-592 | logging out and in gives back the same forest under every number |
| Streams.PropStream.Read | src/fileloader.h:85-94 | reads the number in the next bytes, or nothing at all when they do not suffice |
| Streams.PropStream.ReadStr | src/fileloader.h:96-113 | reads a string with its length, and refuses a length that goes past the end |
| Streams.PropStream.Skip | src/fileloader.h:115-122 | skips all of the bytes or none |
| Streams.PropWriteStream.Write | src/fileloader.h:147-151 | appends the number's bytes |
| Streams.PropWriteStream.WriteStr | src/fileloader.h:153-162 | appends length and bytes, for too long a string only a zero length |
| Streams.ValueOfBytes | src/fileloader.h:147-151 | bytes written and read back give the number modulo 256^width |
| Streams.BytesOfValue | src/fileloader.h:85-94 | a number read from bytes writes the same bytes |
| Streams.ReadWritten | src/fileloader.h:85-151 | a written number is read back, cut to its width |
| Streams.ReadWrittenString | src/fileloader.h:96-162 | a written string is read back, or the empty one if it was too long |
| ItemStream.SerializeAttr | src/item.cpp:647-760 | appends exactly the attribute bytes that the round trip is proved about |
| ItemStream.GetAnyAttr | src/item.cpp:354-626 | one attribute: which of them change the item, which end the list, which are an error, and where the stream stands |
| ItemStream.UnserializeAttr | src/item.cpp:628-640 | the loop accepts what the recursive reader accepts, and stops where it stops |
| ItemStream.SaveItem | src/iomapserialize.cpp:218-236 | appends a tree: attributes, announced size, the contained items last first, the end |
| ItemStream.LoadItem | src/iomapserialize.cpp:135-163 | the item read and the bytes consumed are those of the recursive reader; an unknown type consumes two bytes |
| ItemStream.LoadContainer | src/iomapserialize.cpp:117-133 | as many items as were announced, each in front of the one before, and the end byte |
| ItemStream.AttributesRead | src/item.cpp:354-760 | reading the attribute bytes of an item gives its normalised attributes, and fails exactly for a custom attribute without value |
| ItemStream.CustomFound | src/item.cpp:597-619 | the entries of the custom attribute map are read back under the same keys |
| ItemStream.RenamedOnce | src/item.cpp:80-92 | what an item is created as is not replaced again, and no two items are replaced by the same |
| ItemStream.FreshLasts | src/item.h:1027-1035 | a fresh item lasts as many seconds as its type says, up to 24 days |
| ItemStream.LoadSaved | src/iomapserialize.cpp:117-236 | a saved tree is read back normalised, with all items in order, consuming exactly its bytes; it fails if and only if some custom attribute is blank |
| ItemStream.SaveAndLoad | src/iomapserialize.cpp:117-236 | saving and loading an item tree gives its normal form |
| ConditionStream.Serialize | src/condition.cpp:117-133 | appends the base properties and those of the class |
| ConditionStream.SaveConditions | src/iologindata.cpp:615-622 | appends every persistent condition with its end tag, and no other |
| ConditionStream.GetProp | src/condition.cpp:68-115 | one property, of the class or of every condition; a failed one consumes nothing |
| ConditionStream.UnserializeCondition | src/condition.cpp:57-66 | the loop accepts and consumes what the recursive reader does |
| ConditionStream.CreateFromStream | src/condition.cpp:212-261 | a new condition exactly when the five base properties follow in order |
| ConditionStream.LoadConditions | src/iologindata.cpp:303-316 | the loaded list is that of the recursive reader over the whole stream |
| ConditionStream.GatheredIsSum | src/condition.cpp:767-794 | the ticks of read damage are the sum of its intervals |
| ConditionStream.IntervalsRun | src/condition.cpp:767-810 | a saved damage list is read back interval by interval, and counts the ticks |
| ConditionStream.SkillsRun | src/condition.cpp:373-397 | saved skills are read back each into its place |
| ConditionStream.ConditionRead | src/condition.cpp:57-133 | a saved condition of any class is read back normalised, consuming exactly its bytes |
| ConditionStream.AllRead | src/iologindata.cpp:303-316 | a saved list is read back in reverse order, to the last byte |
| ConditionStream.SaveAndLoad | src/iologindata.cpp:303-316 | logging out and in gives back the persistent conditions in reverse order, damage with its ticks counted afresh |
| OtbLoader.Loader.Open | src/fileloader.cpp:31-44 | a file is opened exactly when it has more than seven bytes and an accepted or blank identifier |
| OtbLoader.Loader.ParseTree | src/fileloader.cpp:54-106 | for all bytes, the iterator and its stack accept what recursive descent accepts, with the same tree |
| OtbLoader.Loader.GetProps | src/fileloader.cpp:108-123 | nothing for an empty stretch, else its bytes without the escapes |
| OtbLoader.StartStep | src/fileloader.cpp:67-81 | opening a child and parsing on is parsing the child and adopting it |
| OtbLoader.EndStep | src/fileloader.cpp:82-89 | closing the open node hands the parse to the node below it on the stack |
| OtbLoader.PushPath | src/fileloader.cpp:67-81 | the stack stays the way from the root through last children, and no stacked pointer leads into the vector that grows |
| OtbLoader.PopPath | src/fileloader.cpp:82-89 | after a node is closed the stack is again such a way, one step shorter |
| OtbLoader.UnescapeEscaped | src/fileloader.cpp:108-123 | taking out the escapes gives back the bytes, whatever they are |
| OtbLoader.ParseFile | src/fileloader.cpp:54-123 | parsing the encoding of any tree gives that tree, its own bytes included |
| OtbLoader.SmallestFile | src/fileloader.cpp:34-37 | the encodings that are refused for their size are those of a bare root |
| OtbLoader.ReadBack | src/fileloader.cpp:31-123 | writing a tree, opening and parsing it gives the tree, unless its root is bare |
| WalkCache.Creature.UpdateMapCache | src/creature.cpp:301-315 | a full recompute makes every cell tell the truth |
| WalkCache.Creature.UpdateTileCache | src/creature.cpp:317-322 | one cell is refreshed if it is in range, the others keep their values |
| WalkCache.Creature.ShiftSouth | src/creature.cpp:504-508 | copying rows in place moves each by one and overwrites none before it was copied |
| WalkCache.Creature.ShiftNorth | src/creature.cpp:515-519 | the same to the north |
| WalkCache.Creature.ShiftWest | src/creature.cpp:528-544 | the rows from the start row on move by one column, the others stay |
| WalkCache.Creature.ShiftEast | src/creature.cpp:551-567 | the same to the east |
| WalkCache.Creature.OnStep | src/creature.cpp:501-577 | the shifts and refreshes of a step make exactly the cache that the step means cell by cell |
| WalkCache.Creature.OnTeleport | src/creature.cpp:499-500 | after a teleport or a change of floor the cache is exact |
| WalkCache.Creature.OnTileChange | src/creature.cpp:365-397 | a notification refreshes the one cell |
| WalkCache.Creature.GetWalkCache | src/creature.cpp:334-363 | of an exact cache, the answer is the truth in range, unknown out of range, walkable for the own tile |
| WalkCache.StepExact | src/creature.cpp:501-577 | every step but the two southern diagonals keeps the cache exact |
| WalkCache.SouthernDiagonal | src/creature.cpp:528-574 | what each cell shows after a southern diagonal step |
| WalkCache.StepKeepsExact | src/creature.cpp:501-577 | a step keeps the cache exact if and only if it is no southern diagonal or the edge rows agree |
| WalkCache.SouthernDiagonalFails | src/creature.cpp:528-574 | a map with one free tile on which a southern diagonal step makes the cache wrong |
| WalkCache.TileChangeExact | src/creature.cpp:365-397 | refreshing the tile that changed keeps the cache exact |
| WalkCache.WalkExact | src/creature.cpp:334-577 | over any walk with teleports and tile changes the cache is exact since the last recompute, as long as the edge rows agree at southern diagonals |
| MarketStock.PickIsEnough | src/game.cpp:5439-5478 | what the search finds is there, is for sale and reaches the amount even if the counter wraps |
| MarketStock.PickFindsEnough | src/game.cpp:5439-5478 | while the counter cannot wrap, something is found if and only if there is enough |
| MarketStock.PickMayMiss | src/game.cpp:5471-5474 | a stock with more than enough in which the counter wraps and nothing is found |
| MarketStock.ExactStackLimit | src/game.cpp:5439-5478 | the search is right for all stocks of stacks up to a maximum if and only if maximum and amount add up to at most 65536 |
| MarketStock.PickSingles | src/game.cpp:5471-5474 | of items that count at most one exactly the amount is found |
| MarketStock.FairExactly | src/game.cpp:5289-5293 | of a ware that does not stack every amount found is taken exactly if and only if the counter counts one by one |
| MarketStock.FairIfOnes | src/game.cpp:5289-5293 | while the counter cannot wrap, that is if and only if no item for sale counts more than one |
| MarketStock.ChargesLost | src/game.cpp:5289-5293 | one item of five charges is found for an amount of three, and all five go |
| MarketStock.BfsMeetsAll | src/game.cpp:5444-5476 | the search meets every item of every depth once |
| MarketStock.StockForSale | src/game.cpp:5439-5478 | what the search can find is all that is for sale at any depth of depot and inbox |
| MarketStock.GetMarketItemList | src/game.cpp:5439-5478 | the queue of containers finds what a search in breadth-first order finds, or nothing |
| MarketStock.RemoveStacks | src/game.cpp:5278-5288 | from the first item found on, each gives what is still missing, exactly the amount in all; every other item stays as and where it is |
| MarketStock.RemoveSingles | src/game.cpp:5289-5293 | every item of the list goes with all that it counts; every other item stays as and where it is |
| Market.DeliverTo | src/game.cpp:5339-5366 | new items that can be sold on, all full but the last, arrive in front of the inbox; what the market search can find grows by exactly the amount |
| Market.DeliveredForSale | src/game.cpp:5339-5366 | of each ware the search through depot and inbox can find exactly what was delivered more |
| Market.CostCovers | src/game.cpp:5276-5294 | a sale never takes less than the amount, and exactly that of what stacks or counts at most one |
| Market.CostIsFair | src/game.cpp:5276-5294 | a sale of any amount of a ware that does not stack takes exactly that if and only if the search counts the stock one by one |
| Market.Market.CreateOffer | src/game.cpp:5060-5163 | when an offer is accepted and what it costs, item by item; money and goods move into it, none is made, and what goes too much is the excess of an item taken whole |
| Market.Market.CancelOffer | src/game.cpp:5165-5225 | only the owner cancels; all that the offer held is back with him, goods as items that can be sold on; nothing else changes, and none is lost or made |
| Market.Market.AcceptOffer | src/game.cpp:5227-5395 | when an offer can be accepted, who pays and who receives, item by item; the row shrinks or goes, none is made, and what goes too much is the excess of an item taken whole |
| Market.Market.ExpireOffer | src/iomarket.cpp:121-193 | what an expired offer held is back with its owner, but for goods of an unknown type or of an owner who cannot be loaded |
| Market.Market.Reduce | src/iomarket.cpp:261-273 | a row loses an amount or is deleted, and with it exactly that escrow |
| Market.Market.AddRow | src/iomarket.cpp:254-259 | a new row adds exactly its escrow |
| Market.Market.Run | src/game.cpp:5060-5395 | over any run every event does what it says, bank money with escrow and fees is constant, no goods are made, and those of a ware that stacks or counts at most one are constant but for those lost on expiry |
| Decay.FiringTick | src/game.cpp:4437-4479 | the tick at which a placed item fires, as a closed form of its duration |
| Decay.DecayWheel.StartDecay | src/game.cpp:4403-4421 | an item with a duration becomes pending, one without fires at once and what it turns into becomes pending, one that already decays or cannot is left alone |
| Decay.DecayWheel.Become | src/game.cpp:4423-4435 | what an item turns into is the one new item, with its kind and full duration, and becomes pending; nothing is new for an item that disappears |
| Decay.InheritOne | src/game.cpp:4423-4435 | firing gives the item one heir of the kind it turns into, which no other item has |
| Decay.DecayWheel.Cleanup | src/game.cpp:4561-4569 | all pending items are placed, each to fire when its duration says |
| Decay.DecayWheel.Visit | src/game.cpp:4444-4475 | visiting one item fires it, drops it, moves it to the next bucket or leaves it, as it is due; a fired one gets the one heir it turns into |
| Decay.Move | src/game.cpp:4463-4471 | an item that is moved goes to another bucket than the visited one, so that the tick does not meet it again |
| Decay.DecayWheel.CheckDecay | src/game.cpp:4437-4479 | an item fires in a tick if and only if it is due and can still decay; each fired one has exactly the heir it turns into, and all that is new or was pending is due as its duration says |
| Decay.DueLater | src/game.cpp:4437-4479 | what stands on the wheel is due later than now |
| Decay.DecayWheel.Run | src/game.cpp:4437-4479 | over any number of ticks an undisturbed item fires once, at the tick it is due, and no two fired items share an heir |
| Decay.DecayWheel.RunPending | src/game.cpp:4403-4479 | a pending item fires at the tick that its duration says, and not before |
| Trade.Trades.StartTrade | src/game.cpp:2776-2807 | when a trade starts; both sides are linked, the item is listed with its owner and gets its reference |
| Trade.Trades.AcceptTrade | src/game.cpp:2809-2908 | the first acceptance only marks; the second frees both sides and takes both items off the table, whatever the transfer and its hooks do; and when no item, one or both change hands |
| Trade.TransferIsFair | src/game.cpp:2858-2879 | both items change hands or neither, if and only if the second moves whenever the first does |
| Trade.Trades.CloseTrade | src/game.cpp:3011-3053 | both sides are free again and their items off the table; nothing happens during a transfer |
| Trade.Trades.CloseFromHooks | src/game.cpp:3011-3016 | closing from within a transfer, any number of times and from either side, changes nothing |
| Trade.Trades.Cleanup | src/game.cpp:4556-4559 | afterwards exactly the offered items have their one extra reference |
| Trade.Started | src/game.cpp:2776-2807 | starting keeps links symmetric, the table exact and the references counted |
| Trade.ClosedBoth | src/game.cpp:3011-3053 | closing keeps them, and releases each item once |
| Trade.Transferring | src/game.cpp:2841-2854 | so does taking both items off the table before they change hands |
| Trade.Transferred | src/game.cpp:2898-2906 | so does freeing both sides afterwards |
| Trade.Trades.Run | src/game.cpp:2776-3053 | over any run of requests, acceptances and closings, links are symmetric, there is a state exactly with a partner, the table and the references are exactly those of the offered items, and all is what the requests make of it one by one |
| AreaMatrix.MatrixArea.constructor | src/combat.h:82-92 | a new area covers nothing |
| AreaMatrix.CreateArea | src/combat.cpp:1169-1200 | the area covers the cells that the list says, row by row, and is centred on its last middle mark |
| AreaMatrix.Rotate | src/combat.cpp:1118-1166 | the turned copy fits its square, and covers around its centre exactly the turned offsets |
| AreaMatrix.TurnsClockwise | src/combat.cpp:1118-1166 | a quarter turn takes north to east and east to south, a half turn is two of them and three quarters are three |
| AreaMatrix.Mirror | src/combat.cpp:1100-1108 | the copy is the mirror image about an axis that is off by columns minus rows |
| AreaMatrix.Flip | src/combat.cpp:1109-1117 | the copy is the flip image about an axis that is off by rows minus columns |
| AreaMatrix.ShiftedMirror | src/combat.cpp:1100-1117 | mirroring a bounded set of offsets about a shifted axis is right only without shift or for the empty set |
| AreaMatrix.MirrorIsExact | src/combat.cpp:1100-1108 | the mirrored copy is the mirror image if and only if the matrix is square or covers nothing |
| AreaMatrix.FlipIsExact | src/combat.cpp:1109-1117 | the flipped copy is the flip image if and only if the matrix is square or covers nothing |
| AreaMatrix.SetupArea | src/combat.cpp:1202-1225 | south, east and west are the half, quarter and three-quarter turns of the described area: each covers the same cells as seen by somebody looking that way |
| AreaMatrix.FourTurns | src/combat.cpp:1118-1166 | four quarter turns give back the covered offsets |
| AreaMatrix.SetupExtArea | src/combat.cpp:1297-1325 | for a square area the mirror image of the flip image is the half turn |
| Money.Collect | src/game.cpp:1536-1577 | all money at any depth is in the money map, in ascending order of worth and for equal worth in the order in which the containers are searched, and its worth is counted |
| Money.GatherOne | src/game.cpp:1536-1577 | one container of the queue adds its money to the map and its inner containers to the queue, and nothing is met twice or missed |
| Money.NotesNeverEnd | src/game.cpp:1613-1626 | with 2^32 notes or more the first loop never ends |
| Money.NotesEndExactly | src/game.cpp:1613-1626 | the first loop ends if and only if there are fewer than 2^32 notes |
| Money.AddMoney | src/game.cpp:1607-1671 | the new stacks are worth exactly the sum: the highest note in full stacks but for the last, then at most one stack of fewer than a hundred of each lower note |
| Money.Breaking | src/game.cpp:1593-1598 | the units taken from the covering stack never exceed it, and cost less than one unit too much |
| Money.PaidWorth | src/game.cpp:1583-1604 | paying in ascending order with change lowers the worth by exactly the sum |
| Money.RemoveMoney | src/game.cpp:1528-1605 | fails without change exactly when there is too little at any depth; else the smallest stacks go in that order, one is broken, and change of lower notes comes back |
| DamageList.GenerateDamageList | src/condition.cpp:1098-1116 | the hits fall from start to 1; down to each value they add up to the share due, give or take half of it, unless its first hit is already too much; in all never too little, and exactly the amount if and only if it covers each value once |
| DamageList.DefaultStartExact | src/condition.cpp:870-883 | for the start value a condition picks itself, the least that is not below a twentieth of the amount, that holds for 1 to 760 and 780 only |
| Base32.Alphabet | src/iologindata.cpp:64-73 | the accepted characters are the 32 of the alphabet, one for each value |
| Base32.BufferStep | src/iologindata.cpp:61-73 | the 32-bit buffer loses bits, but none that is still to be read |
| Base32.DecodeSecret | src/iologindata.cpp:56-83 | the shifting buffer gives the bytes of the bit string, and nothing for a text with a foreign character |
| Base32.DecodeEncode | src/iologindata.cpp:56-83 | decoding the groups of any bytes gives the bytes |
| Base32.ReadBack | src/iologindata.cpp:56-83 | decoding the unpadded base32 text of any bytes gives the bytes |

## Left out

Items and containers:

- Locked containers, containers with a type, inboxes and depot chests as inner nodes, browse-field containers, players and tiles as destinations, the exchange branch and `transformPokeball`: the model is about plain containers.
- Flags other than 0, the trade item of a move, and the test mode of `internalAddItem`.
- ItemMoves.InternalAddItem: models the index "wherever" and an item that lies nowhere yet, which is how its callers in the modelled code use it.
- ItemMoves.InternalMoveItem: does not model the 32-bit wrap-around of free slots times stack maximum.
- ItemMoves.Clone: `CreateItem` gives a few item ids another type (src/item.cpp:80-92), which is not modelled.
- Containers.Item.UpdateThing: does not model what `setID` does to attributes of an item that decays.
- Two stacks are of one kind when type and attributes agree; attributes are a number, and `equals` on their lists is not spelled out.
- Notifications to clients, spectators and scripts, which change none of the modelled state.

Persistence:

- ItemRows.SaveAndLoad: item types that no longer exist are not modelled, and sids are unbounded; items are values, so that aliasing is not.
- Bed, door, teleport and depot-locker attributes, unique ids, and the branch of `loadItem` for stationary items of a tile.
- ItemStream.SaveAndLoad: the order in which the map of custom attributes is written is a parameter, fixed for equal maps; keys have at most 65535 bytes.
- ItemStream.LoadSaved: keys of custom attributes have at most 65535 bytes, as longer ones are written as empty ones that may clash.
- ConditionStream.SaveAndLoad: fields that are never written, the 32-bit overflow of counted ticks and a stream with more skills than there are places are not modelled.
- Loading starts decays and adds weights; here only what comes back is stated.

Other parts:

- WalkCache.Creature.OnTileChange: a changed or removed item that neither blocks nor is ground refreshes nothing (src/creature.cpp:372-397) and is taken to leave alone whether one can walk there.
- WalkCache.WalkExact: map edges where 16-bit coordinates wrap, other floors and creatures without a cache are not modelled.
- Market.Market.Run: database steps succeed and offers are found by their row; balances do not overflow; a ware is its item type; whether all items of a ware count at most one is a mark on it, kept by all steps; delivered stacks do not merge in the inbox; ids only tell items apart; a fee is any number from 20 to 1000, as its rounding is not modelled.
- Decay.DecayWheel.Become: an item turns into one that cannot decay or lasts longer than nothing, as `canDecay` asks for a decay time (src/item.cpp:1138-1154); a kept duration of zero, with which it would fire at once, is not modelled.
- Decay.DecayWheel.StartDecay: an item starts to decay once; one that starts anew counts as another item.
- Decay.DecayWheel.Run: items disturbed while they decay and reference counts are not modelled; an item only leaves the world or turns into one that cannot decay.
- Trade.Trades.AcceptTrade: what the checks and moves of a transfer answer, positions, scripts and nested items are boolean parameters.
- AreaMatrix.CreateArea: a list that does not fill its rows writes outside the matrix in the code, and is excluded.
- The overloads of `setupArea` that build a list for a cone or a circle, and the plain copy of `copyArea`.
- Money.RemoveMoney: placing the change is not modelled; the ceiling is that of integers, and stack maxima fit 16 bits.
- Money.AddMoney: placing the new stacks is not modelled; a stack of a lower note may exceed the maximum of its type, as in the code.
- DamageList.GenerateDamageList: distances are compared as exact rationals, with any answer for equal ones; single-precision rounding of unequal ones is not modelled.
- Network, database, scripts, XML, chat, houses, combat permissions and everything sent to clients.
