# MCShopPlugin pricing ledger in Dafny

MCShopPlugin is a Bukkit/Spigot server plugin. It lets players view item prices,
set them, and sell the stack in their main hand through the `/mcshop` command.
This project models the plugin's pricing ledger. The ledger is two tables:

- `prices`: item id to price per piece.
- `minAmounts`: item id to the smallest stack that may be sold.

The model covers:

- the lookups with defaults (10.0 per piece, a minimum of 1);
- the validated setters behind `setprice` and `setminamount`;
- the sell rule behind `sellhand`;
- the configuration load and save loops;
- Java's `Integer.parseInt` and `Integer.toString`, which turn item ids into configuration keys and back.

Modules:

- `Wrappers`: the `Option` type.
- `JavaInt`: Java's `int` as the newtype `int32`. `ParseInt` models `Integer.parseInt` in radix 10: an optional `+` or `-`, then one or more ASCII digits, then a range check against the `int` bounds. `IntToString` models `Integer.toString`. The two round-trip.
- `Config`: the configuration store, a `Store` of named sections. Each section is modelled as its keys in store order, with their values already read. `LoadInto` is the load loop as a fold. `SectionFor` and `Encodes` describe what the save loop writes. The lemmas cover skipping, last-entry-wins and the save/load round trip.
- `Ledger`: the pure rules. These are `PriceOf`/`MinAmountOf`, the set checks `SetEntry` (wrapped by `SetPrice` and `SetMinAmount`), and the sell rule `Sale`.
- `Shop`: the plugin object as a class. `Shop` has the two tables as `map` fields and updates them in place. `Player` has the one field the shop changes, `mainHand`. Each method is proved against the functions above.

The source file repeats each handler three or four times, and the copies disagree. The model follows one coherent variant per operation:

- `setItemMinAmount` follows lines 144-173. The checks, in order: the id must parse, the id must already be a key, the player must hold the permission, and the amount must parse. Then the entry is `put`.
- `setItemPrice` follows the same shape, from lines 113-142, with the parsed price as a separate argument. Line 134 reads `args[2]`, which is not in scope. The dispatcher at lines 78-80 forwards only `args[1]`. Here the price is its own parameter, and the dispatcher is not modelled.
- `sellHandItem` follows lines 477-493. An empty (`AIR`) hand is refused. A stack smaller than `minAmounts.getOrDefault(id, 1)` is refused. Otherwise the total is `price * amount`, and the main hand is emptied, as at line 193.
- The load loops follow lines 497-519. A key that `Integer.parseInt` rejects is skipped, and the loop goes on.
- The minimum-amount section is named `"min-amounts"` (lines 510-513) for both loading and saving. The source saves it as `"minAmounts"` (line 435); see "## Findings".
- `Enable` reads both sections from the configuration under the names `PricesSection` and `MinAmountsSection`. `Disable` writes both sections back under the same names.
- The save loops follow lines 410-414. A fresh section gets one entry `Integer.toString(id) -> value` per table entry, in the table's own iteration order. The model picks that order arbitrarily.
- Minimum amounts of zero or below are accepted, as any `int` that parses is: the source has no check against them (`Ledger.NonPositiveMinAmountAccepted`).

## Model

| member | source | states |
|---|---|---|
| `JavaInt.ParseInt` | agjtjfa1517fq.java:145-151 | `Integer.parseInt` fails on the empty string; a success starts with a sign or a digit, has only digits after the first character, and is negative only after a `-` |
| `JavaInt.NatToDigits` | agjtjfa1517fq.java:413 | the printed digits are one or more ASCII digits with no leading zero, and their decimal value is the number printed |
| `JavaInt.IntToString` | agjtjfa1517fq.java:413 | `Integer.toString` starts with `-` exactly for negative values; the rest is digits whose value is the absolute value |
| `JavaInt.ParseIntToString` | agjtjfa1517fq.java:412-413 | parsing the key written for any `int` id gives that id back |
| `JavaInt.IntToStringInjective` | agjtjfa1517fq.java:411-414 | two ids that print to the same key are the same id |
| `JavaInt.LeadingZeroIgnored` | agjtjfa1517fq.java:146-147 | a leading `0` before the digits is accepted and does not change the parse result |
| `JavaInt.PlusSignIgnored` | agjtjfa1517fq.java:146-147 | a leading `+` is accepted and gives the same result as the bare digits |
| `JavaInt.NonDigitRejected` | agjtjfa1517fq.java:146-151 | any non-digit after the first character makes the parse fail |
| `JavaInt.BadStartRejected` | agjtjfa1517fq.java:146-151 | a lone sign, or a first character that is neither a sign nor a digit, makes the parse fail |
| `JavaInt.ParseSignedDigits` | agjtjfa1517fq.java:145-151 | for every non-empty digit string, leading zeros allowed: the bare digits parse to their value exactly when it is at most 2147483647, and `-` plus the digits parse to the negated value exactly when that is at least -2147483648 |
| `JavaInt.RangeEdges` | agjtjfa1517fq.java:145-151 | `2147483647` and `-2147483648` parse to the `int` bounds; `2147483648` and `-2147483649` fail |
| `Config.SectionOr` | agjtjfa1517fq.java:399-402 | a section that exists is returned as it is; a missing section reads as empty |
| `Config.LoadEntry` | agjtjfa1517fq.java:499-505 | one load step `put`s the entry at its parsed id, and leaves the table unchanged when the key does not parse |
| `Config.LoadInto` | agjtjfa1517fq.java:497-507 | the load loop as a fold; its own contract says no existing key is removed; its full meaning is in `LoadKeys`, `LoadLastWins`, `LoadUntouched` and `LoadSkipsUnparseable` |
| `Config.LoadKeys` | agjtjfa1517fq.java:497-507 | after loading, the keys are exactly the old keys plus every id a key parses to: loading never removes an entry |
| `Config.LoadPutsEveryParsedKey` | agjtjfa1517fq.java:500-502 | every entry whose key parses ends up in the table |
| `Config.LoadLastWins` | agjtjfa1517fq.java:498-502 | keys are processed in order: an id's value after loading is that of the last entry whose key parses to it |
| `Config.LoadUntouched` | agjtjfa1517fq.java:497-507 | an id that no key parses to keeps its old entry, or stays absent |
| `Config.LoadSkipsUnparseable` | agjtjfa1517fq.java:503-505 | loading a section gives the same table as loading only the entries whose keys parse |
| `Config.SectionFor` | agjtjfa1517fq.java:411-413 | the section the save loop writes for one visiting order has one entry per visited id; `SectionForAt` and `SavedKeysDistinct` give each entry as `(toString(id), value)` |
| `Config.Encodes` | agjtjfa1517fq.java:410-414 | a predicate with no contract of its own: the section is what saving the table writes, for some order that visits every key once; its properties are in `SaveLoadRoundTrip` and `SavedKeysDistinct` |
| `Config.LoadEnumeratedSection` | agjtjfa1517fq.java:410-414 | whatever order the save loop visits the table in, loading the section it writes into a table overrides that table with exactly the saved entries |
| `Config.SaveLoadRoundTrip` | agjtjfa1517fq.java:410-414 | loading a saved section into a table overrides it with exactly the saved entries; loading into an empty table reproduces the saved one |
| `Config.SavedKeysDistinct` | agjtjfa1517fq.java:411-413 | a saved section never repeats a key |
| `Ledger.PriceOf` | agjtjfa1517fq.java:485 | `getOrDefault`: a stored price is returned as it is; an absent id reads as 10.0 |
| `Ledger.MinAmountOf` | agjtjfa1517fq.java:484 | `getOrDefault`: a stored minimum is returned as it is; an absent id reads as 1 |
| `Ledger.MissingEntryDefaults` | agjtjfa1517fq.java:178-179 | an id with no entries reads as price 10.0 and minimum amount 1 |
| `Ledger.SetEntry` | agjtjfa1517fq.java:144-171 | each failure (id does not parse, id not a key, no permission, value does not parse) happens exactly under its condition; the key set never changes; on success only the named entry changes, to the parsed value |
| `Ledger.SetPrice` | agjtjfa1517fq.java:113-140 | `setItemPrice` succeeds exactly when the id parses, is already priced, the player is permitted and the price parsed; on success only that entry is overwritten, with the new price; on failure the price table is unchanged |
| `Ledger.SetMinAmount` | agjtjfa1517fq.java:144-171 | `setItemMinAmount` succeeds exactly when the id parses, already has a minimum, the player is permitted and the amount passes `Integer.parseInt`; on success only that entry is overwritten, with the parsed amount; on failure the minimum table is unchanged, and `InvalidValue` means the amount did not parse |
| `Ledger.NonPositiveMinAmountAccepted` | agjtjfa1517fq.java:163-171 | setting an existing item's minimum to `-3` succeeds and stores `-3` |
| `Ledger.Sale` | agjtjfa1517fq.java:477-493 | an empty hand is refused; a stack below the item's minimum (default 1) is refused with that minimum; otherwise the sale pays the item's price (default 10.0) times the amount |
| `Ledger.SellAfterSetPrice` | agjtjfa1517fq.java:186-187 | after a successful `setprice`, selling enough of that item pays the new price times the amount |
| `Ledger.SellAfterSetMinAmount` | agjtjfa1517fq.java:182-185 | after a successful `setminamount`, a stack smaller than the new minimum is refused |
| `Shop.Shop.constructor` | agjtjfa1517fq.java:30-31 | both tables start empty |
| `Shop.Shop.SetItemPrice` | agjtjfa1517fq.java:113-142 | the new price table and the outcome are those of the set checks on the old table; the minimum table is unchanged |
| `Shop.Shop.SetItemMinAmount` | agjtjfa1517fq.java:144-173 | the new minimum table and the outcome are those of the set checks on the old table, with the amount parsed by `Integer.parseInt`; the price table is unchanged |
| `Shop.Shop.SellHandItem` | agjtjfa1517fq.java:477-493 | the outcome is the sell rule on the current tables and hand; the hand is emptied exactly when the sale goes through; neither table changes |
| `Shop.Shop.LoadPrices` | agjtjfa1517fq.java:497-507 | the new price table is the old one with the section's entries folded in, in order |
| `Shop.Shop.LoadMinAmounts` | agjtjfa1517fq.java:509-519 | the new minimum table is the old one with the section's entries folded in, in order |
| `Shop.Shop.SavePrices` | agjtjfa1517fq.java:410-414 | the section written holds one `toString(id) -> price` entry per table entry, in some iteration order |
| `Shop.Shop.SaveMinAmounts` | agjtjfa1517fq.java:434-436 | the section written holds one `toString(id) -> minimum` entry per table entry, in some iteration order |
| `Shop.Shop.Enable` | agjtjfa1517fq.java:41-45 | enabling keeps the file's configuration, then folds the `"prices"` section into the price table and the `"min-amounts"` section into the minimum table; a missing section adds nothing |
| `Shop.Shop.Disable` | agjtjfa1517fq.java:56-60 | disabling replaces the `"prices"` section with a saved form of the price table, and the `"min-amounts"` section with a saved form of the minimum table; no other section and neither table changes |
| `Shop.Shop.Restart` | agjtjfa1517fq.java:35-60 | after disabling, a fresh plugin object enabled from the saved configuration holds exactly both tables |
| `Shop.MinAmountsLostAcrossNames` | agjtjfa1517fq.java:435 | saving the minimum amounts under `"minAmounts"` and loading from `"min-amounts"` brings back an empty table, not the saved one |
| `Shop.MinAmountsLostExample` | agjtjfa1517fq.java:510 | the same loss on the one-entry table item 1 to minimum 5 |

## Left out

- `JavaInt.ParseInt`: only ASCII `0`-`9` count as digits. Java's `Character.digit` also accepts other Unicode decimal digits.
- `Double.parseDouble` is not modelled. `SetItemPrice` takes the parsed price as an `Option<real>`.
- Prices are `real`. IEEE double rounding in `price * amount` is not modelled.
- Configuration values are taken as already read. The store's `getDouble`/`getInt` conversions and their defaults for values that are not numbers are not modelled. `Store` keeps decimal and integer sections in separate maps, so a section is always read with the value type it was written with.
- `Shop.Shop.Restart`: the file is modelled as keeping exactly the `Store` that `Disable` leaves. The YAML text format between `config.save` and `loadConfiguration` is assumed to reproduce every section, key and value.
- `Shop.Shop.LoadPrices`: a missing `"prices"` section is read as empty, as lines 399-402 do. The loop at line 498 would instead throw a `NullPointerException`. That error path is not modelled.
- `Shop.Shop.LoadMinAmounts`: a missing `"min-amounts"` section is read as empty, as lines 423-426 do. The loop at line 510 would instead throw a `NullPointerException`. That error path is not modelled.
- The save at lines 521-524 writes single keys `"prices." + id` into the existing section instead of calling `createSection`. Under it, keys already in the file that the table lacks would stay. The model follows `createSection` (line 411).
- YAML loading, `saveResource` and `config.save` are I/O, and so is the `IOException` logging on save (lines 35-41, 415-419, 525-529). They are not modelled.
- The permission check `player.hasPermission` is a boolean input, `permitted`.
- Command dispatch in `onCommand` (lines 63-92) and all player messages are host glue, and are not modelled.
- The Economy service lookup and deposit (lines 188-196) are foreign calls. The gold-ingot payout with its `(int)` cast (line 494) is a foreign call plus float truncation. Neither is modelled. A sale that goes through always empties the hand, as when an economy provider is present.
- `Shop.Shop.SellHandItem`: the hand is emptied. Line 492 instead calls `removeItem`, which removes matching stacks anywhere in the inventory. The host's inventory search is not modelled.
- `showAllItems` and `updateItemMetadata` (lines 94-111, 316-336) render the inventory GUI and item lore on host `Material`/`ItemMeta` objects. They are not modelled.
- The inventory-contains checks of the variants at lines 231-235 and 265-269 work on host `ItemStack`s. They are not modelled.
- The syntactically broken fragments (lines 210-217, 323-336, 436-445) are not modelled. Nor is the truncated `saveMinAmounts` at line 532. The minimum-amount save follows the price save.
- `MCShopTabCompleter` and `MCShopListener` are not part of this model.
- Concurrency: the host runs commands one at a time on its main thread, so there is nothing to model.

## Findings

| source | as written | input that shows it | evidently intended | confidence | as-written member | corrected member |
|---|---|---|---|---|---|---|
| agjtjfa1517fq.java:435 | `saveMinAmounts` writes the minimum amounts to the section `"minAmounts"`, but `loadMinAmounts` at line 510 reads `"min-amounts"` | a table with item 1 at minimum 5, saved and reloaded from a file with no `"min-amounts"` section, comes back empty | one section name on both sides, so that minimum amounts survive a restart | not executed; the file holds several conflicting copies of these methods, and the copy at lines 422-423 reads `"minAmounts"` | `Shop.MinAmountsLostAcrossNames` | `Shop.Shop.Restart` |
