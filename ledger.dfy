/**
 * The pricing rules of the shop, on the two tables as values: lookup with
 * defaults, the validated updates `/mcshop setprice` and
 * `/mcshop setminamount` make, and the sell rule of `/mcshop sellhand`.
 */
module Ledger {
  import opened Wrappers
  import opened JavaInt

  /** The price of an item that has no entry in the price table. */
  const DefaultPrice: real := 10.0
  /** The minimum amount of an item that has no entry in the minimum table. */
  const DefaultMinAmount: int32 := 1

  /** `prices.getOrDefault(id, 10.0)`. */
  function PriceOf(prices: map<int32, real>, id: int32): (p: real)
    ensures id in prices ==> p == prices[id]
    ensures id !in prices ==> p == DefaultPrice
  {
    if id in prices then prices[id] else DefaultPrice
  }

  /** `minAmounts.getOrDefault(id, 1)`. */
  function MinAmountOf(minAmounts: map<int32, int32>, id: int32): (n: int32)
    ensures id in minAmounts ==> n == minAmounts[id]
    ensures id !in minAmounts ==> n == DefaultMinAmount
  {
    if id in minAmounts then minAmounts[id] else DefaultMinAmount
  }

  /** An item with no entries sells at 10.0 a piece, from one piece up. */
  lemma MissingEntryDefaults(prices: map<int32, real>, minAmounts: map<int32, int32>, id: int32)
    requires id !in prices && id !in minAmounts
    ensures PriceOf(prices, id) == 10.0 && MinAmountOf(minAmounts, id) == 1
  {
  }

  /** How a set command ends; every outcome but `Updated` leaves the table as it was. */
  datatype SetOutcome = InvalidItemId | ItemNotFound | PermissionDenied | InvalidValue | Updated

  /** The outcome of a set command together with the table after it. */
  datatype Update<V> = Update(outcome: SetOutcome, table: map<int32, V>)

  /**
   * The checks of a set command, in the order the source makes them: the item
   * id must parse, must already be a key of the table, the player must hold
   * the permission, and the new value must parse; then the entry is `put`.
   */
  function SetEntry<V>(table: map<int32, V>, idText: string, permitted: bool, value: Option<V>): (u: Update<V>)
    ensures u.table.Keys == table.Keys
    ensures u.outcome == InvalidItemId <==> ParseInt(idText).None?
    ensures u.outcome == ItemNotFound <==> ParseInt(idText).Some? && ParseInt(idText).value !in table
    ensures u.outcome == PermissionDenied <==>
              ParseInt(idText).Some? && ParseInt(idText).value in table && !permitted
    ensures u.outcome == InvalidValue <==>
              ParseInt(idText).Some? && ParseInt(idText).value in table && permitted && value.None?
    ensures u.outcome == Updated ==> u.table[ParseInt(idText).value] == value.value
    ensures forall k :: k in table && (u.outcome != Updated || k != ParseInt(idText).value) ==>
              u.table[k] == table[k]
  {
    match ParseInt(idText)
    case None => Update(InvalidItemId, table)
    case Some(id) =>
      if id !in table then Update(ItemNotFound, table)
      else if !permitted then Update(PermissionDenied, table)
      else match value
        case None => Update(InvalidValue, table)
        case Some(v) => Update(Updated, table[id := v])
  }

  /**
   * `setItemPrice`: `newPrice` is what `Double.parseDouble` made of the price
   * argument, `None` when it threw.
   */
  function SetPrice(prices: map<int32, real>, idText: string, permitted: bool, newPrice: Option<real>): (u: Update<real>)
    ensures u.outcome != Updated ==> u.table == prices
    ensures u.outcome == Updated <==>
              ParseInt(idText).Some? && ParseInt(idText).value in prices && permitted && newPrice.Some?
    ensures u.outcome == Updated ==> u.table == prices[ParseInt(idText).value := newPrice.value]
  {
    SetEntry(prices, idText, permitted, newPrice)
  }

  /** `setItemMinAmount`: the amount argument goes through `Integer.parseInt` too. */
  function SetMinAmount(minAmounts: map<int32, int32>, idText: string, permitted: bool, amountText: string): (u: Update<int32>)
    ensures u.outcome != Updated ==> u.table == minAmounts
    ensures u.outcome == InvalidValue ==> ParseInt(amountText).None?
    ensures u.outcome == Updated <==>
              ParseInt(idText).Some? && ParseInt(idText).value in minAmounts && permitted && ParseInt(amountText).Some?
    ensures u.outcome == Updated ==> u.table == minAmounts[ParseInt(idText).value := ParseInt(amountText).value]
  {
    SetEntry(minAmounts, idText, permitted, ParseInt(amountText))
  }

  /**
   * A minimum amount of zero or below is accepted like any other `int`:
   * setting item 5's minimum to "-3" succeeds.
   */
  lemma NonPositiveMinAmountAccepted(minAmounts: map<int32, int32>)
    requires 5 in minAmounts
    ensures SetMinAmount(minAmounts, "5", true, "-3") == Update(Updated, minAmounts[5 := -3])
  {
    assert "-3"[1..] == "3";
  }

  /** What the player holds in the main hand: nothing (`AIR`) or a stack of one item. */
  datatype Hand = Air | Stack(itemId: int32, amount: int32)

  datatype SaleOutcome = NothingToSell | BelowMinimum(minAmount: int32) | Sold(total: real)

  /**
   * The sell rule: an empty hand is refused; a stack below the item's minimum
   * is refused; otherwise the whole stack sells for price times amount.
   */
  function Sale(prices: map<int32, real>, minAmounts: map<int32, int32>, hand: Hand): (r: SaleOutcome)
    ensures r.NothingToSell? <==> hand.Air?
    ensures r.BelowMinimum? <==> hand.Stack? && hand.amount < MinAmountOf(minAmounts, hand.itemId)
    ensures r.BelowMinimum? ==> r.minAmount == MinAmountOf(minAmounts, hand.itemId)
    ensures r.Sold? ==> hand.Stack? && r.total == PriceOf(prices, hand.itemId) * hand.amount as real
  {
    match hand
    case Air => NothingToSell
    case Stack(id, amount) =>
      var minAmount := MinAmountOf(minAmounts, id);
      if amount < minAmount then BelowMinimum(minAmount)
      else Sold(PriceOf(prices, id) * amount as real)
  }

  /** After a successful `setprice`, a sale of that item at or above its minimum pays the new price. */
  lemma SellAfterSetPrice(prices: map<int32, real>, minAmounts: map<int32, int32>,
                          idText: string, permitted: bool, newPrice: Option<real>, amount: int32)
    requires SetPrice(prices, idText, permitted, newPrice).outcome == Updated
    requires amount >= MinAmountOf(minAmounts, ParseInt(idText).value)
    ensures Sale(SetPrice(prices, idText, permitted, newPrice).table, minAmounts,
                 Stack(ParseInt(idText).value, amount))
            == Sold(newPrice.value * amount as real)
  {
  }

  /** After a successful `setminamount`, a smaller stack of that item is refused. */
  lemma SellAfterSetMinAmount(prices: map<int32, real>, minAmounts: map<int32, int32>,
                              idText: string, permitted: bool, amountText: string, amount: int32)
    requires SetMinAmount(minAmounts, idText, permitted, amountText).outcome == Updated
    requires amount < ParseInt(amountText).value
    ensures Sale(prices, SetMinAmount(minAmounts, idText, permitted, amountText).table,
                 Stack(ParseInt(idText).value, amount))
            == BelowMinimum(ParseInt(amountText).value)
  {
  }
}
