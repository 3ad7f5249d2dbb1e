/**
 * The plugin object `MCShopPlugin` as far as the pricing ledger goes: the two
 * tables it updates in place, the command handlers that change them or read
 * them, and the loops that load them from and save them to the configuration.
 */
module Shop {
  import opened Wrappers
  import opened JavaInt
  import opened Config
  import opened Ledger

  /** The name of the configuration section holding the prices. */
  const PricesSection: string := "prices"
  /** The name of the configuration section holding the minimum amounts. */
  const MinAmountsSection: string := "min-amounts"
  /** The name `saveMinAmounts` writes the minimum amounts under at line 435. */
  const MinAmountsSectionAsSaved: string := "minAmounts"

  /** The part of a player the shop touches: the stack in the main hand. */
  class Player {
    var mainHand: Hand

    constructor (hand: Hand)
      ensures mainHand == hand
    {
      mainHand := hand;
    }
  }

  class Shop {
    /** Item id to price per piece. */
    var prices: map<int32, real>
    /** Item id to the smallest stack that may be sold. */
    var minAmounts: map<int32, int32>
    /** The configuration (`config`), as loaded from and saved to the file. */
    var config: Store

    /** Both tables start out empty (`new HashMap<>()`), as does the configuration. */
    constructor ()
      ensures prices == map[] && minAmounts == map[]
      ensures config == Store(map[], map[])
    {
      prices := map[];
      minAmounts := map[];
      config := Store(map[], map[]);
    }

    /**
     * `setItemPrice`. `newPrice` is the parsed price argument, `None` when it
     * does not parse. Only the price of an item already in the table changes.
     */
    method SetItemPrice(idText: string, permitted: bool, newPrice: Option<real>) returns (outcome: SetOutcome)
      modifies this
      ensures Update(outcome, prices) == SetPrice(old(prices), idText, permitted, newPrice)
      ensures minAmounts == old(minAmounts) && config == old(config)
    {
      var parsed := ParseInt(idText);
      if parsed.None? {
        return InvalidItemId;
      }
      var id := parsed.value;
      if id !in prices {
        return ItemNotFound;
      }
      if !permitted {
        return PermissionDenied;
      }
      if newPrice.None? {
        return InvalidValue;
      }
      prices := prices[id := newPrice.value];
      outcome := Updated;
    }

    /** `setItemMinAmount`. Only the minimum of an item already in the table changes. */
    method SetItemMinAmount(idText: string, permitted: bool, amountText: string) returns (outcome: SetOutcome)
      modifies this
      ensures Update(outcome, minAmounts) == SetMinAmount(old(minAmounts), idText, permitted, amountText)
      ensures prices == old(prices) && config == old(config)
    {
      var parsed := ParseInt(idText);
      if parsed.None? {
        return InvalidItemId;
      }
      var id := parsed.value;
      if id !in minAmounts {
        return ItemNotFound;
      }
      if !permitted {
        return PermissionDenied;
      }
      var amount := ParseInt(amountText);
      if amount.None? {
        return InvalidValue;
      }
      minAmounts := minAmounts[id := amount.value];
      outcome := Updated;
    }

    /**
     * `sellHandItem`: decide the sale by the sell rule and, when it goes
     * through, empty the player's main hand. The tables are only read.
     */
    method SellHandItem(player: Player) returns (outcome: SaleOutcome)
      modifies player
      ensures outcome == Sale(prices, minAmounts, old(player.mainHand))
      ensures player.mainHand == if outcome.Sold? then Air else old(player.mainHand)
      ensures prices == old(prices) && minAmounts == old(minAmounts)
    {
      var hand := player.mainHand;
      if hand.Air? {
        return NothingToSell;
      }
      var id := hand.itemId;
      var minAmount := MinAmountOf(minAmounts, id);
      var price := PriceOf(prices, id);
      var amount := hand.amount;
      if amount < minAmount {
        return BelowMinimum(minAmount);
      }
      var total := price * amount as real;
      player.mainHand := Air;
      outcome := Sold(total);
    }

    /** `loadPrices`: every key of the section in order, skipping those that do not parse. */
    method LoadPrices(section: Section<real>)
      modifies this
      ensures prices == LoadInto(old(prices), section)
      ensures minAmounts == old(minAmounts) && config == old(config)
    {
      var i := 0;
      while i < |section|
        invariant 0 <= i <= |section|
        invariant prices == LoadInto(old(prices), section[..i])
        invariant minAmounts == old(minAmounts) && config == old(config)
      {
        var (key, price) := section[i];
        assert section[..i + 1][..i] == section[..i];
        var parsed := ParseInt(key);
        if parsed.Some? {
          prices := prices[parsed.value := price];
        }
        i := i + 1;
      }
      assert section[..|section|] == section;
    }

    /** `loadMinAmounts`: the same loop over the minimum-amount section. */
    method LoadMinAmounts(section: Section<int32>)
      modifies this
      ensures minAmounts == LoadInto(old(minAmounts), section)
      ensures prices == old(prices) && config == old(config)
    {
      var i := 0;
      while i < |section|
        invariant 0 <= i <= |section|
        invariant minAmounts == LoadInto(old(minAmounts), section[..i])
        invariant prices == old(prices) && config == old(config)
      {
        var (key, minAmount) := section[i];
        assert section[..i + 1][..i] == section[..i];
        var parsed := ParseInt(key);
        if parsed.Some? {
          minAmounts := minAmounts[parsed.value := minAmount];
        }
        i := i + 1;
      }
      assert section[..|section|] == section;
    }

    /** `savePrices`: a fresh section with one entry `toString(id) -> price` per table entry. */
    method SavePrices() returns (section: Section<real>)
      ensures Encodes(section, prices)
    {
      section := [];
      ghost var visited: seq<int32> := [];
      var rest := prices.Keys;
      while rest != {}
        invariant rest <= prices.Keys
        invariant forall i :: 0 <= i < |visited| ==> visited[i] in prices && visited[i] !in rest
        invariant forall i, j :: 0 <= i < j < |visited| ==> visited[i] != visited[j]
        invariant forall k :: k in prices && k !in rest ==> k in visited
        invariant section == SectionFor(prices, visited)
        decreases rest
      {
        var id :| id in rest;
        assert (visited + [id])[..|visited|] == visited;
        section := section + [(IntToString(id), prices[id])];
        visited := visited + [id];
        rest := rest - {id};
      }
      assert Enumerates(visited, prices.Keys);
    }

    /** `saveMinAmounts`: the same loop over the minimum-amount table. */
    method SaveMinAmounts() returns (section: Section<int32>)
      ensures Encodes(section, minAmounts)
    {
      section := [];
      ghost var visited: seq<int32> := [];
      var rest := minAmounts.Keys;
      while rest != {}
        invariant rest <= minAmounts.Keys
        invariant forall i :: 0 <= i < |visited| ==> visited[i] in minAmounts && visited[i] !in rest
        invariant forall i, j :: 0 <= i < j < |visited| ==> visited[i] != visited[j]
        invariant forall k :: k in minAmounts && k !in rest ==> k in visited
        invariant section == SectionFor(minAmounts, visited)
        decreases rest
      {
        var id :| id in rest;
        assert (visited + [id])[..|visited|] == visited;
        section := section + [(IntToString(id), minAmounts[id])];
        visited := visited + [id];
        rest := rest - {id};
      }
      assert Enumerates(visited, minAmounts.Keys);
    }

    /**
     * `onEnable`'s part: take the configuration read from the file, then load
     * the prices section and the minimum-amounts section from it.
     */
    method Enable(file: Store)
      modifies this
      ensures config == file
      ensures prices == LoadInto(old(prices), SectionOr(file.decimalSections, PricesSection))
      ensures minAmounts == LoadInto(old(minAmounts), SectionOr(file.intSections, MinAmountsSection))
    {
      config := file;
      LoadPrices(SectionOr(config.decimalSections, PricesSection));
      LoadMinAmounts(SectionOr(config.intSections, MinAmountsSection));
    }

    /**
     * `onDisable`: each save replaces its section of the configuration
     * (`createSection`) with what the save loop wrote. The tables stay, and
     * no other section changes.
     */
    method Disable()
      modifies this
      ensures prices == old(prices) && minAmounts == old(minAmounts)
      ensures PricesSection in config.decimalSections
      ensures Encodes(config.decimalSections[PricesSection], prices)
      ensures config.decimalSections == old(config.decimalSections)[PricesSection := config.decimalSections[PricesSection]]
      ensures MinAmountsSection in config.intSections
      ensures Encodes(config.intSections[MinAmountsSection], minAmounts)
      ensures config.intSections == old(config.intSections)[MinAmountsSection := config.intSections[MinAmountsSection]]
    {
      var savedPrices := SavePrices();
      config := config.(decimalSections := config.decimalSections[PricesSection := savedPrices]);
      var savedMinAmounts := SaveMinAmounts();
      config := config.(intSections := config.intSections[MinAmountsSection := savedMinAmounts]);
    }

    /**
     * A server restart: `onDisable` saves both tables into the configuration,
     * the file keeps it, and a new plugin object, whose tables start empty,
     * enables from it. The new object holds exactly the tables of the old one.
     */
    method Restart() returns (next: Shop)
      modifies this
      ensures fresh(next)
      ensures prices == old(prices) && minAmounts == old(minAmounts)
      ensures next.prices == prices && next.minAmounts == minAmounts
      ensures next.config == config
    {
      Disable();
      next := new Shop();
      next.Enable(config);
      SaveLoadRoundTrip(map[], config.decimalSections[PricesSection], prices);
      SaveLoadRoundTrip(map[], config.intSections[MinAmountsSection], minAmounts);
    }
  }

  /**
   * As written, the minimum amounts are saved under `"minAmounts"` but loaded
   * from `"min-amounts"`. Starting from a file without a `"min-amounts"`
   * section, a saved table that is not empty comes back empty after a restart.
   */
  lemma MinAmountsLostAcrossNames(file: Store, minAmounts: map<int32, int32>, saved: Section<int32>)
    requires MinAmountsSection !in file.intSections
    requires Encodes(saved, minAmounts) && minAmounts != map[]
    ensures LoadInto(map[], SectionOr(file.intSections[MinAmountsSectionAsSaved := saved], MinAmountsSection)) == map[]
    ensures LoadInto(map[], SectionOr(file.intSections[MinAmountsSectionAsSaved := saved], MinAmountsSection)) != minAmounts
  {
    assert MinAmountsSectionAsSaved != MinAmountsSection;
  }

  /** The same loss on one concrete table: item 1 with minimum 5, saved as `[("1", 5)]`. */
  lemma MinAmountsLostExample()
    ensures LoadInto(map[], SectionOr(map[MinAmountsSectionAsSaved := [("1", 5 as int32)]], MinAmountsSection)) == map[]
    ensures Encodes([("1", 5 as int32)], map[1 as int32 := 5 as int32])
  {
    var ks: seq<int32> := [1];
    assert IntToString(1) == "1";
    assert SectionFor(map[1 as int32 := 5 as int32], ks) == [("1", 5 as int32)];
    assert Enumerates(ks, {1});
    assert MinAmountsSectionAsSaved != MinAmountsSection;
  }
}
