/** The newer inventory ledger (`backend/backend/inventory.py`): a seven-column CSV file
    with separate purchase and sell prices. */
module BackendInventory {
  import opened Outcomes
  import opened LedgerTable

  /** The `total_purchase_price_usd` and `sell_price_usd` columns. */
  datatype Pricing = Pricing(totalPurchasePriceUsd: real, sellPriceUsd: real)

  type Item = Row<Pricing>

  const Columns: seq<string> :=
    ["item_id", "item_name", "link", "quantity", "total_purchase_price_usd", "sell_price_usd", "description"]

  const NegativePrice: string := "Price cannot be negative."

  /** The row `stock_item` appends: a fresh id and quantity 0, whatever quantity was asked for. */
  function NewItem(itemId: string, itemName: string, link: string, purchase: real, sell: real, description: string): Item
  {
    Row(itemId, itemName, link, 0, Pricing(purchase, sell), description)
  }

  /** `stock_item` as written: when a row matches the name or the link, `_add_item` runs on the
      first match and may fail; if it does not fail, its effect is overwritten by saving the
      snapshot taken at the start with the new row appended. */
  function Stocked(rows: seq<Item>, itemName: string, link: string, quantity: int,
                   purchase: real, sell: real, description: string, newId: string): Result<seq<Item>>
  {
    var appended := rows + [NewItem(newId, itemName, link, purchase, sell, description)];
    match FirstMatch(rows, itemName, link)
    case None => Ok(appended)
    case Some(k) =>
      match Incremented(rows, rows[k].itemId, quantity)
      case Err(m) => Err(m)
      case Ok(_) => Ok(appended)
  }

  /** The masked assignment of a sell price: every row with the id gets the new sell price. */
  function WithSellPrice(rows: seq<Item>, itemId: string, price: real): seq<Item>
  {
    seq(|rows|, k requires 0 <= k < |rows| =>
      if rows[k].itemId == itemId then rows[k].(pricing := rows[k].pricing.(sellPriceUsd := price)) else rows[k])
  }

  /** `set_price`: negativity is checked before existence; no prune follows. */
  function PriceSet(rows: seq<Item>, itemId: string, price: real): Result<seq<Item>>
  {
    if price < 0.0 then Err(NegativePrice)
    else if !HasId(rows, itemId) then Err(NotFound(itemId))
    else Ok(WithSellPrice(rows, itemId, price))
  }

  /** `stock_item` fails exactly when a row matches and the first match's quantity plus the requested
      quantity is negative, and then with the quantity message; otherwise the table is the old table
      with exactly one row appended, of quantity 0, so the increment is lost and nothing is pruned. */
  lemma StockedOutcome(rows: seq<Item>, itemName: string, link: string, quantity: int,
                       purchase: real, sell: real, description: string, newId: string)
    ensures var res := Stocked(rows, itemName, link, quantity, purchase, sell, description, newId);
      && (res.Err? <==>
            FirstMatch(rows, itemName, link).Some? &&
            QuantityOf(rows, rows[FirstMatch(rows, itemName, link).value].itemId) + quantity < 0)
      && (res.Err? ==> res.msg == NegativeQuantity)
      && (res.Ok? ==> res.value == rows + [NewItem(newId, itemName, link, purchase, sell, description)])
  {
    match FirstMatch(rows, itemName, link)
    case None =>
    case Some(k) =>
      assert HasId(rows, rows[k].itemId);
  }

  /** With unique ids the failure condition is about the matched row itself. */
  lemma StockedFailsOnMatchedRow(rows: seq<Item>, itemName: string, link: string, quantity: int,
                                 purchase: real, sell: real, description: string, newId: string)
    requires UniqueIds(rows)
    ensures Stocked(rows, itemName, link, quantity, purchase, sell, description, newId).Err? <==>
      exists k :: 0 <= k < |rows| && Matches(rows[k], itemName, link) &&
        (forall j :: 0 <= j < k ==> !Matches(rows[j], itemName, link)) &&
        rows[k].quantity + quantity < 0
  {
    StockedOutcome(rows, itemName, link, quantity, purchase, sell, description, newId);
    var m := FirstMatch(rows, itemName, link);
    if m.Some? {
      UniqueIndexOf(rows, m.value);
    }
  }

  /** With a fresh id, stocking keeps the ledger invariant. */
  lemma StockedWellFormed(rows: seq<Item>, itemName: string, link: string, quantity: int,
                          purchase: real, sell: real, description: string, newId: string)
    requires WellFormed(rows) && !HasId(rows, newId)
    requires Stocked(rows, itemName, link, quantity, purchase, sell, description, newId).Ok?
    ensures WellFormed(Stocked(rows, itemName, link, quantity, purchase, sell, description, newId).value)
  {
    StockedOutcome(rows, itemName, link, quantity, purchase, sell, description, newId);
    AppendFresh(rows, NewItem(newId, itemName, link, purchase, sell, description));
  }

  /** A successful `set_price` changes only the sell price of the rows with that id and keeps
      the row count; a failing one reports the price message when the price is negative and
      the existence message otherwise. */
  lemma PriceSetOutcome(rows: seq<Item>, itemId: string, price: real)
    ensures var res := PriceSet(rows, itemId, price);
      && (price < 0.0 ==> res == Err(NegativePrice))
      && (price >= 0.0 && !HasId(rows, itemId) ==> res == Err(NotFound(itemId)))
      && (res.Ok? <==> price >= 0.0 && HasId(rows, itemId))
      && (res.Ok? ==> |res.value| == |rows|)
      && (res.Ok? ==> forall k :: 0 <= k < |rows| ==>
            && res.value[k].(pricing := res.value[k].pricing.(sellPriceUsd := rows[k].pricing.sellPriceUsd)) == rows[k]
            && res.value[k].pricing.sellPriceUsd == (if rows[k].itemId == itemId then price else rows[k].pricing.sellPriceUsd))
  {
    var res := PriceSet(rows, itemId, price);
    if res.Ok? {
      var t := res.value;
      forall k | 0 <= k < |rows|
        ensures t[k].(pricing := t[k].pricing.(sellPriceUsd := rows[k].pricing.sellPriceUsd)) == rows[k]
      {
        if rows[k].itemId != itemId {
          assert t[k] == rows[k];
        }
      }
    }
  }

  /** Setting a price keeps the ledger invariant. */
  lemma PriceSetWellFormed(rows: seq<Item>, itemId: string, price: real)
    requires WellFormed(rows) && PriceSet(rows, itemId, price).Ok?
    ensures WellFormed(PriceSet(rows, itemId, price).value)
  {
    var t := PriceSet(rows, itemId, price).value;
    forall i, j | 0 <= i < j < |t| ensures t[i].itemId != t[j].itemId {
      assert t[i].itemId == rows[i].itemId && t[j].itemId == rows[j].itemId;
    }
  }

  /** Stocking "gum" twice, as written, leaves two rows of quantity 0. */
  lemma StockTwiceAsWritten()
    ensures var first := Stocked([], "gum", "http://x/gum", 10, 1.0, 2.0, "mint", "id-1");
      && first == Ok([NewItem("id-1", "gum", "http://x/gum", 1.0, 2.0, "mint")])
      && Stocked(first.value, "gum", "http://x/gum", 5, 1.0, 2.0, "mint", "id-2") ==
           Ok([NewItem("id-1", "gum", "http://x/gum", 1.0, 2.0, "mint"),
               NewItem("id-2", "gum", "http://x/gum", 1.0, 2.0, "mint")])
  {
    var gum := NewItem("id-1", "gum", "http://x/gum", 1.0, 2.0, "mint");
    var empty: seq<Item> := [];
    assert FirstMatch(empty, "gum", "http://x/gum") == None;
    assert empty + [gum] == [gum];
    assert FirstMatch([gum], "gum", "http://x/gum") == Some(0);
    assert HasId([gum], "id-1");
    assert QuantityOf([gum], "id-1") == 0;
    assert Incremented([gum], "id-1", 5).Ok?;
    var gum2 := NewItem("id-2", "gum", "http://x/gum", 1.0, 2.0, "mint");
    StockedOutcome([gum], "gum", "http://x/gum", 5, 1.0, 2.0, "mint", "id-2");
    assert [gum] + [gum2] == [gum, gum2];
  }

  /** `stock_item` as its documentation describes it: the first match's quantity is increased
      and nothing is appended; otherwise a new row is appended with quantity 0 and then given the
      requested quantity through the same quantity update, so a negative quantity is refused. */
  function StockedIntended(rows: seq<Item>, itemName: string, link: string, quantity: int,
                           purchase: real, sell: real, description: string, newId: string): Result<seq<Item>>
  {
    match FirstMatch(rows, itemName, link)
    case None => Incremented(rows + [NewItem(newId, itemName, link, purchase, sell, description)], newId, quantity)
    case Some(k) => Incremented(rows, rows[k].itemId, quantity)
  }

  /** Appending a row with a fresh id and a non-negative quantity keeps the ledger invariant. */
  lemma AppendFresh(rows: seq<Item>, r: Item)
    requires WellFormed(rows) && !HasId(rows, r.itemId) && r.quantity >= 0
    ensures WellFormed(rows + [r])
  {
    var t := rows + [r];
    forall i, j | 0 <= i < j < |t| ensures t[i].itemId != t[j].itemId {
      if j == |rows| {
        assert t[i] == rows[i];
      } else {
        assert t[i] == rows[i] && t[j] == rows[j];
      }
    }
  }

  /** The masked assignment on a fresh id touches only the appended row. */
  lemma WithQuantityFresh(rows: seq<Item>, r: Item, q: int)
    requires !HasId(rows, r.itemId)
    ensures WithQuantity(rows + [r], r.itemId, q) == rows + [r.(quantity := q)]
  {
    var w := WithQuantity(rows + [r], r.itemId, q);
    forall k | 0 <= k < |rows| ensures w[k] == rows[k] {
      assert rows[k].itemId != r.itemId;
    }
  }

  /** The documented promise holds of the corrected version. A matching item's quantity becomes
      its old quantity plus the requested amount, a negative result is refused, no row is
      appended, no other field changes, and of the other rows exactly those of quantity 0 are
      pruned. A new item is refused for a negative quantity and otherwise appended holding the
      requested quantity, behind the pruned old table. */
  lemma StockedIntendedIncreases(rows: seq<Item>, itemName: string, link: string, quantity: int,
                                 purchase: real, sell: real, description: string, newId: string)
    requires UniqueIds(rows) && !HasId(rows, newId)
    ensures var res := StockedIntended(rows, itemName, link, quantity, purchase, sell, description, newId);
      var added := Row(newId, itemName, link, quantity, Pricing(purchase, sell), description);
      match FirstMatch(rows, itemName, link)
      case None =>
        && (quantity < 0 ==> res == Err(NegativeQuantity))
        && (quantity > 0 ==> res == Ok(Prune(rows) + [added]))
        && (quantity == 0 ==> res == Ok(Prune(rows)))
      case Some(k) =>
        && (rows[k].quantity + quantity < 0 ==> res == Err(NegativeQuantity))
        && (rows[k].quantity + quantity >= 0 ==>
              && res.Ok? && |res.value| <= |rows|
              && OnlyQuantityChanged(rows, res.value, rows[k].itemId, rows[k].quantity + quantity)
              && (forall x :: x in rows && x.itemId != rows[k].itemId ==> (x in res.value <==> x.quantity > 0)))
        && (rows[k].quantity + quantity > 0 ==>
              res.Ok? && rows[k].(quantity := rows[k].quantity + quantity) in res.value)
  {
    match FirstMatch(rows, itemName, link)
    case None =>
      AppendedIntended(rows, NewItem(newId, itemName, link, purchase, sell, description), quantity);
    case Some(k) =>
      MatchedIntended(rows, k, quantity);
  }

  /** The quantity update on a matched row of a table with unique ids, as the corrected version makes it. */
  lemma MatchedIntended(rows: seq<Item>, k: nat, quantity: int)
    requires UniqueIds(rows) && k < |rows|
    ensures var res := Incremented(rows, rows[k].itemId, quantity);
      && (rows[k].quantity + quantity < 0 ==> res == Err(NegativeQuantity))
      && (rows[k].quantity + quantity >= 0 ==>
            && res.Ok? && |res.value| <= |rows|
            && OnlyQuantityChanged(rows, res.value, rows[k].itemId, rows[k].quantity + quantity)
            && (forall x :: x in rows && x.itemId != rows[k].itemId ==> (x in res.value <==> x.quantity > 0)))
      && (rows[k].quantity + quantity > 0 ==>
            res.Ok? && rows[k].(quantity := rows[k].quantity + quantity) in res.value)
  {
    var id, q := rows[k].itemId, rows[k].quantity + quantity;
    UniqueIndexOf(rows, k);
    assert Incremented(rows, id, quantity) == QuantityUpdated(rows, id, q);
    if q >= 0 {
      QuantityUpdatedShape(rows, id, q);
    }
    if q > 0 {
      QuantityUpdatedPositive(rows, k, q);
    }
  }

  /** A new row of quantity 0 with a fresh id, given quantity q by the quantity update: refused
      when q is negative, otherwise appended behind the pruned table, and dropped again when q is 0. */
  lemma AppendedIntended(rows: seq<Item>, n: Item, q: int)
    requires !HasId(rows, n.itemId) && n.quantity == 0
    ensures q < 0 ==> Incremented(rows + [n], n.itemId, q) == Err(NegativeQuantity)
    ensures q > 0 ==> Incremented(rows + [n], n.itemId, q) == Ok(Prune(rows) + [n.(quantity := q)])
    ensures q == 0 ==> Incremented(rows + [n], n.itemId, q) == Ok(Prune(rows))
  {
    IncrementedFresh(rows, n, q);
    if q > 0 {
      PruneKeepsPositive([n.(quantity := q)]);
    } else if q == 0 {
      assert Prune([n.(quantity := q)]) == [];
      assert Prune(rows) + [] == Prune(rows);
    }
  }

  lemma IncrementedFresh(rows: seq<Item>, n: Item, q: int)
    requires !HasId(rows, n.itemId) && n.quantity == 0
    ensures Incremented(rows + [n], n.itemId, q) == QuantityUpdated(rows + [n], n.itemId, q)
    ensures q >= 0 ==> QuantityUpdated(rows + [n], n.itemId, q) == Ok(Prune(rows) + Prune([n.(quantity := q)]))
  {
    var t := rows + [n];
    assert HasId(t, n.itemId) by { assert t[|rows|].itemId == n.itemId; }
    assert IndexOf(t, n.itemId) == |rows|;
    if q >= 0 {
      WithQuantityFresh(rows, n, q);
      PruneConcat(rows, [n.(quantity := q)]);
    }
  }

  /** With a fresh id, the corrected version keeps the ledger invariant. */
  lemma StockedIntendedWellFormed(rows: seq<Item>, itemName: string, link: string, quantity: int,
                                  purchase: real, sell: real, description: string, newId: string)
    requires WellFormed(rows) && !HasId(rows, newId)
    requires StockedIntended(rows, itemName, link, quantity, purchase, sell, description, newId).Ok?
    ensures WellFormed(StockedIntended(rows, itemName, link, quantity, purchase, sell, description, newId).value)
  {
    match FirstMatch(rows, itemName, link)
    case None =>
      var n := NewItem(newId, itemName, link, purchase, sell, description);
      AppendFresh(rows, n);
      assert HasId(rows + [n], newId) by { assert (rows + [n])[|rows|].itemId == newId; }
      QuantityUpdatedWellFormed(rows + [n], newId, QuantityOf(rows + [n], newId) + quantity);
    case Some(k) =>
      assert HasId(rows, rows[k].itemId);
      QuantityUpdatedWellFormed(rows, rows[k].itemId, QuantityOf(rows, rows[k].itemId) + quantity);
  }

  /** Stocking "gum" with 10 and then with 5, corrected, leaves one row of quantity 15. */
  lemma StockTwiceIntended()
    ensures var first := StockedIntended([], "gum", "http://x/gum", 10, 1.0, 2.0, "mint", "id-1");
      && first == Ok([Row("id-1", "gum", "http://x/gum", 10, Pricing(1.0, 2.0), "mint")])
      && StockedIntended(first.value, "gum", "http://x/gum", 5, 1.0, 2.0, "mint", "id-2") ==
           Ok([Row("id-1", "gum", "http://x/gum", 15, Pricing(1.0, 2.0), "mint")])
  {
    var gum0 := NewItem("id-1", "gum", "http://x/gum", 1.0, 2.0, "mint");
    var gum := gum0.(quantity := 10);
    var empty: seq<Item> := [];
    assert FirstMatch(empty, "gum", "http://x/gum") == None;
    assert empty + [gum0] == [gum0];
    assert HasId([gum0], "id-1") by { assert [gum0][0].itemId == "id-1"; }
    assert QuantityOf([gum0], "id-1") == 0;
    var w0 := WithQuantity([gum0], "id-1", 10);
    assert w0 == [gum];
    assert Prune(w0) == w0 by { PruneKeepsPositive(w0); }
    assert FirstMatch([gum], "gum", "http://x/gum") == Some(0);
    assert HasId([gum], "id-1");
    assert QuantityOf([gum], "id-1") == 10;
    var w := WithQuantity([gum], "id-1", 15);
    assert w == [gum.(quantity := 15)];
    assert Prune(w) == w by { PruneKeepsPositive(w); }
  }

  /** `InventoryManagerCSV` over one CSV file. Every method loads the whole table from the file,
      changes it and writes it back. */
  class InventoryManagerCSV {
    const file: LedgerFile<Pricing>

    ghost predicate Valid()
      reads this, file
    {
      file.present
    }

    /** `__init__`: runs `_initialize_csv`. */
    constructor (file: LedgerFile<Pricing>)
      modifies file
      ensures this.file == file && Valid()
      ensures old(file.present) ==> file.header == old(file.header) && file.rows == old(file.rows)
      ensures !old(file.present) ==> file.header == Columns && file.rows == []
    {
      this.file := file;
      new;
      InitializeCsv();
    }

    /** A missing file is created holding only the header; an existing one is left alone. */
    method InitializeCsv()
      modifies file
      ensures file.present
      ensures old(file.present) ==> file.header == old(file.header) && file.rows == old(file.rows)
      ensures !old(file.present) ==> file.header == Columns && file.rows == []
    {
      if !file.present {
        file.present, file.header, file.rows := true, Columns, [];
      }
    }

    /** Keeps exactly the rows with a positive quantity, in order. */
    method PruneInventory()
      requires Valid()
      modifies file
      ensures Valid() && file.header == old(file.header)
      ensures file.rows == Prune(old(file.rows))
      ensures old(WellFormed(file.rows)) ==> WellFormed(file.rows)
    {
      var inventory := file.rows;
      inventory := Prune(inventory);
      file.rows := inventory;
      if old(WellFormed(file.rows)) {
        PruneKeepsUnique(old(file.rows));
      }
    }

    /** A negative quantity fails before the table is read; an unknown id fails next; otherwise the
        matching rows get the new quantity, the table is saved and then pruned. */
    method UpdateQuantity(itemId: string, newQuantity: int) returns (r: Outcome)
      requires Valid()
      modifies file
      ensures Valid() && file.header == old(file.header)
      ensures Reflects(QuantityUpdated(old(file.rows), itemId, newQuantity), r, old(file.rows), file.rows)
      ensures newQuantity < 0 ==> r == Fail(NegativeQuantity)
      ensures newQuantity >= 0 && !HasId(old(file.rows), itemId) ==> r == Fail(NotFound(itemId))
      ensures r.Pass? ==> forall k :: 0 <= k < |file.rows| ==> file.rows[k].quantity > 0
      ensures old(WellFormed(file.rows)) ==> WellFormed(file.rows)
    {
      if newQuantity < 0 {
        return Fail(NegativeQuantity);
      }
      var inventory := file.rows;
      if !HasId(inventory, itemId) {
        return Fail(NotFound(itemId));
      }
      inventory := WithQuantity(inventory, itemId, newQuantity);
      file.rows := inventory;
      PruneInventory();
      r := Pass;
      if old(WellFormed(file.rows)) {
        QuantityUpdatedWellFormed(old(file.rows), itemId, newQuantity);
      }
    }

    /** `_add_item`: an unknown id fails; otherwise the quantity becomes the first matching
        row's quantity plus the delta, through `_update_quantity`. */
    method AddItem(itemId: string, quantity: int) returns (r: Outcome)
      requires Valid()
      modifies file
      ensures Valid() && file.header == old(file.header)
      ensures Reflects(Incremented(old(file.rows), itemId, quantity), r, old(file.rows), file.rows)
      ensures old(WellFormed(file.rows)) ==> WellFormed(file.rows)
    {
      var inventory := file.rows;
      if !HasId(inventory, itemId) {
        return Fail(NotFound(itemId));
      }
      var currentQuantity := QuantityOf(inventory, itemId);
      var newQuantity := currentQuantity + quantity;
      r := UpdateQuantity(itemId, newQuantity);
    }

    /** `stock_item` as written. The snapshot loaded first is what is finally saved, with the new
        row appended; the update `_add_item` saves in between is overwritten. */
    method StockItem(itemName: string, link: string, quantity: int, totalPurchasePriceUsd: real,
                     sellPriceUsd: real, description: string, newId: string) returns (r: Outcome)
      requires Valid()
      modifies file
      ensures Valid() && file.header == old(file.header)
      ensures Reflects(Stocked(old(file.rows), itemName, link, quantity, totalPurchasePriceUsd, sellPriceUsd, description, newId),
                       r, old(file.rows), file.rows)
      ensures r.Pass? ==> file.rows == old(file.rows) + [NewItem(newId, itemName, link, totalPurchasePriceUsd, sellPriceUsd, description)]
      ensures r.Fail? ==> r.msg == NegativeQuantity && file.rows == old(file.rows)
      ensures old(WellFormed(file.rows)) && !HasId(old(file.rows), newId) ==> WellFormed(file.rows)
    {
      StockedOutcome(file.rows, itemName, link, quantity, totalPurchasePriceUsd, sellPriceUsd, description, newId);
      var inventory := file.rows;
      var found := FirstMatch(inventory, itemName, link);
      if found.Some? {
        var itemId := inventory[found.value].itemId;
        var added := AddItem(itemId, quantity);
        if added.Fail? {
          return added;
        }
      }
      var newRow := NewItem(newId, itemName, link, totalPurchasePriceUsd, sellPriceUsd, description);
      inventory := inventory + [newRow];
      file.rows := inventory;
      r := Pass;
      if old(WellFormed(file.rows)) && !HasId(old(file.rows), newId) {
        StockedWellFormed(old(file.rows), itemName, link, quantity, totalPurchasePriceUsd, sellPriceUsd, description, newId);
      }
    }

    /** `set_price`: a negative price fails first, then an unknown id; otherwise only the sell
        price of the matching rows changes. */
    method SetPrice(itemId: string, newPriceUsd: real) returns (r: Outcome)
      requires Valid()
      modifies file
      ensures Valid() && file.header == old(file.header)
      ensures Reflects(PriceSet(old(file.rows), itemId, newPriceUsd), r, old(file.rows), file.rows)
      ensures |file.rows| == |old(file.rows)|
      ensures old(WellFormed(file.rows)) ==> WellFormed(file.rows)
    {
      if newPriceUsd < 0.0 {
        return Fail(NegativePrice);
      }
      var inventory := file.rows;
      if !HasId(inventory, itemId) {
        return Fail(NotFound(itemId));
      }
      inventory := WithSellPrice(inventory, itemId, newPriceUsd);
      file.rows := inventory;
      r := Pass;
      if old(WellFormed(file.rows)) {
        PriceSetWellFormed(old(file.rows), itemId, newPriceUsd);
      }
    }
  }
}
