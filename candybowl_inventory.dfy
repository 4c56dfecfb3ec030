/** The older inventory ledger (`candybowl/inventory.py`): a six-column CSV file with a single
    price column, and buy/sell operations. */
module CandybowlInventory {
  import opened Outcomes
  import opened LedgerTable

  /** The `price_usd` column is the row's pricing. */
  type Item = Row<real>

  const Columns: seq<string> := ["item_id", "item_name", "link", "quantity", "price_usd", "description"]

  const DuplicateItem: string := "An item with the same name or link already exists."
  const NotEnoughQuantity: string := "Not enough quantity to sell."

  /** `sell_item`: an unknown id fails, then a quantity above the held one; otherwise the quantity
      becomes the held one minus the sold one, through `_update_quantity`. */
  function Sold(rows: seq<Item>, itemId: string, quantity: int): Result<seq<Item>>
  {
    if !HasId(rows, itemId) then Err(NotFound(itemId))
    else if QuantityOf(rows, itemId) < quantity then Err(NotEnoughQuantity)
    else QuantityUpdated(rows, itemId, QuantityOf(rows, itemId) - quantity)
  }

  /** `sell_item` fails for an unknown id, and for a known one exactly when fewer units are held
      than are sold; on success every row left has a positive quantity, only the sold item's
      quantity changed, and of the other rows exactly those of quantity 0 are pruned. */
  lemma SoldOutcome(rows: seq<Item>, itemId: string, quantity: int)
    ensures !HasId(rows, itemId) ==> Sold(rows, itemId, quantity) == Err(NotFound(itemId))
    ensures HasId(rows, itemId) ==>
      && (Sold(rows, itemId, quantity).Err? <==> QuantityOf(rows, itemId) < quantity)
      && (Sold(rows, itemId, quantity).Err? ==> Sold(rows, itemId, quantity) == Err(NotEnoughQuantity))
    ensures Sold(rows, itemId, quantity).Ok? ==>
      var t := Sold(rows, itemId, quantity).value;
      && (forall k :: 0 <= k < |t| ==> t[k].quantity > 0)
      && OnlyQuantityChanged(rows, t, itemId, QuantityOf(rows, itemId) - quantity)
      && (forall x :: x in rows && x.itemId != itemId ==> (x in t <==> x.quantity > 0))
  {
    if HasId(rows, itemId) && QuantityOf(rows, itemId) >= quantity {
      var q := QuantityOf(rows, itemId) - quantity;
      assert Sold(rows, itemId, quantity) == QuantityUpdated(rows, itemId, q);
      QuantityUpdatedShape(rows, itemId, q);
    }
  }

  /** Selling exactly the held quantity removes the item from the table. */
  lemma SellAllRemovesItem(rows: seq<Item>, itemId: string)
    requires HasId(rows, itemId)
    ensures Sold(rows, itemId, QuantityOf(rows, itemId)).Ok?
    ensures !HasId(Sold(rows, itemId, QuantityOf(rows, itemId)).value, itemId)
  {
    ZeroQuantityRemovesItem(rows, itemId);
  }

  /** `buy_item` fails only for an unknown id or when the new quantity would be negative; on
      success every row left has a positive quantity, only the bought item's quantity changed, and
      of the other rows exactly those of quantity 0 are pruned. */
  lemma BoughtOutcome(rows: seq<Item>, itemId: string, quantity: int)
    ensures !HasId(rows, itemId) ==> Incremented(rows, itemId, quantity) == Err(NotFound(itemId))
    ensures HasId(rows, itemId) ==>
      (Incremented(rows, itemId, quantity).Err? <==> QuantityOf(rows, itemId) + quantity < 0)
    ensures Incremented(rows, itemId, quantity).Ok? ==>
      var t := Incremented(rows, itemId, quantity).value;
      && (forall k :: 0 <= k < |t| ==> t[k].quantity > 0)
      && OnlyQuantityChanged(rows, t, itemId, QuantityOf(rows, itemId) + quantity)
      && (forall x :: x in rows && x.itemId != itemId ==> (x in t <==> x.quantity > 0))
  {
    if HasId(rows, itemId) && QuantityOf(rows, itemId) + quantity >= 0 {
      var q := QuantityOf(rows, itemId) + quantity;
      assert Incremented(rows, itemId, quantity) == QuantityUpdated(rows, itemId, q);
      QuantityUpdatedShape(rows, itemId, q);
    }
  }

  /** The older `InventoryManagerCSV` over one CSV file. */
  class InventoryManagerCSV {
    const file: LedgerFile<real>

    ghost predicate Valid()
      reads this, file
    {
      file.present
    }

    /** `__init__`: runs `_initialize_csv`. */
    constructor (file: LedgerFile<real>)
      modifies file
      ensures this.file == file && Valid()
      ensures old(file.present) ==> file.header == old(file.header) && file.rows == old(file.rows)
      ensures !old(file.present) ==> file.header == Columns && file.rows == []
    {
      this.file := file;
      new;
      InitializeCsv();
    }

    /** A missing file is created holding only the six-column header; an existing one is left alone. */
    method InitializeCsv()
      modifies file
      ensures file.present
      ensures old(file.present) ==> file.header == old(file.header) && file.rows == old(file.rows)
      ensures !old(file.present) ==> file.header == Columns && file.rows == []
    {
      if !file.present {
        file.present, file.header, file.rows := true, Columns, [];
      }
    }

    /** `add_item` fails exactly when some row has the same name or the same link. It writes
        nothing: the frame with the new row is built and then dropped, so the file never changes. */
    method AddItem(itemName: string, link: string, priceUsd: real, description: string, newId: string)
      returns (r: Outcome)
      requires Valid()
      ensures r.Fail? <==> exists k :: 0 <= k < |file.rows| && Matches(file.rows[k], itemName, link)
      ensures r.Fail? ==> r.msg == DuplicateItem
    {
      var inventory := file.rows;
      if FirstMatch(inventory, itemName, link).Some? {
        return Fail(DuplicateItem);
      }
      var newRow := Row(newId, itemName, link, 0, priceUsd, description);
      inventory := inventory + [newRow];
      r := Pass;
    }

    /** Keeps exactly the rows with a positive quantity, in order. */
    method PruneInventory()
      requires Valid()
      modifies file
      ensures Valid() && file.header == old(file.header)
      ensures file.rows == Prune(old(file.rows))
      ensures old(WellFormed(file.rows)) ==> WellFormed(file.rows)
    {
      var inventory := file.rows;
      inventory := Prune(inventory);
      file.rows := inventory;
      if old(WellFormed(file.rows)) {
        PruneKeepsUnique(old(file.rows));
      }
    }

    /** A negative quantity fails before the table is read; an unknown id fails next; otherwise the
        matching rows get the new quantity, the table is saved and then pruned. */
    method UpdateQuantity(itemId: string, newQuantity: int) returns (r: Outcome)
      requires Valid()
      modifies file
      ensures Valid() && file.header == old(file.header)
      ensures Reflects(QuantityUpdated(old(file.rows), itemId, newQuantity), r, old(file.rows), file.rows)
      ensures newQuantity < 0 ==> r == Fail(NegativeQuantity)
      ensures newQuantity >= 0 && !HasId(old(file.rows), itemId) ==> r == Fail(NotFound(itemId))
      ensures old(WellFormed(file.rows)) ==> WellFormed(file.rows)
    {
      if newQuantity < 0 {
        return Fail(NegativeQuantity);
      }
      var inventory := file.rows;
      if !HasId(inventory, itemId) {
        return Fail(NotFound(itemId));
      }
      inventory := WithQuantity(inventory, itemId, newQuantity);
      file.rows := inventory;
      PruneInventory();
      r := Pass;
      if old(WellFormed(file.rows)) {
        QuantityUpdatedWellFormed(old(file.rows), itemId, newQuantity);
      }
    }

    /** `buy_item`: an unknown id fails with the table unchanged; otherwise the quantity becomes the
        held quantity plus the bought one, and the table is pruned. */
    method BuyItem(itemId: string, quantity: int) returns (r: Outcome)
      requires Valid()
      modifies file
      ensures Valid() && file.header == old(file.header)
      ensures Reflects(Incremented(old(file.rows), itemId, quantity), r, old(file.rows), file.rows)
      ensures !HasId(old(file.rows), itemId) ==> r == Fail(NotFound(itemId)) && file.rows == old(file.rows)
      ensures r.Pass? ==> forall k :: 0 <= k < |file.rows| ==> file.rows[k].quantity > 0
      ensures old(WellFormed(file.rows)) ==> WellFormed(file.rows)
    {
      BoughtOutcome(file.rows, itemId, quantity);
      var inventory := file.rows;
      if !HasId(inventory, itemId) {
        return Fail(NotFound(itemId));
      }
      var currentQuantity := QuantityOf(inventory, itemId);
      var newQuantity := currentQuantity + quantity;
      r := UpdateQuantity(itemId, newQuantity);
    }

    /** `sell_item`: an unknown id or too few units held fail with the table unchanged; otherwise
        the quantity drops by the sold amount, and the table is pruned. */
    method SellItem(itemId: string, quantity: int) returns (r: Outcome)
      requires Valid()
      modifies file
      ensures Valid() && file.header == old(file.header)
      ensures Reflects(Sold(old(file.rows), itemId, quantity), r, old(file.rows), file.rows)
      ensures HasId(old(file.rows), itemId) ==>
        (r == Fail(NotEnoughQuantity) <==> QuantityOf(old(file.rows), itemId) < quantity)
      ensures r.Pass? ==> forall k :: 0 <= k < |file.rows| ==> file.rows[k].quantity > 0
      ensures old(WellFormed(file.rows)) ==> WellFormed(file.rows)
    {
      SoldOutcome(file.rows, itemId, quantity);
      var inventory := file.rows;
      if !HasId(inventory, itemId) {
        return Fail(NotFound(itemId));
      }
      var currentQuantity := QuantityOf(inventory, itemId);
      if currentQuantity < quantity {
        return Fail(NotEnoughQuantity);
      }
      var newQuantity := currentQuantity - quantity;
      r := UpdateQuantity(itemId, newQuantity);
    }
  }
}
