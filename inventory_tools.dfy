/** The model-facing inventory tools (`backend/backend/ai/tools/inventory.py`). Each call builds a
    fresh ledger manager over the CSV file, runs one ledger operation and renders its outcome as
    text: a fixed success message, or "Error: " followed by the failure message. */
module InventoryTools {
  import opened Outcomes
  import opened LedgerTable
  import opened BackendInventory

  const StockSuccess: string := "Item added successfully."
  const PriceSuccess: string := "Price updated successfully."
  const ErrorPrefix: string := "Error: "

  /** The text the tool boundary hands back for an outcome. */
  function Reply(r: Outcome, success: string): (text: string)
  {
    match r
    case Pass => success
    case Fail(m) => ErrorPrefix + m
  }

  /** A success text that does not itself start with "Error: " tells the caller the outcome:
      the reply is the success text exactly when the operation completed, and otherwise it is
      "Error: " followed by the message. */
  lemma ReplyDistinguishes(r: Outcome, success: string)
    requires |success| < |ErrorPrefix| || success[..|ErrorPrefix|] != ErrorPrefix
    ensures Reply(r, success) == success <==> r.Pass?
    ensures r.Fail? ==> Reply(r, success) == ErrorPrefix + r.msg
  {
    if r.Fail? {
      var text := ErrorPrefix + r.msg;
      assert text[..|ErrorPrefix|] == ErrorPrefix;
    }
  }

  /** The table the manager sees once its constructor has run `_initialize_csv`. */
  ghost function Initialized(present: bool, rows: seq<Item>): seq<Item>
  {
    if present then rows else []
  }

  /** `stock_item`: the arguments go to the ledger unchanged; the reply is the success text exactly
      when the ledger's `stock_item` completes, and any failure comes back as "Error: " and its message. */
  method StockItem(file: LedgerFile<Pricing>, itemName: string, link: string, quantity: int,
                   totalPurchasePriceUsd: real, sellPriceUsd: real, description: string, newId: string)
    returns (text: string)
    modifies file
    ensures file.present
    ensures !old(file.present) ==> file.header == Columns
    ensures old(file.present) ==> file.header == old(file.header)
    ensures var before := Initialized(old(file.present), old(file.rows));
      var res := Stocked(before, itemName, link, quantity, totalPurchasePriceUsd, sellPriceUsd, description, newId);
      && (text == StockSuccess <==> res.Ok?)
      && (res.Ok? ==> file.rows == res.value)
      && (res.Err? ==> text == ErrorPrefix + res.msg && file.rows == before)
  {
    var inventory := new InventoryManagerCSV(file);
    var r := inventory.StockItem(itemName, link, quantity, totalPurchasePriceUsd, sellPriceUsd, description, newId);
    text := Reply(r, StockSuccess);
    assert StockSuccess[..|ErrorPrefix|][0] != ErrorPrefix[0];
    ReplyDistinguishes(r, StockSuccess);
  }

  /** `set_price`: the reply is the success text exactly when the ledger update succeeds; a negative
      price comes back as "Error: Price cannot be negative." and an unknown id as
      "Error: Item with ID <id> does not exist.", both with the table unchanged. */
  method SetPrice(file: LedgerFile<Pricing>, itemId: string, newPriceUsd: real) returns (text: string)
    modifies file
    ensures file.present
    ensures !old(file.present) ==> file.header == Columns
    ensures old(file.present) ==> file.header == old(file.header)
    ensures var before := Initialized(old(file.present), old(file.rows));
      var res := PriceSet(before, itemId, newPriceUsd);
      && (text == PriceSuccess <==> res.Ok?)
      && (res.Ok? ==> file.rows == res.value)
      && (res.Err? ==> text == ErrorPrefix + res.msg && file.rows == before)
      && (newPriceUsd < 0.0 ==> text == ErrorPrefix + NegativePrice)
      && (newPriceUsd >= 0.0 && !HasId(before, itemId) ==> text == ErrorPrefix + NotFound(itemId))
  {
    var inventory := new InventoryManagerCSV(file);
    var r := inventory.SetPrice(itemId, newPriceUsd);
    text := Reply(r, PriceSuccess);
    assert PriceSuccess[..|ErrorPrefix|][0] != ErrorPrefix[0];
    ReplyDistinguishes(r, PriceSuccess);
  }
}
