# Candy bowl shop bookkeeping, modelled in Dafny

This project models the bookkeeping behind the candy bowl chat shop and proves properties of it. The shop is a Discord bot that forwards users' messages to a hosted chat model. The model is given tools to read and change the shop's inventory and its notes.

The model covers:

- **Inventory ledger.** `InventoryManagerCSV` exists in two versions:
  - the newer one (`BackendInventory`): seven columns, separate purchase and sell prices, `stock_item` and `set_price`;
  - the older one (`CandybowlInventory`): six columns, one price, `add_item`, `buy_item` and `sell_item`.

  In both versions the CSV file is a `LedgerFile` object. It holds whether the file is present, its header row and its data rows as a `seq<Row<P>>`. Every manager method loads that sequence, changes it and writes it back, like the Python code. The two schemas share the row type `Row<P>`, where `P` is the price columns. They also share the table functions in `LedgerTable`: prune, the masked quantity assignment, the first-row lookups and `_update_quantity`. Errors are `Outcome` values (`Pass | Fail(msg)`) in place of `ValueError`. Each method is proved against a pure specification function (`QuantityUpdated`, `Incremented`, `Stocked`, `PriceSet`, `Sold`). The lemmas are about those functions.
- **Notes log** (`Notes`). A file that may be missing: `read`, `append`, `clear`.
- **Inventory tools** (`InventoryTools`). Each tool builds a fresh manager over the file, so `_initialize_csv` runs on every call. It runs one ledger operation and renders the outcome as a fixed success text or as `"Error: "` plus the message.
- **HTTP chat routes** (`ChatRoutes`). The `chats` registry, the three session-start routes that insert into it, and the status-code decision of `/chat/message`.
- **Discord front end** (`DiscordBot`). The `_thread_chats` registrations made by the three slash commands, the 2000-character split of the restock reply, and the `on_message` filter and truncation.

Inputs from the outside world become parameters:

- the new `uuid4` id (`newId`, `chatId`);
- the hosted model's outcome: a `Result` for creating a session, a `Result<string>` for `send_message`;
- the chat API's reply to the Discord bot (`ApiReply`);
- the thread id Discord assigns;
- whether a command was issued in a text channel.

What is sent back is returned: the HTTP `Response`, the Discord follow-up error text, the messages sent to a thread, and the body forwarded to `/chat/message`. Prices are `real`, because the code only stores them and compares them with 0.

The ledger is modelled as the code runs, not as its comments describe. In the newer `stock_item`, a successful `_add_item` on a matching row is overwritten: the function then saves the snapshot it loaded first, with a new row of quantity 0 appended. `StockedOutcome` states exactly this, and the Findings below give the input that shows it. `add_item` in the older version builds the extended table but never saves it. `AddItem` there has no `modifies` clause, so the file provably never changes.

Details the model takes from the code, each differing from a natural reading of the shop's design:

- `stock_item` has no check that the quantity is positive.
- `set_price` checks for a negative price before it checks that the id exists.
- The notes sentinel is exactly `Note file not found.`.
- `stock_item` picks the first row whose name OR link matches. It does not prefer a link match.

## Model

| member | source | states |
|---|---|---|
| `LedgerTable.Prune` | backend/backend/inventory.py:44-48 | the pruned table has no more rows than the original; every kept row has quantity > 0 and is an original row; every original row with quantity > 0 is kept |
| `LedgerTable.PruneConcat` | backend/backend/inventory.py:47 | pruning distributes over concatenation, so it keeps the surviving rows in their original order |
| `LedgerTable.PruneKeepsPositive` | backend/backend/inventory.py:47 | a table whose rows all have a positive quantity is left exactly as it is |
| `LedgerTable.PruneIdempotent` | backend/backend/inventory.py:44-48 | pruning twice gives the same table as pruning once |
| `LedgerTable.PruneKeepsUnique` | backend/backend/inventory.py:47 | pruning a table with unique item ids keeps the ids unique |
| `LedgerTable.IndexOf` | backend/backend/inventory.py:75-77 | for an id present in the table, the position of its first row: the row there has the id and no earlier row does |
| `LedgerTable.UniqueIndexOf` | backend/backend/inventory.py:75-77 | with unique ids, the first row carrying a row's id is that row itself |
| `LedgerTable.FirstMatch` | backend/backend/inventory.py:103-112 | no result exactly when no row matches the name or the link; otherwise the position of the first row that matches either |
| `LedgerTable.QuantityUpdatedShape` | backend/backend/inventory.py:59-63 | a non-negative update of an existing id succeeds; afterwards every row has quantity > 0, there are no more rows than before, and each row is an original row either untouched (other id) or changed only in its quantity, now the new one; a row with another id survives exactly when its quantity is positive, so other rows of quantity 0 are pruned |
| `LedgerTable.QuantityUpdatedKeepsOthers` | backend/backend/inventory.py:59-63 | after a successful update, a row with another id is in the result exactly when its quantity is positive: the prune also drops the other rows of quantity 0 |
| `LedgerTable.QuantityUpdatedPositive` | backend/backend/inventory.py:59-63 | with unique ids, a positive update keeps the row, now holding the new quantity and all its other fields |
| `LedgerTable.ZeroQuantityRemovesItem` | candybowl/inventory.py:89-93 | setting an existing id's quantity to 0 succeeds and leaves no row with that id |
| `LedgerTable.QuantityUpdatedWellFormed` | backend/backend/inventory.py:50-63 | a successful quantity update keeps item ids unique and quantities non-negative |
| `BackendInventory.InventoryManagerCSV.constructor` | backend/backend/inventory.py:9-12 | the new manager's file is present; an existing file keeps its header and rows; a missing one gets the seven-column header and no rows |
| `BackendInventory.InventoryManagerCSV.InitializeCsv` | backend/backend/inventory.py:14-28 | a missing file becomes present with exactly the seven column names and no rows; an existing file is untouched |
| `BackendInventory.InventoryManagerCSV.PruneInventory` | backend/backend/inventory.py:44-48 | the saved table is the pruned old table; header and presence are unchanged; uniqueness and non-negativity are kept |
| `BackendInventory.InventoryManagerCSV.UpdateQuantity` | backend/backend/inventory.py:50-63 | a negative quantity fails with "Quantity cannot be negative." before existence is checked; an unknown id fails with "Item with ID <id> does not exist."; each failure leaves the table unchanged; success saves the matching rows with the new quantity and then prunes, leaving only positive rows |
| `BackendInventory.InventoryManagerCSV.AddItem` | backend/backend/inventory.py:65-79 | an unknown id fails with the table unchanged; otherwise the result is `_update_quantity` with the first matching row's quantity plus the delta, so a negative sum fails with the table unchanged |
| `BackendInventory.InventoryManagerCSV.StockItem` | backend/backend/inventory.py:81-132 | on success the table is the one loaded at the start plus exactly one appended row with the fresh id, the given name, link, prices and description, and quantity 0; the increment is lost and nothing is pruned; the only failure is "Quantity cannot be negative." with the table unchanged; a fresh id keeps the ids unique |
| `BackendInventory.StockedOutcome` | backend/backend/inventory.py:102-132 | `stock_item` fails exactly when some row matches the name or link and the first match's quantity plus the requested quantity is negative, and then with the quantity message; otherwise the result is the old table plus the quantity-0 row |
| `BackendInventory.StockedFailsOnMatchedRow` | backend/backend/inventory.py:103-113 | with unique ids, `stock_item` fails exactly when the first row matching the name or link has quantity + requested < 0 |
| `BackendInventory.StockedWellFormed` | backend/backend/inventory.py:115-132 | with a fresh new id, stocking keeps the ids unique and the quantities non-negative |
| `BackendInventory.InventoryManagerCSV.SetPrice` | backend/backend/inventory.py:134-151 | a negative price fails with "Price cannot be negative." before existence is checked; an unknown id fails; both leave the table unchanged; success changes the table as `PriceSet` says, keeps the row count, does not prune, and keeps the invariant |
| `BackendInventory.PriceSetOutcome` | backend/backend/inventory.py:134-151 | the error cases and their order; success exactly when price >= 0 and the id exists; then the row count is kept, only `sell_price_usd` of the rows with that id changes to the new price, and every other field and row is unchanged |
| `BackendInventory.PriceSetWellFormed` | backend/backend/inventory.py:148-151 | setting a price keeps the ids unique and the quantities non-negative |
| `BackendInventory.StockTwiceAsWritten` | backend/backend/inventory.py:102-132 | stocking "gum" with 10 and then with 5 on an empty ledger, as written, leaves two "gum" rows, both of quantity 0 |
| `BackendInventory.StockedIntendedIncreases` | backend/backend/inventory.py:90-92 | corrected `stock_item`, with unique ids and a fresh new id. On a match: a negative new quantity fails with "Quantity cannot be negative."; otherwise no row is appended, the matched item's quantity becomes old + requested, no other field changes, other rows survive exactly when their quantity is positive (other rows of quantity 0 are pruned), and a positive result keeps its row with every other field. With no match: a negative quantity fails the same way; a positive one appends exactly one row holding it behind the pruned table; 0 adds nothing |
| `BackendInventory.MatchedIntended` | backend/backend/inventory.py:65-79 | `_add_item` on a matched row of a table with unique ids: a negative sum fails with "Quantity cannot be negative."; otherwise no row is added, that item's quantity becomes held + requested, no other field changes, other rows survive exactly when their quantity is positive (other rows of quantity 0 are pruned), and a positive sum keeps the row with its other fields |
| `BackendInventory.AppendedIntended` | backend/backend/inventory.py:50-63 | a new quantity-0 row with a fresh id, passed through the quantity update: refused for a negative quantity, appended with the quantity behind the pruned table for a positive one, dropped for 0 |
| `BackendInventory.StockedIntendedWellFormed` | backend/backend/inventory.py:90-132 | with a fresh new id, the corrected `stock_item` keeps item ids unique and quantities non-negative |
| `BackendInventory.StockTwiceIntended` | backend/backend/inventory.py:90-132 | corrected `stock_item`: stocking "gum" with 10 and then 5 leaves one row of quantity 15 |
| `CandybowlInventory.InventoryManagerCSV.constructor` | candybowl/inventory.py:8-11 | the new manager's file is present; an existing file keeps its header and rows; a missing one gets the six-column header and no rows |
| `CandybowlInventory.InventoryManagerCSV.InitializeCsv` | candybowl/inventory.py:13-25 | a missing file becomes present with exactly the six column names and no rows; an existing file is untouched |
| `CandybowlInventory.InventoryManagerCSV.AddItem` | candybowl/inventory.py:41-72 | fails with "An item with the same name or link already exists." exactly when some row has the same name or the same link; in every case the file is unchanged (no `modifies`) |
| `CandybowlInventory.InventoryManagerCSV.PruneInventory` | candybowl/inventory.py:74-78 | the saved table is the pruned old table; uniqueness and non-negativity are kept |
| `CandybowlInventory.InventoryManagerCSV.UpdateQuantity` | candybowl/inventory.py:80-93 | the same checks, in the same order, and the same effect as the newer `_update_quantity` |
| `CandybowlInventory.InventoryManagerCSV.BuyItem` | candybowl/inventory.py:95-105 | an unknown id fails with the table unchanged; otherwise the quantity becomes the held quantity plus the bought one, followed by a prune; on success every row has quantity > 0 |
| `CandybowlInventory.BoughtOutcome` | candybowl/inventory.py:95-105 | buying fails for an unknown id, and for a known one exactly when held + bought < 0; on success every row is positive, no field other than the bought item's quantity changed, and other rows survive exactly when their quantity is positive (other rows of quantity 0 are pruned) |
| `CandybowlInventory.InventoryManagerCSV.SellItem` | candybowl/inventory.py:107-120 | fails with "Not enough quantity to sell." exactly when the held quantity is below the sold one, with the table unchanged; on success every row has quantity > 0 |
| `CandybowlInventory.SoldOutcome` | candybowl/inventory.py:107-120 | selling fails for an unknown id; for a known id it fails exactly when held < sold, and then with the not-enough message; on success every row is positive, no field other than the sold item's quantity changed, and other rows survive exactly when their quantity is positive (other rows of quantity 0 are pruned) |
| `CandybowlInventory.SellAllRemovesItem` | candybowl/inventory.py:119-120 | selling exactly the held quantity succeeds and leaves no row with that id |
| `Notes.NotesFile.Read` | backend/backend/notes.py:5-12 | an existing file gives its whole contents; a missing one gives "Note file not found." without failing |
| `Notes.NotesFile.Append` | backend/backend/notes.py:14-17 | the file is present afterwards and holds the old contents (empty if it was missing), the line and a newline |
| `Notes.NotesFile.Clear` | backend/backend/notes.py:19-22 | the file is present and empty afterwards |
| `Notes.ReadAfterAppend` | backend/backend/notes.py:14-17 | after `append(x)`, `read` returns the old contents followed by x and a newline, so it ends with x + "\n" |
| `Notes.ReadAfterClear` | backend/backend/notes.py:19-22 | after `clear`, `read` returns "" and not the sentinel; after `clear` and `append(x)`, it returns exactly x + "\n" |
| `InventoryTools.ReplyDistinguishes` | backend/backend/ai/tools/inventory.py:77-81 | when the success text does not start with "Error: ", the reply equals the success text exactly when the operation completed; otherwise it is "Error: " plus the failure message |
| `InventoryTools.StockItem` | backend/backend/ai/tools/inventory.py:65-81 | the arguments reach the ledger's `stock_item` unchanged; the reply is "Item added successfully." exactly when it completes; any failure is returned as "Error: " plus its message, with the table unchanged; a missing file is created with the seven-column header, and an existing one keeps its header |
| `InventoryTools.SetPrice` | backend/backend/ai/tools/inventory.py:94-103 | the reply is "Price updated successfully." exactly when the update succeeds; a negative price gives "Error: Price cannot be negative." and an unknown id "Error: Item with ID <id> does not exist.", both with the table unchanged; a missing file is created with the seven-column header, and an existing one keeps its header |
| `ChatRoutes.ChatRegistry.constructor` | backend/backend/routes/chat.py:17 | the registry starts empty |
| `ChatRoutes.ChatRegistry.RequestItem` | backend/backend/routes/chat.py:27-38 | a created session is stored under the new id, returned with 200; a creation failure returns 500 with its message and leaves the registry unchanged; no key is ever removed, and with a fresh id no existing entry changes |
| `ChatRoutes.ChatRegistry.Haggle` | backend/backend/routes/chat.py:41-52 | the same for the haggle session |
| `ChatRoutes.ChatRegistry.Restock` | backend/backend/routes/chat.py:55-66 | the same, and the 200 body also carries the model's first reply |
| `ChatRoutes.ChatRegistry.Message` | backend/backend/routes/chat.py:69-93 | the status is one of 200, 400, 404 and 500. A `request.json` that is None (a JSON `null` body) gives 400 "Invalid request format". 404 "Chat not found" happens exactly when the body has no registered chat id, and is checked before the message. 400 "Message cannot be empty" happens for a found chat with an empty or missing message. A raised `send_message` gives 500 with its message, and an empty reply gives 500 "Received empty response from the model". 200 with the reply happens exactly when every check passes. The registry is only read |
| `DiscordBot.Chunks` | chatbot/chatbot/discord.py:157-158 | the messages sent to the thread join back to the response; each has 1 to 2000 characters, all but the last exactly 2000, and there are ceil(len/2000) of them |
| `DiscordBot.ForwardedText` | chatbot/chatbot/discord.py:183 | the forwarded text is the first min(2000, len) characters of "author: content" |
| `DiscordBot.SessionError` | chatbot/chatbot/discord.py:60-71 | no error exactly when the API call succeeded with a non-empty `chat_id` |
| `DiscordBot.CandyBowlBot.constructor` | chatbot/chatbot/discord.py:10 | the thread registry starts empty |
| `DiscordBot.CandyBowlBot.Request` | chatbot/chatbot/discord.py:36-71 | outside a text channel nothing happens; the thread is mapped to the returned chat id exactly when the API returned a non-empty one, and otherwise the failure is reported and nothing is registered; entries are never removed |
| `DiscordBot.CandyBowlBot.Haggle` | chatbot/chatbot/discord.py:77-112 | the same for `/haggle` |
| `DiscordBot.CandyBowlBot.Restock` | chatbot/chatbot/discord.py:119-162 | the thread is mapped to the chat id only when a non-empty chat id AND a non-empty response came back; only then are messages sent, and they join back to the response, each at most 2000 characters; an empty response is reported as "Response from the model is empty."; entries are never removed |
| `DiscordBot.CandyBowlBot.OnMessage` | chatbot/chatbot/discord.py:172-184 | a message is forwarded exactly when it is non-empty, not written by the bot, and posted in a channel registered to a non-empty chat id; it goes to that chat as the truncated "author: content" |

## Left out

- CSV text: parsing, quoting, `read_csv` dtypes, NaN cells and `to_csv` are not modelled. The file is its header and a sequence of typed rows.
- A ledger file whose existing header is not the version's own columns is not modelled. pandas would add a missing column such as `sell_price_usd` in the masked price assignment and in `pd.concat`. The header-kept clauses of the managers and tools hold only for files already holding those columns.
- A ledger file deleted or corrupted behind a manager's back is not modelled. Every manager method requires the file that its constructor created to be present. So `read_csv` errors, and the "Error: " text that the tool layer would make of them, are outside the model.
- `get_inventory`, and the `get_inventory` tool's `to_json` rendering: the JSON encoding is library behaviour. The table itself is the `rows` field.
- `uuid.uuid4`: the new id is a parameter. Freshness is assumed only where uniqueness of ids is concluded.
- Float prices are `real`. IEEE rounding and NaN are not modelled.
- Integer quantities are unbounded. pandas' int64 overflow is not modelled.
- `Notes.NotesFile.Read`: text-mode decoding and universal-newline translation are not modelled. Python's `read` turns "\r\n" and "\r" into "\n", so the model's contents, and `Notes.ReadAfterAppend`, hold only for notes free of "\r".
- `ChatRoutes.ChatRegistry.Message`: request bodies that make `request.json` or `.get` raise are not modelled. These are a non-JSON Content-Type, a malformed body, and a top-level array or string, which the catch-all turns into a 500. The model covers a JSON `null` body (400) and a JSON object.
- Logging through loguru, which has no effect on state.
- `/chat/message` JSON values that are not strings are not modelled. For example, a numeric `message` would be passed on, and an unhashable `chat_id` would give a 500. Only a missing key or a string is modelled.
- Discord transport: sending the follow-up and the greeting, creating the thread, failures of `thread.send`, the HTTP `requests` calls themselves, and the repr of the `requests.Response` that `on_message` posts back (chatbot/chatbot/discord.py:188). The bot's user is compared by id, as discord.py's user equality does.
- The hosted chat model, the marketplace search client and the bank tool. The notes and bank tool wrappers only forward to `NotesFile.read` or `NotesFile.append` and add fixed strings. The older tools module calls a `stock_item` that the older ledger does not have.
- Concurrency: asynchronous Discord handling, and concurrent writers racing on the CSV or notes file.

## Findings

| source | as written | input that shows it | evidently intended | confidence | as-written member | corrected member |
|---|---|---|---|---|---|---|
| backend/backend/inventory.py:113 | after `_add_item` succeeds, `stock_item` goes on to append a new row of quantity 0 (line 119) to the snapshot loaded at line 102, and saves it (line 132). This overwrites the increment, and a new item never receives the stocked quantity | stocking ("gum", "http://x/gum", 10) then ("gum", "http://x/gum", 5) on an empty ledger leaves two "gum" rows, both of quantity 0 | return after `_add_item`, and give a new row the stocked quantity through `_update_quantity`, so a negative one is refused: one "gum" row of quantity 15, as the doc-comment at line 92 says | not executed | `BackendInventory.StockTwiceAsWritten` | `BackendInventory.StockTwiceIntended` |

The corrected definition is `BackendInventory.StockedIntended`, and its general properties are `BackendInventory.StockedIntendedIncreases` and `BackendInventory.StockedIntendedWellFormed`. The ledger class and the tool layer keep the as-written `stock_item`, because they model the code that runs.
