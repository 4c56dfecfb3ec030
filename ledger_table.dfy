/** The inventory table shared by both versions of InventoryManagerCSV.
    A row carries the columns common to both schemas; the price columns,
    which differ between the versions, are the type parameter P. */
module LedgerTable {
  import opened Outcomes

  datatype Row<P> = Row(itemId: string, itemName: string, link: string, quantity: int, pricing: P, description: string)

  const NegativeQuantity: string := "Quantity cannot be negative."

  function NotFound(itemId: string): string
  {
    "Item with ID " + itemId + " does not exist."
  }

  /** The CSV file behind a ledger: whether it is present on disk, its header row and its data rows. */
  class LedgerFile<P> {
    var present: bool
    var header: seq<string>
    var rows: seq<Row<P>>

    constructor (present: bool, header: seq<string>, rows: seq<Row<P>>)
      ensures this.present == present && this.header == header && this.rows == rows
    {
      this.present := present;
      this.header := header;
      this.rows := rows;
    }
  }

  /** Some row carries the given item id. */
  predicate HasId<P>(rows: seq<Row<P>>, itemId: string)
  {
    exists k :: 0 <= k < |rows| && rows[k].itemId == itemId
  }

  /** No two rows share an item id. */
  ghost predicate UniqueIds<P>(rows: seq<Row<P>>)
  {
    forall i, j :: 0 <= i < j < |rows| ==> rows[i].itemId != rows[j].itemId
  }

  /** No row holds a negative quantity. */
  ghost predicate NonNegative<P>(rows: seq<Row<P>>)
  {
    forall k :: 0 <= k < |rows| ==> rows[k].quantity >= 0
  }

  /** The invariant every ledger operation keeps. */
  ghost predicate WellFormed<P>(rows: seq<Row<P>>)
  {
    UniqueIds(rows) && NonNegative(rows)
  }

  /** The position of the first row with the given id. */
  function IndexOf<P>(rows: seq<Row<P>>, itemId: string): (k: nat)
    requires HasId(rows, itemId)
    ensures k < |rows| && rows[k].itemId == itemId
    ensures forall j :: 0 <= j < k ==> rows[j].itemId != itemId
  {
    if rows[0].itemId == itemId then 0
    else
      assert HasId(rows[1..], itemId) by {
        var k :| 0 <= k < |rows| && rows[k].itemId == itemId;
        assert rows[1..][k - 1].itemId == itemId;
      }
      1 + IndexOf(rows[1..], itemId)
  }

  /** The quantity of the first row with the given id. */
  function QuantityOf<P>(rows: seq<Row<P>>, itemId: string): int
    requires HasId(rows, itemId)
  {
    rows[IndexOf(rows, itemId)].quantity
  }

  /** The masked assignment of a quantity: every row with the id gets the new quantity. */
  function WithQuantity<P>(rows: seq<Row<P>>, itemId: string, q: int): (updated: seq<Row<P>>)
  {
    seq(|rows|, k requires 0 <= k < |rows| => if rows[k].itemId == itemId then rows[k].(quantity := q) else rows[k])
  }

  /** The rows with a positive quantity, in order. */
  function Prune<P>(rows: seq<Row<P>>): (kept: seq<Row<P>>)
    ensures |kept| <= |rows|
    ensures forall k :: 0 <= k < |kept| ==> kept[k].quantity > 0
    ensures forall k :: 0 <= k < |kept| ==> kept[k] in rows
    ensures forall k :: 0 <= k < |rows| && rows[k].quantity > 0 ==> rows[k] in kept
  {
    if rows == [] then []
    else
      assert rows == [rows[0]] + rows[1..];
      var rest := Prune(rows[1..]);
      if rows[0].quantity > 0 then [rows[0]] + rest else rest
  }

  /** Pruning is an order-preserving filter: it distributes over concatenation. */
  lemma {:induction false} PruneConcat<P>(a: seq<Row<P>>, b: seq<Row<P>>)
    ensures Prune(a + b) == Prune(a) + Prune(b)
  {
    if a == [] {
      assert a + b == b;
    } else {
      assert (a + b)[1..] == a[1..] + b;
      PruneConcat(a[1..], b);
    }
  }

  /** A table whose rows all have a positive quantity is left as it is. */
  lemma {:induction false} PruneKeepsPositive<P>(rows: seq<Row<P>>)
    requires forall k :: 0 <= k < |rows| ==> rows[k].quantity > 0
    ensures Prune(rows) == rows
  {
    if rows != [] {
      PruneKeepsPositive(rows[1..]);
      assert [rows[0]] + rows[1..] == rows;
    }
  }

  /** Pruning twice is pruning once. */
  lemma PruneIdempotent<P>(rows: seq<Row<P>>)
    ensures Prune(Prune(rows)) == Prune(rows)
  {
    PruneKeepsPositive(Prune(rows));
  }

  /** Pruning keeps item ids unique. */
  lemma {:induction false} PruneKeepsUnique<P>(rows: seq<Row<P>>)
    requires UniqueIds(rows)
    ensures UniqueIds(Prune(rows))
  {
    if rows != [] {
      var rest := rows[1..];
      UniqueTail(rows);
      PruneKeepsUnique(rest);
      if rows[0].quantity > 0 {
        var p := Prune(rest);
        forall k | 0 <= k < |p| ensures p[k].itemId != rows[0].itemId {
          var m :| 0 <= m < |rest| && rest[m] == p[k];
          assert rest[m] == rows[m + 1];
        }
        UniqueCons(rows[0], p);
      }
    }
  }

  lemma UniqueTail<P>(rows: seq<Row<P>>)
    requires rows != [] && UniqueIds(rows)
    ensures UniqueIds(rows[1..])
  {
    var rest := rows[1..];
    forall i, j | 0 <= i < j < |rest| ensures rest[i].itemId != rest[j].itemId {
      assert rest[i] == rows[i + 1] && rest[j] == rows[j + 1];
    }
  }

  lemma UniqueCons<P>(r: Row<P>, p: seq<Row<P>>)
    requires UniqueIds(p)
    requires forall k :: 0 <= k < |p| ==> p[k].itemId != r.itemId
    ensures UniqueIds([r] + p)
  {
    var kept := [r] + p;
    forall i, j | 0 <= i < j < |kept| ensures kept[i].itemId != kept[j].itemId {
      assert kept[j] == p[j - 1];
      if i > 0 {
        assert kept[i] == p[i - 1];
      }
    }
  }

  /** `_update_quantity(item_id, new_quantity)` on a table, followed by `_prune_inventory`:
      negativity is checked before existence. */
  function QuantityUpdated<P>(rows: seq<Row<P>>, itemId: string, q: int): Result<seq<Row<P>>>
  {
    if q < 0 then Err(NegativeQuantity)
    else if !HasId(rows, itemId) then Err(NotFound(itemId))
    else Ok(Prune(WithQuantity(rows, itemId, q)))
  }

  /** `_add_item` (newer version) and `buy_item` (older version): existence is checked first,
      then the quantity becomes the first matching row's quantity plus the delta. */
  function Incremented<P>(rows: seq<Row<P>>, itemId: string, delta: int): Result<seq<Row<P>>>
  {
    if !HasId(rows, itemId) then Err(NotFound(itemId))
    else QuantityUpdated(rows, itemId, QuantityOf(rows, itemId) + delta)
  }

  /** How an operation's outcome and the new file contents follow from its specification:
      on success the file holds the computed table, on failure it is unchanged. */
  ghost predicate Reflects<T>(res: Result<seq<T>>, r: Outcome, before: seq<T>, after: seq<T>)
  {
    match res
    case Ok(t) => r == Pass && after == t
    case Err(m) => r == Fail(m) && after == before
  }

  /** Every row of `after` is a row of `before` with another id, or a row of `before` with
      this id whose quantity is now q: nothing else about any row changed. */
  ghost predicate OnlyQuantityChanged<P>(before: seq<Row<P>>, after: seq<Row<P>>, itemId: string, q: int)
  {
    forall x :: x in after ==>
      (x.itemId != itemId && x in before) ||
      (x.itemId == itemId && exists y :: y in before && y.itemId == itemId && x == y.(quantity := q))
  }

  /** A successful quantity update leaves only positive rows, each an original row changed at
      most in its quantity. */
  lemma QuantityUpdatedShape<P>(rows: seq<Row<P>>, itemId: string, q: int)
    requires q >= 0 && HasId(rows, itemId)
    ensures QuantityUpdated(rows, itemId, q).Ok?
    ensures var t := QuantityUpdated(rows, itemId, q).value;
      && |t| <= |rows|
      && (forall k :: 0 <= k < |t| ==> t[k].quantity > 0)
      && OnlyQuantityChanged(rows, t, itemId, q)
      && (forall x :: x in rows && x.itemId != itemId ==> (x in t <==> x.quantity > 0))
  {
    QuantityUpdatedKeepsOthers(rows, itemId, q);
    var w := WithQuantity(rows, itemId, q);
    forall x | x in Prune(w)
      ensures (x.itemId != itemId && x in rows) ||
              (x.itemId == itemId && exists y :: y in rows && y.itemId == itemId && x == y.(quantity := q))
    {
      var k :| 0 <= k < |w| && w[k] == x;
      if rows[k].itemId == itemId {
        assert rows[k] in rows && x == rows[k].(quantity := q);
      }
    }
  }

  /** A successful quantity update keeps every other row exactly when its quantity is positive:
      the prune that follows it drops the other rows of quantity 0 as well. */
  lemma QuantityUpdatedKeepsOthers<P>(rows: seq<Row<P>>, itemId: string, q: int)
    requires QuantityUpdated(rows, itemId, q).Ok?
    ensures forall x :: x in rows && x.itemId != itemId ==>
      (x in QuantityUpdated(rows, itemId, q).value <==> x.quantity > 0)
  {
    var w := WithQuantity(rows, itemId, q);
    var t := Prune(w);
    forall x | x in rows && x.itemId != itemId ensures x in t <==> x.quantity > 0 {
      var k :| 0 <= k < |rows| && rows[k] == x;
      assert w[k] == x;
      if x in t {
        var j :| 0 <= j < |t| && t[j] == x;
      }
    }
  }

  /** Every table the quantity update accepts keeps the ledger invariant. */
  lemma QuantityUpdatedWellFormed<P>(rows: seq<Row<P>>, itemId: string, q: int)
    requires WellFormed(rows) && QuantityUpdated(rows, itemId, q).Ok?
    ensures WellFormed(QuantityUpdated(rows, itemId, q).value)
  {
    var w := WithQuantity(rows, itemId, q);
    assert UniqueIds(w) by {
      forall i, j | 0 <= i < j < |w| ensures w[i].itemId != w[j].itemId {
        assert w[i].itemId == rows[i].itemId && w[j].itemId == rows[j].itemId;
      }
    }
    PruneKeepsUnique(w);
  }

  /** Setting a quantity to zero removes every row with that id. */
  lemma ZeroQuantityRemovesItem<P>(rows: seq<Row<P>>, itemId: string)
    requires HasId(rows, itemId)
    ensures QuantityUpdated(rows, itemId, 0).Ok?
    ensures !HasId(QuantityUpdated(rows, itemId, 0).value, itemId)
  {
  }

  /** With unique ids, the first row with a row's id is that row. */
  lemma UniqueIndexOf<P>(rows: seq<Row<P>>, k: nat)
    requires UniqueIds(rows) && k < |rows|
    ensures HasId(rows, rows[k].itemId) && IndexOf(rows, rows[k].itemId) == k
  {
    assert HasId(rows, rows[k].itemId);
  }

  /** With unique ids, a positive quantity update keeps the row, now holding the new quantity
      and all its other fields. */
  lemma QuantityUpdatedPositive<P>(rows: seq<Row<P>>, k: nat, q: int)
    requires UniqueIds(rows) && k < |rows| && q > 0
    ensures QuantityUpdated(rows, rows[k].itemId, q).Ok?
    ensures rows[k].(quantity := q) in QuantityUpdated(rows, rows[k].itemId, q).value
  {
    assert HasId(rows, rows[k].itemId);
    var w := WithQuantity(rows, rows[k].itemId, q);
    assert w[k] == rows[k].(quantity := q);
  }

  /** A row matches when it has the same item name or the same link. */
  predicate Matches<P>(r: Row<P>, itemName: string, link: string)
  {
    r.itemName == itemName || r.link == link
  }

  /** The first row matching the name or the link, if any. */
  function FirstMatch<P>(rows: seq<Row<P>>, itemName: string, link: string): (m: Option<nat>)
    ensures m.None? <==> forall j :: 0 <= j < |rows| ==> !Matches(rows[j], itemName, link)
    ensures m.Some? ==> m.value < |rows| && Matches(rows[m.value], itemName, link)
    ensures m.Some? ==> forall j :: 0 <= j < m.value ==> !Matches(rows[j], itemName, link)
  {
    if rows == [] then None
    else if Matches(rows[0], itemName, link) then Some(0)
    else
      match FirstMatch(rows[1..], itemName, link)
      case None =>
        assert forall j :: 1 <= j < |rows| ==> rows[j] == rows[1..][j - 1];
        None
      case Some(k) => Some(k + 1)
  }
}
