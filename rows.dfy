/**
 * Line items as fetched, the display rows projected from them, the stock
 * deficit rule, and the filter that removes a deleted line.
 */
module Rows {

  import opened Wrappers
  import opened Labels

  /** The nested product of a line item. */
  datatype Product = Product(name: Option<string>, quantityInStock: Option<int>)

  /** A line item as the query returns it; any field may be absent. */
  datatype LineItem = LineItem(
    id: Option<string>,
    product2Id: Option<string>,
    product2: Option<Product>,
    quantity: Option<int>,
    unitPrice: Option<int>,
    totalPrice: Option<int>)

  /** A row of the table, with every default filled in. */
  datatype Row = Row(
    id: Option<string>,
    product2Id: Option<string>,
    name: string,
    quantity: int,
    unitPrice: int,
    totalPrice: int,
    quantityInStock: int,
    isDisabled: bool,
    quantityClass: string)

  const UnknownProduct: string := "Produit inconnu"

  /** The style class that shows a quantity in bold red. */
  const ErrorClass: string := "slds-text-color_error slds-text-title_bold"

  /** JavaScript's `v || d` on an optional number: absent and 0 are both falsy. */
  function NumberOr(v: Option<int>, d: int): int {
    if v.Some? && v.value != 0 then v.value else d
  }

  /** JavaScript's `v || d` on an optional string: absent and '' are both falsy. */
  function StringOr(v: Option<string>, d: string): string {
    if v.Some? && v.value != "" then v.value else d
  }

  /** `item.Product2?.Quantity_In_Stock__c` */
  function StockOf(item: LineItem): Option<int> {
    match item.product2
    case None => None
    case Some(p) => p.quantityInStock
  }

  /** `item.Product2?.Name` */
  function NameOf(item: LineItem): Option<string> {
    match item.product2
    case None => None
    case Some(p) => p.name
  }

  /** The stock deficit rule: more is ordered than is in stock. */
  predicate Deficit(r: Row) {
    r.quantity > r.quantityInStock
  }

  /** The row's style class is the error class exactly on a deficit, and '' otherwise. */
  predicate Styled(r: Row) {
    (r.quantityClass == ErrorClass <==> Deficit(r)) &&
    (r.quantityClass == ErrorClass || r.quantityClass == "")
  }

  /** The display row of one fetched line item (the mapping lambda of the fetch). */
  function ProjectRow(item: LineItem, isCommercial: bool): (r: Row)
    ensures r.id == item.id && r.product2Id == item.product2Id
    ensures r.quantity == item.quantity.GetOr(0)
    ensures r.quantityInStock == StockOf(item).GetOr(0)
    ensures r.unitPrice == item.unitPrice.GetOr(0) && r.totalPrice == item.totalPrice.GetOr(0)
    ensures NameOf(item).None? || NameOf(item).value == "" ==> r.name == UnknownProduct
    ensures NameOf(item).Some? && NameOf(item).value != "" ==> r.name == NameOf(item).value
    ensures r.isDisabled == isCommercial
    ensures Styled(r)
    ensures r.quantityClass == ErrorClass <==> item.quantity.GetOr(0) > StockOf(item).GetOr(0)
  {
    var quantityInStock := NumberOr(StockOf(item), 0);
    var quantity := NumberOr(item.quantity, 0);
    var isStockNegative := quantityInStock - quantity < 0;
    Row(item.id, item.product2Id, StringOr(NameOf(item), UnknownProduct), quantity,
        NumberOr(item.unitPrice, 0), NumberOr(item.totalPrice, 0), quantityInStock,
        isCommercial, if isStockNegative then ErrorClass else "")
  }

  /** The rows of a fetch: one per line item, in the same order. */
  function ProjectRows(items: seq<LineItem>, isCommercial: bool): (rows: seq<Row>)
    ensures |rows| == |items|
    ensures forall k :: 0 <= k < |items| ==> rows[k] == ProjectRow(items[k], isCommercial)
  {
    if items == [] then [] else [ProjectRow(items[0], isCommercial)] + ProjectRows(items[1..], isCommercial)
  }

  /** Some row has a stock deficit (`rows.some(item => item.Quantity > item.Quantity_in_Stock__c)`). */
  predicate HasQuantityIssue(rows: seq<Row>) {
    exists k :: 0 <= k < |rows| && Deficit(rows[k])
  }

  /** The page-level warning the rows call for. */
  function WarningFor(rows: seq<Row>): (t: Text)
    ensures t == Localized(MessageErrorQuantity) <==> HasQuantityIssue(rows)
    ensures t != Localized(MessageErrorQuantity) ==> t == Blank
  {
    if HasQuantityIssue(rows) then Localized(MessageErrorQuantity) else Blank
  }

  /** The rows left after the line `id` is deleted (`rows.filter(item => item.Id !== id)`). */
  function RemoveById(rows: seq<Row>, id: Option<string>): (kept: seq<Row>)
    ensures |kept| <= |rows|
    ensures forall r :: r in kept <==> r in rows && r.id != id
  {
    if rows == [] then []
    else if rows[0].id != id then [rows[0]] + RemoveById(rows[1..], id)
    else RemoveById(rows[1..], id)
  }

  /**
   * The mapping loop of the fetch: projects every line item and, on the way,
   * notes whether any of them has less in stock than is ordered.
   */
  method MapLineItems(items: seq<LineItem>, isCommercial: bool) returns (rows: seq<Row>, hasQuantityIssue: bool)
    ensures rows == ProjectRows(items, isCommercial)
    ensures hasQuantityIssue <==> HasQuantityIssue(rows)
  {
    rows, hasQuantityIssue := [], false;
    var i := 0;
    while i < |items|
      invariant 0 <= i <= |items|
      invariant |rows| == i
      invariant forall k :: 0 <= k < i ==> rows[k] == ProjectRow(items[k], isCommercial)
      invariant hasQuantityIssue <==> HasQuantityIssue(rows)
    {
      var row := ProjectRow(items[i], isCommercial);
      var isStockNegative := row.quantityInStock - row.quantity < 0;
      if isStockNegative {
        hasQuantityIssue := true;
      }
      assert Deficit(row) <==> isStockNegative;
      assert (rows + [row])[i] == row;
      rows := rows + [row];
      i := i + 1;
    }
  }

  /** Removing a line distributes over concatenation: the kept rows stay in their order. */
  lemma {:induction false} RemoveByIdAppend(xs: seq<Row>, ys: seq<Row>, id: Option<string>)
    ensures RemoveById(xs + ys, id) == RemoveById(xs, id) + RemoveById(ys, id)
  {
    if xs == [] {
      assert xs + ys == ys;
    } else {
      assert (xs + ys)[0] == xs[0];
      assert (xs + ys)[1..] == xs[1..] + ys;
      RemoveByIdAppend(xs[1..], ys, id);
    }
  }

  /** With no row carrying `id`, removing it changes nothing. */
  lemma {:induction false} RemoveByIdAbsent(rows: seq<Row>, id: Option<string>)
    requires forall k :: 0 <= k < |rows| ==> rows[k].id != id
    ensures RemoveById(rows, id) == rows
  {
    if rows != [] {
      RemoveByIdAbsent(rows[1..], id);
      assert [rows[0]] + rows[1..] == rows;
    }
  }

  /** Removing the same line twice is removing it once. */
  lemma RemoveByIdIdempotent(rows: seq<Row>, id: Option<string>)
    ensures RemoveById(RemoveById(rows, id), id) == RemoveById(rows, id)
  {
    var kept := RemoveById(rows, id);
    forall k | 0 <= k < |kept| ensures kept[k].id != id {
      assert kept[k] in kept;
    }
    RemoveByIdAbsent(kept, id);
  }

  /** After a delete the warning is due exactly when some other row has a deficit. */
  lemma WarningAfterRemove(rows: seq<Row>, id: Option<string>)
    ensures HasQuantityIssue(RemoveById(rows, id)) <==>
            exists k :: 0 <= k < |rows| && rows[k].id != id && Deficit(rows[k])
  {
    var kept := RemoveById(rows, id);
    if HasQuantityIssue(kept) {
      var j :| 0 <= j < |kept| && Deficit(kept[j]);
      assert kept[j] in rows;
      var k :| 0 <= k < |rows| && rows[k] == kept[j];
      assert rows[k].id != id && Deficit(rows[k]);
    }
    if exists k :: 0 <= k < |rows| && rows[k].id != id && Deficit(rows[k]) {
      var k :| 0 <= k < |rows| && rows[k].id != id && Deficit(rows[k]);
      assert rows[k] in kept;
      var j :| 0 <= j < |kept| && kept[j] == rows[k];
      assert Deficit(kept[j]);
    }
  }

  /** The fetched warning is due exactly when some line item orders more than its product has in stock. */
  lemma FetchWarningIff(items: seq<LineItem>, isCommercial: bool)
    ensures HasQuantityIssue(ProjectRows(items, isCommercial)) <==>
            exists k :: 0 <= k < |items| && items[k].quantity.GetOr(0) > StockOf(items[k]).GetOr(0)
  {
    var rows := ProjectRows(items, isCommercial);
    if HasQuantityIssue(rows) {
      var k :| 0 <= k < |rows| && Deficit(rows[k]);
      assert items[k].quantity.GetOr(0) > StockOf(items[k]).GetOr(0);
    }
  }

  /** The line items the server still holds once the line `id` is deleted. */
  function WithoutItem(items: seq<LineItem>, id: Option<string>): seq<LineItem> {
    if items == [] then []
    else if items[0].id != id then [items[0]] + WithoutItem(items[1..], id)
    else WithoutItem(items[1..], id)
  }

  /**
   * Deleting a row locally shows the same rows as fetching again once the
   * line is gone on the server.
   */
  lemma {:induction false} RemoveMatchesRefetch(items: seq<LineItem>, isCommercial: bool, id: Option<string>)
    ensures RemoveById(ProjectRows(items, isCommercial), id) == ProjectRows(WithoutItem(items, id), isCommercial)
  {
    if items != [] {
      var rows := ProjectRows(items, isCommercial);
      assert rows == [rows[0]] + rows[1..];
      assert rows[1..] == ProjectRows(items[1..], isCommercial);
      RemoveMatchesRefetch(items[1..], isCommercial, id);
      RemoveByIdAppend([rows[0]], rows[1..], id);
      if items[0].id != id {
        var rest := WithoutItem(items[1..], id);
        assert WithoutItem(items, id) == [items[0]] + rest;
        assert ProjectRows([items[0]] + rest, isCommercial)[1..] == ProjectRows(rest, isCommercial);
      }
    }
  }
}
