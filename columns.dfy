/**
 * The column list of the line-item table. The list depends only on whether
 * the viewer has the commercial profile: that profile loses the "view
 * product" button, and every viewer gets one "delete" button, last.
 */
module Columns {

  import opened Wrappers
  import opened Labels

  datatype CellType = TextCell | NumberCell | CurrencyCell | ButtonCell

  /** The `typeAttributes` of a button column; `name` is the action it emits. */
  datatype ButtonAttributes = ButtonAttributes(
    heading: Label,
    name: string,
    title: string,
    iconName: string,
    variant: string,
    alternativeText: string)

  /** One column descriptor handed to the table widget. */
  datatype Column = Column(
    heading: Label,
    fieldName: Option<string>,
    cellType: CellType,
    classFieldName: Option<string>,
    fixedWidth: Option<nat>,
    typeAttributes: Option<ButtonAttributes>)

  /** The row fields the five data columns display, in display order. */
  const DataFieldNames: seq<string> := ["Name", "Quantity", "UnitPrice", "TotalPrice", "Quantity_in_Stock__c"]

  /** The five data columns; the quantity cell takes its style class from the row's `quantityClass`. */
  function DataColumns(): seq<Column> {
    [ Column(ProductName, Some("Name"), TextCell, None, None, None),
      Column(Quantity, Some("Quantity"), NumberCell, Some("quantityClass"), None, None),
      Column(UnitPrice, Some("UnitPrice"), CurrencyCell, None, None, None),
      Column(TotalPrice, Some("TotalPrice"), CurrencyCell, None, None, None),
      Column(QuantityInStock, Some("Quantity_in_Stock__c"), NumberCell, None, None, None) ]
  }

  /** The button that opens the line item's product. */
  function ViewColumn(): Column {
    Column(SeeProduct, Some("viewAction"), ButtonCell, None, Some(150),
      Some(ButtonAttributes(SeeProduct, "view", "Voir le produit", "utility:preview", "brand", "Voir Produit")))
  }

  /** The button that deletes the line item. */
  function DeleteColumn(): Column {
    Column(Delete, Some("deleteAction"), ButtonCell, None, Some(150),
      Some(ButtonAttributes(Delete, "delete", "Supprimer", "utility:delete", "destructive-text", "Supprimer")))
  }

  /**
   * The columns an instance starts with, before any profile is known: the
   * data columns and two bare buttons that emit no action name.
   */
  function InitialColumns(): seq<Column> {
    DataColumns() + [Column(SeeProduct, None, ButtonCell, None, None, None),
                     Column(Delete, None, ButtonCell, None, None, None)]
  }

  /** The column is a button emitting the action `name`. */
  predicate IsAction(c: Column, name: string) {
    c.typeAttributes.Some? && c.typeAttributes.value.name == name
  }

  /** The field names bound by a column list, in order. */
  function FieldNames(cols: seq<Column>): (names: seq<Option<string>>)
    ensures |names| == |cols|
    ensures forall k :: 0 <= k < |cols| ==> names[k] == cols[k].fieldName
  {
    if cols == [] then [] else [cols[0].fieldName] + FieldNames(cols[1..])
  }

  /** The column list `updateColumns` builds for the given profile flag. */
  function Build(isCommercial: bool): (cols: seq<Column>)
    ensures |cols| == if isCommercial then 6 else 7
    ensures cols[..5] == DataColumns()
    ensures FieldNames(cols[..5]) == seq(5, k requires 0 <= k < 5 => Some(DataFieldNames[k]))
    ensures cols[1].classFieldName == Some("quantityClass")
    ensures forall k :: 0 <= k < 5 ==> cols[k].typeAttributes.None?
    ensures (exists k :: 0 <= k < |cols| && IsAction(cols[k], "view")) <==> !isCommercial
    ensures !isCommercial ==> cols[5] == ViewColumn()
    ensures forall k :: 0 <= k < |cols| ==> (IsAction(cols[k], "delete") <==> k == |cols| - 1)
    ensures cols[|cols| - 1] == DeleteColumn()
  {
    var cols := DataColumns() + (if isCommercial then [] else [ViewColumn()]) + [DeleteColumn()];
    assert !isCommercial ==> IsAction(cols[5], "view");
    cols
  }
}
