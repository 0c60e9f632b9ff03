/**
 * The opportunity product view component: four pieces of state (the rows,
 * the info message, the warning message and the commercial-profile flag)
 * plus the column list, updated one platform event at a time.
 */
module ProductView {

  import opened Wrappers
  import opened Labels
  import opened Columns
  import opened Rows
  import opened Platform

  /** The profile label whose holders count as commercial users. */
  const CommercialProfile: string := "Custom: Sales Profile"

  /** How a "view" request on `row` comes out: its product page if it has one, else an alert. */
  predicate ViewOutcome(row: Row, effect: Effect) {
    (effect.Navigate? <==> Truthy(row.product2Id)) &&
    (effect.Navigate? ==> effect.page == ProductPage(row.product2Id.value)) &&
    (!effect.Navigate? ==> effect == Alert(NoProductAlert))
  }

  class OpportunityProductView {
    var lineItems: seq<Row>
    var message: Text
    var warningMessage: Text
    var isCommercial: bool
    var columns: seq<Column>
    var wiredResult: Wire<seq<LineItem>>

    /** Every displayed row is styled by its own stock deficit. */
    predicate RowsStyled()
      reads this
    {
      forall r :: r in lineItems ==> Styled(r)
    }

    /** The warning is shown exactly when some displayed row has a deficit. */
    predicate WarningMatchesRows()
      reads this
    {
      warningMessage == WarningFor(lineItems)
    }

    /** The effect of a delete whose remote call ended with `outcome`. */
    twostate predicate DeleteApplied(row: Row, outcome: DeleteOutcome)
      reads this
    {
      match outcome
      case Deleted =>
        lineItems == RemoveById(old(lineItems), row.id) &&
        warningMessage == WarningFor(lineItems) &&
        message == Literal(DeleteSuccessMessage)
      case DeleteFailed =>
        lineItems == old(lineItems) &&
        warningMessage == old(warningMessage) &&
        message == Literal(DeleteErrorMessage)
    }

    constructor ()
      ensures lineItems == [] && message == Blank && warningMessage == Blank
      ensures !isCommercial && columns == InitialColumns() && wiredResult == Pending
      ensures RowsStyled() && WarningMatchesRows()
    {
      lineItems, message, warningMessage := [], Blank, Blank;
      isCommercial := false;
      columns := InitialColumns();
      wiredResult := Pending;
    }

    /** The profile lookup arrived: a non-empty profile sets the flag and rebuilds the columns. */
    method WiredUserProfile(response: Wire<string>)
      modifies this`isCommercial, this`columns
      ensures response.Data? && response.value != "" ==>
                isCommercial == (response.value == CommercialProfile) && columns == Build(isCommercial)
      ensures !(response.Data? && response.value != "") ==>
                isCommercial == old(isCommercial) && columns == old(columns)
    {
      if response.Data? && response.value != "" {
        isCommercial := response.value == CommercialProfile;
        UpdateColumns();
      }
    }

    /** Rebuilds the column list for the current flag, pushing the buttons after the data columns. */
    method UpdateColumns()
      modifies this`columns
      ensures columns == Build(isCommercial)
    {
      var updatedColumns := DataColumns();
      if !isCommercial {
        updatedColumns := updatedColumns + [ViewColumn()];
      }
      updatedColumns := updatedColumns + [DeleteColumn()];
      columns := updatedColumns;
    }

    /** The line-item query delivered `result`. */
    method WiredOpportunities(result: Wire<seq<LineItem>>)
      modifies this`wiredResult, this`lineItems, this`message, this`warningMessage
      ensures wiredResult == result
      ensures result.Data? ==>
                lineItems == ProjectRows(result.value, isCommercial) &&
                warningMessage == WarningFor(lineItems) &&
                message == (if lineItems == [] then Localized(NoProductMessage) else Blank) &&
                RowsStyled() && WarningMatchesRows()
      ensures result.Failed? ==>
                lineItems == [] && message == Literal(LoadErrorMessage) &&
                warningMessage == old(warningMessage) && RowsStyled()
      ensures result.Pending? ==>
                lineItems == old(lineItems) && message == old(message) && warningMessage == old(warningMessage)
    {
      wiredResult := result;
      match result
      case Data(items) =>
        var rows, hasQuantityIssue := MapLineItems(items, isCommercial);
        lineItems := rows;
        warningMessage := if hasQuantityIssue then Localized(MessageErrorQuantity) else Blank;
        message := if |lineItems| == 0 then Localized(NoProductMessage) else Blank;
        forall r | r in lineItems ensures Styled(r) {
          var k :| 0 <= k < |rows| && rows[k] == r;
        }
      case Failed =>
        lineItems := [];
        message := Literal(LoadErrorMessage);
      case Pending =>
    }

    /** A row button was clicked: dispatch on the action's name. */
    method HandleRowAction(actionName: string, row: Row, outcome: DeleteOutcome) returns (effect: Effect)
      modifies this`lineItems, this`message, this`warningMessage
      ensures actionName == "view" ==>
                ViewOutcome(row, effect) &&
                lineItems == old(lineItems) && message == old(message) && warningMessage == old(warningMessage)
      ensures actionName == "delete" ==> effect == DeleteRequest(row.id) && DeleteApplied(row, outcome)
      ensures actionName != "view" && actionName != "delete" ==>
                effect == NoEffect &&
                lineItems == old(lineItems) && message == old(message) && warningMessage == old(warningMessage)
      ensures old(RowsStyled()) ==> RowsStyled()
      ensures old(WarningMatchesRows()) ==> WarningMatchesRows()
    {
      if actionName == "view" {
        effect := HandleView(row);
      } else if actionName == "delete" {
        effect := HandleDelete(row, outcome);
      } else {
        effect := NoEffect;
      }
    }

    /** Asks the server to delete the row's line item, then applies the outcome. */
    method HandleDelete(row: Row, outcome: DeleteOutcome) returns (effect: Effect)
      modifies this`lineItems, this`message, this`warningMessage
      ensures effect == DeleteRequest(row.id)
      ensures DeleteApplied(row, outcome)
      ensures old(RowsStyled()) ==> RowsStyled()
      ensures outcome.Deleted? || old(WarningMatchesRows()) ==> WarningMatchesRows()
    {
      effect := DeleteRequest(row.id);
      match outcome
      case Deleted =>
        lineItems := RemoveById(lineItems, row.id);
        var hasRemainingIssues := HasQuantityIssue(lineItems);
        warningMessage := if hasRemainingIssues then Localized(MessageErrorQuantity) else Blank;
        message := Literal(DeleteSuccessMessage);
      case DeleteFailed =>
        message := Literal(DeleteErrorMessage);
    }

    /** Opens the row's product, or alerts when the row has none. */
    method HandleView(row: Row) returns (effect: Effect)
      ensures ViewOutcome(row, effect)
    {
      var productId := row.product2Id;
      if Truthy(productId) {
        effect := Navigate(ProductPage(productId.value));
      } else {
        effect := Alert(NoProductAlert);
      }
    }
  }

  /** The scenarios of the component's documented behaviour, as a client sees them. */
  method Scenarios() {
    var view := new OpportunityProductView();
    view.WiredOpportunities(Data([]));
    assert view.lineItems == [] && view.message == Localized(NoProductMessage) && view.warningMessage == Blank;

    var short := LineItem(Some("L1"), None, Some(Product(Some("Widget"), Some(5))), Some(10), Some(3), Some(30));
    view.WiredOpportunities(Data([short]));
    var row := view.lineItems[0];
    assert row.quantityClass == ErrorClass;
    assert HasQuantityIssue(view.lineItems);
    assert view.warningMessage == Localized(MessageErrorQuantity);

    var effect := view.HandleRowAction("view", row, Deleted);
    assert effect == Alert(NoProductAlert) && view.lineItems == [row];

    effect := view.HandleRowAction("delete", row, DeleteFailed);
    assert view.lineItems == [row] && view.message == Literal(DeleteErrorMessage);

    effect := view.HandleRowAction("delete", row, Deleted);
    assert view.lineItems == [] && view.warningMessage == Blank;

    view.WiredUserProfile(Data(CommercialProfile));
    assert view.isCommercial && |view.columns| == 6;
    assert forall k :: 0 <= k < |view.columns| ==> !IsAction(view.columns[k], "view");
  }
}
