# Opportunity product view, modelled in Dafny

A model of `OpportunityProductView`. This Lightning Web Component shows the product line items of an
opportunity in a table. It lets a user open a line's product or delete the line. It hides the
"view product" button from users with the commercial sales profile.

The component keeps this state:

- the displayed rows;
- the info message;
- the warning banner;
- the commercial-profile flag;
- the column list built from that flag.

Four kinds of platform event change that state:

- the profile lookup arrives;
- the line-item query arrives;
- a row's "view" button is clicked;
- a row's "delete" button is clicked.

The model handles one event at a time. Each remote call is replaced by its result, passed in as an
input:

- the profile string or an error;
- the list of line items or an error;
- the success or failure of a delete.

Navigation, the alert and the delete request are returned as `Effect` values. The model does not
perform them.

Modules:

- `Wrappers`: `Option`, for JavaScript fields that may be `undefined`.
- `Labels`: the custom labels, kept as distinct symbolic constants, and the component's fixed French
  messages.
- `Platform`: wire payloads (`Data | Failed | Pending`), delete outcomes, navigation targets and
  effects.
- `Columns`: the column descriptors and `Build`, the column list for a given profile flag.
- `Rows`: line items, display rows, the projection with its defaults, the stock-deficit rule, and
  the filter used by delete. It also holds the lemmas about them.
- `ProductView`: the class `OpportunityProductView`. Its methods update the fields in place.

JavaScript truthiness is written out where the code relies on it:

- `x || 0` treats an absent value and `0` alike. Both give `0`, which `ProjectRow` proves.
- `x || 'Produit inconnu'` also replaces an empty name.
- `if (data)` ignores an empty profile string.
- `if (productId)` treats an empty product id as missing.

Where the component's written description and its code differ, the model follows the code:

- A successful delete removes every row carrying the deleted Id, not exactly one row.
- The placeholder name is also used when the product name is the empty string.
- An empty profile string leaves the flag and the columns alone.
- After a failed fetch the rows are emptied but the warning banner is left as it was. So "banner shown
  iff some row has a deficit" (`WarningMatchesRows`) can stop holding until the next successful fetch
  or delete. Every other event keeps it, and successful fetches and deletes restore it.
- `isDisabled` is computed for each row, but no column binds it.

`ProductView.Scenarios` is a client method. Using only the contracts, it proves the documented
scenarios:

- an empty fetch;
- a line with quantity 10 and stock 5;
- a view with no product;
- a failed delete, then a successful delete of the only row;
- a commercial profile arriving.

## Model

| member | source | states |
|---|---|---|
| `Columns.Build` | force-app/main/default/lwc/opportunityProductView/opportunityProductView.js:52-101 | The list always starts with the five data columns in order: Name, Quantity, UnitPrice, TotalPrice, Quantity_in_Stock__c. The Quantity column takes its class from `quantityClass`, and no data column is a button. The `view` button is present iff the viewer is not commercial, and then it is sixth. Exactly one `delete` button exists, and it is last. There are 7 columns for a non-commercial viewer and 6 for a commercial one. |
| `Rows.ProjectRow` | force-app/main/default/lwc/opportunityProductView/opportunityProductView.js:114-135 | Id and Product2Id are copied. Quantity, prices and stock equal the fetched value, or 0 when it is absent (the JavaScript "or 0" defaults never change a present value). The name is the product's name, or `Produit inconnu` when the product or its name is absent or empty. `isDisabled` equals the flag at projection time. `quantityClass` is the error class iff quantity > stock and `''` otherwise. |
| `Rows.ProjectRows` | force-app/main/default/lwc/opportunityProductView/opportunityProductView.js:114-136 | The projection keeps the input's length and order: row k is the projection of line item k. |
| `Rows.WarningFor` | force-app/main/default/lwc/opportunityProductView/opportunityProductView.js:178-179 | The banner is the quantity error label iff some row has quantity > stock, and `''` otherwise. |
| `Rows.RemoveById` | force-app/main/default/lwc/opportunityProductView/opportunityProductView.js:171 | A row is kept iff it was there and its Id differs from the deleted Id. Nothing is added. |
| `Rows.MapLineItems` | force-app/main/default/lwc/opportunityProductView/opportunityProductView.js:112-136 | The mapping loop flags a line with `stock - quantity < 0`. The loop builds exactly the projected rows. It ends with its accumulator set iff some resulting row has quantity > stock, so the fetch's rule and the delete's rule agree. |
| `Rows.RemoveByIdAppend` | force-app/main/default/lwc/opportunityProductView/opportunityProductView.js:171 | The filter distributes over concatenation. So the rows kept after a delete stay in their original relative order. |
| `Rows.RemoveByIdAbsent` | force-app/main/default/lwc/opportunityProductView/opportunityProductView.js:171 | Deleting an Id that no row carries leaves the rows unchanged. |
| `Rows.RemoveByIdIdempotent` | force-app/main/default/lwc/opportunityProductView/opportunityProductView.js:171 | Filtering the same Id twice gives the same rows as filtering it once. |
| `Rows.WarningAfterRemove` | force-app/main/default/lwc/opportunityProductView/opportunityProductView.js:171-179 | After a delete some row has a deficit iff some row with a different Id had one before. |
| `Rows.FetchWarningIff` | force-app/main/default/lwc/opportunityProductView/opportunityProductView.js:114-139 | A fetch yields a deficit row iff some fetched line item's defaulted quantity exceeds its defaulted stock. |
| `Rows.RemoveMatchesRefetch` | force-app/main/default/lwc/opportunityProductView/opportunityProductView.js:169-171 | Deleting a row locally gives the same rows as projecting a fresh fetch that no longer contains that line. |
| `ProductView.OpportunityProductView.constructor` | force-app/main/default/lwc/opportunityProductView/opportunityProductView.js:17-38 | A new instance has no rows, empty messages and the flag false. It starts with the initial column literal, whose two buttons send no action name. |
| `ProductView.OpportunityProductView.WiredUserProfile` | force-app/main/default/lwc/opportunityProductView/opportunityProductView.js:40-50 | A non-empty profile sets the flag iff it equals `Custom: Sales Profile`, and the columns are rebuilt for the new flag. An error, an empty profile or no value leaves the flag and the columns unchanged. |
| `ProductView.OpportunityProductView.UpdateColumns` | force-app/main/default/lwc/opportunityProductView/opportunityProductView.js:52-103 | The columns become `Build` of the current flag. Nothing else changes. |
| `ProductView.OpportunityProductView.WiredOpportunities` | force-app/main/default/lwc/opportunityProductView/opportunityProductView.js:105-147 | When data arrives, the rows are the projection of the fetched list. The banner is the error label iff some row has a deficit. The message is the no-product label iff there are no rows. After an error, the rows are emptied, the message is the load-error string and the banner is unchanged. With no value, nothing but `wiredResult` changes. Every displayed row stays styled by its deficit. |
| `ProductView.OpportunityProductView.HandleRowAction` | force-app/main/default/lwc/opportunityProductView/opportunityProductView.js:149-166 | `view` leaves the state alone and navigates iff the row has a product id, otherwise it alerts. `delete` sends a delete request for the row's Id and applies the outcome. Any other name does nothing. The styling and banner invariants are preserved. |
| `ProductView.OpportunityProductView.HandleDelete` | force-app/main/default/lwc/opportunityProductView/opportunityProductView.js:168-187 | The delete request carries the row's Id. On success, every row with that Id is removed, the banner is recomputed from the remaining rows and the message is the success string. On failure, the rows and the banner are unchanged and the message is the delete-error string. |
| `ProductView.OpportunityProductView.HandleView` | force-app/main/default/lwc/opportunityProductView/opportunityProductView.js:189-205 | The result is a navigation to the product's record page in `view` mode iff `Product2Id` is present and non-empty, and otherwise the fixed alert. |

## Left out

- The Apex calls `getOpportunitiesProduct`, `deleteOpportunityLineItem` and `getUserProfile` are inputs, not calls. The model keeps their results and drops the contents of their errors.
- `@wire`/`@track`/`@api` reactivity, the host `recordId` that keys the query, and Promise asynchrony are not modelled: events are processed one at a time. A delete's outcome is applied as soon as the request is made, so the model cannot show another event arriving between the request and its `then`/`catch`.
- `NavigationMixin.Navigate` and `alert` are returned as effects. `console.log` and `console.error` are dropped: they are output only.
- The translated text of the custom labels is not modelled. Labels are distinct symbols.
- Numbers are unbounded integers. Decimal prices and quantities, floating-point behaviour and `NaN` are not modelled. No arithmetic beyond the stock comparison is done on them.
- Column presentation attributes are carried as plain values with no meaning: label, type, `fixedWidth`, `iconName`, `variant`, `title` and `alternativeText`. The `fieldName` inside the view button's `typeAttributes` and the repeated `fieldName` key of the delete column are not carried. The widget's rendering is not modelled.
- `wiredResult` is stored, but nothing in the component uses it again, so the model does not either.
