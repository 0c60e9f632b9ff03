/**
 * What the platform hands to the component and what the component asks of
 * it. The remote calls are replaced by their results, and navigation, alerts
 * and the delete request are returned as effects instead of being performed.
 */
module Platform {

  import opened Wrappers

  /**
   * The `{ data, error }` payload of a wired call: data that is truthy, an
   * error, or neither (the first, still unprovisioned, delivery).
   */
  datatype Wire<T> = Data(value: T) | Failed | Pending

  /** How the remote delete of a line item ended: its `then` or its `catch`. */
  datatype DeleteOutcome = Deleted | DeleteFailed

  /** A `standard__recordPage` navigation target. */
  datatype PageReference = PageReference(pageType: string, recordId: string, objectApiName: string, actionName: string)

  /** What a row action asks the platform to do. */
  datatype Effect =
    | NoEffect
    | Navigate(page: PageReference)
    | Alert(text: string)
    | DeleteRequest(lineId: Option<string>)

  /** The record page of a product, opened in view mode. */
  function ProductPage(productId: string): PageReference {
    PageReference("standard__recordPage", productId, "Product2", "view")
  }

  /** JavaScript truthiness of an optional string: present and not empty. */
  predicate Truthy(s: Option<string>) {
    s.Some? && s.value != ""
  }
}
