/**
 * The texts the component shows. Custom labels are platform-translated
 * strings whose content is not part of the model: they are kept as distinct
 * symbolic constants. Fixed French strings written in the component itself
 * are kept verbatim.
 */
module Labels {

  /** The custom labels the component imports. */
  datatype Label =
    | ProductName
    | Quantity
    | UnitPrice
    | TotalPrice
    | QuantityInStock
    | SeeProduct
    | Delete
    | MessageErrorQuantity
    | NoProductMessage

  /** A message shown to the user: a fixed string or a custom label. */
  datatype Text = Literal(s: string) | Localized(key: Label)

  /** The empty message (`''`): nothing is shown. */
  const Blank: Text := Literal("")

  const LoadErrorMessage: string := "Une erreur est survenue lors du chargement des produits."
  const DeleteSuccessMessage: string := "Ligne de produit supprimée avec succès."
  const DeleteErrorMessage: string := "Une erreur est survenue lors de la suppression du produit."
  const NoProductAlert: string := "Aucun produit associé à cette ligne d'opportunité."
}
