/** The product documents of the catalog, as the storefront reads them. */
module Catalog {
  import opened Prelude

  /** One choice of a variant (`title` is the document's `label`); `priceModifier` may be missing. */
  datatype VariantOption = VariantOption(value: string, title: string, priceModifier: Option<real>)

  /** A customisable dimension of a product (`type` in the documents). */
  datatype Variant = Variant(kind: string, name: string, options: seq<VariantOption>)

  /** The selected option value per variant type, in insertion order, as the
      entries of a JavaScript object. */
  type Selection = seq<(string, string)>

  /** A product; a missing `name`/`description` is the empty string, a
      missing `price`, `stock` or `variants` is `None`. */
  datatype Product = Product(
    id: string,
    name: string,
    description: string,
    price: Option<real>,
    stock: Option<int>,
    variants: Option<seq<Variant>>)

  /** `product.stock ?? 99`: the most units a cart line may hold. */
  function StockLimit(stock: Option<int>): (r: int)
    ensures stock.None? ==> r == 99
    ensures stock.Some? ==> r == stock.value
  {
    stock.GetOr(99)
  }
}
