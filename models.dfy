/** Records of the Bamboo Card Portal catalog API (src/app/bbcp/models.py).
    They carry no behaviour; the reconciliation in `Processes` reads them. */
module Models {

  datatype Option<T> = None | Some(value: T)

  /** A Python `float`. The model never computes with prices: it only needs
      the text Python's `str()` gives for the value, which is kept here. */
  datatype Float = Float(str: string)

  /** A `datetime` as received from the API; never inspected. */
  type DateTime = string

  datatype Price = Price(min: Float, max: Float, currencyCode: string)

  datatype Product = Product(
    id: int,
    name: string,
    minFaceValue: Float,
    maxFaceValue: Float,
    count: Option<int>,
    price: Price,
    modifiedDate: DateTime)

  datatype Category = Category(id: int, name: string, description: Option<string>)

  /** A brand owns its products; the region (`countryCode`) belongs to the
      brand, a product has none of its own. */
  datatype Brand = Brand(
    internalId: string,
    name: string,
    countryCode: string,
    currencyCode: string,
    description: Option<string>,
    disclaimer: Option<string>,
    redemptionInstructions: Option<string>,
    terms: Option<string>,
    logoUrl: Option<string>,
    modifiedDate: string,
    products: seq<Product>,
    categories: seq<Category>)

  datatype CatalogResponse = CatalogResponse(brands: seq<Brand>)

  /** The flattened index entry: a product together with its brand's region. */
  datatype FriProduct = FriProduct(id: int, name: string, countryCode: string, price: Price)
}
