/** The allowed-value sets shared by product creation and order placement, and the request errors. */
module Api {
  import opened Wrappers
  import opened Schemas

  const AllowedCategories: set<string> := {"hoodie", "beanie", "shirt", "trackpants"}
  const AllowedColors: set<string> := {"green", "black", "yellow", "white"}

  /**
   * Why a request is refused. All but `SchemaViolation` are raised by the handlers as HTTP 400
   * errors carrying a `detail` message. `SchemaViolation` is a record constructor raising
   * Pydantic's `ValidationError`, which no handler catches: the client gets a server error
   * without a `detail`.
   */
  datatype ApiError =
    | InvalidCategory
    | InvalidColors
    | InvalidColor(color: string)
    | InvalidQuantity
    | InvalidProductId
    | ProductNotFound
    | SchemaViolation(cause: ValidationError)

  /** The `detail` message of a refusal the handler raises itself; a record's refusal has none. */
  function Detail(e: ApiError): (d: Option<string>)
    ensures d.None? <==> e.SchemaViolation?
  {
    match e
    case InvalidCategory => Some("Invalid category")
    case InvalidColors => Some("One or more invalid colors")
    case InvalidColor(c) => Some("Invalid color: " + c)
    case InvalidQuantity => Some("Quantity must be >= 1")
    case InvalidProductId => Some("Invalid product id")
    case ProductNotFound => Some("One or more products not found")
    case SchemaViolation(_) => None
  }
}
