/**
 * The persisted record types and their field constraints. Each record's `Valid()` is the
 * set of `Field(..., ge=...)` bounds; building a record checks them, as Pydantic does, and
 * fails with a `ValidationError` naming the record.
 */
module Schemas {
  import opened Wrappers

  /** Pydantic's refusal to build the record called `model`. */
  datatype ValidationError = ValidationError(model: string)

  /** A sellable product of the `merchandiseproduct` collection. */
  datatype MerchandiseProduct = MerchandiseProduct(
    title: string,
    category: string,
    description: Option<string>,
    basePrice: real,
    colors: seq<string>,
    images: seq<string>,
    inStock: bool)
  {
    predicate Valid() {
      basePrice >= 0.0
    }
  }

  /** One line of an order: a frozen snapshot of the product and the prices at order time. */
  datatype OrderItem = OrderItem(
    productId: string,
    title: string,
    category: string,
    color: string,
    quantity: int,
    unitPrice: real,
    embroideryText: Option<string>,
    embroideryFee: real,
    lineTotal: real)
  {
    predicate Valid() {
      quantity >= 1 && unitPrice >= 0.0 && embroideryFee >= 0.0 && lineTotal >= 0.0
    }

    /** The documented meaning of `line_total`; the record itself does not enforce it. */
    predicate LineTotalConsistent() {
      lineTotal == (quantity as real) * (unitPrice + embroideryFee)
    }
  }

  /** An order of the `order` collection. `items` is required but may be empty. */
  datatype Order = Order(
    customerName: string,
    customerEmail: string,
    items: seq<OrderItem>,
    subTotal: real,
    embroideryTotal: real,
    grandTotal: real,
    notes: Option<string>)
  {
    /** The bounds Pydantic checks when the order is built from already-built items. */
    predicate TotalsValid() {
      subTotal >= 0.0 && embroideryTotal >= 0.0 && grandTotal >= 0.0
    }

    /** Every constraint of the record, its items' included. */
    predicate Valid() {
      TotalsValid() && forall i :: 0 <= i < |items| ==> items[i].Valid()
    }
  }

  /** `MerchandiseProduct(**fields)`: the record, or a validation error when a bound fails. */
  function NewProduct(candidate: MerchandiseProduct): (r: Result<MerchandiseProduct, ValidationError>)
    ensures r.Success? <==> candidate.basePrice >= 0.0
    ensures r.Success? ==> r.value == candidate && r.value.Valid()
    ensures r.Failure? ==> r.error.model == "MerchandiseProduct"
  {
    if candidate.Valid() then Success(candidate) else Failure(ValidationError("MerchandiseProduct"))
  }

  /** `OrderItem(**fields)`: the record, or a validation error when a bound fails. */
  function NewOrderItem(candidate: OrderItem): (r: Result<OrderItem, ValidationError>)
    ensures r.Success? <==>
      candidate.quantity >= 1 && candidate.unitPrice >= 0.0
      && candidate.embroideryFee >= 0.0 && candidate.lineTotal >= 0.0
    ensures r.Success? ==> r.value == candidate && r.value.Valid()
    ensures r.Failure? ==> r.error.model == "OrderItem"
  {
    if candidate.Valid() then Success(candidate) else Failure(ValidationError("OrderItem"))
  }

  /** `Order(**fields)` with `items` already built: checks the three total bounds. */
  function NewOrder(candidate: Order): (r: Result<Order, ValidationError>)
    ensures r.Success? <==>
      candidate.subTotal >= 0.0 && candidate.embroideryTotal >= 0.0 && candidate.grandTotal >= 0.0
    ensures r.Success? ==> r.value == candidate
    ensures r.Failure? ==> r.error.model == "Order"
  {
    if candidate.TotalsValid() then Success(candidate) else Failure(ValidationError("Order"))
  }
}
