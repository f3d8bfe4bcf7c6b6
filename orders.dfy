/**
 * Order placement (`create_order`): check every requested item, resolve the product ids
 * against the catalog, price each line with a snapshot of its product, total the order,
 * and store it only when every check has passed.
 */
module Orders {
  import opened Wrappers
  import opened SeqFacts
  import opened PyText
  import opened Schemas
  import opened Api
  import opened Products
  import opened Persistence

  /** The flat charge per unit for an item that carries embroidery text. */
  const EmbroideryFeePerItem: real := 8.0

  /** One requested item of `POST /api/orders`. */
  datatype CreateOrderItem = CreateOrderItem(
    productId: string,
    color: string,
    quantity: int,
    embroideryText: Option<string>)

  /** The body of `POST /api/orders`. */
  datatype CreateOrder = CreateOrder(
    customerName: string,
    customerEmail: string,
    items: seq<CreateOrderItem>,
    notes: Option<string>)

  /** What the handler answers on success: the stored order's id and its grand total. */
  datatype OrderCreated = OrderCreated(id: nat, grandTotal: real)

  /** The product collection as the store's `find` sees it: documents keyed by their id string. */
  type Catalog = map<string, ProductDoc>

  // ---------- Item checks ----------

  /** An item passes the first loop: an allowed color and at least one unit. */
  predicate ItemAcceptable(it: CreateOrderItem) {
    it.color in AllowedColors && it.quantity >= 1
  }

  /** The refusal for an item that fails the first loop: the color is checked first. */
  function ItemError(it: CreateOrderItem): ApiError {
    if it.color !in AllowedColors then InvalidColor(it.color) else InvalidQuantity
  }

  /** The refusal of the first item that fails the first loop, if any. */
  function FirstItemError(items: seq<CreateOrderItem>): (e: Option<ApiError>)
    ensures e.Some? ==> e.value.InvalidColor? || e.value.InvalidQuantity?
  {
    if items == [] then None
    else if !ItemAcceptable(items[0]) then Some(ItemError(items[0]))
    else FirstItemError(items[1..])
  }

  // ---------- Product ids and lookup ----------

  /** The requested product ids, in request order. */
  function ProductIds(items: seq<CreateOrderItem>): (ids: seq<string>)
    ensures |ids| == |items| && forall i :: 0 <= i < |items| ==> ids[i] == items[i].productId
  {
    seq(|items|, i requires 0 <= i < |items| => items[i].productId)
  }

  /** `[ObjectId(i.product_id) for i in items if ObjectId.is_valid(i.product_id)]`. */
  function ValidIds(items: seq<CreateOrderItem>, validId: string -> bool): seq<string> {
    if items == [] then []
    else (if validId(items[0].productId) then [items[0].productId] else []) + ValidIds(items[1..], validId)
  }

  /** The filter keeps every id exactly when every id is valid, and then it keeps them in order. */
  lemma {:induction false} ValidIdsLength(items: seq<CreateOrderItem>, validId: string -> bool)
    ensures |ValidIds(items, validId)| <= |items|
    ensures |ValidIds(items, validId)| == |items| <==> forall i :: 0 <= i < |items| ==> validId(items[i].productId)
    ensures |ValidIds(items, validId)| == |items| ==> ValidIds(items, validId) == ProductIds(items)
  {
    if items != [] {
      ValidIdsLength(items[1..], validId);
      if forall i :: 1 <= i < |items| ==> validId(items[i].productId) {
        assert forall i :: 0 <= i < |items| - 1 ==> validId(items[1..][i].productId);
      }
      if |ValidIds(items, validId)| == |items| {
        assert validId(items[0].productId);
        assert ProductIds(items) == [items[0].productId] + ProductIds(items[1..]);
      }
      assert (forall i :: 0 <= i < |items| - 1 ==> validId(items[1..][i].productId))
        <==> (forall i :: 1 <= i < |items| ==> validId(items[i].productId));
    }
  }

  /** The documents of `find({"_id": {"$in": ids}})`, keyed by id. */
  function Found(catalog: Catalog, ids: seq<string>): (m: map<string, ProductDoc>)
    ensures m.Keys == Elems(ids) * catalog.Keys
    ensures forall k :: k in m ==> m[k] == catalog[k]
  {
    map k | k in catalog && k in ids :: catalog[k]
  }

  /** Once both count checks pass, every requested id is among the found documents. */
  lemma FoundCoversItems(items: seq<CreateOrderItem>, catalog: Catalog, validId: string -> bool)
    requires |ValidIds(items, validId)| == |items|
    requires |Found(catalog, ValidIds(items, validId))| == |items|
    ensures forall i :: 0 <= i < |items| ==> items[i].productId in Found(catalog, ValidIds(items, validId))
  {
    ValidIdsLength(items, validId);
    var ids := ValidIds(items, validId);
    ElemsWithinCardinality(ids, catalog.Keys);
    forall i | 0 <= i < |items| ensures items[i].productId in Found(catalog, ids) {
      assert ids[i] == items[i].productId && ids[i] in Elems(ids);
    }
  }

  // ---------- Pricing ----------

  /** The embroidery condition: text present and not blank once stripped. */
  predicate HasEmbroidery(text: Option<string>) {
    text.Some? && text.value != "" && Strip(text.value) != ""
  }

  /** The per-unit embroidery charge of an item. */
  function EmbroideryFee(text: Option<string>): real {
    if HasEmbroidery(text) then EmbroideryFeePerItem else 0.0
  }

  /** The `OrderItem` fields the pricing loop assembles for one item and its product document. */
  function LineFor(it: CreateOrderItem, doc: ProductDoc): OrderItem {
    var unit := UnitPrice(doc);
    var fee := EmbroideryFee(it.embroideryText);
    OrderItem(it.productId, doc.title.GetOr(""), doc.category.GetOr(""), it.color,
              it.quantity, unit, it.embroideryText, fee, (unit + fee) * (it.quantity as real))
  }

  /** The line of every item, in request order. */
  function LinesFor(items: seq<CreateOrderItem>, products: map<string, ProductDoc>): seq<OrderItem>
    requires forall i :: 0 <= i < |items| ==> items[i].productId in products
  {
    seq(|items|, i requires 0 <= i < |items| => LineFor(items[i], products[items[i].productId]))
  }

  /**
   * The pricing loop's lines, or the `OrderItem` record's refusal when one of them breaks
   * a bound (the refusal is the same whichever line it is).
   */
  function PriceLines(items: seq<CreateOrderItem>, products: map<string, ProductDoc>): Result<seq<OrderItem>, ValidationError>
    requires forall i :: 0 <= i < |items| ==> items[i].productId in products
  {
    var lines := LinesFor(items, products);
    if forall i :: 0 <= i < |lines| ==> lines[i].Valid() then Success(lines)
    else Failure(ValidationError("OrderItem"))
  }

  /** The sum of `unit_price * quantity` over the lines. */
  function SubTotal(lines: seq<OrderItem>): real {
    if lines == [] then 0.0
    else SubTotal(lines[..|lines| - 1]) + lines[|lines| - 1].unitPrice * (lines[|lines| - 1].quantity as real)
  }

  /** The sum of `embroidery_fee * quantity` over the lines. */
  function EmbroideryTotal(lines: seq<OrderItem>): real {
    if lines == [] then 0.0
    else EmbroideryTotal(lines[..|lines| - 1]) + lines[|lines| - 1].embroideryFee * (lines[|lines| - 1].quantity as real)
  }

  /** The sum of the lines' `line_total`. */
  function LineTotalSum(lines: seq<OrderItem>): real {
    if lines == [] then 0.0 else LineTotalSum(lines[..|lines| - 1]) + lines[|lines| - 1].lineTotal
  }

  /** Appending a line adds its three contributions to the three sums. */
  lemma TotalsAppend(lines: seq<OrderItem>, line: OrderItem)
    ensures SubTotal(lines + [line]) == SubTotal(lines) + line.unitPrice * (line.quantity as real)
    ensures EmbroideryTotal(lines + [line]) == EmbroideryTotal(lines) + line.embroideryFee * (line.quantity as real)
    ensures LineTotalSum(lines + [line]) == LineTotalSum(lines) + line.lineTotal
  {
    assert (lines + [line])[..|lines|] == lines;
  }

  /**
   * The id checks and the lookup: every id must be valid, and the found documents must be
   * as many as the items.
   */
  function Resolve(items: seq<CreateOrderItem>, catalog: Catalog, validId: string -> bool): (r: Result<map<string, ProductDoc>, ApiError>)
    ensures r.Success? ==> forall i :: 0 <= i < |items| ==> items[i].productId in r.value
  {
    var ids := ValidIds(items, validId);
    if |ids| != |items| then Failure(InvalidProductId)
    else
      var products := Found(catalog, ids);
      if |products| != |items| then Failure(ProductNotFound)
      else
        FoundCoversItems(items, catalog, validId);
        Success(products)
  }

  /** The pricing loop, the totals and the `Order` record, for items whose products are all resolved. */
  function Assemble(payload: CreateOrder, products: map<string, ProductDoc>): Result<Order, ApiError>
    requires forall i :: 0 <= i < |payload.items| ==> payload.items[i].productId in products
  {
    match PriceLines(payload.items, products)
    case Failure(e) => Failure(SchemaViolation(e))
    case Success(lines) =>
      var sub := SubTotal(lines);
      var emb := EmbroideryTotal(lines);
      match NewOrder(Order(payload.customerName, payload.customerEmail, lines, sub, emb, sub + emb, payload.notes))
      case Failure(e) => Failure(SchemaViolation(e))
      case Success(o) => Success(o)
  }

  /**
   * What `create_order` computes before storing: the first refusal in the handler's order,
   * or the order it would store.
   */
  function PricedOrder(payload: CreateOrder, catalog: Catalog, validId: string -> bool): Result<Order, ApiError> {
    match FirstItemError(payload.items)
    case Some(e) => Failure(e)
    case None =>
      match Resolve(payload.items, catalog, validId)
      case Failure(e) => Failure(e)
      case Success(products) => Assemble(payload, products)
  }

  // ---------- The handler's steps ----------

  /** The first loop: colors, then quantities, item by item; stops at the first refusal. */
  method ValidateItems(items: seq<CreateOrderItem>) returns (err: Option<ApiError>)
    ensures err == FirstItemError(items)
  {
    for i := 0 to |items|
      invariant FirstItemError(items) == FirstItemError(items[i..])
    {
      assert items[i..][1..] == items[i + 1..];
      if items[i].color !in AllowedColors {
        return Some(InvalidColor(items[i].color));
      }
      if items[i].quantity < 1 {
        return Some(InvalidQuantity);
      }
    }
    return None;
  }

  /** The lookup loop: each found document is entered into `products_map` under its id. */
  method FindProducts(catalog: Catalog, ids: seq<string>) returns (products: map<string, ProductDoc>)
    ensures products == Found(catalog, ids)
  {
    var cursor := set k | k in catalog && k in ids;
    products := map[];
    while cursor != {}
      invariant cursor <= Found(catalog, ids).Keys
      invariant products.Keys == Found(catalog, ids).Keys - cursor
      invariant forall k :: k in products ==> products[k] == catalog[k]
      decreases cursor
    {
      var k :| k in cursor;
      products := products[k := catalog[k]];
      cursor := cursor - {k};
    }
  }

  /** The body of the pricing loop for one item: the unit price, the fee, and the checked line. */
  method PriceItem(it: CreateOrderItem, p: ProductDoc) returns (unit: real, fee: real, line: Result<OrderItem, ValidationError>)
    ensures unit == UnitPrice(p) && fee == EmbroideryFee(it.embroideryText)
    ensures line == NewOrderItem(LineFor(it, p))
  {
    unit := UnitPrice(p);
    fee := if it.embroideryText.Some? && it.embroideryText.value != "" && Strip(it.embroideryText.value) != ""
           then EmbroideryFeePerItem else 0.0;
    var lineTotal := (unit + fee) * (it.quantity as real);
    var candidate := OrderItem(it.productId, p.title.GetOr(""), p.category.GetOr(""), it.color,
                               it.quantity, unit, it.embroideryText, fee, lineTotal);
    assert candidate == LineFor(it, p);
    line := NewOrderItem(candidate);
  }

  /** The lines and the two running totals the pricing loop produces. */
  datatype Priced = Priced(lines: seq<OrderItem>, subTotal: real, embroideryTotal: real)

  /** The pricing loop: build each line, append it, and add to `sub_total` and `embroidery_total`. */
  method PriceItems(items: seq<CreateOrderItem>, products: map<string, ProductDoc>) returns (r: Result<Priced, ValidationError>)
    requires forall i :: 0 <= i < |items| ==> items[i].productId in products
    ensures r.Success? <==> PriceLines(items, products).Success?
    ensures r.Success? ==>
      r.value.lines == PriceLines(items, products).value
      && r.value.subTotal == SubTotal(r.value.lines)
      && r.value.embroideryTotal == EmbroideryTotal(r.value.lines)
    ensures r.Failure? ==> r.error == PriceLines(items, products).error
  {
    var lines: seq<OrderItem> := [];
    var subTotal := 0.0;
    var embroideryTotal := 0.0;
    for i := 0 to |items|
      invariant |lines| == i
      invariant forall j :: 0 <= j < i ==> lines[j] == LineFor(items[j], products[items[j].productId])
      invariant forall j :: 0 <= j < i ==> lines[j].Valid()
      invariant subTotal == SubTotal(lines)
      invariant embroideryTotal == EmbroideryTotal(lines)
    {
      var it := items[i];
      var unit, fee, line := PriceItem(it, products[it.productId]);
      subTotal := subTotal + unit * (it.quantity as real);
      embroideryTotal := embroideryTotal + fee * (it.quantity as real);
      if line.Failure? {
        assert LinesFor(items, products)[i] == LineFor(it, products[it.productId]);
        return Failure(line.error);
      }
      TotalsAppend(lines, line.value);
      lines := lines + [line.value];
    }
    assert lines == LinesFor(items, products);
    return Success(Priced(lines, subTotal, embroideryTotal));
  }

  /** The id checks and the lookup loop of `create_order`. */
  method ResolveProducts(items: seq<CreateOrderItem>, catalog: Catalog, validId: string -> bool)
    returns (r: Result<map<string, ProductDoc>, ApiError>)
    ensures r == Resolve(items, catalog, validId)
  {
    var ids := ValidIds(items, validId);
    if |ids| != |items| {
      return Failure(InvalidProductId);
    }
    var products := FindProducts(catalog, ids);
    if |products| != |items| {
      return Failure(ProductNotFound);
    }
    return Success(products);
  }

  /** The pricing loop of `create_order`, then the grand total and the `Order` record. */
  method AssembleOrder(payload: CreateOrder, products: map<string, ProductDoc>) returns (r: Result<Order, ApiError>)
    requires forall i :: 0 <= i < |payload.items| ==> payload.items[i].productId in products
    ensures r == Assemble(payload, products)
  {
    var priced := PriceItems(payload.items, products);
    if priced.Failure? {
      return Failure(SchemaViolation(priced.error));
    }
    var Priced(lines, subTotal, embroideryTotal) := priced.value;
    var grandTotal := subTotal + embroideryTotal;
    var order := NewOrder(Order(payload.customerName, payload.customerEmail, lines,
                                subTotal, embroideryTotal, grandTotal, payload.notes));
    if order.Failure? {
      return Failure(SchemaViolation(order.error));
    }
    return Success(order.value);
  }

  /** Everything `create_order` does before the store call. */
  method PriceOrder(payload: CreateOrder, catalog: Catalog, validId: string -> bool) returns (r: Result<Order, ApiError>)
    ensures r == PricedOrder(payload, catalog, validId)
  {
    var err := ValidateItems(payload.items);
    if err.Some? {
      return Failure(err.value);
    }
    var products := ResolveProducts(payload.items, catalog, validId);
    if products.Failure? {
      return Failure(products.error);
    }
    r := AssembleOrder(payload, products.value);
  }

  /** `create_order`: the order is stored exactly when every check passed; a refusal stores nothing. */
  method CreateOrderHandler(payload: CreateOrder, catalog: Catalog, validId: string -> bool, db: Database)
    returns (r: Result<OrderCreated, ApiError>)
    modifies db
    ensures db.products == old(db.products)
    ensures PricedOrder(payload, catalog, validId).Failure? ==>
      r == Failure(PricedOrder(payload, catalog, validId).error) && db.orders == old(db.orders)
    ensures PricedOrder(payload, catalog, validId).Success? ==>
      var o := PricedOrder(payload, catalog, validId).value;
      r == Success(OrderCreated(|old(db.orders)|, o.grandTotal)) && db.orders == old(db.orders) + [o]
  {
    var order := PriceOrder(payload, catalog, validId);
    if order.Failure? {
      return Failure(order.error);
    }
    var id := db.InsertOrder(order.value);
    return Success(OrderCreated(id, order.value.grandTotal));
  }
}
