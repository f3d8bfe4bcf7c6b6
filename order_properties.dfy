/**
 * What order placement guarantees: which refusal a request gets, when an order is built,
 * and what the built order holds.
 */
module OrderProperties {
  import opened Wrappers
  import opened SeqFacts
  import opened PyText
  import opened Schemas
  import opened Api
  import opened Products
  import opened Orders

  // ---------- The first loop ----------

  /** The first loop lets a request through exactly when every item has an allowed color and a positive quantity. */
  lemma {:induction false} FirstItemErrorNoneIff(items: seq<CreateOrderItem>)
    ensures FirstItemError(items).None? <==> forall i :: 0 <= i < |items| ==> ItemAcceptable(items[i])
  {
    if items != [] {
      FirstItemErrorNoneIff(items[1..]);
      assert forall i :: 1 <= i < |items| ==> items[i] == items[1..][i - 1];
    }
  }

  /** The first unacceptable item decides the refusal, whatever follows it. */
  lemma {:induction false} FirstItemErrorAt(items: seq<CreateOrderItem>, k: nat)
    requires k < |items|
    requires forall j :: 0 <= j < k ==> ItemAcceptable(items[j])
    requires !ItemAcceptable(items[k])
    ensures FirstItemError(items) == Some(ItemError(items[k]))
  {
    if k > 0 {
      assert forall j :: 0 <= j < k - 1 ==> items[1..][j] == items[j + 1];
      FirstItemErrorAt(items[1..], k - 1);
    }
  }

  /** Every refusal of the first loop comes from the first unacceptable item. */
  lemma {:induction false} FirstItemErrorSome(items: seq<CreateOrderItem>)
    requires FirstItemError(items).Some?
    ensures exists k :: 0 <= k < |items| && (forall j :: 0 <= j < k ==> ItemAcceptable(items[j]))
                        && !ItemAcceptable(items[k]) && FirstItemError(items) == Some(ItemError(items[k]))
  {
    if ItemAcceptable(items[0]) {
      FirstItemErrorSome(items[1..]);
      var k :| 0 <= k < |items| - 1 && (forall j :: 0 <= j < k ==> ItemAcceptable(items[1..][j]))
               && !ItemAcceptable(items[1..][k]) && FirstItemError(items[1..]) == Some(ItemError(items[1..][k]));
      assert forall j :: 1 <= j < k + 1 ==> items[j] == items[1..][j - 1];
      assert items[k + 1] == items[1..][k];
    } else {
      assert !ItemAcceptable(items[0]);
    }
  }

  // ---------- Refusals of the whole request ----------

  /**
   * Items are checked in request order, color before quantity: the first unacceptable item
   * refuses the request with its color's or its quantity's refusal.
   */
  lemma RejectsFirstUnacceptableItem(payload: CreateOrder, catalog: Catalog, validId: string -> bool, k: nat)
    requires k < |payload.items|
    requires forall j :: 0 <= j < k ==> ItemAcceptable(payload.items[j])
    requires !ItemAcceptable(payload.items[k])
    ensures payload.items[k].color !in AllowedColors ==>
      PricedOrder(payload, catalog, validId) == Failure(InvalidColor(payload.items[k].color))
    ensures payload.items[k].color in AllowedColors ==>
      PricedOrder(payload, catalog, validId) == Failure(InvalidQuantity)
  {
    FirstItemErrorAt(payload.items, k);
  }

  /** A request is refused for a color or a quantity exactly when some item has a bad one. */
  lemma ItemRefusalIff(payload: CreateOrder, catalog: Catalog, validId: string -> bool)
    ensures (PricedOrder(payload, catalog, validId).Failure?
             && (PricedOrder(payload, catalog, validId).error.InvalidColor?
                 || PricedOrder(payload, catalog, validId).error.InvalidQuantity?))
      <==> exists i :: 0 <= i < |payload.items| && !ItemAcceptable(payload.items[i])
  {
    FirstItemErrorNoneIff(payload.items);
    if FirstItemError(payload.items).Some? {
      FirstItemErrorSome(payload.items);
    }
  }

  /**
   * Once every item is acceptable, the request is refused as "Invalid product id" exactly
   * when some id fails the validity predicate.
   */
  lemma RejectsInvalidProductId(payload: CreateOrder, catalog: Catalog, validId: string -> bool)
    requires forall i :: 0 <= i < |payload.items| ==> ItemAcceptable(payload.items[i])
    ensures PricedOrder(payload, catalog, validId) == Failure(InvalidProductId)
      <==> exists i :: 0 <= i < |payload.items| && !validId(payload.items[i].productId)
  {
    FirstItemErrorNoneIff(payload.items);
    ValidIdsLength(payload.items, validId);
  }

  /**
   * Once every item is acceptable and every id is valid, the request is refused as "One or
   * more products not found" exactly when some id is missing from the catalog or two items
   * name the same id.
   */
  lemma RejectsUnresolvedProducts(payload: CreateOrder, catalog: Catalog, validId: string -> bool)
    requires forall i :: 0 <= i < |payload.items| ==> ItemAcceptable(payload.items[i])
    requires forall i :: 0 <= i < |payload.items| ==> validId(payload.items[i].productId)
    ensures PricedOrder(payload, catalog, validId) == Failure(ProductNotFound)
      <==> !(Distinct(ProductIds(payload.items))
             && forall i :: 0 <= i < |payload.items| ==> payload.items[i].productId in catalog)
  {
    FirstItemErrorNoneIff(payload.items);
    ValidIdsLength(payload.items, validId);
    var ids := ProductIds(payload.items);
    ElemsWithinCardinality(ids, catalog.Keys);
    assert |Found(catalog, ids)| == |Elems(ids) * catalog.Keys|;
  }

  /** Two items naming the same product refuse the whole request; they are not priced as two lines. */
  lemma DuplicateProductIdRejected(payload: CreateOrder, catalog: Catalog, validId: string -> bool, i: nat, j: nat)
    requires forall k :: 0 <= k < |payload.items| ==> ItemAcceptable(payload.items[k])
    requires forall k :: 0 <= k < |payload.items| ==> validId(payload.items[k].productId)
    requires i < j < |payload.items| && payload.items[i].productId == payload.items[j].productId
    ensures PricedOrder(payload, catalog, validId) == Failure(ProductNotFound)
  {
    RejectsUnresolvedProducts(payload, catalog, validId);
    assert ProductIds(payload.items)[i] == ProductIds(payload.items)[j];
  }

  // ---------- Lines and totals ----------

  /** The fee rule: 8.0 when the text is present and holds a non-whitespace character, 0.0 otherwise. */
  lemma EmbroideryFeeRule(text: Option<string>)
    ensures EmbroideryFee(text) ==
      if text.Some? && exists i :: 0 <= i < |text.value| && !IsSpace(text.value[i]) then 8.0 else 0.0
  {
    if text.Some? {
      StripIsBlankExactly(text.value);
    }
  }

  /** A line's bounds hold exactly when its product's unit price is not negative; its total is always the documented formula. */
  lemma LineForValid(it: CreateOrderItem, doc: ProductDoc)
    requires it.quantity >= 1
    ensures LineFor(it, doc).Valid() <==> UnitPrice(doc) >= 0.0
    ensures LineFor(it, doc).LineTotalConsistent()
  {
    var unit, fee := UnitPrice(doc), EmbroideryFee(it.embroideryText);
    assert fee >= 0.0;
    if unit >= 0.0 {
      assert unit + fee >= 0.0;
      assert (unit + fee) * (it.quantity as real) >= 0.0;
    }
  }

  /** With all lines holding the documented formula, the grand total is the sum of the line totals. */
  lemma {:induction false} LineTotalSumSplits(lines: seq<OrderItem>)
    requires forall i :: 0 <= i < |lines| ==> lines[i].LineTotalConsistent()
    ensures LineTotalSum(lines) == SubTotal(lines) + EmbroideryTotal(lines)
  {
    if lines != [] {
      var n := |lines| - 1;
      LineTotalSumSplits(lines[..n]);
      var last := lines[n];
      assert last.LineTotalConsistent();
      assert last.lineTotal == last.unitPrice * (last.quantity as real) + last.embroideryFee * (last.quantity as real);
    }
  }

  /** Lines that keep their bounds have non-negative totals. */
  lemma {:induction false} TotalsNonNegative(lines: seq<OrderItem>)
    requires forall i :: 0 <= i < |lines| ==> lines[i].Valid()
    ensures SubTotal(lines) >= 0.0 && EmbroideryTotal(lines) >= 0.0
  {
    if lines != [] {
      var n := |lines| - 1;
      TotalsNonNegative(lines[..n]);
      var last := lines[n];
      assert last.Valid();
      assert last.unitPrice * (last.quantity as real) >= 0.0;
      assert last.embroideryFee * (last.quantity as real) >= 0.0;
    }
  }

  /** The pricing loop refuses exactly when some resolved product has a negative unit price. */
  lemma PriceLinesSucceedIff(items: seq<CreateOrderItem>, products: map<string, ProductDoc>)
    requires forall i :: 0 <= i < |items| ==> items[i].productId in products
    requires forall i :: 0 <= i < |items| ==> ItemAcceptable(items[i])
    ensures PriceLines(items, products).Success?
      <==> forall i :: 0 <= i < |items| ==> UnitPrice(products[items[i].productId]) >= 0.0
  {
    var lines := LinesFor(items, products);
    forall i | 0 <= i < |items| ensures lines[i].Valid() <==> UnitPrice(products[items[i].productId]) >= 0.0 {
      LineForValid(items[i], products[items[i].productId]);
    }
  }

  /** The `Order` record never refuses what the pricing loop produced. */
  lemma OrderRecordNeverRefuses(payload: CreateOrder, products: map<string, ProductDoc>)
    requires forall i :: 0 <= i < |payload.items| ==> payload.items[i].productId in products
    ensures Assemble(payload, products).Failure? ==>
      Assemble(payload, products).error == SchemaViolation(ValidationError("OrderItem"))
  {
    var priced := PriceLines(payload.items, products);
    if priced.Success? {
      TotalsNonNegative(priced.value);
    }
  }

  // ---------- Accepted orders ----------

  /**
   * A request becomes an order exactly when every item is acceptable, every id is valid,
   * no id repeats, every id is in the catalog and every such product has a non-negative
   * unit price.
   */
  lemma PricedOrderSucceedsIff(payload: CreateOrder, catalog: Catalog, validId: string -> bool)
    ensures PricedOrder(payload, catalog, validId).Success? <==>
      (forall i :: 0 <= i < |payload.items| ==> ItemAcceptable(payload.items[i]))
      && (forall i :: 0 <= i < |payload.items| ==> validId(payload.items[i].productId))
      && Distinct(ProductIds(payload.items))
      && (forall i :: 0 <= i < |payload.items| ==>
            payload.items[i].productId in catalog && UnitPrice(catalog[payload.items[i].productId]) >= 0.0)
  {
    var items := payload.items;
    FirstItemErrorNoneIff(items);
    if forall i :: 0 <= i < |items| ==> ItemAcceptable(items[i]) {
      RejectsInvalidProductId(payload, catalog, validId);
      if forall i :: 0 <= i < |items| ==> validId(items[i].productId) {
        RejectsUnresolvedProducts(payload, catalog, validId);
        var resolved := Resolve(items, catalog, validId);
        if resolved.Success? {
          ValidIdsLength(items, validId);
          PriceLinesSucceedIff(items, resolved.value);
          OrderRecordNeverRefuses(payload, resolved.value);
        }
      }
    }
  }

  /**
   * What assembly builds from resolved products: the lines of the pricing loop, their sums,
   * and a grand total that is both the sum of the two totals and the sum of the line totals.
   */
  lemma AssembledOrder(payload: CreateOrder, products: map<string, ProductDoc>)
    requires forall i :: 0 <= i < |payload.items| ==> payload.items[i].productId in products
    requires forall i :: 0 <= i < |payload.items| ==> payload.items[i].quantity >= 1
    requires Assemble(payload, products).Success?
    ensures var o, lines := Assemble(payload, products).value, LinesFor(payload.items, products);
      o.customerName == payload.customerName && o.customerEmail == payload.customerEmail
      && o.notes == payload.notes && o.items == lines
      && o.subTotal == SubTotal(lines) && o.embroideryTotal == EmbroideryTotal(lines)
      && o.grandTotal == o.subTotal + o.embroideryTotal && o.grandTotal == LineTotalSum(lines)
      && o.Valid()
  {
    var lines := LinesFor(payload.items, products);
    assert PriceLines(payload.items, products) == Success(lines);
    forall i | 0 <= i < |lines| ensures lines[i].LineTotalConsistent() {
      LineForValid(payload.items[i], products[payload.items[i].productId]);
    }
    LineTotalSumSplits(lines);
  }

  /**
   * A stored line is a snapshot of its request item and its product's document: the item's
   * id, color, quantity and text, the document's title and category (empty when absent), its
   * price (0.0 when absent), the fee, and quantity times price plus fee.
   */
  predicate Snapshot(line: OrderItem, it: CreateOrderItem, doc: ProductDoc) {
    && line.productId == it.productId
    && line.color == it.color
    && line.quantity == it.quantity
    && line.embroideryText == it.embroideryText
    && line.title == doc.title.GetOr("")
    && line.category == doc.category.GetOr("")
    && line.unitPrice == UnitPrice(doc)
    && line.embroideryFee == EmbroideryFee(it.embroideryText)
    && line.lineTotal == (line.unitPrice + line.embroideryFee) * (line.quantity as real)
  }

  /**
   * An accepted order has one line per item in request order, each a snapshot of its item
   * and the catalog document of its product, with totals that add up and every record bound
   * holding; customer data and notes pass through.
   */
  lemma PricedOrderContents(payload: CreateOrder, catalog: Catalog, validId: string -> bool)
    requires PricedOrder(payload, catalog, validId).Success?
    ensures var o := PricedOrder(payload, catalog, validId).value;
      o.customerName == payload.customerName && o.customerEmail == payload.customerEmail
      && o.notes == payload.notes
      && |o.items| == |payload.items|
      && (forall i :: 0 <= i < |o.items| ==>
            payload.items[i].productId in catalog
            && Snapshot(o.items[i], payload.items[i], catalog[payload.items[i].productId]))
      && o.subTotal == SubTotal(o.items)
      && o.embroideryTotal == EmbroideryTotal(o.items)
      && o.grandTotal == o.subTotal + o.embroideryTotal
      && o.grandTotal == LineTotalSum(o.items)
      && o.Valid()
  {
    var items := payload.items;
    FirstItemErrorNoneIff(items);
    var products := Resolve(items, catalog, validId).value;
    assert products == Found(catalog, ValidIds(items, validId));
    assert PricedOrder(payload, catalog, validId) == Assemble(payload, products);
    AssembledOrder(payload, products);
    LinesAreSnapshots(items, products, catalog);
  }

  /** Every line the pricing loop builds is a snapshot of its item and of the catalog's document. */
  lemma LinesAreSnapshots(items: seq<CreateOrderItem>, products: map<string, ProductDoc>, catalog: Catalog)
    requires forall i :: 0 <= i < |items| ==> items[i].productId in products
    requires forall k :: k in products ==> k in catalog && products[k] == catalog[k]
    ensures forall i :: 0 <= i < |items| ==>
      items[i].productId in catalog
      && Snapshot(LinesFor(items, products)[i], items[i], catalog[items[i].productId])
  {
    forall i | 0 <= i < |items|
      ensures Snapshot(LinesFor(items, products)[i], items[i], catalog[items[i].productId])
    {
      var doc := products[items[i].productId];
      assert LinesFor(items, products)[i] == LineFor(items[i], doc);
      LineForSnapshot(items[i], doc);
    }
  }

  /** One line is a snapshot of its item and document. */
  lemma LineForSnapshot(it: CreateOrderItem, doc: ProductDoc)
    ensures Snapshot(LineFor(it, doc), it, doc)
  {
  }

  /** A request without items passes every check and becomes an order whose totals are all zero. */
  lemma EmptyOrderAccepted(payload: CreateOrder, catalog: Catalog, validId: string -> bool)
    requires payload.items == []
    ensures PricedOrder(payload, catalog, validId)
      == Success(Order(payload.customerName, payload.customerEmail, [], 0.0, 0.0, 0.0, payload.notes))
  {
    assert Found(catalog, []).Keys == {};
  }

  /**
   * When every catalog document has a non-negative unit price, as every product stored by
   * `create_product` has, no request is refused by a record constructor.
   */
  lemma PricedCatalogNeverViolatesSchema(payload: CreateOrder, catalog: Catalog, validId: string -> bool)
    requires forall k :: k in catalog ==> UnitPrice(catalog[k]) >= 0.0
    ensures PricedOrder(payload, catalog, validId).Failure? ==>
      !PricedOrder(payload, catalog, validId).error.SchemaViolation?
  {
    var resolved := Resolve(payload.items, catalog, validId);
    if FirstItemError(payload.items).None? && resolved.Success? {
      FirstItemErrorNoneIff(payload.items);
      var products := resolved.value;
      assert products == Found(catalog, ValidIds(payload.items, validId));
      assert forall i :: 0 <= i < |payload.items| ==> UnitPrice(products[payload.items[i].productId]) >= 0.0;
      PriceLinesSucceedIff(payload.items, products);
      OrderRecordNeverRefuses(payload, products);
      assert Assemble(payload, products).Success?;
    }
  }

  // ---------- Worked examples ----------

  /** A catalog holding one hoodie priced 20.0 under the id "p1". */
  const HoodieCatalog: Catalog := map["p1" := ProductDoc(Some("Hoodie"), Some("hoodie"), Some(20.0))]

  /** A request for two black hoodies with the given embroidery text. */
  function HoodieRequest(name: string, email: string, text: string): CreateOrder {
    CreateOrder(name, email, [CreateOrderItem("p1", "black", 2, Some(text))], None)
  }

  /** The hoodie request passes the item checks and resolves to the whole catalog. */
  lemma HoodieRequestResolves(name: string, email: string, text: string, validId: string -> bool)
    requires validId("p1")
    ensures PricedOrder(HoodieRequest(name, email, text), HoodieCatalog, validId)
      == Assemble(HoodieRequest(name, email, text), HoodieCatalog)
  {
    var items := HoodieRequest(name, email, text).items;
    assert FirstItemError(items) == None;
    assert ValidIds(items, validId) == ["p1"];
    assert Found(HoodieCatalog, ["p1"]) == HoodieCatalog;
    assert |HoodieCatalog| == 1;
  }

  /** A request priced into a single valid line becomes an order of that line alone. */
  lemma SingleLineAssembly(payload: CreateOrder, products: map<string, ProductDoc>, line: OrderItem)
    requires forall i :: 0 <= i < |payload.items| ==> payload.items[i].productId in products
    requires LinesFor(payload.items, products) == [line] && line.Valid()
    ensures Assemble(payload, products)
      == Success(Order(payload.customerName, payload.customerEmail, [line],
                       line.unitPrice * (line.quantity as real), line.embroideryFee * (line.quantity as real),
                       line.unitPrice * (line.quantity as real) + line.embroideryFee * (line.quantity as real),
                       payload.notes))
  {
    assert [line][..0] == [];
    assert SubTotal([line]) == line.unitPrice * (line.quantity as real);
    assert EmbroideryTotal([line]) == line.embroideryFee * (line.quantity as real);
    assert PriceLines(payload.items, products) == Success([line]);
    TotalsNonNegative([line]);
  }

  /** Embroidered "Sam": a line of 56.0 and totals 40.0 + 16.0 = 56.0. */
  lemma EmbroideredExample(name: string, email: string, validId: string -> bool)
    requires validId("p1")
    ensures PricedOrder(HoodieRequest(name, email, "Sam"), HoodieCatalog, validId)
      == Success(Order(name, email, [OrderItem("p1", "Hoodie", "hoodie", "black", 2, 20.0, Some("Sam"), 8.0, 56.0)],
                       40.0, 16.0, 56.0, None))
  {
    HoodieRequestResolves(name, email, "Sam", validId);
    var items := HoodieRequest(name, email, "Sam").items;
    var line := OrderItem("p1", "Hoodie", "hoodie", "black", 2, 20.0, Some("Sam"), 8.0, 56.0);
    EmbroideryFeeRule(Some("Sam"));
    assert !IsSpace("Sam"[0]);
    assert LineFor(items[0], HoodieCatalog["p1"]) == line;
    assert LinesFor(items, HoodieCatalog) == [line];
    SingleLineAssembly(HoodieRequest(name, email, "Sam"), HoodieCatalog, line);
  }

  /** A blank text carries no fee: a line of 40.0 and totals 40.0 + 0.0 = 40.0. */
  lemma BlankTextExample(name: string, email: string, validId: string -> bool)
    requires validId("p1")
    ensures PricedOrder(HoodieRequest(name, email, ""), HoodieCatalog, validId)
      == Success(Order(name, email, [OrderItem("p1", "Hoodie", "hoodie", "black", 2, 20.0, Some(""), 0.0, 40.0)],
                       40.0, 0.0, 40.0, None))
  {
    HoodieRequestResolves(name, email, "", validId);
    var items := HoodieRequest(name, email, "").items;
    var line := OrderItem("p1", "Hoodie", "hoodie", "black", 2, 20.0, Some(""), 0.0, 40.0);
    assert LineFor(items[0], HoodieCatalog["p1"]) == line;
    assert LinesFor(items, HoodieCatalog) == [line];
    SingleLineAssembly(HoodieRequest(name, email, ""), HoodieCatalog, line);
  }
}
