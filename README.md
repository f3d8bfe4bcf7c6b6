# School merchandise store: order pricing

A Dafny model of the pricing core of the merchandise store's backend. It covers:

- `create_order`, which checks every requested item, resolves product ids against the
  catalog, prices each line (unit price, an optional embroidery fee of 8.0 per item, line
  total), adds up the sub total, the embroidery total and the grand total, builds the `Order`
  record and stores it;
- `create_product`, which checks the category and colors and stores a `MerchandiseProduct`;
- `to_str_id`, which renames a document's `_id` to `id`;
- the field bounds the three records (`MerchandiseProduct`, `OrderItem`, `Order`) enforce
  when they are built.

Modules:

- `Wrappers`: `Option` and `Result`.
- `SeqFacts`: distinctness and the element set of a sequence of strings, and cardinality
  facts about them.
- `PyText`: Python's `str.strip()` over Python's whitespace characters.
- `Schemas`: the three records. Each record constructor is a function that returns the
  record or a validation error.
- `Api`: the allowed categories and colors, and the refusals. A refusal the handlers raise
  themselves carries a `detail` message. A record's validation error carries none.
- `Persistence`: the store, a class holding the two collections as sequences; an inserted
  document's id is its position.
- `Products`: `create_product` and `to_str_id`.
- `Orders`: `create_order`. The function `PricedOrder` specifies what the handler computes.
  The methods follow the handler's loops: `ValidateItems`, `FindProducts` and `PriceItems`.
  Each method is proved equal to its specification function.
- `OrderProperties`: what the handler guarantees. This covers:
  - which refusal a request gets, and in what order the checks apply;
  - exactly when a request becomes an order;
  - what an accepted order holds;
  - the worked-out example orders.

The catalog is the map from id string to document that the product lookup returns.
`ObjectId.is_valid` is a parameter `validId`, and `str(ObjectId(s))` is taken to be `s`.

Two items with the same product id are refused with "One or more products not found"
(main.py:126-131): `products_map` then has fewer entries than there are items. They are not
priced as two lines. `OrderProperties.DuplicateProductIdRejected` states this.

## Model

| member | source | states |
|---|---|---|
| Schemas.NewProduct | schemas.py:17-28 | A product record is built exactly when `base_price` is non-negative; it then holds the given fields unchanged; otherwise the error names `MerchandiseProduct` |
| Schemas.NewOrderItem | schemas.py:33-42 | A line record is built exactly when quantity is at least 1 and unit price, fee and line total are non-negative; it then holds the given fields |
| Schemas.NewOrder | schemas.py:44-55 | An order record is built exactly when the three totals are non-negative; it then holds the given fields |
| Products.ValidateProduct | main.py:81-91 | Invalid category is refused first, exactly when the category is not allowed; then "One or more invalid colors" exactly when some color is not allowed; then a negative `base_price` is refused by the `MerchandiseProduct` record; acceptance exactly when category, colors and `base_price >= 0` all hold, with the product carrying exactly the payload's fields |
| Products.HasInvalidColor | main.py:88 | Some color is outside the allowed set; `Products.ValidateProduct` states the refusal it causes |
| Products.UnitPrice | main.py:139 | The stored `base_price`, 0.0 when absent; `OrderProperties.LinesAreSnapshots` and `OrderProperties.PriceLinesSucceedIff` state how it prices lines and when it is refused |
| Api.Detail | main.py:87-89 | A refusal raised by a handler carries its `detail` message (main.py:87, 89, 117, 119, 124, 131); a record's validation error carries none |
| Products.AcceptedProductPricesNonNegative | main.py:91-92 | A product accepted by `create_product` is later priced at its own non-negative `base_price` |
| Products.CreateProductHandler | main.py:81-93 | A refusal stores nothing; an acceptance appends the validated product and returns its new id; orders are untouched |
| Products.ToStrId | main.py:23-29 | `None` stays `None`; a document without `_id` is returned unchanged; otherwise `_id` is gone, `id` holds `str` of the old `_id`, and every other field is kept |
| Persistence.Database.InsertProduct | main.py:92 | Appends the product, returns its position, leaves orders unchanged |
| Persistence.Database.InsertOrder | main.py:170 | Appends the order, returns its position, leaves products unchanged |
| Orders.ItemAcceptable | main.py:116-119 | An item passes the first loop: allowed color and quantity at least 1; `OrderProperties.FirstItemErrorNoneIff` ties it to the loop |
| Orders.ItemError | main.py:116-119 | The refusal of an unacceptable item, color before quantity; `OrderProperties.RejectsFirstUnacceptableItem` states it for the whole request |
| Orders.FirstItemError | main.py:115-119 | The first loop only ever refuses with an invalid color or an invalid quantity |
| Orders.ValidateItems | main.py:114-119 | The first loop's result equals `FirstItemError`: the first item with a bad color or (color first) a quantity below 1 decides the refusal |
| Orders.ValidIds | main.py:122 | The item ids that pass `ObjectId.is_valid`, in order; `Orders.ValidIdsLength` says when none is dropped |
| Orders.ProductIds | main.py:122 | One requested id per item, in item order |
| Orders.ValidIdsLength | main.py:122-124 | The valid ids are never more than the items; exactly as many precisely when every id is valid, and then they are all the item ids |
| Orders.Found | main.py:126-128 | The lookup's keys are exactly the requested ids present in the catalog, each mapped to its catalog document |
| Orders.FindProducts | main.py:126-128 | The lookup loop builds exactly `Found` |
| Orders.FoundCoversItems | main.py:130-138 | Once both count checks pass, every item's id is in `products_map`, so the lookup at line 138 cannot fail |
| Orders.Resolve | main.py:122-131 | A successful resolution covers every item's product id |
| Orders.HasEmbroidery | main.py:140 | The text is present, non-empty and not blank after `strip()`; `OrderProperties.EmbroideryFeeRule` restates it over the characters |
| Orders.EmbroideryFee | main.py:97-140 | 8.0 per item with embroidery, else 0.0; `OrderProperties.EmbroideryFeeRule` is its independent statement |
| Orders.LineFor | main.py:138-155 | The snapshot line of an item and its document; `OrderProperties.LineForValid` and `OrderProperties.LinesAreSnapshots` state its fields and bounds |
| Orders.LinesFor | main.py:137-156 | One snapshot line per item in item order; `Orders.PriceItems` is proved to build it |
| Orders.PriceLines | main.py:137-156 | The lines, or `OrderItem`'s validation error when one line breaks a bound; `OrderProperties.PriceLinesSucceedIff` says exactly when it succeeds |
| Orders.SubTotal | main.py:134-142 | The sum of `unit_price * quantity`; `Orders.TotalsAppend`, `OrderProperties.TotalsNonNegative` and `OrderProperties.LineTotalSumSplits` state its properties |
| Orders.EmbroideryTotal | main.py:135-143 | The sum of `embroidery_fee * quantity`; same partner lemmas as `Orders.SubTotal` |
| Orders.LineTotalSum | main.py:141-158 | The sum of the line totals; `OrderProperties.LineTotalSumSplits` proves it equals the grand total |
| Orders.Assemble | main.py:133-168 | Pricing, totals and the `Order` record; `OrderProperties.AssembledOrder` and `OrderProperties.OrderRecordNeverRefuses` state what it builds |
| Orders.PricedOrder | main.py:112-168 | What `create_order` computes before storing; `OrderProperties.PricedOrderSucceedsIff`, `OrderProperties.PricedOrderContents` and the refusal lemmas characterise it |
| Orders.TotalsAppend | main.py:142-143 | Adding a line adds `unit_price * quantity` to the sub total and `embroidery_fee * quantity` to the embroidery total |
| Orders.PriceItem | main.py:138-156 | The loop body yields the document's price (0.0 when absent), the fee, and the validated snapshot line |
| Orders.PriceItems | main.py:133-156 | The pricing loop succeeds exactly when every line passes `OrderItem` validation; its lines are the snapshot lines in item order, and its running totals equal the sums over them; on failure it reports the same error |
| Orders.ResolveProducts | main.py:122-131 | The id checks and lookup loop compute `Resolve` |
| Orders.AssembleOrder | main.py:133-168 | The pricing loop, grand total and `Order` record compute `Assemble` |
| Orders.PriceOrder | main.py:112-168 | The handler's steps before storing compute `PricedOrder` |
| Orders.CreateOrderHandler | main.py:112-171 | A refusal returns the refusal and stores nothing; an acceptance appends exactly the priced order and returns its new id and grand total; products are untouched |
| OrderProperties.FirstItemErrorNoneIff | main.py:115-119 | The first loop passes exactly when every item has an allowed color and quantity at least 1 |
| OrderProperties.FirstItemErrorAt | main.py:115-119 | If item `k` is the first unacceptable one, it decides the refusal |
| OrderProperties.FirstItemErrorSome | main.py:115-119 | Every refusal of the first loop comes from the first unacceptable item |
| OrderProperties.RejectsFirstUnacceptableItem | main.py:114-119 | The first unacceptable item refuses the whole request: "Invalid color: c" when its color is bad, otherwise "Quantity must be >= 1" |
| OrderProperties.ItemRefusalIff | main.py:114-131 | A request is refused for a color or quantity exactly when some item has a bad one; later checks never give those refusals |
| OrderProperties.RejectsInvalidProductId | main.py:122-124 | With all items acceptable, "Invalid product id" is the result exactly when some id is not valid |
| OrderProperties.RejectsUnresolvedProducts | main.py:126-131 | With items and ids valid, "One or more products not found" is the result exactly when some id is missing from the catalog or two items repeat an id |
| OrderProperties.DuplicateProductIdRejected | main.py:126-131 | Two items naming the same product refuse the request as not found |
| OrderProperties.EmbroideryFeeRule | main.py:140 | The fee is 8.0 exactly when the text is present and has a non-whitespace character, otherwise 0.0 |
| OrderProperties.LineForValid | main.py:139-155 | For a quantity of at least 1, a snapshot line passes `OrderItem` validation exactly when the unit price is non-negative; its line total is always `quantity * (unit_price + embroidery_fee)` |
| OrderProperties.LineTotalSumSplits | main.py:141-143 | The sum of the line totals equals sub total plus embroidery total |
| OrderProperties.TotalsNonNegative | main.py:142-143 | Valid lines give non-negative sub and embroidery totals |
| OrderProperties.PriceLinesSucceedIff | main.py:137-156 | For accepted items, the pricing loop succeeds exactly when every resolved product's price is non-negative |
| OrderProperties.OrderRecordNeverRefuses | main.py:158-168 | Building the `Order` record never fails after the pricing loop succeeded |
| OrderProperties.PricedOrderSucceedsIff | main.py:112-168 | A request becomes an order exactly when the items are acceptable, the ids valid, distinct and in the catalog, and every such product has a non-negative price |
| OrderProperties.AssembledOrder | main.py:133-168 | The assembled order holds the customer data, the snapshot lines, their sums, and a grand total that equals both the sum of the two totals and the sum of the line totals; every record bound holds |
| OrderProperties.PricedOrderContents | main.py:133-168 | An accepted order has one line per item in request order, each a snapshot of its item and catalog document (with title, category and price defaults); customer name, email and notes pass through; `grand_total = sub_total + embroidery_total = Σ line_total`; every bound holds |
| OrderProperties.LinesAreSnapshots | main.py:137-156 | Every priced line is a snapshot of its item and of the catalog document of its product |
| OrderProperties.EmptyOrderAccepted | main.py:112-168 | A request without items becomes an order with no lines and all totals 0.0 |
| OrderProperties.PricedCatalogNeverViolatesSchema | main.py:133-168 | When every catalog document has a non-negative price, no record constructor ever refuses an order |
| OrderProperties.SingleLineAssembly | main.py:133-168 | A request priced into one valid line becomes an order of that line, with totals equal to its price and fee times its quantity |
| OrderProperties.EmbroideredExample | main.py:137-171 | Two hoodies at 20.0 embroidered "Sam": fee 8.0, line total 56.0, totals 40.0 + 16.0 = 56.0 |
| OrderProperties.BlankTextExample | main.py:140 | The same item with a blank text: fee 0.0, line total and grand total 40.0 |
| SeqFacts.ElemsCardinality | main.py:126-131 | A sequence has at most as many distinct elements as its length, and exactly as many exactly when it has no repeats |
| SeqFacts.ElemsWithinCardinality | main.py:126-131 | The number of requested ids found in the catalog reaches the number of items exactly when the ids are distinct and all present |
| PyText.Strip | main.py:140 | Python's `str.strip()`; `PyText.StripIsBlankExactly` states when it is empty |
| PyText.LStripKeepsSuffix | main.py:140 | Left stripping drops exactly a whitespace prefix, and a non-empty result does not start with whitespace |
| PyText.RStripKeepsPrefix | main.py:140 | Right stripping drops exactly a whitespace suffix, and a non-empty result does not end with whitespace |
| PyText.StripIsBlankExactly | main.py:140 | `strip()` leaves nothing exactly when every character is whitespace; a non-empty result has non-whitespace ends |

## Left out

- The HTTP layer is not modelled: FastAPI routing, CORS, status codes and the `HTTPException` wrapping. A refusal is an `ApiError` value. `Api.Detail` gives the `detail` message for the refusals the handlers raise themselves. A `SchemaViolation` is Pydantic's `ValidationError` escaping the handler (main.py:91, 145, 160); the client gets a server error without a `detail`.
- The health endpoint `/` returns a constant message and is not modelled. `/test` reads the environment and the database connection; it is I/O and is not modelled.
- `list_products` only reads documents and maps `to_str_id` over them. It is I/O and is not modelled beyond `Products.ToStrId`.
- Prices are exact reals. Floating-point rounding and `float()` conversions of non-numeric stored prices are not modelled.
- `ObjectId` parsing is not modelled because it is a foreign library. Validity is the parameter `validId`, and `str(ObjectId(s))` is assumed to be `s`. An id whose hex digits change case when normalised would raise a `KeyError` in the source at line 138; the model does not capture that.
- The MongoDB query is not modelled. The catalog is a map from id to the three fields `create_order` reads (title, category, base_price), each possibly absent.
- Stored fields of the wrong type are not modelled. A stored `title` or `category` that is present but `null` or not a string reaches `OrderItem` through `p.get` and is refused there (main.py:147-148, schemas.py:35-36). `ProductDoc` can only say a field is absent, and an absent field is priced as "".
- The store is modelled as two sequences. Ids are positions rather than generated ObjectIds. `database.py` is not part of this model.
- Pydantic type coercion of request bodies is not modelled: payloads arrive already typed. The exact text of Pydantic's validation errors is not modelled either; a `ValidationError` names the record only.
- Products.ToStrId: `str` is an arbitrary function on stored values rather than Python's `str()`, because stored values are not modelled.
- Concurrency between requests is not modelled.
