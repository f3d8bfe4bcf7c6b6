/** Product creation, the product documents the catalog holds, and `to_str_id`. */
module Products {
  import opened Wrappers
  import opened Schemas
  import opened Api
  import opened Persistence

  /** The body of `POST /api/products`. */
  datatype CreateProduct = CreateProduct(
    title: string,
    category: string,
    description: Option<string>,
    basePrice: real,
    colors: seq<string>,
    images: seq<string>,
    inStock: bool)

  /**
   * A product document as the catalog returns it, reduced to the fields order placement
   * reads. Any of them may be missing from a stored document.
   */
  datatype ProductDoc = ProductDoc(title: Option<string>, category: Option<string>, basePrice: Option<real>)

  /** The document stored for a product created through the API. */
  function Stored(p: MerchandiseProduct): ProductDoc {
    ProductDoc(Some(p.title), Some(p.category), Some(p.basePrice))
  }

  /** `float(p.get("base_price", 0))`. */
  function UnitPrice(doc: ProductDoc): real {
    doc.basePrice.GetOr(0.0)
  }

  /** `any(c not in allowed_colors for c in payload.colors)`. */
  predicate HasInvalidColor(colors: seq<string>) {
    exists i :: 0 <= i < |colors| && colors[i] !in AllowedColors
  }

  /** The checks `create_product` makes before storing, in its order. */
  function ValidateProduct(payload: CreateProduct): (r: Result<MerchandiseProduct, ApiError>)
    ensures r == Failure(InvalidCategory) <==> payload.category !in AllowedCategories
    ensures r == Failure(InvalidColors) <==>
      payload.category in AllowedCategories && exists c :: c in payload.colors && c !in AllowedColors
    ensures payload.category in AllowedCategories && !HasInvalidColor(payload.colors) && payload.basePrice < 0.0 ==>
      r == Failure(SchemaViolation(ValidationError("MerchandiseProduct")))
    ensures r.Success? <==>
      payload.category in AllowedCategories && (forall c :: c in payload.colors ==> c in AllowedColors)
      && payload.basePrice >= 0.0
    ensures r.Success? ==>
      r.value.Valid() && r.value.category in AllowedCategories
      && (forall c :: c in r.value.colors ==> c in AllowedColors)
      && r.value == MerchandiseProduct(payload.title, payload.category, payload.description,
                                       payload.basePrice, payload.colors, payload.images, payload.inStock)
  {
    if payload.category !in AllowedCategories then Failure(InvalidCategory)
    else if HasInvalidColor(payload.colors) then Failure(InvalidColors)
    else
      match NewProduct(MerchandiseProduct(payload.title, payload.category, payload.description,
                                          payload.basePrice, payload.colors, payload.images, payload.inStock))
      case Failure(e) => Failure(SchemaViolation(e))
      case Success(p) => Success(p)
  }

  /** A product accepted by `create_product` is priced at a non-negative unit price when ordered. */
  lemma AcceptedProductPricesNonNegative(payload: CreateProduct)
    requires ValidateProduct(payload).Success?
    ensures UnitPrice(Stored(ValidateProduct(payload).value)) == payload.basePrice >= 0.0
  {
  }

  /** `create_product`: validate, then store; nothing is stored on a refusal. */
  method CreateProductHandler(payload: CreateProduct, db: Database) returns (r: Result<nat, ApiError>)
    modifies db
    ensures db.orders == old(db.orders)
    ensures ValidateProduct(payload).Failure? ==>
      r == Failure(ValidateProduct(payload).error) && db.products == old(db.products)
    ensures ValidateProduct(payload).Success? ==>
      r == Success(|old(db.products)|) && db.products == old(db.products) + [ValidateProduct(payload).value]
  {
    var checked := ValidateProduct(payload);
    if checked.Failure? {
      return Failure(checked.error);
    }
    var id := db.InsertProduct(checked.value);
    return Success(id);
  }

  /**
   * `to_str_id`: a copy of the document in which `_id` is replaced by `id`, holding
   * `str` of the old `_id`. `str` is Python's `str()` on a stored value.
   */
  method ToStrId<V>(doc: Option<map<string, V>>, str: V -> V) returns (r: Option<map<string, V>>)
    ensures doc.None? <==> r.None?
    ensures doc.Some? && "_id" !in doc.value ==> r == doc
    ensures doc.Some? && "_id" in doc.value ==>
      r.Some? && r.value.Keys == doc.value.Keys - {"_id"} + {"id"}
      && r.value["id"] == str(doc.value["_id"])
      && forall k :: k in doc.value && k != "_id" && k != "id" ==> r.value[k] == doc.value[k]
  {
    if doc.None? {
      return doc;
    }
    var d := doc.value;
    if "_id" in d {
      var oid := d["_id"];
      d := d - {"_id"};
      d := d["id" := str(oid)];
    }
    return Some(d);
  }
}
