/**
 * The document store's `create_document`, reduced to what the handlers rely on: the record
 * is appended to its collection and an identifier for it comes back. Identifiers are the
 * position in the collection.
 */
module Persistence {
  import opened Schemas

  class Database {
    var products: seq<MerchandiseProduct>
    var orders: seq<Order>

    constructor ()
      ensures products == [] && orders == []
    {
      products := [];
      orders := [];
    }

    /** `create_document("merchandiseproduct", model)`. */
    method InsertProduct(p: MerchandiseProduct) returns (id: nat)
      modifies this
      ensures products == old(products) + [p]
      ensures orders == old(orders)
      ensures id == |old(products)| && products[id] == p
    {
      id := |products|;
      products := products + [p];
    }

    /** `create_document("order", order)`. */
    method InsertOrder(o: Order) returns (id: nat)
      modifies this
      ensures orders == old(orders) + [o]
      ensures products == old(products)
      ensures id == |old(orders)| && orders[id] == o
    {
      id := |orders|;
      orders := orders + [o];
    }
  }
}
