/** The shared product store and the handlers that work on it.  Each
    handler runs as one step under the store's lock, so each is a single
    method call here.  A handler that fails returns before it touches the
    sequence, and the contracts say so. */
module Store {
  import opened Products
  import opened Body
  import Seed

  class ProductStore {
    /** The `Vec<Product>` behind the lock, in insertion order. */
    var products: seq<Product>

    /** The state the service starts with: records 1 to 10. */
    constructor ()
      ensures products == Seed.InitialCatalog()
      ensures SequentialIds(products)
    {
      products := Seed.InitialCatalog();
    }

    /** The list handler: a copy of every record, in store order. */
    function List(): (r: seq<Product>)
      reads this
      ensures |r| == |products|
      ensures forall i :: 0 <= i < |r| ==> r[i] == products[i]
    {
      products
    }

    /** The get handler: the record at the first position carrying `id`;
        NotFound (the source panics at `unwrap`) when no record carries it. */
    function Get(id: Int32): (r: Result<Product>)
      reads this
      ensures r.Ok? <==> Has(products, id)
      ensures r.Ok? ==> exists i: nat :: IsFirst(products, id, i) && r.value == products[i]
      ensures r.Ok? ==> r.value.id == id
      ensures r.Err? ==> r.error == NotFound
    {
      match FirstMatch(products, id)
      case None => Err(NotFound)
      case Some(i) => Ok(products[i])
    }

    /** Appends the candidate under the identifier "length plus one" and
        returns the record as stored. */
    method Insert(candidate: Product) returns (stored: Product)
      requires |products| < MAX_INT32
      modifies this
      ensures products == Appended(old(products), candidate)
      ensures stored == products[|old(products)|]
      ensures SameExceptId(stored, candidate) && stored.id as int == |old(products)| + 1
    {
      var newId := NextId(products);
      stored := candidate.(id := newId);
      products := products + [stored];
    }

    /** Overwrites the first record carrying the candidate's identifier. */
    method Replace(candidate: Product) returns (r: Result<Product>)
      modifies this
      ensures r.Ok? <==> Has(old(products), candidate.id)
      ensures r.Ok? ==> r.value == candidate
      ensures r.Ok? ==> exists i: nat :: IsFirst(old(products), candidate.id, i) && products == Replaced(old(products), i, candidate)
      ensures r.Err? ==> r.error == NotFound && products == old(products)
    {
      match FirstMatch(products, candidate.id) {
        case None =>
          return Err(NotFound);
        case Some(i) =>
          products := Replaced(products, i, candidate);
          return Ok(candidate);
      }
    }

    /** The delete handler: removes the first record carrying `id`, shifting
        the later records one place towards the front. */
    method Delete(id: Int32) returns (r: Result<()>)
      modifies this
      ensures r.Ok? <==> Has(old(products), id)
      ensures r.Ok? ==> exists i: nat :: IsFirst(old(products), id, i) && products == Removed(old(products), i)
      ensures r.Err? ==> r.error == NotFound && products == old(products)
    {
      match FirstMatch(products, id) {
        case None =>
          return Err(NotFound);
        case Some(i) =>
          products := Removed(products, i);
          return Ok(());
      }
    }

    /** The create handler: read the body under the ceiling, decode it, then
        insert the record.  `decode` stands for the JSON decoder. */
    method AddProduct(payload: seq<Chunk>, decode: seq<byte> -> Option<Product>) returns (r: Result<Product>)
      requires |products| < MAX_INT32
      modifies this
      ensures r.Ok? <==> Received(payload).Ok? && decode(Received(payload).value).Some?
      ensures Received(payload).Err? ==> r == Err(Received(payload).error)
      ensures Received(payload).Ok? && decode(Received(payload).value).None? ==> r == Err(Malformed)
      ensures r.Err? ==> products == old(products)
      ensures r.Ok? ==> products == Appended(old(products), decode(Received(payload).value).value)
      ensures r.Ok? ==> r.value == products[|old(products)|]
    {
      var body := ReadBody(payload);
      if body.Err? {
        return Err(body.error);
      }
      var decoded := decode(body.value);
      if decoded.None? {
        return Err(Malformed);
      }
      var stored := Insert(decoded.value);
      return Ok(stored);
    }

    /** The update handler: read the body under the ceiling, decode it, then
        replace the record whose identifier the body names. */
    method UpdateProduct(payload: seq<Chunk>, decode: seq<byte> -> Option<Product>) returns (r: Result<Product>)
      modifies this
      ensures Received(payload).Err? ==> r == Err(Received(payload).error)
      ensures Received(payload).Ok? && decode(Received(payload).value).None? ==> r == Err(Malformed)
      ensures Received(payload).Ok? && decode(Received(payload).value).Some? ==>
        var p := decode(Received(payload).value).value;
        && (r.Ok? <==> Has(old(products), p.id))
        && (r.Ok? ==> r.value == p && exists i: nat :: IsFirst(old(products), p.id, i) && products == Replaced(old(products), i, p))
        && (r.Err? ==> r.error == NotFound)
      ensures r.Err? ==> products == old(products)
    {
      var body := ReadBody(payload);
      if body.Err? {
        return Err(body.error);
      }
      var decoded := decode(body.value);
      if decoded.None? {
        return Err(Malformed);
      }
      r := Replace(decoded.value);
    }
  }
}
