/** The catalog record, the outcomes of the store's operations, and the
    sequence-level meaning of lookup, append, overwrite and remove that the
    store object and the lemmas about identifiers share. */
module Products {

  /** The record's `i32` identifier. */
  newtype Int32 = x: int | -0x8000_0000 <= x < 0x8000_0000

  const MAX_INT32: int := 0x7fff_ffff

  /** An `f32` price, kept as its IEEE-754 bit pattern: the store never
      computes with it, it only copies it. */
  datatype Price = Price(bits: bv32)

  datatype Product = Product(id: Int32, name: string, price: Price, description: string, image: string)

  /** Why an operation did not complete.  NotFound stands for the panic of
      `unwrap` on a failed position search; Overflow for the "overflow"
      bad-request; StreamError for an error item of the payload stream;
      Malformed for a body the JSON decoder rejects. */
  datatype Failure = NotFound | Overflow | StreamError | Malformed

  datatype Result<T> = Ok(value: T) | Err(error: Failure)

  datatype Option<T> = None | Some(value: T)

  /** Some record of `ps` carries identifier `id`. */
  predicate Has(ps: seq<Product>, id: Int32)
  {
    exists j :: 0 <= j < |ps| && ps[j].id == id
  }

  /** `i` is the first position of `ps` whose record carries `id`. */
  predicate IsFirst(ps: seq<Product>, id: Int32, i: nat)
  {
    i < |ps| && ps[i].id == id && forall j :: 0 <= j < i ==> ps[j].id != id
  }

  /** Every field but the identifier agrees. */
  predicate SameExceptId(a: Product, b: Product)
  {
    a.name == b.name && a.price == b.price && a.description == b.description && a.image == b.image
  }

  /** The identifiers are exactly 1, 2, ..., |ps|, in order. */
  predicate SequentialIds(ps: seq<Product>)
  {
    forall i :: 0 <= i < |ps| ==> ps[i].id as int == i + 1
  }

  /** No two records share an identifier. */
  predicate UniqueIds(ps: seq<Product>)
  {
    forall i, j :: 0 <= i < j < |ps| ==> ps[i].id != ps[j].id
  }

  /** The scan `iter().position(|p| p.id == id)`: the first index whose
      record carries `id`, or None when there is none. */
  function FirstMatch(ps: seq<Product>, id: Int32): (r: Option<nat>)
    ensures r.Some? <==> Has(ps, id)
    ensures r.Some? ==> IsFirst(ps, id, r.value)
  {
    if |ps| == 0 then None
    else if ps[0].id == id then Some(0)
    else match FirstMatch(ps[1..], id)
      case None => None
      case Some(k) => Some(k + 1)
  }

  /** The first position is unique, so it determines the scan's answer. */
  lemma FirstMatchIs(ps: seq<Product>, id: Int32, i: nat)
    requires IsFirst(ps, id, i)
    ensures FirstMatch(ps, id) == Some(i)
  {
  }

  /** The identifier `insert` assigns: the length before insertion plus one. */
  function NextId(ps: seq<Product>): (id: Int32)
    requires |ps| < MAX_INT32
    ensures id as int == |ps| + 1 && id > 0
  {
    (|ps| + 1) as Int32
  }

  /** The store after `push` of the candidate whose id was overwritten. */
  function Appended(ps: seq<Product>, candidate: Product): (r: seq<Product>)
    requires |ps| < MAX_INT32
    ensures |r| == |ps| + 1
    ensures r[..|ps|] == ps
    ensures SameExceptId(r[|ps|], candidate) && r[|ps|].id as int == |ps| + 1
  {
    ps + [candidate.(id := NextId(ps))]
  }

  /** The store after the slot assignment `products[i] = candidate`. */
  function Replaced(ps: seq<Product>, i: nat, candidate: Product): (r: seq<Product>)
    requires i < |ps|
    ensures |r| == |ps| && r[i] == candidate
    ensures forall j :: 0 <= j < |ps| && j != i ==> r[j] == ps[j]
  {
    ps[i := candidate]
  }

  /** The store after `Vec::remove(i)`: later records shift one slot left. */
  function Removed(ps: seq<Product>, i: nat): (r: seq<Product>)
    requires i < |ps|
    ensures |r| == |ps| - 1
    ensures forall j :: 0 <= j < i ==> r[j] == ps[j]
    ensures forall j :: i <= j < |r| ==> r[j] == ps[j + 1]
    ensures multiset(r) + multiset{ps[i]} == multiset(ps)
  {
    assert ps == ps[..i] + [ps[i]] + ps[i + 1..];
    ps[..i] + ps[i + 1..]
  }
}
