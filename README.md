# Product service store — a Dafny model

The product service keeps its catalog in memory: a `Vec<Product>` behind a
mutex, seeded with ten records numbered 1 to 10. It serves five handlers:

- list the catalog;
- get a record by id;
- create a record, whose id becomes "current length + 1";
- update the record whose id the body names;
- delete a record by id.

Create and update first read the request body chunk by chunk. The read is
refused with "overflow" as soon as one more chunk would take the buffer past
262,144 bytes.

This project models that store and the body accumulator:

- `products.dfy`, module `Products`: the record and the failure outcomes.
  It also holds the first-match scan `iter().position(...)` and the meaning
  of `push`, slot assignment and `Vec::remove` on the record sequence.
- `body.dfy`, module `Body`: the ceiling `MAX_SIZE`, the payload stream as a
  sequence of chunks or error items, and a functional description of the
  read (`ReadFrom`). The reading loop `ReadBody` is proved against it.
- `seed.dfy`, module `Seed`: the ten initial records.
- `store.dfy`, module `Store`: class `ProductStore`, whose `products` field
  is the shared vector.
  - List and get are functions that read it.
  - Insert, replace and delete are methods that change it.
  - The create and update handlers are methods that read the body, decode
    it and then insert or replace.
- `ids.dfy`, module `IdAssignment`: what the "length + 1" rule implies. Ids
  stay 1..n under insertion. After deleting the last record, its id is
  handed out again. After deleting any other record, an id still in use is
  handed out again, and first-match lookup then hides the newer record.

A missing id makes the source panic at `unwrap`. The model represents that
as the explicit failure `NotFound`, and every such path is proved to leave
the store unchanged. This matches the source: the panic happens before any
mutation. Each handler is one atomic step, as the mutex makes it.

Get, update and delete address a record by its id, which presumes that ids
are unique. The code does not keep them unique: ids come from the length, so
deleting and then inserting can hand out an id that is still present. The model follows the code, and
`IdAssignment.DeleteThenInsert` proves exactly when ids collide.

## Model

| member | source | states |
|---|---|---|
| Products.FirstMatch | src/product-service/src/main.rs:25-28 | returns Some exactly when some record carries the id, and then the index is the first such position |
| Products.FirstMatchIs | src/product-service/src/main.rs:102-105 | the first position carrying an id is the scan's answer (the first match is unique) |
| Products.Appended | src/product-service/src/main.rs:60-63 | after the push the length grows by one, the earlier records are untouched, and the last record is the candidate with id = old length + 1 |
| Products.Replaced | src/product-service/src/main.rs:90 | after the slot assignment the length is unchanged, the slot holds the candidate and every other slot is untouched |
| Products.Removed | src/product-service/src/main.rs:108 | after `remove` the length drops by one, records before the index stay, later records shift one place left, and exactly that one record leaves the multiset |
| Body.ReadFromOutcome | src/product-service/src/main.rs:47-54 | reading onto a buffer succeeds iff no stream error occurs and buffer plus chunks fit the ceiling; the result is the buffer followed by all chunk bytes; only overflow or stream error can fail, each only when justified |
| Body.ReceivedOutcome | src/product-service/src/main.rs:76-83 | a whole body is received iff every item is a chunk and their bytes total at most MAX_SIZE; the body is their concatenation; a failure of an error-free stream is an overflow |
| Body.CeilingIsInclusive | src/product-service/src/main.rs:10 | however it is chunked, a body of exactly 262,144 bytes is accepted and one of 262,145 bytes is refused as an overflow |
| Body.ReadBody | src/product-service/src/main.rs:46-54 | the loop's outcome equals the functional description; it succeeds iff the stream is error-free and fits, returning the concatenation of at most MAX_SIZE bytes (the buffer never exceeds MAX_SIZE: loop invariant) |
| Seed.InitialCatalog | src/product-service/src/main.rs:115-186 | the seed holds ten records whose ids are exactly 1..10 in order |
| Store.ProductStore.constructor | src/product-service/src/main.rs:188-190 | the shared store starts as the seed, with sequential ids |
| Store.ProductStore.List | src/product-service/src/main.rs:33-36 | returns every record of the store, in order; as a reads-only function it cannot change the store |
| Store.ProductStore.Get | src/product-service/src/main.rs:18-31 | succeeds iff some record has the id, returning the record at the first matching position; otherwise NotFound, store untouched |
| Store.ProductStore.Insert | src/product-service/src/main.rs:59-65 | the store becomes the old store with the candidate appended under id = old length + 1; the returned record equals the stored one |
| Store.ProductStore.Replace | src/product-service/src/main.rs:88-92 | succeeds iff the id is present; then the first matching slot holds the candidate, the rest is untouched and the candidate is returned; otherwise NotFound with the store unchanged |
| Store.ProductStore.Delete | src/product-service/src/main.rs:95-111 | succeeds iff the id is present; then the first matching record is removed with later ones shifted left; otherwise NotFound with the store unchanged |
| Store.ProductStore.AddProduct | src/product-service/src/main.rs:38-66 | succeeds iff the body is received and decodes; overflow, stream error and decode failure are reported as such and leave the store unchanged; on success the decoded record is appended with id = old length + 1 and returned as stored |
| Store.ProductStore.UpdateProduct | src/product-service/src/main.rs:68-93 | body-read and decode failures are reported and leave the store unchanged; a decoded record replaces the first record with its id, or NotFound with the store unchanged |
| IdAssignment.FirstMatchAppended | src/product-service/src/main.rs:25-28 | on a store grown by one record the lookup keeps an earlier match, finds the new record only when nothing before it matches |
| IdAssignment.SequentialIdsAreUnique | src/product-service/src/main.rs:115-186 | ids 1..n are pairwise distinct |
| IdAssignment.InsertKeepsSequential | src/product-service/src/main.rs:43-63 | with ids exactly 1..n an insertion assigns the fresh id n + 1 and the ids become 1..n + 1, still distinct |
| IdAssignment.InsertThenGet | src/product-service/src/main.rs:43-63 | getting the id an insertion returned yields the new record iff that id was unused before; otherwise the older record carrying it |
| IdAssignment.DeleteThenGet | src/product-service/src/main.rs:102-108 | after a delete the id is still found iff a later record carried it; with distinct ids it is gone |
| IdAssignment.DeleteThenInsert | src/product-service/src/main.rs:43-108 | from ids 1..n, delete at position i then insert keeps ids distinct iff i was the last position; otherwise the new id n collides with the old last record, which the lookup returns |
| IdAssignment.ReplaceKeepsIds | src/product-service/src/main.rs:89-90 | replacing the first match leaves every id in place, so sequential and distinct ids are preserved |
| IdAssignment.SeededStoreReusesId | src/product-service/src/main.rs:115-186 | on the seeded store, deleting id 3 then creating gives the new record id 10, and getting 10 returns the seeded refrigerator, not the new record |

## Left out

- The HTTP server, routing, CORS, loggers, the `X-Version` header and binding: transport plumbing with no store logic.
- The health handler: it only reads an environment variable.
- The mutex, `async` suspension on the payload stream, and poisoning of the mutex after a panic: each handler is modelled as one atomic sequential step.
- JSON decoding and encoding: decoding is the parameter `decode: seq<byte> -> Option<Product>`, and responses are the returned values.
- `f32` arithmetic: a price is an opaque 32-bit pattern that the store only copies.
- Extracting `product_id` from the request path: it is an `Int32` parameter.
- The panic on a missing id and what follows it in the runtime: it is the failure `NotFound`, returned with the store unchanged.
- Store.ProductStore.Insert: requires fewer than 2^31 - 1 records, because the source's `len as i32 + 1` overflows beyond that and the model does not describe the wrap-around or the panic.
- Store.ProductStore.AddProduct: carries the same bound on the number of records as Insert, for the same reason.
- Products.Appended: carries the same bound, for the same reason; so does its helper Products.NextId.
- IdAssignment.InsertKeepsSequential, IdAssignment.InsertThenGet and IdAssignment.DeleteThenInsert: carry the same bound, because they speak of Appended.
