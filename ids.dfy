/** Consequences of assigning identifiers as "length before insertion plus
    one".  While the identifiers are exactly 1..n an insertion keeps them so
    and the new identifier is fresh; once a record other than the last has
    been deleted, the next insertion reuses an identifier still in the store,
    and the first-match lookup then hides the new record. */
module IdAssignment {
  import opened Products
  import Seed
  import opened Store

  /** The lookup on a sequence grown by one record: an earlier match wins,
      and the new record is found only when nothing before it matches. */
  lemma FirstMatchAppended(ps: seq<Product>, x: Product, id: Int32)
    ensures FirstMatch(ps + [x], id) ==
      if Has(ps, id) then FirstMatch(ps, id)
      else if x.id == id then Some(|ps|)
      else None
  {
    var qs := ps + [x];
    if Has(ps, id) {
      var i := FirstMatch(ps, id).value;
      assert IsFirst(qs, id, i) by {
        forall j | 0 <= j < i ensures qs[j].id != id {
          assert qs[j] == ps[j];
        }
      }
      FirstMatchIs(qs, id, i);
    } else if x.id == id {
      assert IsFirst(qs, id, |ps|) by {
        forall j | 0 <= j < |ps| ensures qs[j].id != id {
          assert qs[j] == ps[j];
        }
      }
      FirstMatchIs(qs, id, |ps|);
    } else {
      forall j | 0 <= j < |qs| ensures qs[j].id != id {
        if j < |ps| { assert qs[j] == ps[j]; }
      }
    }
  }

  /** Identifiers 1..n are pairwise distinct. */
  lemma SequentialIdsAreUnique(ps: seq<Product>)
    requires SequentialIds(ps)
    ensures UniqueIds(ps)
  {
  }

  /** While the identifiers are exactly 1..n, an insertion assigns n + 1,
      which no record carries yet, and the identifiers become 1..n + 1. */
  lemma InsertKeepsSequential(ps: seq<Product>, candidate: Product)
    requires SequentialIds(ps) && |ps| < MAX_INT32
    ensures !Has(ps, NextId(ps))
    ensures SequentialIds(Appended(ps, candidate))
    ensures UniqueIds(Appended(ps, candidate))
  {
  }

  /** Getting by the identifier an insertion just returned yields the
      inserted record exactly when that identifier was not in use before;
      otherwise the older record that carries it is returned. */
  lemma InsertThenGet(ps: seq<Product>, candidate: Product)
    requires |ps| < MAX_INT32
    ensures FirstMatch(Appended(ps, candidate), NextId(ps)) == Some(|ps|) <==> !Has(ps, NextId(ps))
    ensures Has(ps, NextId(ps)) ==> FirstMatch(Appended(ps, candidate), NextId(ps)) == FirstMatch(ps, NextId(ps))
  {
    var stored := candidate.(id := NextId(ps));
    assert Appended(ps, candidate) == ps + [stored];
    FirstMatchAppended(ps, stored, NextId(ps));
  }

  /** After removing the first record carrying `id`, some record still
      carries it exactly when a later one did; with distinct identifiers the
      identifier is gone. */
  lemma DeleteThenGet(ps: seq<Product>, id: Int32, i: nat)
    requires IsFirst(ps, id, i)
    ensures Has(Removed(ps, i), id) <==> exists j :: i < j < |ps| && ps[j].id == id
    ensures UniqueIds(ps) ==> FirstMatch(Removed(ps, i), id) == None
  {
    var qs := Removed(ps, i);
    if exists j :: i < j < |ps| && ps[j].id == id {
      var j :| i < j < |ps| && ps[j].id == id;
      assert qs[j - 1] == ps[j];
    }
    if Has(qs, id) {
      var k :| 0 <= k < |qs| && qs[k].id == id;
      if i <= k {
        assert qs[k] == ps[k + 1];
      }
    }
  }

  /** Starting from identifiers 1..n, deleting the record at position i and
      inserting again keeps the identifiers distinct exactly when the deleted
      record was the last one.  Otherwise the new record takes identifier n,
      which the old last record still carries, and a lookup of n finds the old
      record; when it was the last one, its identifier is handed out again. */
  lemma DeleteThenInsert(ps: seq<Product>, i: nat, candidate: Product)
    requires SequentialIds(ps) && |ps| < MAX_INT32 && i < |ps|
    ensures var after := Appended(Removed(ps, i), candidate);
      && (UniqueIds(after) <==> i == |ps| - 1)
      && after[|ps| - 1].id as int == |ps|
      && (i == |ps| - 1 ==> SequentialIds(after))
      && (i < |ps| - 1 ==> after[|ps| - 2] == ps[|ps| - 1] && FirstMatch(after, after[|ps| - 1].id) == Some(|ps| - 2))
  {
    var rest := Removed(ps, i);
    var after := Appended(rest, candidate);
    var n := |ps|;
    forall k | 0 <= k < n - 1 ensures after[k] == rest[k] {
      assert after[k] == after[..n - 1][k];
    }
    if i == n - 1 {
      forall k | 0 <= k < n - 1 ensures rest[k] == ps[k] { }
      assert SequentialIds(rest);
      InsertKeepsSequential(rest, candidate);
      assert after == Appended(rest, candidate);
    } else {
      assert after[n - 2] == ps[n - 1];
      assert after[n - 2].id == after[n - 1].id;
      var id := after[n - 1].id;
      assert IsFirst(after, id, n - 2) by {
        forall k | 0 <= k < n - 2 ensures after[k].id != id {
          if k < i { assert after[k] == ps[k]; } else { assert after[k] == ps[k + 1]; }
        }
      }
      FirstMatchIs(after, id, n - 2);
    }
  }

  /** Overwriting the first record that carries the candidate's identifier
      leaves every identifier where it was. */
  lemma ReplaceKeepsIds(ps: seq<Product>, i: nat, candidate: Product)
    requires IsFirst(ps, candidate.id, i)
    ensures forall j :: 0 <= j < |ps| ==> Replaced(ps, i, candidate)[j].id == ps[j].id
    ensures SequentialIds(ps) ==> SequentialIds(Replaced(ps, i, candidate))
    ensures UniqueIds(ps) ==> UniqueIds(Replaced(ps, i, candidate))
  {
  }

  /** The seeded service: deleting record 3 and then creating a record gives
      the new record identifier 10, which the seeded refrigerator still
      carries, so getting 10 returns the refrigerator and not the new record. */
  method SeededStoreReusesId(candidate: Product) returns (stored: Product, fetched: Result<Product>)
    ensures stored.id == 10 && SameExceptId(stored, candidate)
    ensures fetched == Ok(Seed.Refrigerator)
  {
    var store := new ProductStore();
    var deleted := store.Delete(3);
    assert IsFirst(Seed.InitialCatalog(), 3, 2);
    FirstMatchIs(Seed.InitialCatalog(), 3, 2);
    assert store.products == Removed(Seed.InitialCatalog(), 2);
    stored := store.Insert(candidate);
    DeleteThenInsert(Seed.InitialCatalog(), 2, candidate);
    fetched := store.Get(10);
  }
}
