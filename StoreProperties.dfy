/**
 What a screen calling the store can rely on across several calls, proved
 from the contracts of the `Database` methods alone.
 */
module StoreProperties {
  import opened ProductTable
  import opened ProductDb

  /** Insert then look up by the same key: the product comes back equal in all
      five columns; a key already in use is refused and nothing changes. */
  method AddThenFetch(db: Database, p: Product) returns (added: Result<ResultSet>, fetched: Result<Product>)
    requires db.Valid()
    modifies db
    ensures db.Valid()
    ensures added.Ok? <==> p.prodId !in Keys(old(db.rows))
    ensures added.Ok? ==> fetched == Ok(p)
    ensures added.Err? ==> added.error == ConstraintViolation && db.rows == old(db.rows)
  {
    added := db.AddProduct(p);
    fetched := db.ProductById(p.prodId);
    if added.Ok? {
      LookupAfterInsert(old(db.rows), p, p.prodId);
    }
  }

  /** Update a stored product then look it up: the four updated columns come
      from `next` and the key stays `id`, even when `next.prodId` differs. */
  method UpdateThenFetch(db: Database, id: string, next: Product)
    returns (updated: Result<ResultSet>, fetched: Result<Product>)
    requires db.Valid()
    requires id in Keys(db.rows)
    modifies db
    ensures db.Valid()
    ensures updated == Ok(ResultSet(1))
    ensures fetched == Ok(Product(id, next.prodName, next.prodDesc, next.prodImage, next.prodPrice))
    ensures forall k :: k != id ==> Lookup(db.rows, k) == Lookup(old(db.rows), k)
  {
    updated := db.UpdateProduct(id, next);
    fetched := db.ProductById(id);
    LookupAfterUpdate(old(db.rows), id, next, id);
    forall k | k != id ensures Lookup(db.rows, k) == Lookup(old(db.rows), k) {
      LookupAfterUpdate(old(db.rows), id, next, k);
    }
  }

  /** Delete the same key twice: both calls succeed, the second affects no row,
      and the key is not found afterwards. */
  method DeleteTwice(db: Database, id: string)
    returns (first: Result<ResultSet>, second: Result<ResultSet>, fetched: Result<Product>)
    requires db.Valid()
    modifies db
    ensures db.Valid()
    ensures first.Ok? && second == Ok(ResultSet(0))
    ensures db.rows == Without(old(db.rows), id)
    ensures fetched == Err(NotFound)
  {
    first := db.DeleteProduct(id);
    second := db.DeleteProduct(id);
    DeleteIsIdempotent(old(db.rows), id);
    fetched := db.ProductById(id);
    LookupAfterDelete(old(db.rows), id, id);
  }

  /** Updating a key that no row has succeeds, reports 0 rows and changes
      nothing: there is no row-count check. */
  method UpdateMissing(db: Database, id: string, p: Product) returns (r: Result<ResultSet>)
    requires db.Valid() && id !in Keys(db.rows)
    modifies db
    ensures db.Valid()
    ensures db.rows == old(db.rows) && r == Ok(ResultSet(0))
  {
    r := db.UpdateProduct(id, p);
    UpdateMissingKeyIsNoop(old(db.rows), id, p);
  }

  /** Deleting a key that no row has succeeds, reports 0 rows and changes
      nothing. */
  method DeleteMissing(db: Database, id: string) returns (r: Result<ResultSet>)
    requires db.Valid() && id !in Keys(db.rows)
    modifies db
    ensures db.Valid()
    ensures db.rows == old(db.rows) && r == Ok(ResultSet(0))
  {
    r := db.DeleteProduct(id);
    DeleteMissingKeyIsNoop(old(db.rows), id);
  }

  /** A new store after adding three products with distinct keys holds exactly
      those three rows. */
  method StoreThree(p1: Product, p2: Product, p3: Product) returns (db: Database)
    requires p1.prodId != p2.prodId && p1.prodId != p3.prodId && p2.prodId != p3.prodId
    ensures fresh(db) && db.Valid() && db.rows == [p1, p2, p3]
  {
    db := new Database();
    var r1 := db.AddProduct(p1);
    assert p2.prodId !in Keys([p1]);
    var r2 := db.AddProduct(p2);
    assert db.rows == [p1, p2];
    assert p3.prodId !in Keys([p1, p2]);
    var r3 := db.AddProduct(p3);
  }

  /** Three products with distinct keys added to a new store are listed exactly,
      up to order; a key never inserted is not found. */
  method ListThree(p1: Product, p2: Product, p3: Product, other: string)
    returns (listed: seq<Product>, missing: Result<Product>)
    requires p1.prodId != p2.prodId && p1.prodId != p3.prodId && p2.prodId != p3.prodId
    requires other != p1.prodId && other != p2.prodId && other != p3.prodId
    ensures multiset(listed) == multiset{p1, p2, p3}
    ensures missing == Err(NotFound)
  {
    var db := StoreThree(p1, p2, p3);
    listed := db.ListProduct();
    assert other !in Keys([p1, p2, p3]);
    missing := db.ProductById(other);
  }

  /** A new store lists no products. */
  method ListEmpty() returns (listed: seq<Product>)
    ensures listed == []
  {
    var db := new Database();
    listed := db.ListProduct();
  }

  /** Add a pen, list it, reprice it, read the price back, delete it, list
      again: one row, then the new price, then an empty table. */
  method PenScenario() returns (before: seq<Product>, price: Result<string>, after: seq<Product>)
    ensures before == [Product("P1", "Pen", "Blue pen", "", "1.50")]
    ensures price == Ok("2.00")
    ensures after == []
  {
    var pen := Product("P1", "Pen", "Blue pen", "", "1.50");
    var db := new Database();
    var added := db.AddProduct(pen);
    before := db.ListProduct();
    var updated := db.UpdateProduct("P1", pen.(prodPrice := "2.00"));
    var fetched := db.ProductById("P1");
    price := if fetched.Ok? then Ok(fetched.value.prodPrice) else Err(NotFound);
    var deleted := db.DeleteProduct("P1");
    after := db.ListProduct();
  }
}
