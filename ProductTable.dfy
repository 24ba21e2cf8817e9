/**
 The Product table of the offline catalog store, as values.

 The store keeps one SQLite table,
   Product(prodId TEXT PRIMARY KEY NOT NULL, prodName TEXT, prodDesc TEXT,
           prodImage TEXT, prodPrice TEXT)
 and issues one parameterised statement per operation. This module gives the
 meaning of each of those statements as a function on the table's rows, kept
 in the engine's row order, and proves what the store relies on: keys stay
 unique, an inserted row is found again, UPDATE never touches the key, DELETE
 removes exactly the keyed row, and both are no-ops on a missing key.
 */
module ProductTable {

  /** One record of the catalog: the five TEXT columns, in declaration order. */
  datatype Product = Product(
    prodId: string,
    prodName: string,
    prodDesc: string,
    prodImage: string,
    prodPrice: string)

  /** The failures the store reports that are about the table's contents. */
  datatype Error =
    | NotFound             // productById rejects with 'Product not found'
    | ConstraintViolation  // INSERT hit the PRIMARY KEY constraint

  datatype Result<T> = Ok(value: T) | Err(error: Error)

  datatype Option<T> = None | Some(value: T)

  /** The part of the engine's result descriptor the model keeps. */
  datatype ResultSet = ResultSet(rowsAffected: nat)

  /** The keys present in the table. */
  function Keys(rows: seq<Product>): (ks: set<string>)
  {
    set p | p in rows :: p.prodId
  }

  /** The PRIMARY KEY constraint: no two rows share a prodId. */
  predicate UniqueKeys(rows: seq<Product>)
  {
    forall i, j :: 0 <= i < j < |rows| ==> rows[i].prodId != rows[j].prodId
  }

  /** The keys of a non-empty table: the first row's key and the rest. */
  lemma KeysCons(rows: seq<Product>)
    requires rows != []
    ensures Keys(rows) == {rows[0].prodId} + Keys(rows[1..])
  {
    assert rows == [rows[0]] + rows[1..];
  }

  /** Under the key constraint the first row's key occurs nowhere after it. */
  lemma HeadKeyNotInTail(rows: seq<Product>)
    requires rows != [] && UniqueKeys(rows)
    ensures rows[0].prodId !in Keys(rows[1..])
  {
    forall q | q in rows[1..] ensures q.prodId != rows[0].prodId {
      var j :| 0 <= j < |rows[1..]| && rows[1..][j] == q;
      assert rows[j + 1] == q;
    }
  }

  /** Under the key constraint the table has one key per row. */
  lemma {:induction false} UniqueKeysCount(rows: seq<Product>)
    requires UniqueKeys(rows)
    ensures |Keys(rows)| == |rows|
  {
    if rows != [] {
      assert UniqueKeys(rows[1..]);
      UniqueKeysCount(rows[1..]);
      KeysCons(rows);
      HeadKeyNotInTail(rows);
    }
  }

  /** The row keyed `id`, if any: the reference meaning of a lookup by id. */
  function Lookup(rows: seq<Product>, id: string): (r: Option<Product>)
    ensures r.Some? <==> id in Keys(rows)
    ensures r.Some? ==> r.value in rows && r.value.prodId == id
  {
    if rows == [] then None
    else
      assert rows == [rows[0]] + rows[1..];
      if rows[0].prodId == id then Some(rows[0]) else Lookup(rows[1..], id)
  }

  /** The result set of `SELECT * FROM Product WHERE prodId = ?`; also the set of rows an UPDATE or DELETE filtered by `prodId = ?` affects. */
  function Where(rows: seq<Product>, id: string): (r: seq<Product>)
    ensures |r| <= |rows|
    ensures forall p :: p in r <==> p in rows && p.prodId == id
  {
    if rows == [] then []
    else
      assert rows == [rows[0]] + rows[1..];
      if rows[0].prodId == id then [rows[0]] + Where(rows[1..], id)
      else Where(rows[1..], id)
  }

  /** The rows left by `DELETE FROM Product WHERE prodId = ?`. */
  function Without(rows: seq<Product>, id: string): (r: seq<Product>)
    ensures |r| <= |rows|
    ensures forall p :: p in r <==> p in rows && p.prodId != id
  {
    if rows == [] then []
    else
      assert rows == [rows[0]] + rows[1..];
      if rows[0].prodId == id then Without(rows[1..], id)
      else [rows[0]] + Without(rows[1..], id)
  }

  /** The row `row` after `SET prodName = ?, prodDesc = ?, prodImage = ?,
      prodPrice = ?` with the values taken from `prod`; prodId is not assigned. */
  function Assigned(row: Product, prod: Product): Product
  {
    row.(prodName := prod.prodName, prodDesc := prod.prodDesc,
         prodImage := prod.prodImage, prodPrice := prod.prodPrice)
  }

  /** The rows after `UPDATE Product SET ... WHERE prodId = id` with `prod`'s
      values: every row keeps its key and its place, the row keyed `id` takes the
      four other columns of `prod`, and every other row is unchanged. */
  function SetColumns(rows: seq<Product>, id: string, prod: Product): (r: seq<Product>)
    ensures |r| == |rows|
    ensures forall i :: 0 <= i < |rows| ==> r[i].prodId == rows[i].prodId
    ensures forall i :: 0 <= i < |rows| && rows[i].prodId != id ==> r[i] == rows[i]
    ensures forall i :: 0 <= i < |rows| && rows[i].prodId == id ==>
              r[i] == Product(id, prod.prodName, prod.prodDesc, prod.prodImage, prod.prodPrice)
  {
    if rows == [] then []
    else
      [if rows[0].prodId == id then Assigned(rows[0], prod) else rows[0]]
        + SetColumns(rows[1..], id, prod)
  }

  // ----- lookup -----

  /** Under the key constraint, the keyed row is the only row with that key. */
  lemma KeyedRowIsUnique(rows: seq<Product>, id: string, q: Product)
    requires UniqueKeys(rows)
    requires q in rows && q.prodId == id
    ensures Lookup(rows, id) == Some(q)
  {
    var p := Lookup(rows, id).value;
    var i :| 0 <= i < |rows| && rows[i] == p;
    var j :| 0 <= j < |rows| && rows[j] == q;
    assert !(i < j) && !(j < i);
  }

  /** The SELECT by key finds a row exactly when a row is keyed `id`, and its
      first row is that row: productById's branch agrees with Lookup. */
  lemma {:induction false} WhereAgreesWithLookup(rows: seq<Product>, id: string)
    ensures |Where(rows, id)| > 0 <==> Lookup(rows, id).Some?
    ensures |Where(rows, id)| > 0 ==> Where(rows, id)[0] == Lookup(rows, id).value
  {
    if rows != [] && rows[0].prodId != id {
      WhereAgreesWithLookup(rows[1..], id);
    }
  }

  /** Under the key constraint a filter by key affects one row if the key is
      present and none otherwise. */
  lemma {:induction false} AffectedRows(rows: seq<Product>, id: string)
    requires UniqueKeys(rows)
    ensures |Where(rows, id)| == if id in Keys(rows) then 1 else 0
  {
    if rows != [] {
      assert rows == [rows[0]] + rows[1..];
      assert UniqueKeys(rows[1..]);
      AffectedRows(rows[1..], id);
      KeysCons(rows);
      HeadKeyNotInTail(rows);
    }
  }

  // ----- insert -----

  /** Appending a row with a fresh key keeps the key constraint. */
  lemma InsertKeepsUniqueKeys(rows: seq<Product>, p: Product)
    requires UniqueKeys(rows)
    requires p.prodId !in Keys(rows)
    ensures UniqueKeys(rows + [p])
  {
    forall i | 0 <= i < |rows| ensures rows[i].prodId != p.prodId {
      assert rows[i] in rows;
    }
  }

  /** After an INSERT of `p` with a fresh key, the lookup of `p`'s key gives
      back `p` in all five columns, and every other lookup is unchanged. */
  lemma {:induction false} LookupAfterInsert(rows: seq<Product>, p: Product, id: string)
    requires p.prodId !in Keys(rows)
    ensures Lookup(rows + [p], id) == if id == p.prodId then Some(p) else Lookup(rows, id)
  {
    if rows == [] {
      assert [] + [p] == [p];
    } else {
      assert (rows + [p])[1..] == rows[1..] + [p];
      assert rows[0] in rows;
      KeysCons(rows);
      LookupAfterInsert(rows[1..], p, id);
    }
  }

  // ----- update -----

  /** UPDATE keeps the set of keys, so it keeps the key constraint. */
  lemma UpdateKeepsUniqueKeys(rows: seq<Product>, id: string, prod: Product)
    requires UniqueKeys(rows)
    ensures UniqueKeys(SetColumns(rows, id, prod))
    ensures Keys(SetColumns(rows, id, prod)) == Keys(rows)
  {
    var r := SetColumns(rows, id, prod);
    forall k | k in Keys(r) ensures k in Keys(rows) {
      var q :| q in r && q.prodId == k;
      var i :| 0 <= i < |r| && r[i] == q;
      assert rows[i] in rows;
    }
    forall k | k in Keys(rows) ensures k in Keys(r) {
      var q :| q in rows && q.prodId == k;
      var i :| 0 <= i < |rows| && rows[i] == q;
      assert r[i] in r;
    }
  }

  /** After UPDATE by `id`, the row keyed `id` (if there was one) carries `prod`'s
      name, description, image and price under its own key, whatever
      `prod.prodId` is; every other key looks up as before. */
  lemma {:induction false} LookupAfterUpdate(rows: seq<Product>, id: string, prod: Product, k: string)
    ensures Lookup(SetColumns(rows, id, prod), k) ==
      if k != id then Lookup(rows, k)
      else if id in Keys(rows) then Some(Product(id, prod.prodName, prod.prodDesc, prod.prodImage, prod.prodPrice))
      else None
  {
    if rows != [] {
      assert SetColumns(rows, id, prod)[1..] == SetColumns(rows[1..], id, prod);
      LookupAfterUpdate(rows[1..], id, prod, k);
    }
  }

  /** A zero-row UPDATE leaves the table as it was. */
  lemma UpdateMissingKeyIsNoop(rows: seq<Product>, id: string, prod: Product)
    requires id !in Keys(rows)
    ensures SetColumns(rows, id, prod) == rows
  {
    var r := SetColumns(rows, id, prod);
    forall i | 0 <= i < |rows| ensures r[i] == rows[i] {
      assert rows[i] in rows;
    }
  }

  // ----- delete -----

  /** DELETE keeps the key constraint. */
  lemma {:induction false} DeleteKeepsUniqueKeys(rows: seq<Product>, id: string)
    requires UniqueKeys(rows)
    ensures UniqueKeys(Without(rows, id))
  {
    if rows != [] {
      assert UniqueKeys(rows[1..]);
      DeleteKeepsUniqueKeys(rows[1..], id);
      if rows[0].prodId != id {
        var tail := Without(rows[1..], id);
        forall j | 0 <= j < |tail| ensures rows[0].prodId != tail[j].prodId {
          assert tail[j] in tail;
          var m :| 0 <= m < |rows[1..]| && rows[1..][m] == tail[j];
          assert rows[m + 1] == tail[j];
        }
        assert Without(rows, id) == [rows[0]] + tail;
      }
    }
  }

  /** After DELETE by `id` the key `id` is not found; every other key looks up
      as before. */
  lemma {:induction false} LookupAfterDelete(rows: seq<Product>, id: string, k: string)
    ensures Lookup(Without(rows, id), k) == if k == id then None else Lookup(rows, k)
  {
    if rows != [] {
      LookupAfterDelete(rows[1..], id, k);
      if rows[0].prodId != id {
        assert Without(rows, id) == [rows[0]] + Without(rows[1..], id);
        assert ([rows[0]] + Without(rows[1..], id))[1..] == Without(rows[1..], id);
      }
    }
  }

  /** DELETE removes exactly the rows it affects: as many rows go as the filter
      by key selects. */
  lemma {:induction false} DeleteCount(rows: seq<Product>, id: string)
    ensures |Without(rows, id)| == |rows| - |Where(rows, id)|
  {
    if rows != [] {
      DeleteCount(rows[1..], id);
    }
  }

  /** Deleting the same key twice leaves what deleting it once left. */
  lemma {:induction false} DeleteIsIdempotent(rows: seq<Product>, id: string)
    ensures Without(Without(rows, id), id) == Without(rows, id)
  {
    if rows != [] {
      DeleteIsIdempotent(rows[1..], id);
      if rows[0].prodId != id {
        assert Without(rows, id) == [rows[0]] + Without(rows[1..], id);
        assert ([rows[0]] + Without(rows[1..], id))[1..] == Without(rows[1..], id);
      }
    }
  }

  /** A zero-row DELETE leaves the table as it was. */
  lemma {:induction false} DeleteMissingKeyIsNoop(rows: seq<Product>, id: string)
    requires id !in Keys(rows)
    ensures Without(rows, id) == rows
  {
    if rows != [] {
      assert rows == [rows[0]] + rows[1..];
      assert rows[0] in rows;
      KeysCons(rows);
      DeleteMissingKeyIsNoop(rows[1..], id);
    }
  }
}
