/**
 The product store: the class whose methods open the database, make sure the
 Product table exists, run one statement against it and hand back the result.

 The persisted database file is the state of a `Database` object: whether the
 Product table exists yet, and its rows in the engine's row order. Every
 operation first ensures the schema, as each public method of the store calls
 initDB before its statement, and then runs one statement atomically.
 */
module ProductDb {
  import opened ProductTable

  /** Copies a result set into fresh Product values, column by column, in
      result order: the row-copying loop of listProduct. */
  method CopyRows(results: seq<Product>) returns (products: seq<Product>)
    ensures |products| == |results|
    ensures forall i :: 0 <= i < |results| ==> products[i] == results[i]
  {
    products := [];
    for i := 0 to |results|
      invariant products == results[..i]
    {
      var row := results[i];
      products := products + [Product(row.prodId, row.prodName, row.prodDesc, row.prodImage, row.prodPrice)];
    }
  }

  class Database {
    /** Whether the Product table has been created in the database file. */
    var tableExists: bool
    /** The table's rows, in the engine's row order. */
    var rows: seq<Product>

    /** The key constraint holds, and there are no rows before the table exists. */
    ghost predicate Valid()
      reads this
    {
      (!tableExists ==> rows == []) && UniqueKeys(rows)
    }

    /** A database file opened for the first time: no table yet. */
    constructor ()
      ensures Valid() && !tableExists && rows == []
    {
      tableExists := false;
      rows := [];
    }

    /** Schema-ensure, as run on every open: probe the table, and create it
        empty only when the probe fails because it is absent. Rows already
        stored survive, so running it again changes nothing. */
    method InitDB()
      requires Valid()
      modifies this
      ensures Valid() && tableExists
      ensures rows == old(rows)
      ensures old(tableExists) ==> unchanged(this)
    {
      // SELECT 1 FROM Product LIMIT 1 fails exactly when the table is missing;
      // then CREATE TABLE IF NOT EXISTS Product (...) makes an empty one.
      if !tableExists {
        tableExists := true;
        rows := [];
      }
    }

    /** listProduct: every row of the table, one Product per row with the
        columns copied one-for-one, in the engine's row order. */
    method ListProduct() returns (products: seq<Product>)
      requires Valid()
      modifies this
      ensures Valid() && tableExists && rows == old(rows)
      ensures products == rows
    {
      InitDB();
      // SELECT * FROM Product
      products := CopyRows(rows);
    }

    /** productById: the row keyed `id` when there is one, and otherwise the
        rejection 'Product not found'. The table is not changed. */
    method ProductById(id: string) returns (r: Result<Product>)
      requires Valid()
      modifies this
      ensures Valid() && tableExists && rows == old(rows)
      ensures id in Keys(rows) ==> r.Ok? && r.value in rows && r.value.prodId == id
      ensures id !in Keys(rows) ==> r == Err(NotFound)
      ensures forall q :: q in rows && q.prodId == id ==> r == Ok(q)
      ensures r == match Lookup(rows, id) case Some(p) => Ok(p) case None => Err(NotFound)
    {
      InitDB();
      // SELECT * FROM Product WHERE prodId = ?
      var results := Where(rows, id);
      WhereAgreesWithLookup(rows, id);
      if |results| > 0 {
        r := Ok(results[0]);
      } else {
        r := Err(NotFound);
      }
      forall q | q in rows && q.prodId == id ensures r == Ok(q) {
        KeyedRowIsUnique(rows, id, q);
      }
    }

    /** addProduct: insert all five columns of `prod`. A key already present
        violates the PRIMARY KEY constraint: the statement fails and the table
        is left as it was. */
    method AddProduct(prod: Product) returns (r: Result<ResultSet>)
      requires Valid()
      modifies this
      ensures Valid() && tableExists
      ensures prod.prodId in Keys(old(rows)) ==> r == Err(ConstraintViolation) && rows == old(rows)
      ensures prod.prodId !in Keys(old(rows)) ==> r == Ok(ResultSet(1)) && rows == old(rows) + [prod]
    {
      InitDB();
      // INSERT INTO Product (prodId, prodName, prodDesc, prodImage, prodPrice) VALUES (?, ?, ?, ?, ?)
      if prod.prodId in Keys(rows) {
        r := Err(ConstraintViolation);
      } else {
        InsertKeepsUniqueKeys(rows, prod);
        rows := rows + [prod];
        r := Ok(ResultSet(1));
      }
    }

    /** updateProduct: set the name, description, image and price of the row
        keyed `id` from `prod`; `prod.prodId` is ignored. No row keyed `id` is
        not an error: nothing changes and zero rows are reported. */
    method UpdateProduct(id: string, prod: Product) returns (r: Result<ResultSet>)
      requires Valid()
      modifies this
      ensures Valid() && tableExists
      ensures rows == SetColumns(old(rows), id, prod)
      ensures Keys(rows) == Keys(old(rows))
      ensures r == Ok(ResultSet(if id in Keys(old(rows)) then 1 else 0))
    {
      InitDB();
      // UPDATE Product SET prodName = ?, prodDesc = ?, prodImage = ?, prodPrice = ? WHERE prodId = ?
      var affected := |Where(rows, id)|;
      AffectedRows(rows, id);
      UpdateKeepsUniqueKeys(rows, id, prod);
      rows := SetColumns(rows, id, prod);
      r := Ok(ResultSet(affected));
    }

    /** deleteProduct: remove the row keyed `id`. No row keyed `id` is not an
        error: nothing changes and zero rows are reported. */
    method DeleteProduct(id: string) returns (r: Result<ResultSet>)
      requires Valid()
      modifies this
      ensures Valid() && tableExists
      ensures rows == Without(old(rows), id)
      ensures r == Ok(ResultSet(if id in Keys(old(rows)) then 1 else 0))
    {
      InitDB();
      // DELETE FROM Product WHERE prodId = ?
      var affected := |Where(rows, id)|;
      AffectedRows(rows, id);
      DeleteKeepsUniqueKeys(rows, id);
      rows := Without(rows, id);
      r := Ok(ResultSet(affected));
    }
  }
}
