# Offline product store, modelled in Dafny

This project models the persistence layer of a React Native catalog app, the
`Database` class in `Database.ts`. The store keeps one SQLite table, `Product`,
keyed by `prodId` (`TEXT PRIMARY KEY NOT NULL`), with four more TEXT columns:
`prodName`, `prodDesc`, `prodImage` and `prodPrice`. Each public operation
opens the database and runs the schema-ensure step (`initDB`). It then runs one
parameterised statement and resolves with the result or rejects.

- `ProductTable.dfy` (module `ProductTable`): the `Product` record, the
  `Result`/`Error` outcomes and the engine's result descriptor (`ResultSet`,
  reduced to `rowsAffected`). It gives the meaning of each SQL statement the
  store issues, as a function on the table's rows in engine row order:
  `Where` (a SELECT filtered by key), `Without` (a DELETE filtered by key) and
  `SetColumns` (the UPDATE). `Lookup` is the reference meaning of "the row
  keyed `id`". The lemmas prove that the key constraint is preserved, that
  lookups round-trip, and that zero-row updates and deletes change nothing.
- `ProductDb.dfy` (module `ProductDb`): class `Database`. Its state is the
  database file: `tableExists` and `rows`. `Valid()` holds when keys are
  unique and there are no rows before the table exists. The class has one
  method per operation of the source. `ListProduct` copies the result set with
  the source's row-copying loop (`CopyRows`).
- `StoreProperties.dfy` (module `StoreProperties`): client methods. These
  prove properties that span several calls from the method contracts alone:
  add then fetch, update then fetch, delete twice, update and delete of a
  missing key, listing three inserts, and the add/list/update/fetch/delete
  scenario for a pen.

The SQLite engine is abstracted as a sequence of rows, and the model fixes
the row order: INSERT appends at the end, UPDATE keeps every row in its place,
and DELETE keeps the remaining rows in their order. `ListProduct` returns the
rows in that order, so in the model a listing comes out in insertion order
(`StoreThree` states the three rows in order). The SQL does not promise this:
`SELECT * FROM Product` (Database.ts:62) has no `ORDER BY`. `ListThree` states
its listing as a multiset, which is all the source promises.

Two behaviours follow the code:
- A failed lookup is a plain `NotFound`. The code rejects with the bare string
  `'Product not found'` (Database.ts:93), which does not carry the id.
- Update and delete on a missing key succeed with 0 affected rows. There is
  no row-count check (Database.ts:127-129, 143-145).

## Model

| member | source | states |
|---|---|---|
| ProductTable.Product | Database.ts:8-14 | a product is the five string fields of the `Product` interface, in column order |
| ProductTable.UniqueKeys | Database.ts:33 | definition of the PRIMARY KEY constraint: no two rows share a `prodId` (what it implies is proved by `KeyedRowIsUnique`, `AffectedRows` and `UniqueKeysCount`) |
| ProductTable.UniqueKeysCount | Database.ts:33 | under the key constraint the table has exactly as many keys as rows |
| ProductTable.Assigned | Database.ts:127-128 | definition of the `SET` clause on one row; its effect on the table is stated by `SetColumns` and `LookupAfterUpdate` |
| ProductTable.Lookup | Database.ts:89-94 | the lookup finds a row exactly when some row has key `id`, and the row it finds is in the table and has that key |
| ProductTable.Where | Database.ts:89 | the SELECT by key yields exactly the table's rows whose key is `id` and no more rows than the table has |
| ProductTable.Without | Database.ts:143 | after DELETE by key, a row remains exactly when it was in the table and its key is not `id` |
| ProductTable.SetColumns | Database.ts:127-128 | UPDATE keeps the row count and every row's key and position; the row keyed `id` gets `prod`'s name, description, image and price under key `id`; every other row is unchanged |
| ProductTable.KeyedRowIsUnique | Database.ts:33 | under the PRIMARY KEY constraint, any row with key `id` is the row the lookup returns |
| ProductTable.WhereAgreesWithLookup | Database.ts:89-94 | the SELECT by key is non-empty exactly when the lookup finds a row, and its first row is that row (the `item(0)` the code resolves with) |
| ProductTable.AffectedRows | Database.ts:33 | under the key constraint, a statement filtered by `prodId = ?` affects 1 row if the key is present and 0 if it is not |
| ProductTable.InsertKeepsUniqueKeys | Database.ts:33 | appending a row whose key is not yet present keeps all keys distinct |
| ProductTable.LookupAfterInsert | Database.ts:109-111 | after inserting `p` with a fresh key, looking up `p.prodId` gives `p` in all five columns, and every other key gives what it gave before |
| ProductTable.UpdateKeepsUniqueKeys | Database.ts:127-128 | UPDATE leaves the set of keys unchanged and so keeps them distinct |
| ProductTable.LookupAfterUpdate | Database.ts:127-128 | after UPDATE by `id`, looking up `id` gives `prod`'s four other columns under key `id` if the key existed and nothing otherwise; other keys look up as before |
| ProductTable.UpdateMissingKeyIsNoop | Database.ts:127-129 | UPDATE on a key with no row leaves the table exactly as it was |
| ProductTable.DeleteKeepsUniqueKeys | Database.ts:143 | DELETE keeps all keys distinct |
| ProductTable.LookupAfterDelete | Database.ts:143 | after DELETE by `id`, `id` is not found and every other key looks up as before |
| ProductTable.DeleteCount | Database.ts:143 | DELETE removes exactly as many rows as the filter by key selects |
| ProductTable.DeleteIsIdempotent | Database.ts:143 | deleting the same key a second time leaves what the first deletion left |
| ProductTable.DeleteMissingKeyIsNoop | Database.ts:143-145 | DELETE on a key with no row leaves the table exactly as it was |
| ProductDb.CopyRows | Database.ts:63-73 | the copy loop yields one product per result row, in order, each equal to its row in all five columns |
| ProductDb.Database.Valid | Database.ts:26-37 | definition of the table invariant every method keeps: keys are unique (line 33) and there are no rows before the table exists |
| ProductDb.Database.constructor | Database.ts:21-24 | a database file opened for the first time has no Product table and no rows |
| ProductDb.Database.InitDB | Database.ts:26-37 | afterwards the table exists, the stored rows are unchanged, and if the table already existed nothing changes, so repeated calls are idempotent |
| ProductDb.Database.ListProduct | Database.ts:56-82 | resolves with exactly the table's rows, one product per row in row order, so an empty table gives `[]`; the table is unchanged |
| ProductDb.Database.ProductById | Database.ts:84-102 | resolves with the table's row keyed `id` when there is one, and that is the only row it can return under the PRIMARY KEY; rejects with `NotFound` when there is none; the table is unchanged |
| ProductDb.Database.AddProduct | Database.ts:104-119 | a fresh key appends `prod` with all five columns and reports 1 row; a key in use fails with `ConstraintViolation` and leaves the table unchanged; keys stay distinct |
| ProductDb.Database.UpdateProduct | Database.ts:121-136 | the new table is the UPDATE of the old one by `id` with `prod`'s values; keys are unchanged; always succeeds, reporting 1 affected row if `id` existed and 0 otherwise |
| ProductDb.Database.DeleteProduct | Database.ts:138-152 | the new table is the old one without the row keyed `id`; always succeeds, reporting 1 affected row if `id` existed and 0 otherwise |
| StoreProperties.AddThenFetch | Database.ts:104-119 | the insert succeeds exactly when the key is fresh, and then fetching by that key returns the inserted product; otherwise it fails with `ConstraintViolation` and the table is unchanged |
| StoreProperties.UpdateThenFetch | Database.ts:121-136 | updating a stored key reports 1 row; fetching it then gives the new four columns under the old key, even when `next.prodId` differs; other keys are unaffected |
| StoreProperties.DeleteTwice | Database.ts:138-152 | two deletes of one key both succeed, the second affecting 0 rows; the key is then not found |
| StoreProperties.UpdateMissing | Database.ts:127-129 | updating a key that no row has succeeds with 0 affected rows and leaves the table exactly as it was |
| StoreProperties.DeleteMissing | Database.ts:143-145 | deleting a key that no row has succeeds with 0 affected rows and leaves the table exactly as it was |
| StoreProperties.StoreThree | Database.ts:104-119 | three inserts with distinct keys into a new store leave exactly those three rows, in the model's insertion order |
| StoreProperties.ListThree | Database.ts:56-82 | after three inserts with distinct keys, the listing holds exactly those three products, up to order; a key never inserted is not found |
| StoreProperties.ListEmpty | Database.ts:56-82 | a new store lists no products |
| StoreProperties.PenScenario | Database.ts:104-152 | adding the pen lists one row equal to it; after repricing it to "2.00" that price is read back; after deleting it the listing is empty |

## Left out

- Opening and closing the database file (`echoTest`, `openDatabase` with its
  name and location, `closeDatabase`) are foreign I/O calls. Open and close
  change no rows, so the model leaves them out. So does the code's skipping of
  `closeDatabase` when a statement's transaction rejects.
- Engine-level failures are left out: a failed open, a failed CREATE, a disk
  error, or a failing SELECT. They are outside the store's own logic. Every
  model operation assumes the engine cooperates, apart from the PRIMARY KEY
  constraint.
- The probe `SELECT 1 FROM Product LIMIT 1` is modelled as failing exactly when
  the table is missing. On any other probe failure the code runs
  `CREATE TABLE IF NOT EXISTS`, which leaves an existing table alone. That
  gives the same table either way.
- Promises, callbacks, asynchronous sequencing and concurrent callers are left
  out. Each operation is one atomic sequential method.
- `SQLite.DEBUG`, `enablePromise` and all console logging are left out. They
  do not affect the table.
- `NOT NULL` on `prodId` is dropped. Model strings cannot be null, so the
  constraint always holds.
- The result descriptor is reduced to `rowsAffected`. `insertId` and the
  engine's other metadata are left out.
- The engine's own row order is replaced by a fixed one: INSERT appends,
  UPDATE keeps positions, and DELETE keeps the order of the rest. So
  `AddProduct`, `UpdateProduct`, `DeleteProduct`, `ListProduct` and
  `StoreThree` promise an order that the SQL, with no `ORDER BY`
  (Database.ts:62), does not.
- The screens under `components/` and `App.tsx` are left out. They only call
  the store and render its results.
