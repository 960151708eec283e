# Dine-in manager backend: a Dafny model

The dine-in manager backend is a Flask/SQLAlchemy service for a restaurant. It
stores four kinds of record:
- tables, each with a unique number, a capacity and an availability flag;
- menu items, each with a name, description, price and category;
- orders, each placed at a table with a date, a status and customer notes;
- order items, each linking an order to a menu item with a quantity.

Its HTTP handlers create, read, update and delete tables and menu items. They
also create an order together with its items, and read an order back joined
with its menu item names.

This project models those handlers over an in-memory store and proves what
they promise. Handler outcomes are HTTP status codes.

- `records.dfy` (module `Records`) holds the four record kinds and the JSON
  request bodies. A body is `Option<...Body>`, where `None` is a missing or
  false-valued body. Each key is `Field<T>`, either `Absent` or `Present(v)`.
  The values of nullable columns are `Option`s, so an explicit JSON null can be
  expressed. A flag records that a body holds keys no handler reads.
- `queries.dfy` (module `Queries`) holds pure functions over the store's maps:
  - scans in primary-key order;
  - the order items one order creation inserts;
  - the read-time join of order items with menu names.

  It also holds the lemmas relating them. The main one is the round trip:
  reading an order right after creating it gives one line per listed menu id,
  in list order, named after that menu item.
- `backend.dfy` (module `Backend`) holds the class `Store`, which stands in
  for the database. It has one map per record kind and one auto-increment
  counter per kind. Each handler is a method: the ones that write the
  database carry `modifies this`, and the read handlers change nothing. The
  database session is treated as "changes apply at commit": a handler builds
  its changes in locals and assigns the store's fields only where the source
  commits. So every path that aborts earlier leaves the store unchanged. This
  covers a 400, a failed `get_or_404` and a commit the database refuses.
  `Valid()` holds these invariants:
  - ids come from the counters;
  - table numbers are unique;
  - every order references a stored table, and every order item a stored
    order and a stored menu item;
  - `status` and `quantity` keep their defaults, because no handler writes them.
- `scenarios.dfy` (module `Scenarios`) holds clients of the store. They include
  the repository's tests of POST /tables and POST /menu, the create-then-read
  round trip, non-idempotent order creation, and refused deletes of a table
  and a menu item that an order references.

Behaviour of the handlers worth stating outright:
- An empty `menu_item_ids` list passes the key check at
  `backend/src/app.py:222`. It creates an order with no items (status 201),
  not a 400.
- A duplicate `table_number` is not answered with a 409. The unique
  constraint fails at the commit (`backend/src/app.py:84`), the exception
  escapes the handler, and the model gives 500 with the store unchanged.
- No handler checks that a price is non-negative, and the model does not
  check it either.
- The code has no route that lists orders, so the model has no such operation.
- Deleting a table that an order references, or a menu item that an order
  item references, fails. The relationships `Table.orders`
  (`backend/src/app.py:36`) and the `order_items` backref of `Menu`
  (`backend/src/app.py:67`) have no delete cascade. So the flush sets the
  children's `table_id` or `menu_item_id` to null. Those columns are NOT NULL
  (`backend/src/app.py:53`, `:65`), so the commit raises and the handler
  answers 500 with nothing deleted. As a consequence, every order item's menu
  item exists whenever GET /orders/<id> reads it, and that handler cannot
  fail once the order is found.
- The POST /orders test (`backend/tests/test_orders.py:20-31`) sends no
  `menu_item_ids` and expects 201. The handler answers that body with 400.
  The model follows the handler (see `Backend.Store.CreateOrder`).

## Model

| member | source | states |
|---|---|---|
| `Records.UpdatedTable` | backend/src/app.py:132-135 | The record after PUT /tables keeps `table_number`. `capacity` and `is_available` each take the supplied value when the body names them, and keep the old value otherwise. |
| `Records.UpdatedTableChangesOnlySupplied` | backend/src/app.py:132-135 | PUT /tables never changes `table_number`. A supplied `capacity` or `is_available` is written with the supplied value. A column changes only when the body names it. A body naming neither leaves the table as it was. |
| `Records.UpdatedTableIdempotent` | backend/src/app.py:132-135 | Applying the same table update twice gives the same record as applying it once. |
| `Records.UpdatedMenuItem` | backend/src/app.py:199-206 | The record after PUT /menu: each of `name`, `description`, `price` and `category` takes the supplied value when the body names it, and keeps the old value otherwise. |
| `Records.UpdatedMenuItemChangesOnlySupplied` | backend/src/app.py:199-206 | PUT /menu writes every column the body names with the supplied value. A column changes only when the body names it. A body naming none of the four leaves the item as it was. |
| `Records.UpdatedMenuItemIdempotent` | backend/src/app.py:199-206 | Applying the same menu update twice gives the same record as applying it once. |
| `Queries.AscendingKeys` | backend/src/app.py:90-99 | A full scan of a table lists only stored ids below the counter, in strictly ascending order. |
| `Queries.AscendingKeysComplete` | backend/src/app.py:90 | A full scan misses no stored id. |
| `Queries.OrderItemIds` | backend/src/app.py:247 | Loading `order.order_items` gives only items of that order, in strictly ascending id order. |
| `Queries.OrderItemIdsComplete` | backend/src/app.py:247 | Loading an order's items misses none of them. |
| `Queries.Lines` | backend/src/app.py:246-254 | GET /orders/<id> gives one line per order item, in order. Each line carries the item's id, its menu item id, the current name of that menu item (joined at read time) and its quantity. |
| `Queries.NewItems` | backend/src/app.py:234-237 | The items one order creation inserts occupy exactly the id block [first, first + n). Item `first + j` belongs to the new order, references the j-th listed menu id, and has quantity 1. |
| `Queries.NewItemsOnePerEntry` | backend/src/app.py:234-237 | Exactly one order item is created per listed id, duplicates included. Repeating a menu id creates distinct items, not a merged quantity. |
| `Queries.NoItemsOfFreshOrder` | backend/src/app.py:247 | An order that owns no item below the counter reads back with no items. |
| `Queries.ScanAgreesBelow` | backend/src/app.py:247 | An order's item scan depends only on the items below the counter. |
| `Queries.JoinStep` | backend/src/app.py:246-254 | An item of the order whose menu item still exists extends the scan by its own id. It keeps every name resolvable and adds exactly its own line. |
| `Queries.JoinFails` | backend/src/app.py:251 | One item of the order whose menu item is gone is enough to make the whole join fail. |
| `Queries.EveryNameResolves` | backend/src/app.py:65-67 | When every order item references a stored menu item, the join of every order resolves all its names. |
| `Queries.BlockLines` | backend/src/app.py:234-254 | Take order items that fill one id block, listing `xs` on the menu. Their lines carry `xs` in order, with each item's menu name and quantity 1. |
| `Queries.BlockScan` | backend/src/app.py:234-247 | Take an order whose items fill one id block and which owns nothing below it. Its items read back as exactly that block, in ascending order. |
| `Queries.MergedItems` | backend/src/app.py:236-239 | After the commit, the item map holds the old items unchanged below `first`, the new block of items above them, and nothing further. |
| `Queries.CreatedOrderScan` | backend/src/app.py:231-247 | The order just created reads back with exactly the items inserted for it, in list order. |
| `Queries.CreatedOrderLines` | backend/src/app.py:225-254 | GET /orders/<id> right after a successful POST /orders resolves every name. It gives exactly one line per listed menu id, in list order. Each line carries that menu id, that menu item's name and quantity 1. |
| `Queries.ScanSkipsOtherBlock` | backend/src/app.py:234-247 | Items appended for one order do not show up in any other order's scan. |
| `Queries.LinesAgree` | backend/src/app.py:247-254 | The join reads only the order's own items, so item maps that agree on those items give the same lines. |
| `Queries.OtherOrderScanUnchanged` | backend/src/app.py:231-239 | POST /orders leaves every other order's items and every existing item record unchanged. |
| `Queries.OtherOrderLinesUnchanged` | backend/src/app.py:231-254 | For every other order, GET /orders/<id> after a POST /orders gives the same item ids, the same join outcome and the same lines as before. |
| `Backend.Store.constructor` | backend/tests/test_tables.py:11 | The freshly created schema is empty and satisfies the store invariant. |
| `Backend.Store.CreateTable` | backend/src/app.py:73-86 | The cases are as follows. **400:** the body is missing or lacks `table_number` or `capacity`; the store is unchanged. **500:** the number is already taken (the unique constraint at commit); the store is unchanged. **201:** otherwise. It adds exactly one table under a fresh id with the given number and capacity and `is_available` true, even if the body says otherwise. Nothing else changes, and table numbers stay unique. |
| `Backend.Store.GetTable` | backend/src/app.py:102-111 | 404 if and only if the id is unknown. Otherwise 200 with the stored table. |
| `Backend.Store.ListTables` | backend/src/app.py:88-100 | One row per stored table, by ascending id. Each row carries the id and the stored record. |
| `Backend.Store.UpdateTable` | backend/src/app.py:125-138 | The cases are as follows. **404:** the id is unknown; this is checked before the body. **400:** the body is missing or `{}`; nothing changes. **200:** otherwise. Only that table changes, and only in the supplied `capacity`/`is_available`. A body holding only other keys (even `table_number`) changes nothing. All other records and the counters are untouched. |
| `Backend.Store.DeleteTable` | backend/src/app.py:140-145 | 404 for an unknown id. 500 if and only if the table exists and some order references it, because nulling that order's NOT NULL `table_id` fails the commit. On 404 and 500 nothing changes. Otherwise 200, and it removes exactly that table and nothing else. |
| `Backend.Store.CreateMenuItem` | backend/src/app.py:148-163 | The cases are as follows. **400:** the body is missing or lacks `name` or `price`; the store is unchanged. **201:** otherwise. It adds exactly one item under a fresh id with that name and price. `description` and `category` are as supplied, or null. Nothing else changes. |
| `Backend.Store.GetMenuItem` | backend/src/app.py:180-190 | 404 if and only if the id is unknown. Otherwise 200 with the stored item. |
| `Backend.Store.ListMenuItems` | backend/src/app.py:165-178 | One row per stored menu item, by ascending id. Each row carries the id and the stored record. |
| `Backend.Store.UpdateMenuItem` | backend/src/app.py:192-209 | The cases are as follows. **404:** the id is unknown; this is checked before the body. **400:** the body is missing or `{}`; nothing changes. **200:** otherwise. Only that item changes, in exactly the supplied columns among name, description, price and category. Everything else is untouched. |
| `Backend.Store.DeleteMenuItem` | backend/src/app.py:211-216 | 404 for an unknown id. 500 if and only if the menu item exists and some order item references it, because nulling that item's NOT NULL `menu_item_id` fails the commit. On 404 and 500 nothing changes. Otherwise 200, and it removes exactly that menu item and nothing else. |
| `Backend.Store.CreateOrder` | backend/src/app.py:219-241 | The cases are as follows. **400:** the body is missing or lacks `table_id` or `menu_item_ids`. **404:** the keys are present but the table or any listed menu id is unknown. **201:** otherwise. On 400 and 404 the store is unchanged: no order and no order item persist. On 201 it adds exactly one order under a fresh id, with the given table, the clock reading, status "Created" and the notes as supplied or null. It also adds exactly the items `NewItems` describes, one per listed id in list order, each pointing at the new order. No existing record changes. |
| `Backend.Store.PendingItems` | backend/src/app.py:234-237 | Succeeds if and only if every listed id is on the menu. On success the pending items are exactly `NewItems` from the next free item id. |
| `Backend.Store.JoinItems` | backend/src/app.py:246-254 | Succeeds if and only if every item of the order names an existing menu item. On success it yields exactly `Lines` over the order's items in ascending id order. The store invariant makes it always succeed inside GET /orders/<id>. |
| `Backend.Store.GetOrder` | backend/src/app.py:243-264 | 404 if and only if the order id is unknown, and 200 otherwise. Every item name of the order resolves, since a referenced menu item cannot be deleted. On 200 it gives the order's id, table, date, status and notes, and `Lines` over exactly that order's items. |
| `Scenarios.CreateTableThenRead` | backend/tests/test_tables.py:16-28 | Creating table 201 with capacity 4 gives 201. Reading it back gives number 201, capacity 4 and available. |
| `Scenarios.CreateMenuItemThenRead` | backend/tests/test_menu.py:16-28 | Creating "Test Item" at 9.99 gives 201. Reading it back gives that name and price, with no description or category. |
| `Scenarios.DuplicateTableNumber` | backend/src/app.py:33 | A second table with a number already in use is refused (500). The first table reads back unchanged. |
| `Scenarios.OrderRoundTrip` | backend/src/app.py:219-264 | POST /orders with a known table and known menu ids gives 201. GET /orders/<id> then gives 200 with that table, clock reading and notes, status "Created", and one line per listed id in list order, carrying the menu item's name and quantity 1. |
| `Scenarios.OrderLeavesOthersAlone` | backend/src/app.py:231-239 | Take any other order, meaning any id the POST did not just create. GET /orders/<id> answers for it exactly as it did before the POST. |
| `Scenarios.RepeatedOrderPost` | backend/src/app.py:231-241 | The same POST /orders sent twice gives the same status both times. When that status is 201, the two orders are distinct and both are stored. |
| `Scenarios.ReferencedDeletesRefused` | backend/src/app.py:140-145 | After an order for table 1 with one "Soup" item, deleting that menu item and deleting that table both give 500. GET /orders/<id> still gives 200 with one line named "Soup". |
| `Scenarios.OrderWithNoItems` | backend/src/app.py:222-241 | An empty `menu_item_ids` list gives 201. The order then reads back with no items and null notes. |

## Left out

- Flask routing, JSON parsing and response envelopes are not modelled. Neither are the error handlers' message bodies, the `/` greeting and `app.run`. Outcomes are status codes only.
- Selecting the environment and configuration and building the database URI are not modelled. This includes the error raised when no password is set. They are process setup.
- `order_date` comes from the wall clock. It is the `now` parameter of `Backend.Store.CreateOrder`, an opaque value stored once. Its ISO formatting is not modelled.
- `price` is a float column. It is modelled as `real`, is only stored and returned, and no float rounding is modelled.
- JSON values of the wrong type are not expressible in the body types, and neither is a JSON null for a NOT NULL column. In the source, a null `table_number`, `name` or `price` is refused at commit (500). A null `table_id` or menu id reaches `get_or_404(None)` and answers 404 (`backend/src/app.py:229`, `:235`). The model does not cover these bodies.
- Backend.Store.CreateTable: `table_number` and `capacity` are unbounded integers. The `Integer` columns (`backend/src/app.py:33-34`) are 32-bit on PostgreSQL and bind as 64-bit on SQLite, so an out-of-range value fails at commit with 500 and nothing stored. The model answers 201 for it.
- Backend.Store.UpdateTable: a `capacity` outside the `Integer` column's range fails at commit with 500 in the source. The model answers 200 and stores it.
- Backend.Store.CreateMenuItem: `name` is `String(100)` and `category` is `String(50)` (`backend/src/app.py:43`, `:46`). PostgreSQL refuses longer values at commit (500, nothing stored), while SQLite stores them. The model has no length limit and answers 201.
- Backend.Store.UpdateMenuItem: the same length limits apply to a supplied `name` or `category`. The model answers 200 for over-long values.
- Database sessions: rollback mechanics, lazy loading and backrefs are abstracted as "changes apply at commit". Counters advance only on success. An id consumed by a flush that was later rolled back is not modelled (`create_order` autoflushes before each menu lookup). Nor is SQLite's reuse of the highest deleted id. The model promises only that a new id is not in use.
- Deletes: the failed commit for a referenced table or menu item is modelled as its outcome (500, nothing deleted). The ORM's loading of the children and its UPDATE statements are not modelled.
- Order of `order.order_items` and of the two list queries: SQL leaves it unspecified. The model reads rows in ascending primary-key order, which for order items is also the order in which they were inserted.
- Concurrency: the model assumes one request at a time, so nothing can delete a table or menu item during `create_order`.
- `backend/tests/test_orders.py:20-31` expects 201 for a body without `menu_item_ids`. That contradicts the handler, and the model follows the handler.
- `backend/tests/conftest.py` and the test fixtures are harness code and are not modelled.
