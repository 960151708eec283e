/** The request handlers of the dine-in backend over an in-memory store.
    The database becomes one id-keyed map per record kind plus an
    auto-increment counter per kind. The session is abstracted as "changes
    apply at commit": a handler builds its changes in locals and assigns the
    store's fields only at the point where the source commits, so a handler
    that aborts first (a 400, a get_or_404, a failed commit) leaves the store
    exactly as it found it. */
module Backend {
  import opened Records
  import opened Queries

  /** No two tables share a `table_number` (the column's unique constraint). */
  ghost predicate UniqueTableNumbers(tables: map<int, Table>)
  {
    forall a, b :: a in tables && b in tables && a != b ==> tables[a].tableNumber != tables[b].tableNumber
  }

  /** Some table already carries number `n`, so inserting another would violate the unique constraint. */
  predicate NumberTaken(tables: map<int, Table>, n: int)
  {
    exists k :: k in tables && tables[k].tableNumber == n
  }

  /** Some order references table `id`. Deleting that table makes the ORM
      null the order's `table_id` at flush, which the NOT NULL column refuses. */
  predicate TableInUse(orders: map<int, Order>, id: int)
  {
    exists k :: k in orders && orders[k].tableId == id
  }

  /** Some order item references menu item `id`; deleting that menu item
      fails at commit in the same way, on `menu_item_id`. */
  predicate MenuItemInUse(items: map<int, OrderItem>, id: int)
  {
    exists k :: k in items && items[k].menuItemId == id
  }

  /** One row of GET /tables. */
  datatype TableRow = TableRow(tableId: int, table: Table)

  /** One row of GET /menu. */
  datatype MenuRow = MenuRow(itemId: int, item: MenuItem)

  /** The body of a successful GET /orders/<id>. */
  datatype OrderView = OrderView(
    orderId: int,
    tableId: int,
    orderDate: Timestamp,
    status: string,
    customerNotes: Option<string>,
    orderItems: seq<OrderLine>)

  class Store {
    var tables: map<int, Table>
    var menu: map<int, MenuItem>
    var orders: map<int, Order>
    var orderItems: map<int, OrderItem>
    /** The id the next insert of each kind receives. */
    var nextTableId: int
    var nextMenuId: int
    var nextOrderId: int
    var nextItemId: int

    /** Ids come from the counters; table numbers are unique; every order
        references a stored table and every order item a stored order and a
        stored menu item (the foreign keys: orders are never deleted, and a
        delete of a referenced table or menu item is refused); no handler ever
        writes `status` or `quantity`, so they keep their defaults. */
    ghost predicate Valid()
      reads this
    {
      && 1 <= nextTableId && 1 <= nextMenuId && 1 <= nextOrderId && 1 <= nextItemId
      && KeysBelow(tables, nextTableId)
      && KeysBelow(menu, nextMenuId)
      && KeysBelow(orders, nextOrderId)
      && KeysBelow(orderItems, nextItemId)
      && UniqueTableNumbers(tables)
      && (forall k :: k in orders ==> orders[k].tableId in tables)
      && (forall k :: k in orderItems ==> orderItems[k].orderId in orders)
      && (forall k :: k in orderItems ==> orderItems[k].menuItemId in menu)
      && (forall k :: k in orders ==> orders[k].status == INITIAL_STATUS)
      && (forall k :: k in orderItems ==> orderItems[k].quantity == DEFAULT_QUANTITY)
    }

    /** The empty database `db.create_all()` leaves. */
    constructor ()
      ensures Valid()
      ensures tables == map[] && menu == map[] && orders == map[] && orderItems == map[]
    {
      tables, menu, orders, orderItems := map[], map[], map[], map[];
      nextTableId, nextMenuId, nextOrderId, nextItemId := 1, 1, 1, 1;
    }

    // ---------------------------------------------------------------- tables

    /** POST /tables. */
    method CreateTable(body: Option<TableBody>) returns (code: int, id: int)
      requires Valid()
      modifies this
      ensures Valid()
      ensures code == BAD_REQUEST <==> !HasTableKeys(body)
      ensures code == SERVER_ERROR <==>
        HasTableKeys(body) && NumberTaken(old(tables), body.value.tableNumber.value)
      ensures code == CREATED <==>
        HasTableKeys(body) && !NumberTaken(old(tables), body.value.tableNumber.value)
      ensures code != CREATED ==> unchanged(this)
      ensures code == CREATED ==>
        && id !in old(tables)
        && tables == old(tables)[id := Table(body.value.tableNumber.value, body.value.capacity.value, Some(true))]
        && menu == old(menu) && orders == old(orders) && orderItems == old(orderItems)
        && nextMenuId == old(nextMenuId) && nextOrderId == old(nextOrderId) && nextItemId == old(nextItemId)
    {
      id := 0;
      if !HasTableKeys(body) {
        return BAD_REQUEST, id;
      }
      var number := body.value.tableNumber.value;
      var pending := Table(number, body.value.capacity.value, Some(true));
      // db.session.commit(): the unique constraint on table_number rejects a duplicate.
      if NumberTaken(tables, number) {
        return SERVER_ERROR, id;
      }
      id := nextTableId;
      tables := tables[id := pending];
      nextTableId := nextTableId + 1;
      code := CREATED;
    }

    /** GET /tables/<id>. */
    method GetTable(id: int) returns (code: int, t: Option<Table>)
      requires Valid()
      ensures code == OK <==> id in tables
      ensures code == NOT_FOUND <==> id !in tables
      ensures t.Some? <==> code == OK
      ensures t.Some? ==> t.value == tables[id]
    {
      if id !in tables {
        return NOT_FOUND, None;
      }
      return OK, Some(tables[id]);
    }

    /** GET /tables: every stored table once, by ascending id. */
    method ListTables() returns (rows: seq<TableRow>)
      requires Valid()
      ensures |rows| == |AscendingKeys(tables, nextTableId)|
      ensures forall j :: 0 <= j < |rows| ==>
        rows[j].tableId == AscendingKeys(tables, nextTableId)[j] && rows[j].table == tables[rows[j].tableId]
    {
      rows := [];
      var k := 1;
      while k < nextTableId
        invariant 1 <= k <= nextTableId
        invariant |rows| == |AscendingKeys(tables, k)|
        invariant forall j :: 0 <= j < |rows| ==>
          rows[j].tableId == AscendingKeys(tables, k)[j] && rows[j].table == tables[rows[j].tableId]
      {
        if k in tables {
          rows := rows + [TableRow(k, tables[k])];
        }
        k := k + 1;
      }
    }

    /** PUT /tables/<id>: the lookup comes before the body check. */
    method UpdateTable(id: int, body: Option<TableBody>) returns (code: int)
      requires Valid()
      modifies this
      ensures Valid()
      ensures code == NOT_FOUND <==> id !in old(tables)
      ensures code == BAD_REQUEST <==> id in old(tables) && NoTableData(body)
      ensures code == OK <==> id in old(tables) && !NoTableData(body)
      ensures code != OK ==> unchanged(this)
      ensures code == OK ==>
        && tables == old(tables)[id := UpdatedTable(old(tables)[id], body.value)]
        && menu == old(menu) && orders == old(orders) && orderItems == old(orderItems)
        && nextTableId == old(nextTableId) && nextMenuId == old(nextMenuId)
        && nextOrderId == old(nextOrderId) && nextItemId == old(nextItemId)
    {
      if id !in tables {
        return NOT_FOUND;
      }
      if NoTableData(body) {
        return BAD_REQUEST;
      }
      var t := tables[id];
      var data := body.value;
      if data.capacity.Present? {
        t := t.(capacity := data.capacity.value);
      }
      if data.isAvailable.Present? {
        t := t.(isAvailable := data.isAvailable.value);
      }
      tables := tables[id := t];
      code := OK;
    }

    /** DELETE /tables/<id>. The `Table.orders` relationship has no delete
        cascade, so the flush sets `table_id` of each referencing order to
        null; the column is NOT NULL, the commit raises, and nothing is
        deleted. */
    method DeleteTable(id: int) returns (code: int)
      requires Valid()
      modifies this
      ensures Valid()
      ensures code == NOT_FOUND <==> id !in old(tables)
      ensures code == SERVER_ERROR <==> id in old(tables) && TableInUse(old(orders), id)
      ensures code == OK <==> id in old(tables) && !TableInUse(old(orders), id)
      ensures code != OK ==> unchanged(this)
      ensures code == OK ==>
        && tables == old(tables) - {id}
        && menu == old(menu) && orders == old(orders) && orderItems == old(orderItems)
        && nextTableId == old(nextTableId) && nextMenuId == old(nextMenuId)
        && nextOrderId == old(nextOrderId) && nextItemId == old(nextItemId)
    {
      if id !in tables {
        return NOT_FOUND;
      }
      // db.session.commit(): nulling the referencing orders' table_id is refused.
      if TableInUse(orders, id) {
        return SERVER_ERROR;
      }
      tables := tables - {id};
      code := OK;
    }

    // ------------------------------------------------------------------ menu

    /** POST /menu: `description` and `category` default to null. */
    method CreateMenuItem(body: Option<MenuBody>) returns (code: int, id: int)
      requires Valid()
      modifies this
      ensures Valid()
      ensures code == BAD_REQUEST <==> !HasMenuKeys(body)
      ensures code == CREATED <==> HasMenuKeys(body)
      ensures code != CREATED ==> unchanged(this)
      ensures code == CREATED ==>
        && id !in old(menu)
        && menu == old(menu)[id := MenuItem(body.value.name.value, GetOrNull(body.value.description),
                                            body.value.price.value, GetOrNull(body.value.category))]
        && tables == old(tables) && orders == old(orders) && orderItems == old(orderItems)
        && nextTableId == old(nextTableId) && nextOrderId == old(nextOrderId) && nextItemId == old(nextItemId)
    {
      id := 0;
      if !HasMenuKeys(body) {
        return BAD_REQUEST, id;
      }
      var data := body.value;
      var pending := MenuItem(data.name.value, GetOrNull(data.description), data.price.value, GetOrNull(data.category));
      id := nextMenuId;
      menu := menu[id := pending];
      nextMenuId := nextMenuId + 1;
      code := CREATED;
    }

    /** GET /menu/<id>. */
    method GetMenuItem(id: int) returns (code: int, m: Option<MenuItem>)
      requires Valid()
      ensures code == OK <==> id in menu
      ensures code == NOT_FOUND <==> id !in menu
      ensures m.Some? <==> code == OK
      ensures m.Some? ==> m.value == menu[id]
    {
      if id !in menu {
        return NOT_FOUND, None;
      }
      return OK, Some(menu[id]);
    }

    /** GET /menu: every stored menu item once, by ascending id. */
    method ListMenuItems() returns (rows: seq<MenuRow>)
      requires Valid()
      ensures |rows| == |AscendingKeys(menu, nextMenuId)|
      ensures forall j :: 0 <= j < |rows| ==>
        rows[j].itemId == AscendingKeys(menu, nextMenuId)[j] && rows[j].item == menu[rows[j].itemId]
    {
      rows := [];
      var k := 1;
      while k < nextMenuId
        invariant 1 <= k <= nextMenuId
        invariant |rows| == |AscendingKeys(menu, k)|
        invariant forall j :: 0 <= j < |rows| ==>
          rows[j].itemId == AscendingKeys(menu, k)[j] && rows[j].item == menu[rows[j].itemId]
      {
        if k in menu {
          rows := rows + [MenuRow(k, menu[k])];
        }
        k := k + 1;
      }
    }

    /** PUT /menu/<id>: the lookup comes before the body check. */
    method UpdateMenuItem(id: int, body: Option<MenuBody>) returns (code: int)
      requires Valid()
      modifies this
      ensures Valid()
      ensures code == NOT_FOUND <==> id !in old(menu)
      ensures code == BAD_REQUEST <==> id in old(menu) && NoMenuData(body)
      ensures code == OK <==> id in old(menu) && !NoMenuData(body)
      ensures code != OK ==> unchanged(this)
      ensures code == OK ==>
        && menu == old(menu)[id := UpdatedMenuItem(old(menu)[id], body.value)]
        && tables == old(tables) && orders == old(orders) && orderItems == old(orderItems)
        && nextTableId == old(nextTableId) && nextMenuId == old(nextMenuId)
        && nextOrderId == old(nextOrderId) && nextItemId == old(nextItemId)
    {
      if id !in menu {
        return NOT_FOUND;
      }
      if NoMenuData(body) {
        return BAD_REQUEST;
      }
      var m := menu[id];
      var data := body.value;
      if data.name.Present? {
        m := m.(name := data.name.value);
      }
      if data.description.Present? {
        m := m.(description := data.description.value);
      }
      if data.price.Present? {
        m := m.(price := data.price.value);
      }
      if data.category.Present? {
        m := m.(category := data.category.value);
      }
      menu := menu[id := m];
      code := OK;
    }

    /** DELETE /menu/<id>. The `order_items` backref of a menu item has no
        delete cascade either, so a referenced menu item cannot be deleted:
        the commit refuses the nulled `menu_item_id`. */
    method DeleteMenuItem(id: int) returns (code: int)
      requires Valid()
      modifies this
      ensures Valid()
      ensures code == NOT_FOUND <==> id !in old(menu)
      ensures code == SERVER_ERROR <==> id in old(menu) && MenuItemInUse(old(orderItems), id)
      ensures code == OK <==> id in old(menu) && !MenuItemInUse(old(orderItems), id)
      ensures code != OK ==> unchanged(this)
      ensures code == OK ==>
        && menu == old(menu) - {id}
        && tables == old(tables) && orders == old(orders) && orderItems == old(orderItems)
        && nextTableId == old(nextTableId) && nextMenuId == old(nextMenuId)
        && nextOrderId == old(nextOrderId) && nextItemId == old(nextItemId)
    {
      if id !in menu {
        return NOT_FOUND;
      }
      // db.session.commit(): nulling the referencing items' menu_item_id is refused.
      if MenuItemInUse(orderItems, id) {
        return SERVER_ERROR;
      }
      menu := menu - {id};
      code := OK;
    }

    // ---------------------------------------------------------------- orders

    /** POST /orders. The key check comes first, then the table lookup, then
        one menu lookup per listed id in list order; only when all of them
        succeed are the order and its items committed, together. `now` is the
        clock reading that `order_date` receives. */
    method CreateOrder(body: Option<OrderBody>, now: Timestamp) returns (code: int, orderId: int)
      requires Valid()
      modifies this
      ensures Valid()
      ensures code == BAD_REQUEST <==> !HasOrderKeys(body)
      ensures code == NOT_FOUND <==>
        HasOrderKeys(body) &&
        !(body.value.tableId.value in old(tables) && AllOnMenu(body.value.menuItemIds.value, old(menu)))
      ensures code == CREATED <==>
        HasOrderKeys(body) &&
        body.value.tableId.value in old(tables) && AllOnMenu(body.value.menuItemIds.value, old(menu))
      ensures code != CREATED ==> unchanged(this)
      ensures code == CREATED ==>
        && orderId !in old(orders)
        && orders == old(orders)[orderId := Order(body.value.tableId.value, now, INITIAL_STATUS,
                                                  GetOrNull(body.value.customerNotes))]
        && (forall k :: k in old(orderItems) ==> k < old(nextItemId) && old(orderItems)[k].orderId != orderId)
        && orderItems == old(orderItems) + NewItems(old(nextItemId), orderId, body.value.menuItemIds.value)
        && nextItemId == old(nextItemId) + |body.value.menuItemIds.value|
        && tables == old(tables) && menu == old(menu)
        && nextTableId == old(nextTableId) && nextMenuId == old(nextMenuId)
    {
      orderId := 0;
      if !HasOrderKeys(body) {
        return BAD_REQUEST, orderId;
      }
      var tableId := body.value.tableId.value;
      var xs := body.value.menuItemIds.value;
      if tableId !in tables {
        return NOT_FOUND, orderId;
      }
      // db.session.add(new_order): pending until the commit.
      var oid := nextOrderId;
      var pendingOrder := Order(tableId, now, INITIAL_STATUS, GetOrNull(body.value.customerNotes));
      var first := nextItemId;
      var ok, pendingItems := PendingItems(oid, xs);
      if !ok {
        return NOT_FOUND, orderId;
      }
      MergedItems(orderItems, oid, first, xs, orderItems + pendingItems);
      // db.session.commit()
      orderId := oid;
      orders := orders[oid := pendingOrder];
      orderItems := orderItems + pendingItems;
      nextOrderId := nextOrderId + 1;
      nextItemId := first + |xs|;
      code := CREATED;
    }

    /** The loop of POST /orders: each listed id is looked up on the menu and
        becomes a pending item of order `oid`; the first id missing from the
        menu stops the loop, where the source answers 404. */
    method PendingItems(oid: int, xs: seq<int>) returns (ok: bool, pending: map<int, OrderItem>)
      ensures ok <==> AllOnMenu(xs, menu)
      ensures ok ==> pending == NewItems(nextItemId, oid, xs)
    {
      var items := menu;
      var first := nextItemId;
      pending := map[];
      var i := 0;
      while i < |xs|
        invariant 0 <= i <= |xs|
        invariant AllOnMenu(xs[..i], items)
        invariant pending == NewItems(first, oid, xs[..i])
      {
        if xs[i] !in items {
          return false, pending;
        }
        NewItemsStep(first, oid, xs, i);
        pending := pending[first + i := OrderItem(oid, xs[i], DEFAULT_QUANTITY)];
        i := i + 1;
      }
      assert xs[..i] == xs;
      ok := true;
    }

    /** GET /orders/<id>: the order's fields and one line per order item, each
        joined at read time with the name of the menu item it references.
        Since a referenced menu item cannot be deleted, every name resolves. */
    method GetOrder(id: int) returns (code: int, view: Option<OrderView>)
      requires Valid()
      ensures code == NOT_FOUND <==> id !in orders
      ensures code == OK <==> id in orders
      ensures code == OK ==> NamesResolve(orderItems, menu, OrderItemIds(orderItems, id, nextItemId))
      ensures view.Some? <==> code == OK
      ensures code == OK ==>
        view.value == OrderView(id, orders[id].tableId, orders[id].orderDate, orders[id].status, orders[id].customerNotes,
                                Lines(orderItems, menu, OrderItemIds(orderItems, id, nextItemId)))
    {
      if id !in orders {
        return NOT_FOUND, None;
      }
      var order := orders[id];
      EveryNameResolves(orderItems, menu, id, nextItemId);
      var ok, lines := JoinItems(id);
      return OK, Some(OrderView(id, order.tableId, order.orderDate, order.status, order.customerNotes, lines));
    }

    /** The loop of GET /orders/<id> over `order.order_items`: one line per
        item of order `id`, each joined with its menu item's name. `ok` is
        false when some item's menu item is gone, where reading its name off
        null would fail; the store invariant rules that out. */
    method JoinItems(id: int) returns (ok: bool, lines: seq<OrderLine>)
      requires 1 <= nextItemId
      ensures ok <==> NamesResolve(orderItems, menu, OrderItemIds(orderItems, id, nextItemId))
      ensures ok ==> lines == Lines(orderItems, menu, OrderItemIds(orderItems, id, nextItemId))
    {
      var items, names, next := orderItems, menu, nextItemId;
      lines := [];
      var k := 1;
      while k < next
        invariant 1 <= k <= next
        invariant NamesResolve(items, names, OrderItemIds(items, id, k))
        invariant lines == Lines(items, names, OrderItemIds(items, id, k))
      {
        if k in items && items[k].orderId == id {
          if items[k].menuItemId !in names {
            JoinFails(items, names, id, next, k);
            return false, [];
          }
          JoinStep(items, names, id, k);
          lines := lines + [LineFor(items, names, k)];
        } else {
          JoinSkip(items, id, k);
        }
        k := k + 1;
      }
      ok := true;
    }
  }
}
