/** Clients of the store: request sequences and what the handlers' contracts
    let a caller conclude about them, including the repository's own tests. */
module Scenarios {
  import opened Records
  import opened Queries
  import opened Backend

  /** The test of POST /tables: a table created with number 201 and capacity 4
      reads back with those values and available. */
  method CreateTableThenRead() returns (postCode: int, getCode: int, t: Option<Table>)
    ensures postCode == CREATED && getCode == OK
    ensures t == Some(Table(201, Some(4), Some(true)))
  {
    var s := new Store();
    var id;
    postCode, id := s.CreateTable(Some(TableBody(Present(201), Present(Some(4)), Absent, false)));
    getCode, t := s.GetTable(id);
  }

  /** The test of POST /menu: an item created with a name and a price reads
      back with them, and with no description or category. */
  method CreateMenuItemThenRead() returns (postCode: int, getCode: int, m: Option<MenuItem>)
    ensures postCode == CREATED && getCode == OK
    ensures m == Some(MenuItem("Test Item", None, 9.99, None))
  {
    var s := new Store();
    var id;
    postCode, id := s.CreateMenuItem(Some(MenuBody(Present("Test Item"), Absent, Present(9.99), Absent, false)));
    getCode, m := s.GetMenuItem(id);
  }

  /** A second table with a number already in use is refused at commit, and
      the first one reads back unchanged. */
  method DuplicateTableNumber() returns (first: int, second: int, t: Option<Table>)
    ensures first == CREATED && second == SERVER_ERROR
    ensures t == Some(Table(7, Some(2), Some(true)))
  {
    var s := new Store();
    var id1, id2, c;
    first, id1 := s.CreateTable(Some(TableBody(Present(7), Present(Some(2)), Absent, false)));
    assert NumberTaken(s.tables, 7) by { assert s.tables[id1].tableNumber == 7; }
    second, id2 := s.CreateTable(Some(TableBody(Present(7), Present(Some(8)), Absent, false)));
    c, t := s.GetTable(id1);
  }

  /** POST /orders followed by GET /orders/<id>: the order reads back with the
      table, clock reading and notes that were sent, status "Created", and one
      line per listed menu id in list order, named after that menu item. */
  method OrderRoundTrip(s: Store, tableId: int, xs: seq<int>, notes: Option<string>, now: Timestamp)
    returns (postCode: int, orderId: int, getCode: int, view: Option<OrderView>)
    requires s.Valid()
    requires tableId in s.tables && AllOnMenu(xs, s.menu)
    modifies s
    ensures s.Valid()
    ensures postCode == CREATED && getCode == OK && view.Some?
    ensures view.value.orderId == orderId && view.value.tableId == tableId && view.value.orderDate == now
    ensures view.value.status == INITIAL_STATUS && view.value.customerNotes == notes
    ensures |view.value.orderItems| == |xs|
    ensures forall j :: 0 <= j < |xs| ==>
      && view.value.orderItems[j].menuItemId == xs[j]
      && view.value.orderItems[j].menuItemName == old(s.menu)[xs[j]].name
      && view.value.orderItems[j].quantity == DEFAULT_QUANTITY
  {
    var first := s.nextItemId;
    ghost var items := s.orderItems;
    postCode, orderId := s.CreateOrder(Some(OrderBody(Present(tableId), Present(xs), Present(notes))), now);
    CreatedOrderLines(items, s.menu, orderId, first, xs, s.orderItems, s.nextItemId);
    getCode, view := s.GetOrder(orderId);
  }

  /** POST /orders leaves what GET /orders/<id> answers for every other order as it was. */
  method OrderLeavesOthersAlone(s: Store, other: int, body: Option<OrderBody>, now: Timestamp)
    returns (before: int, beforeView: Option<OrderView>, postCode: int, orderId: int, after: int, afterView: Option<OrderView>)
    requires s.Valid()
    modifies s
    ensures s.Valid()
    ensures postCode == CREATED && other in old(s.orders) ==> other != orderId
    ensures postCode != CREATED || other != orderId ==> after == before && afterView == beforeView
  {
    before, beforeView := s.GetOrder(other);
    ghost var items, next := s.orderItems, s.nextItemId;
    postCode, orderId := s.CreateOrder(body, now);
    if postCode == CREATED && other != orderId {
      OtherOrderLinesUnchanged(items, s.menu, orderId, other, next, body.value.menuItemIds.value, s.orderItems, s.nextItemId);
    }
    after, afterView := s.GetOrder(other);
  }

  /** POST /orders is not idempotent: the same body sent twice creates two orders. */
  method RepeatedOrderPost(s: Store, body: Option<OrderBody>, now: Timestamp)
    returns (code1: int, id1: int, code2: int, id2: int)
    requires s.Valid()
    modifies s
    ensures s.Valid()
    ensures code1 == code2
    ensures code1 == CREATED ==> id1 != id2 && id1 in s.orders && id2 in s.orders
  {
    code1, id1 := s.CreateOrder(body, now);
    code2, id2 := s.CreateOrder(body, now);
  }

  /** Neither the menu item nor the table behind an order can be deleted:
      both commits are refused, and the order still reads back with the
      item's name. */
  method ReferencedDeletesRefused()
    returns (orderCode: int, menuDeleteCode: int, tableDeleteCode: int, getCode: int, view: Option<OrderView>)
    ensures orderCode == CREATED && menuDeleteCode == SERVER_ERROR && tableDeleteCode == SERVER_ERROR
    ensures getCode == OK && view.Some?
    ensures |view.value.orderItems| == 1 && view.value.orderItems[0].menuItemName == "Soup"
  {
    var s := new Store();
    var c, tableId := s.CreateTable(Some(TableBody(Present(1), Present(Some(4)), Absent, false)));
    var c2, itemId := s.CreateMenuItem(Some(MenuBody(Present("Soup"), Absent, Present(4.5), Absent, false)));
    assert AllOnMenu([itemId], s.menu);
    var first := s.nextItemId;
    ghost var items := s.orderItems;
    var orderId;
    orderCode, orderId := s.CreateOrder(Some(OrderBody(Present(tableId), Present([itemId]), Absent)), 0);
    CreatedOrderLines(items, s.menu, orderId, first, [itemId], s.orderItems, s.nextItemId);
    ghost var ids := OrderItemIds(s.orderItems, orderId, s.nextItemId);
    assert MenuItemInUse(s.orderItems, itemId) by {
      assert ids[0] in s.orderItems && s.orderItems[ids[0]].menuItemId == itemId;
    }
    menuDeleteCode := s.DeleteMenuItem(itemId);
    assert TableInUse(s.orders, tableId) by {
      assert orderId in s.orders && s.orders[orderId].tableId == tableId;
    }
    tableDeleteCode := s.DeleteTable(tableId);
    getCode, view := s.GetOrder(orderId);
  }

  /** An empty `menu_item_ids` list passes the key check and yields an order with no items. */
  method OrderWithNoItems() returns (postCode: int, getCode: int, view: Option<OrderView>)
    ensures postCode == CREATED && getCode == OK
    ensures view.Some? && view.value.orderItems == [] && view.value.customerNotes == None
  {
    var s := new Store();
    var c, tableId := s.CreateTable(Some(TableBody(Present(1), Present(Some(4)), Absent, false)));
    var first := s.nextItemId;
    ghost var items := s.orderItems;
    var orderId;
    postCode, orderId := s.CreateOrder(Some(OrderBody(Present(tableId), Present([]), Absent)), 0);
    CreatedOrderLines(items, s.menu, orderId, first, [], s.orderItems, s.nextItemId);
    getCode, view := s.GetOrder(orderId);
  }
}
