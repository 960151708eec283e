/** The four record kinds the dine-in backend persists (table, menu item,
    order, order item), the JSON request bodies its handlers read, and the
    HTTP status codes they answer with. */
module Records {

  datatype Option<T> = None | Some(value: T)

  /** Whether a key is present in a JSON request object, and its value when it is.
      A nullable column takes an `Option` value, so `Present(None)` is an explicit
      JSON null. */
  datatype Field<T> = Absent | Present(value: T)

  /** The value a column holds after an assignment guarded by `if key in data`:
      a supplied key replaces the old value, a missing one keeps it. */
  function Patch<T>(current: T, f: Field<T>): T
  {
    if f.Present? then f.value else current
  }

  /** The value of `data.get(key)`: a missing key reads as null. */
  function GetOrNull<T>(f: Field<Option<T>>): Option<T>
  {
    if f.Present? then f.value else None
  }

  const OK: int := 200
  const CREATED: int := 201
  const BAD_REQUEST: int := 400
  const NOT_FOUND: int := 404
  /** An exception escaping a handler (a failed commit, an attribute read on null). */
  const SERVER_ERROR: int := 500

  /** The float `price` column; the backend stores and returns it and never computes with it. */
  type Price = real

  /** The wall-clock value `order_date` receives when an order is created. */
  type Timestamp = int

  /** Default of the `status` column of an order. */
  const INITIAL_STATUS: string := "Created"

  /** Default of the `quantity` column of an order item. */
  const DEFAULT_QUANTITY: int := 1

  datatype Table = Table(tableNumber: int, capacity: Option<int>, isAvailable: Option<bool>)

  datatype MenuItem = MenuItem(name: string, description: Option<string>, price: Price, category: Option<string>)

  datatype Order = Order(tableId: int, orderDate: Timestamp, status: string, customerNotes: Option<string>)

  datatype OrderItem = OrderItem(orderId: int, menuItemId: int, quantity: int)

  /** A JSON object sent to POST or PUT /tables. `otherKeys` records that the
      object holds some key the handlers do not read. */
  datatype TableBody = TableBody(
    tableNumber: Field<int>,
    capacity: Field<Option<int>>,
    isAvailable: Field<Option<bool>>,
    otherKeys: bool)
  {
    /** The JSON object `{}`. */
    predicate IsEmpty()
    {
      tableNumber.Absent? && capacity.Absent? && isAvailable.Absent? && !otherKeys
    }
  }

  /** A JSON object sent to POST or PUT /menu. */
  datatype MenuBody = MenuBody(
    name: Field<string>,
    description: Field<Option<string>>,
    price: Field<Price>,
    category: Field<Option<string>>,
    otherKeys: bool)
  {
    predicate IsEmpty()
    {
      name.Absent? && description.Absent? && price.Absent? && category.Absent? && !otherKeys
    }
  }

  /** A JSON object sent to POST /orders. */
  datatype OrderBody = OrderBody(
    tableId: Field<int>,
    menuItemIds: Field<seq<int>>,
    customerNotes: Field<Option<string>>)

  /** `not data`: no JSON body at all (or a false-valued one), or the empty object. */
  predicate NoTableData(body: Option<TableBody>)
  {
    body.None? || body.value.IsEmpty()
  }

  predicate NoMenuData(body: Option<MenuBody>)
  {
    body.None? || body.value.IsEmpty()
  }

  /** The guard of POST /tables passes: both `table_number` and `capacity` are keys of the body. */
  predicate HasTableKeys(body: Option<TableBody>)
  {
    body.Some? && body.value.tableNumber.Present? && body.value.capacity.Present?
  }

  /** The guard of POST /menu passes: both `name` and `price` are keys of the body. */
  predicate HasMenuKeys(body: Option<MenuBody>)
  {
    body.Some? && body.value.name.Present? && body.value.price.Present?
  }

  /** The guard of POST /orders passes: both `table_id` and `menu_item_ids` are keys of the body. */
  predicate HasOrderKeys(body: Option<OrderBody>)
  {
    body.Some? && body.value.tableId.Present? && body.value.menuItemIds.Present?
  }

  /** The record PUT /tables/<id> leaves behind: `capacity` and `is_available`
      follow the body where it names them; `table_number` is never written. */
  function UpdatedTable(t: Table, b: TableBody): (r: Table)
    ensures r.tableNumber == t.tableNumber
    ensures b.capacity.Present? ==> r.capacity == b.capacity.value
    ensures b.capacity.Absent? ==> r.capacity == t.capacity
    ensures b.isAvailable.Present? ==> r.isAvailable == b.isAvailable.value
    ensures b.isAvailable.Absent? ==> r.isAvailable == t.isAvailable
  {
    t.(capacity := Patch(t.capacity, b.capacity), isAvailable := Patch(t.isAvailable, b.isAvailable))
  }

  /** The record PUT /menu/<id> leaves behind: each of the four columns follows the body where it names it. */
  function UpdatedMenuItem(m: MenuItem, b: MenuBody): (r: MenuItem)
    ensures b.name.Present? ==> r.name == b.name.value
    ensures b.name.Absent? ==> r.name == m.name
    ensures b.description.Present? ==> r.description == b.description.value
    ensures b.description.Absent? ==> r.description == m.description
    ensures b.price.Present? ==> r.price == b.price.value
    ensures b.price.Absent? ==> r.price == m.price
    ensures b.category.Present? ==> r.category == b.category.value
    ensures b.category.Absent? ==> r.category == m.category
  {
    MenuItem(Patch(m.name, b.name), Patch(m.description, b.description),
             Patch(m.price, b.price), Patch(m.category, b.category))
  }

  /** Every column the body names is written with the supplied value, and
      only those columns change. */
  lemma UpdatedTableChangesOnlySupplied(t: Table, b: TableBody)
    ensures UpdatedTable(t, b).tableNumber == t.tableNumber
    ensures b.capacity.Present? ==> UpdatedTable(t, b).capacity == b.capacity.value
    ensures b.isAvailable.Present? ==> UpdatedTable(t, b).isAvailable == b.isAvailable.value
    ensures UpdatedTable(t, b).capacity != t.capacity ==> b.capacity == Present(UpdatedTable(t, b).capacity)
    ensures UpdatedTable(t, b).isAvailable != t.isAvailable ==> b.isAvailable == Present(UpdatedTable(t, b).isAvailable)
    ensures b.capacity.Absent? && b.isAvailable.Absent? ==> UpdatedTable(t, b) == t
  {
  }

  /** Sending the same PUT body twice has the effect of sending it once. */
  lemma UpdatedTableIdempotent(t: Table, b: TableBody)
    ensures UpdatedTable(UpdatedTable(t, b), b) == UpdatedTable(t, b)
  {
  }

  lemma UpdatedMenuItemChangesOnlySupplied(m: MenuItem, b: MenuBody)
    ensures b.name.Present? ==> UpdatedMenuItem(m, b).name == b.name.value
    ensures b.description.Present? ==> UpdatedMenuItem(m, b).description == b.description.value
    ensures b.price.Present? ==> UpdatedMenuItem(m, b).price == b.price.value
    ensures b.category.Present? ==> UpdatedMenuItem(m, b).category == b.category.value
    ensures UpdatedMenuItem(m, b).name != m.name ==> b.name == Present(UpdatedMenuItem(m, b).name)
    ensures UpdatedMenuItem(m, b).description != m.description ==> b.description == Present(UpdatedMenuItem(m, b).description)
    ensures UpdatedMenuItem(m, b).price != m.price ==> b.price == Present(UpdatedMenuItem(m, b).price)
    ensures UpdatedMenuItem(m, b).category != m.category ==> b.category == Present(UpdatedMenuItem(m, b).category)
    ensures b.name.Absent? && b.description.Absent? && b.price.Absent? && b.category.Absent? ==> UpdatedMenuItem(m, b) == m
  {
  }

  lemma UpdatedMenuItemIdempotent(m: MenuItem, b: MenuBody)
    ensures UpdatedMenuItem(UpdatedMenuItem(m, b), b) == UpdatedMenuItem(m, b)
  {
  }
}
