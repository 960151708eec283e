/** Pure views of the store's id-keyed maps: scans in primary-key order, the
    join of order items with menu names that GET /orders/<id> performs, and
    the order items POST /orders inserts. The handlers in module Backend are
    specified in terms of these functions. */
module Queries {
  import opened Records

  /** Every id of `m` lies in the range an auto-increment counter at `next` has handed out. */
  ghost predicate KeysBelow<V>(m: map<int, V>, next: int)
  {
    forall k :: k in m ==> 1 <= k < next
  }

  /** The keys of `m` in [1, next), in ascending order: the rows a full scan of a table returns. */
  function AscendingKeys<V>(m: map<int, V>, next: int): (ks: seq<int>)
    decreases next
    ensures forall i :: 0 <= i < |ks| ==> ks[i] in m && 1 <= ks[i] < next
    ensures forall i, j :: 0 <= i < j < |ks| ==> ks[i] < ks[j]
  {
    if next <= 1 then [] else AscendingKeys(m, next - 1) + (if next - 1 in m then [next - 1] else [])
  }

  /** The ids below `next` of the order items that belong to order `oid`, in
      ascending order: what `order.order_items` loads. */
  function OrderItemIds(items: map<int, OrderItem>, oid: int, next: int): (ids: seq<int>)
    decreases next
    ensures forall i :: 0 <= i < |ids| ==> ids[i] in items && items[ids[i]].orderId == oid && 1 <= ids[i] < next
    ensures forall i, j :: 0 <= i < j < |ids| ==> ids[i] < ids[j]
  {
    if next <= 1 then []
    else OrderItemIds(items, oid, next - 1)
         + (if next - 1 in items && items[next - 1].orderId == oid then [next - 1] else [])
  }

  /** A full scan misses no key. */
  lemma {:induction false} AscendingKeysComplete<V>(m: map<int, V>, next: int, k: int)
    requires k in m && 1 <= k < next
    ensures k in AscendingKeys(m, next)
    decreases next
  {
    if k < next - 1 {
      AscendingKeysComplete(m, next - 1, k);
    }
  }

  /** The scan misses no order item of the order. */
  lemma {:induction false} OrderItemIdsComplete(items: map<int, OrderItem>, oid: int, next: int, k: int)
    requires k in items && items[k].orderId == oid && 1 <= k < next
    ensures k in OrderItemIds(items, oid, next)
    decreases next
  {
    if k < next - 1 {
      OrderItemIdsComplete(items, oid, next - 1, k);
    }
  }

  /** Every listed order item exists and the menu item it references still exists. */
  ghost predicate NamesResolve(items: map<int, OrderItem>, menu: map<int, MenuItem>, ids: seq<int>)
  {
    forall j :: 0 <= j < |ids| ==> ids[j] in items && items[ids[j]].menuItemId in menu
  }

  /** One entry of the `order_items` list of GET /orders/<id>. */
  datatype OrderLine = OrderLine(orderItemId: int, menuItemId: int, menuItemName: string, quantity: int)

  /** The line for order item `k`, joined at read time with its menu item's name. */
  function LineFor(items: map<int, OrderItem>, menu: map<int, MenuItem>, k: int): OrderLine
    requires k in items && items[k].menuItemId in menu
  {
    OrderLine(k, items[k].menuItemId, menu[items[k].menuItemId].name, items[k].quantity)
  }

  /** The lines for the order items `ids`, in the same order. */
  function Lines(items: map<int, OrderItem>, menu: map<int, MenuItem>, ids: seq<int>): (lines: seq<OrderLine>)
    requires NamesResolve(items, menu, ids)
    ensures |lines| == |ids|
    ensures forall j :: 0 <= j < |ids| ==>
      && lines[j].orderItemId == ids[j]
      && lines[j].menuItemId == items[ids[j]].menuItemId
      && lines[j].menuItemName == menu[items[ids[j]].menuItemId].name
      && lines[j].quantity == items[ids[j]].quantity
  {
    if ids == [] then []
    else Lines(items, menu, ids[..|ids| - 1]) + [LineFor(items, menu, ids[|ids| - 1])]
  }

  /** One step of the join loop: a further item of the order whose menu item
      still exists extends both the scan and the lines by one entry. */
  lemma JoinStep(items: map<int, OrderItem>, menu: map<int, MenuItem>, oid: int, k: int)
    requires 1 <= k && k in items && items[k].orderId == oid && items[k].menuItemId in menu
    requires NamesResolve(items, menu, OrderItemIds(items, oid, k))
    ensures OrderItemIds(items, oid, k + 1) == OrderItemIds(items, oid, k) + [k]
    ensures NamesResolve(items, menu, OrderItemIds(items, oid, k + 1))
    ensures Lines(items, menu, OrderItemIds(items, oid, k + 1))
         == Lines(items, menu, OrderItemIds(items, oid, k)) + [LineFor(items, menu, k)]
  {
    var before := OrderItemIds(items, oid, k);
    assert (before + [k])[..|before|] == before;
  }

  /** One step of the join loop over an item that is not part of the order: the scan is unchanged. */
  lemma JoinSkip(items: map<int, OrderItem>, oid: int, k: int)
    requires 1 <= k && !(k in items && items[k].orderId == oid)
    ensures OrderItemIds(items, oid, k + 1) == OrderItemIds(items, oid, k)
  {
  }

  /** An item of the order whose menu item is gone makes the whole join fail. */
  lemma JoinFails(items: map<int, OrderItem>, menu: map<int, MenuItem>, oid: int, next: int, k: int)
    requires k in items && items[k].orderId == oid && 1 <= k < next && items[k].menuItemId !in menu
    ensures !NamesResolve(items, menu, OrderItemIds(items, oid, next))
  {
    OrderItemIdsComplete(items, oid, next, k);
  }

  /** When every order item references a stored menu item, the join of
      every order resolves all its names. */
  lemma EveryNameResolves(items: map<int, OrderItem>, menu: map<int, MenuItem>, oid: int, next: int)
    requires forall k :: k in items ==> items[k].menuItemId in menu
    ensures NamesResolve(items, menu, OrderItemIds(items, oid, next))
  {
  }

  /** Every id of `xs` names a menu item: each lookup of the POST /orders loop succeeds. */
  ghost predicate AllOnMenu(xs: seq<int>, menu: map<int, MenuItem>)
  {
    forall j :: 0 <= j < |xs| ==> xs[j] in menu
  }

  /** The order items one POST /orders adds: the j-th listed menu id becomes
      item `first + j` of order `oid`, with the default quantity. */
  function NewItems(first: int, oid: int, xs: seq<int>): (m: map<int, OrderItem>)
    decreases |xs|
    ensures forall k :: k in m <==> first <= k < first + |xs|
    ensures forall k :: k in m ==> m[k] == OrderItem(oid, xs[k - first], DEFAULT_QUANTITY)
  {
    if xs == [] then map[]
    else NewItems(first, oid, xs[..|xs| - 1])[first + |xs| - 1 := OrderItem(oid, xs[|xs| - 1], DEFAULT_QUANTITY)]
  }

  /** One step of the POST /orders loop: the next listed id adds the next item. */
  lemma NewItemsStep(first: int, oid: int, xs: seq<int>, i: int)
    requires 0 <= i < |xs|
    ensures NewItems(first, oid, xs[..i + 1])
         == NewItems(first, oid, xs[..i])[first + i := OrderItem(oid, xs[i], DEFAULT_QUANTITY)]
  {
    assert xs[..i + 1][..i] == xs[..i];
  }

  /** One order item per listed id, duplicates included: repeating a menu id
      yields distinct items rather than a merged quantity. */
  lemma {:induction false} NewItemsOnePerEntry(first: int, oid: int, xs: seq<int>)
    decreases |xs|
    ensures |NewItems(first, oid, xs)| == |xs|
  {
    if xs != [] {
      var prefix := xs[..|xs| - 1];
      NewItemsOnePerEntry(first, oid, prefix);
      assert first + |xs| - 1 !in NewItems(first, oid, prefix);
    }
  }

  /** No order item below `next` belongs to `oid`, so the scan finds none. */
  lemma {:induction false} NoItemsOfFreshOrder(items: map<int, OrderItem>, oid: int, next: int)
    requires forall k :: k in items && k < next ==> items[k].orderId != oid
    ensures OrderItemIds(items, oid, next) == []
  {
    if next > 1 {
      NoItemsOfFreshOrder(items, oid, next - 1);
    }
  }

  /** Two item maps that agree below `next` give every order the same scan below `next`. */
  lemma {:induction false} ScanAgreesBelow(a: map<int, OrderItem>, b: map<int, OrderItem>, oid: int, next: int)
    requires forall k :: k < next ==> (k in a <==> k in b)
    requires forall k :: k < next && k in a ==> a[k] == b[k]
    ensures OrderItemIds(a, oid, next) == OrderItemIds(b, oid, next)
  {
    if next > 1 {
      ScanAgreesBelow(a, b, oid, next - 1);
    }
  }

  /** Scanning an order whose items fill the id block [first, first + n), and
      which owns nothing below it, lists exactly that block in ascending order. */
  lemma {:induction false} BlockScan(all: map<int, OrderItem>, oid: int, first: int, n: nat)
    requires 1 <= first
    requires forall k :: k in all && k < first ==> all[k].orderId != oid
    requires forall k :: first <= k < first + n ==> k in all && all[k].orderId == oid
    ensures OrderItemIds(all, oid, first + n) == seq(n, j => first + j)
  {
    if n == 0 {
      NoItemsOfFreshOrder(all, oid, first);
    } else {
      BlockScan(all, oid, first, n - 1);
      assert seq(n, j => first + j) == seq(n - 1, j => first + j) + [first + n - 1];
    }
  }

  /** The item map after POST /orders: the old items below `first`, then the block of new ones. */
  lemma MergedItems(items: map<int, OrderItem>, oid: int, first: int, xs: seq<int>, all: map<int, OrderItem>)
    requires forall k :: k in items ==> k < first
    requires all == items + NewItems(first, oid, xs)
    ensures forall k :: k < first ==> (k in all <==> k in items)
    ensures forall k :: k in items ==> k in all && all[k] == items[k]
    ensures forall k :: first <= k < first + |xs| ==>
      k in all && all[k] == OrderItem(oid, xs[k - first], DEFAULT_QUANTITY)
    ensures forall k :: k in all ==> k < first + |xs|
  {
  }


  /** The scan of the order POST /orders just created lists the block of
      item ids it used, in list order. */
  lemma CreatedOrderScan(items: map<int, OrderItem>, oid: int, first: int, xs: seq<int>, all: map<int, OrderItem>)
    requires 1 <= first
    requires forall k :: k in items ==> k < first && items[k].orderId != oid
    requires all == items + NewItems(first, oid, xs)
    ensures OrderItemIds(all, oid, first + |xs|) == seq(|xs|, j => first + j)
  {
    MergedItems(items, oid, first, xs, all);
    BlockScan(all, oid, first, |xs|);
  }


  /** GET /orders/<id> right after a successful POST /orders answers one line
      per listed menu id, in list order, each carrying that menu item's name
      and quantity 1. */
  lemma CreatedOrderLines(items: map<int, OrderItem>, menu: map<int, MenuItem>, oid: int, first: int, xs: seq<int>,
                          all: map<int, OrderItem>, next: int)
    requires 1 <= first
    requires forall k :: k in items ==> k < first && items[k].orderId != oid
    requires AllOnMenu(xs, menu)
    requires all == items + NewItems(first, oid, xs) && next == first + |xs|
    ensures NamesResolve(all, menu, OrderItemIds(all, oid, next))
    ensures |Lines(all, menu, OrderItemIds(all, oid, next))| == |xs|
    ensures forall j :: 0 <= j < |xs| ==>
      && Lines(all, menu, OrderItemIds(all, oid, next))[j].menuItemId == xs[j]
      && Lines(all, menu, OrderItemIds(all, oid, next))[j].menuItemName == menu[xs[j]].name
      && Lines(all, menu, OrderItemIds(all, oid, next))[j].quantity == DEFAULT_QUANTITY
  {
    MergedItems(items, oid, first, xs, all);
    CreatedOrderScan(items, oid, first, xs, all);
    BlockLines(all, menu, oid, first, xs, OrderItemIds(all, oid, next));
  }

  /** The lines of a block of items that reference the menu ids `xs` in turn. */
  lemma BlockLines(all: map<int, OrderItem>, menu: map<int, MenuItem>, oid: int, first: int, xs: seq<int>, ids: seq<int>)
    requires AllOnMenu(xs, menu)
    requires forall k :: first <= k < first + |xs| ==>
      k in all && all[k] == OrderItem(oid, xs[k - first], DEFAULT_QUANTITY)
    requires ids == seq(|xs|, j => first + j)
    ensures NamesResolve(all, menu, ids)
    ensures |Lines(all, menu, ids)| == |xs|
    ensures forall j :: 0 <= j < |xs| ==>
      && Lines(all, menu, ids)[j].menuItemId == xs[j]
      && Lines(all, menu, ids)[j].menuItemName == menu[xs[j]].name
      && Lines(all, menu, ids)[j].quantity == DEFAULT_QUANTITY
  {
    forall j | 0 <= j < |ids|
      ensures ids[j] in all && all[ids[j]] == OrderItem(oid, xs[j], DEFAULT_QUANTITY)
    {
      assert ids[j] == first + j;
    }
  }


  /** Appending items of order `oid` above `first` leaves the scan of every other order as it was. */
  lemma {:induction false} ScanSkipsOtherBlock(items: map<int, OrderItem>, all: map<int, OrderItem>, other: int, first: int, n: nat)
    requires forall k :: k < first ==> (k in all <==> k in items)
    requires forall k :: k < first && k in items ==> all[k] == items[k]
    requires forall k :: first <= k < first + n ==> k in all && all[k].orderId != other
    requires forall k :: k in items ==> k < first
    ensures OrderItemIds(all, other, first + n) == OrderItemIds(items, other, first)
  {
    if n == 0 {
      ScanAgreesBelow(all, items, other, first);
    } else {
      ScanSkipsOtherBlock(items, all, other, first, n - 1);
    }
  }

  /** The join reads only the listed items, so two item maps that agree on them give the same lines. */
  lemma {:induction false} LinesAgree(a: map<int, OrderItem>, b: map<int, OrderItem>, menu: map<int, MenuItem>, ids: seq<int>)
    requires NamesResolve(a, menu, ids)
    requires forall j :: 0 <= j < |ids| ==> ids[j] in b && b[ids[j]] == a[ids[j]]
    ensures NamesResolve(b, menu, ids)
    ensures Lines(a, menu, ids) == Lines(b, menu, ids)
  {
    if ids != [] {
      LinesAgree(a, b, menu, ids[..|ids| - 1]);
    }
  }

  /** POST /orders leaves the item scan of every other order as it was. */
  lemma OtherOrderScanUnchanged(items: map<int, OrderItem>, oid: int, other: int, first: int, xs: seq<int>,
                                all: map<int, OrderItem>, next: int)
    requires other != oid
    requires forall k :: k in items ==> k < first
    requires all == items + NewItems(first, oid, xs) && next == first + |xs|
    ensures OrderItemIds(all, other, next) == OrderItemIds(items, other, first)
    ensures forall k :: k in items ==> k in all && all[k] == items[k]
  {
    MergedItems(items, oid, first, xs, all);
    ScanSkipsOtherBlock(items, all, other, first, |xs|);
  }

  /** POST /orders leaves what GET /orders/<id> reads for every other order as
      it was: the same item ids, the same join outcome and the same lines. */
  lemma OtherOrderLinesUnchanged(items: map<int, OrderItem>, menu: map<int, MenuItem>, oid: int, other: int,
                                 first: int, xs: seq<int>, all: map<int, OrderItem>, next: int)
    requires other != oid
    requires forall k :: k in items ==> k < first
    requires all == items + NewItems(first, oid, xs) && next == first + |xs|
    ensures OrderItemIds(all, other, next) == OrderItemIds(items, other, first)
    ensures NamesResolve(all, menu, OrderItemIds(all, other, next)) <==> NamesResolve(items, menu, OrderItemIds(items, other, first))
    ensures NamesResolve(items, menu, OrderItemIds(items, other, first)) ==>
      Lines(all, menu, OrderItemIds(all, other, next)) == Lines(items, menu, OrderItemIds(items, other, first))
  {
    OtherOrderScanUnchanged(items, oid, other, first, xs, all, next);
    var ids := OrderItemIds(items, other, first);
    if NamesResolve(items, menu, ids) {
      LinesAgree(items, all, menu, ids);
    }
  }
}
