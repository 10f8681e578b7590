/**
 * The order-recording route and the top-products report of backend/server.js: each ordered item
 * is checked against its product's stock and decremented in turn, the cashier is looked up, and
 * the order is stored as a snapshot; any failure aborts the whole database transaction.
 */
module Backend {
  import opened Wrappers
  import opened Seqs
  import opened Catalog
  import TopSelling

  /** A stored user as the cashier lookup sees it. */
  datatype StoredUser = StoredUser(username: string, pin: string, role: Role)

  /** One element of the request's `items`, as the client sends it. */
  datatype RequestItem = RequestItem(id: Id, name: string, price: int, quantity: int, imageUrl: string)

  /** The request body; the numeric fields the schema marks as required may be absent. */
  datatype TransactionRequest = TransactionRequest(
    items: seq<RequestItem>,
    cashierId: Option<Id>,
    amountPaid: Option<int>,
    discount: Option<int>,
    subtotal: Option<int>,
    total: Option<int>)

  /** One stored order line: the item as it was sold. */
  datatype OrderLine = OrderLine(productId: Id, name: string, price: int, quantity: int, imageUrl: string)

  datatype CashierRef = CashierRef(id: Id, username: string)

  datatype Order = Order(
    id: Id,
    items: seq<OrderLine>,
    subtotal: int,
    discount: int,
    total: int,
    amountPaid: int,
    change: int,
    cashier: CashierRef,
    timestamp: int)

  datatype RecordError = StockShortage(itemName: string) | UnknownCashier | InvalidOrder

  /** The `message` of the 400 answer. */
  function Message(e: RecordError): string {
    match e
    case StockShortage(name) => "Stok tidak cukup untuk produk: " + name
    case UnknownCashier => "Kasir tidak ditemukan"
    case InvalidOrder => "Transaction validation failed"
  }

  function ItemName(item: RequestItem): string {
    item.name
  }

  /** How many units of one product the items ask for in all. */
  function QuantityFor(items: seq<RequestItem>, id: Id): int {
    if items == [] then 0
    else (if items[0].id == id then items[0].quantity else 0) + QuantityFor(items[1..], id)
  }

  /** The stock loop: each item in turn must find its product with enough stock left, which it then lowers. */
  function ApplyItems(products: map<Id, Product>, items: seq<RequestItem>): Result<map<Id, Product>, RecordError> {
    if items == [] then Success(products)
    else
      var item := items[0];
      if item.id !in products || products[item.id].stock < item.quantity then Failure(StockShortage(item.name))
      else
        var p := products[item.id];
        ApplyItems(products[item.id := p.(stock := p.stock - item.quantity)], items[1..])
  }

  /** The stored line: `productId` is the item's id, the rest is copied. */
  function Snapshot(item: RequestItem): OrderLine {
    OrderLine(item.id, item.name, item.price, item.quantity, item.imageUrl)
  }

  /**
   * What one request does to the product table and which order it stores: stock first, then the
   * cashier, then the schema's required fields; the request's figures are stored as sent.
   */
  function RecordOutcome(products: map<Id, Product>, users: map<Id, StoredUser>, req: TransactionRequest,
                         orderId: Id, now: int): Result<(map<Id, Product>, Order), RecordError>
  {
    match ApplyItems(products, req.items)
    case Failure(e) => Failure(e)
    case Success(after) =>
      if req.cashierId.None? || req.cashierId.value !in users then Failure(UnknownCashier)
      else if req.subtotal.None? || req.total.None? || req.amountPaid.None? then Failure(InvalidOrder)
      else
        var cashier := req.cashierId.value;
        var total := req.total.value;
        var paid := req.amountPaid.value;
        Success((after, Order(orderId, MapSeq(req.items, Snapshot), req.subtotal.value, req.discount.GetOr(0),
                              total, paid, paid - total, CashierRef(cashier, users[cashier].username), now)))
  }

  ghost predicate StocksNonNegative(products: map<Id, Product>) {
    forall id :: id in products ==> products[id].stock >= 0
  }

  /** On success every product's stock is lowered by the units the items ask for, and no product appears or vanishes. */
  lemma {:induction false} ApplyItemsEffect(products: map<Id, Product>, items: seq<RequestItem>)
    requires ApplyItems(products, items).Success?
    ensures var after := ApplyItems(products, items).value;
      && after.Keys == products.Keys
      && (forall k :: 0 <= k < |items| ==> items[k].id in products)
      && (forall id :: id in products ==>
            after[id] == products[id].(stock := products[id].stock - QuantityFor(items, id)))
    decreases |items|
  {
    if items != [] {
      var item := items[0];
      var p := products[item.id];
      var next := products[item.id := p.(stock := p.stock - item.quantity)];
      ApplyItemsEffect(next, items[1..]);
      forall k | 0 <= k < |items| ensures items[k].id in products {
        if k > 0 { assert items[1..][k - 1] == items[k]; }
      }
    }
  }

  /** Every product the loop touches keeps a stock of zero or more. */
  lemma {:induction false} ApplyItemsKeepsStock(products: map<Id, Product>, items: seq<RequestItem>)
    requires StocksNonNegative(products) && ApplyItems(products, items).Success?
    ensures StocksNonNegative(ApplyItems(products, items).value)
    decreases |items|
  {
    if items != [] {
      var item := items[0];
      var p := products[item.id];
      var next := products[item.id := p.(stock := p.stock - item.quantity)];
      assert StocksNonNegative(next);
      ApplyItemsKeepsStock(next, items[1..]);
    }
  }

  /** Every failure of the loop is a stock shortage naming one of the ordered items. */
  lemma {:induction false} ApplyItemsFailureNamesItem(products: map<Id, Product>, items: seq<RequestItem>)
    requires ApplyItems(products, items).Failure?
    ensures ApplyItems(products, items).error.StockShortage?
    ensures ApplyItems(products, items).error.itemName in MapSeq(items, ItemName)
    decreases |items|
  {
    var item := items[0];
    if item.id in products && products[item.id].stock >= item.quantity {
      var p := products[item.id];
      ApplyItemsFailureNamesItem(products[item.id := p.(stock := p.stock - item.quantity)], items[1..]);
      var name := ApplyItems(products, items).error.itemName;
      var k :| 0 <= k < |items[1..]| && MapSeq(items[1..], ItemName)[k] == name;
      assert MapSeq(items, ItemName)[k + 1] == name;
    } else {
      assert MapSeq(items, ItemName)[0] == item.name;
    }
  }

  /** Every ordered product exists and has stock for all the units asked of it across the order. */
  ghost predicate Covered(products: map<Id, Product>, items: seq<RequestItem>) {
    forall k :: 0 <= k < |items| ==>
      items[k].id in products && QuantityFor(items, items[k].id) <= products[items[k].id].stock
  }

  ghost predicate QuantitiesNonNegative(items: seq<RequestItem>) {
    forall k :: 0 <= k < |items| ==> items[k].quantity >= 0
  }

  lemma {:induction false} QuantityForAtLeast(items: seq<RequestItem>, k: nat)
    requires QuantitiesNonNegative(items) && k < |items|
    ensures QuantityFor(items, items[k].id) >= items[k].quantity
    ensures QuantityFor(items[1..], items[k].id) >= 0
    decreases |items|
  {
    QuantityForNonNegative(items[1..], items[k].id);
    if k > 0 {
      QuantityForAtLeast(items[1..], k - 1);
    }
  }

  lemma {:induction false} QuantityForNonNegative(items: seq<RequestItem>, id: Id)
    requires QuantitiesNonNegative(items)
    ensures QuantityFor(items, id) >= 0
    decreases |items|
  {
    if items != [] {
      QuantityForNonNegative(items[1..], id);
    }
  }

  lemma {:induction false} QuantityForAbsent(items: seq<RequestItem>, id: Id)
    requires forall k :: 0 <= k < |items| ==> items[k].id != id
    ensures QuantityFor(items, id) == 0
    decreases |items|
  {
    if items != [] {
      QuantityForAbsent(items[1..], id);
    }
  }

  /**
   * Because items are checked one after another against the lowered stock, an order with
   * non-negative quantities goes through exactly when every product has stock for the sum of
   * its lines, however they are spread over the order.
   */
  lemma {:induction false} ApplyItemsSucceedsIff(products: map<Id, Product>, items: seq<RequestItem>)
    requires QuantitiesNonNegative(items)
    ensures ApplyItems(products, items).Success? <==> Covered(products, items)
    decreases |items|
  {
    if items != [] {
      var item := items[0];
      var rest := items[1..];
      assert QuantitiesNonNegative(rest);
      QuantityForAtLeast(items, 0);
      if item.id in products && products[item.id].stock >= item.quantity {
        var p := products[item.id];
        var next := products[item.id := p.(stock := p.stock - item.quantity)];
        ApplyItemsSucceedsIff(next, rest);
        CoveredStep(products, items);
      } else {
        if item.id in products {
          assert QuantityFor(items, item.id) > products[item.id].stock;
        }
        assert !Covered(products, items) by {
          assert items[0] == item;
        }
      }
    }
  }

  /** One step of the loop: the order is covered exactly when the rest is covered by the lowered stock. */
  lemma CoveredStep(products: map<Id, Product>, items: seq<RequestItem>)
    requires items != [] && QuantitiesNonNegative(items)
    requires items[0].id in products && products[items[0].id].stock >= items[0].quantity
    ensures var p := products[items[0].id];
      Covered(products, items) <==>
        Covered(products[items[0].id := p.(stock := p.stock - items[0].quantity)], items[1..])
  {
    var item := items[0];
    var rest := items[1..];
    var p := products[item.id];
    var next := products[item.id := p.(stock := p.stock - item.quantity)];
    QuantityForNonNegative(rest, item.id);
    if Covered(products, items) {
      forall k | 0 <= k < |rest|
        ensures rest[k].id in next && QuantityFor(rest, rest[k].id) <= next[rest[k].id].stock
      {
        assert items[k + 1] == rest[k];
      }
    }
    if Covered(next, rest) {
      forall k | 0 <= k < |items|
        ensures items[k].id in products && QuantityFor(items, items[k].id) <= products[items[k].id].stock
      {
        if k > 0 {
          assert items[k] == rest[k - 1];
        }
        if items[k].id != item.id {
          assert QuantityFor(items, items[k].id) == QuantityFor(rest, items[k].id);
        } else if exists j :: 0 <= j < |rest| && rest[j].id == item.id {
          var j :| 0 <= j < |rest| && rest[j].id == item.id;
          assert QuantityFor(rest, rest[j].id) <= next[rest[j].id].stock;
        } else {
          QuantityForAbsent(rest, item.id);
        }
      }
    }
  }

  /** The last unit of a product cannot be sold twice in one order. */
  lemma LastUnitSoldOnce(products: map<Id, Product>, first: RequestItem, second: RequestItem)
    requires first.id in products && products[first.id].stock == 1
    requires second.id == first.id && first.quantity == 1 && second.quantity == 1
    ensures ApplyItems(products, [first, second]) == Failure(StockShortage(second.name))
  {
    var p := products[first.id];
    var next := products[first.id := p.(stock := 0)];
    assert [first, second][1..] == [second];
    assert ApplyItems(products, [first, second]) == ApplyItems(next, [second]);
  }

  /**
   * The order is stored exactly when the stock loop goes through, the cashier exists and the
   * required figures are present; it stores those figures unchanged, with change =
   * amountPaid - total, the items' snapshots and the cashier's id and username.
   */
  lemma RecordOutcomeFacts(products: map<Id, Product>, users: map<Id, StoredUser>, req: TransactionRequest,
                           orderId: Id, now: int)
    ensures var out := RecordOutcome(products, users, req, orderId, now);
      && (out.Success? <==>
            && ApplyItems(products, req.items).Success?
            && req.cashierId.Some? && req.cashierId.value in users
            && req.subtotal.Some? && req.total.Some? && req.amountPaid.Some?)
      && (ApplyItems(products, req.items).Failure? ==> out == Failure(ApplyItems(products, req.items).error))
      && (ApplyItems(products, req.items).Success? && (req.cashierId.None? || req.cashierId.value !in users) ==>
            out == Failure(UnknownCashier))
      && (out.Success? ==>
            var order := out.value.1;
            && out.value.0 == ApplyItems(products, req.items).value
            && order.id == orderId && order.timestamp == now
            && order.subtotal == req.subtotal.value && order.total == req.total.value
            && order.discount == (if req.discount.Some? then req.discount.value else 0)
            && order.amountPaid == req.amountPaid.value
            && order.change + order.total == order.amountPaid
            && |order.items| == |req.items|
            && (forall k :: 0 <= k < |req.items| ==>
                  order.items[k] == OrderLine(req.items[k].id, req.items[k].name, req.items[k].price,
                                              req.items[k].quantity, req.items[k].imageUrl))
            && order.cashier == CashierRef(req.cashierId.value, users[req.cashierId.value].username))
  {
  }

  /** The stored total is whatever the client sent, not the sum of the stored lines. */
  lemma TotalNotRecomputed(products: map<Id, Product>, users: map<Id, StoredUser>, cashier: Id, orderId: Id, now: int)
    requires cashier in users
    ensures var out := RecordOutcome(products, users,
        TransactionRequest([], Some(cashier), Some(10), None, Some(0), Some(5)), orderId, now);
      out.Success? && out.value.1.total == 5 && out.value.1.items == [] && out.value.1.change == 5
  {
    assert MapSeq([], Snapshot) == [];
  }

  /** The backend's tables: products changed in place by the stock loop, users read, orders appended. */
  class Store {
    var products: map<Id, Product>
    var users: map<Id, StoredUser>
    var orders: seq<Order>
    var nextOrderId: Id

    ghost predicate Valid()
      reads this
    {
      && StocksNonNegative(products)
      && (forall k :: 0 <= k < |orders| ==> orders[k].id < nextOrderId)
    }

    constructor (products0: map<Id, Product>, users0: map<Id, StoredUser>)
      requires StocksNonNegative(products0)
      ensures Valid()
      ensures products == products0 && users == users0 && orders == [] && nextOrderId == 0
    {
      products := products0;
      users := users0;
      orders := [];
      nextOrderId := 0;
    }

    /**
     * `POST /api/transactions`: decrements stock item by item; on any failure the products are
     * put back as they were and nothing is stored, otherwise the order is appended.
     */
    method RecordTransaction(req: TransactionRequest, now: int) returns (r: Result<Order, RecordError>)
      requires Valid()
      modifies this
      ensures Valid()
      ensures users == old(users)
      ensures var out := RecordOutcome(old(products), old(users), req, old(nextOrderId), now);
        match out
        case Success(committed) =>
          && r == Success(committed.1)
          && products == committed.0
          && orders == old(orders) + [committed.1]
          && nextOrderId == old(nextOrderId) + 1
        case Failure(e) =>
          && r == Failure(e)
          && products == old(products)
          && orders == old(orders)
          && nextOrderId == old(nextOrderId)
    {
      var snapshot := products;
      var i := 0;
      while i < |req.items|
        invariant 0 <= i <= |req.items|
        invariant ApplyItems(snapshot, req.items) == ApplyItems(products, req.items[i..])
        invariant snapshot == old(products) && users == old(users)
        invariant orders == old(orders) && nextOrderId == old(nextOrderId)
      {
        var item := req.items[i];
        assert req.items[i..][0] == item && req.items[i..][1..] == req.items[i + 1..];
        if item.id !in products || products[item.id].stock < item.quantity {
          products := snapshot;
          return Failure(StockShortage(item.name));
        }
        var p := products[item.id];
        products := products[item.id := p.(stock := p.stock - item.quantity)];
        i := i + 1;
      }
      assert req.items[i..] == [];
      ApplyItemsKeepsStock(snapshot, req.items);
      if req.cashierId.None? || req.cashierId.value !in users {
        products := snapshot;
        return Failure(UnknownCashier);
      }
      if req.subtotal.None? || req.total.None? || req.amountPaid.None? {
        products := snapshot;
        return Failure(InvalidOrder);
      }
      var cashier := req.cashierId.value;
      var total := req.total.value;
      var paid := req.amountPaid.value;
      var order := Order(nextOrderId, MapSeq(req.items, Snapshot), req.subtotal.value, req.discount.GetOr(0),
                         total, paid, paid - total, CashierRef(cashier, users[cashier].username), now);
      orders := orders + [order];
      nextOrderId := nextOrderId + 1;
      r := Success(order);
    }
  }

  /** `{ id, name, imageUrl, quantitySold }` of the report. */
  datatype TopProductReport = TopProductReport(id: Id, name: string, imageUrl: string, quantitySold: int)

  function Sold(line: OrderLine): TopSelling.SoldLine {
    TopSelling.SoldLine(line.productId, line.name, line.imageUrl, line.price, line.quantity)
  }

  /** `$match: { timestamp: { $gte: dateLimit } }` then `$unwind: '$items'`. */
  function SoldSince(orders: seq<Order>, dateLimit: int): seq<TopSelling.SoldLine> {
    if orders == [] then []
    else
      var last := orders[|orders| - 1];
      SoldSince(orders[..|orders| - 1], dateLimit) + (if last.timestamp >= dateLimit then MapSeq(last.items, Sold) else [])
  }

  function Project(t: TopSelling.Tally): TopProductReport {
    TopProductReport(t.id, t.name, t.imageUrl, t.quantity)
  }

  /** `GET /api/reports/topproducts`: the five best-selling products since the date limit. */
  function TopProducts(orders: seq<Order>, dateLimit: int): seq<TopProductReport> {
    MapSeq(TopSelling.Top(SoldSince(orders, dateLimit), 5), Project)
  }

  /**
   * Five entries, or one per product sold when fewer were; no product twice, highest quantity
   * first, each with the units sold of its product since the limit and the name and image of its
   * first sale in that window. A product sold but not listed sold no more than any listed one.
   */
  lemma TopProductsCorrect(orders: seq<Order>, dateLimit: int)
    ensures var lines := SoldSince(orders, dateLimit);
      var r := TopProducts(orders, dateLimit);
      var sold := |TopSelling.Group(lines)|;
      && |r| == (if sold <= 5 then sold else 5)
      && (forall j :: 0 <= j < |lines| && (forall i :: 0 <= i < |r| ==> r[i].id != lines[j].id) ==>
            |r| == 5 && forall i :: 0 <= i < |r| ==> TopSelling.QuantityOf(lines, lines[j].id) <= r[i].quantitySold)
      && (forall i, j :: 0 <= i < j < |r| ==> r[i].id != r[j].id && r[i].quantitySold >= r[j].quantitySold)
      && (forall i :: 0 <= i < |r| ==>
            && r[i].quantitySold == TopSelling.QuantityOf(lines, r[i].id)
            && TopSelling.FirstWith(lines, r[i].id).Some?
            && TopSelling.FirstWith(lines, r[i].id).value.name == r[i].name
            && TopSelling.FirstWith(lines, r[i].id).value.imageUrl == r[i].imageUrl)
  {
    var lines := SoldSince(orders, dateLimit);
    TopSelling.TopShape(lines, 5);
    TopSelling.TopDistinct(lines, 5);
    TopSelling.TopAgrees(lines, 5);
    var r := TopProducts(orders, dateLimit);
    forall j | 0 <= j < |lines| && (forall i :: 0 <= i < |r| ==> r[i].id != lines[j].id)
      ensures |r| == 5 && forall i :: 0 <= i < |r| ==> TopSelling.QuantityOf(lines, lines[j].id) <= r[i].quantitySold
    {
      TopSelling.UnlistedSoldNoMore(lines, 5, j);
    }
  }
}
