/**
 * transform_orders: convert the date columns, add the two duration
 * columns, aggregate the items per order, and left-merge the aggregate and
 * the customers' city and state onto the orders.
 */
module OrdersTransform {

  import opened Options
  import opened Tables
  import opened Dates
  import opened Aggregation
  import opened Joins
  import opened Frames

  /** The table transform_orders returns, as a function of its three input tables. */
  function Transform(orders: seq<Order>, items: seq<Item>, customers: seq<Customer>,
                     parse: string -> Option<Timestamp>): (r: seq<Enriched>)
    ensures |r| >= |orders|
  {
    LeftJoinCustomers(LeftJoinItems(TimeOrders(CoerceOrders(orders, parse)), GroupItems(items)), customers)
  }

  /**
   * The item totals of a row: count, price sum and freight sum over the item
   * rows of its order_id when there are any, and all three null otherwise.
   */
  predicate TotalsAgree(r: ItemsJoined, key: Option<OrderId>, items: seq<Item>) {
    if key.Some? && RowsOf(items, key.value) != [] then
      var rows := RowsOf(items, key.value);
      r.totalItems == Some(CountIds(rows)) && r.totalValue == Some(SumPrice(rows))
      && r.totalFreight == Some(SumFreight(rows))
    else
      r.totalItems.None? && r.totalValue.None? && r.totalFreight.None?
  }

  /**
   * What an output row holds for the order row it comes from, except for
   * city and state: the order's own columns with the dates converted, the
   * two durations, and the item totals.
   */
  predicate RowFrom(o: Order, r: Enriched, items: seq<Item>, parse: string -> Option<Timestamp>) {
    var p := CoerceDates(o, parse);
    && r.row.timed.order == p
    && r.row.timed.deliveryTimeDays == DaysBetween(p.deliveredCustomer.stamp, p.purchase.stamp)
    && r.row.timed.deliveryDelayDays == DaysBetween(p.deliveredCustomer.stamp, p.estimatedDelivery.stamp)
    && TotalsAgree(r.row, o.orderId, items)
  }

  lemma LeftJoinItemsTotals(t: TimedOrder, items: seq<Item>)
    ensures TotalsAgree(WithTotals(t, Lookup(GroupItems(items), t.order.orderId)), t.order.orderId, items)
  {
    if t.order.orderId.Some? {
      GroupItemsCorrect(items, t.order.orderId.value);
    }
  }

  /**
   * With customer_id unique in customers, the result has exactly one row per
   * order, in the orders' order, and row i is order i with its dates
   * converted, its two durations, its item totals (null when it has no item
   * rows) and the city and state of its customer (null when there is none).
   */
  lemma TransformRows(orders: seq<Order>, items: seq<Item>, customers: seq<Customer>,
                      parse: string -> Option<Timestamp>)
    requires UniqueCustomerIds(customers)
    ensures |Transform(orders, items, customers, parse)| == |orders|
    ensures forall i :: 0 <= i < |orders| ==>
      RowFrom(orders[i], Transform(orders, items, customers, parse)[i], items, parse)
    ensures forall i :: 0 <= i < |orders| ==>
      CustomerAgrees(Transform(orders, items, customers, parse)[i], orders[i].customerId, customers)
  {
    var timed := TimeOrders(CoerceOrders(orders, parse));
    var joined := LeftJoinItems(timed, GroupItems(items));
    LeftJoinCustomersUnique(joined, customers);
    forall i | 0 <= i < |orders|
      ensures RowFrom(orders[i], Transform(orders, items, customers, parse)[i], items, parse)
    {
      LeftJoinItemsTotals(timed[i], items);
    }
  }

  /** The result for two tables of orders put together is the two results put together. */
  lemma TransformAppend(a: seq<Order>, b: seq<Order>, items: seq<Item>, customers: seq<Customer>,
                        parse: string -> Option<Timestamp>)
    ensures Transform(a + b, items, customers, parse)
         == Transform(a, items, customers, parse) + Transform(b, items, customers, parse)
  {
    var groups := GroupItems(items);
    var ja := LeftJoinItems(TimeOrders(CoerceOrders(a, parse)), groups);
    var jb := LeftJoinItems(TimeOrders(CoerceOrders(b, parse)), groups);
    var jab := LeftJoinItems(TimeOrders(CoerceOrders(a + b, parse)), groups);
    assert jab == ja + jb;
    JoinSlicesAppend(ja, jb, Project(customers));
  }

  /**
   * Whatever the customers table holds, one order gives one output row per
   * customers row with its customer_id, in the customers' order and with
   * that customer's city and state, or one row with null city and state when
   * there is none; each of them carries that order's converted columns,
   * durations and totals.
   */
  lemma TransformOne(o: Order, items: seq<Item>, customers: seq<Customer>,
                     parse: string -> Option<Timestamp>)
    ensures var ms := CustomersWith(customers, o.customerId);
      |Transform([o], items, customers, parse)| == if ms == [] then 1 else |ms|
    ensures var ms := CustomersWith(customers, o.customerId);
      forall t :: 0 <= t < |ms| ==>
        Transform([o], items, customers, parse)[t].customerCity == ms[t].city
        && Transform([o], items, customers, parse)[t].customerState == ms[t].state
    ensures forall e :: e in Transform([o], items, customers, parse) ==>
      RowFrom(o, e, items, parse) && CustomerFrom(e, o.customerId, customers)
  {
    var timed := TimeOrders(CoerceOrders([o], parse));
    var joined := LeftJoinItems(timed, GroupItems(items));
    assert joined == [joined[0]];
    LeftJoinItemsTotals(timed[0], items);
    JoinCustomersOne(joined[0], customers);
  }

  /** No order row carries this order_id. */
  predicate Unclaimed(orders: seq<Order>, k: OrderId) {
    forall i :: 0 <= i < |orders| ==> orders[i].orderId != Some(k)
  }

  lemma {:induction false} NoRowsOf(extra: seq<Item>, k: OrderId)
    requires forall x :: x in extra ==> x.orderId != Some(k)
    ensures RowsOf(extra, k) == []
  {
    if extra != [] {
      assert extra[0] in extra;
      NoRowsOf(extra[1..], k);
    }
  }

  /** Item rows whose order_id matches no order change nothing in the result. */
  lemma UnmatchedItemsIgnored(orders: seq<Order>, items: seq<Item>, extra: seq<Item>,
                              customers: seq<Customer>, parse: string -> Option<Timestamp>)
    requires forall x :: x in extra && x.orderId.Some? ==> Unclaimed(orders, x.orderId.value)
    ensures Transform(orders, items + extra, customers, parse) == Transform(orders, items, customers, parse)
  {
    var timed := TimeOrders(CoerceOrders(orders, parse));
    var g0, g1 := GroupItems(items), GroupItems(items + extra);
    forall i | 0 <= i < |timed|
      ensures Lookup(g1, timed[i].order.orderId) == Lookup(g0, timed[i].order.orderId)
    {
      var key := timed[i].order.orderId;
      if key.Some? {
        var k := key.value;
        assert orders[i].orderId == key;
        assert !Unclaimed(orders, k);
        NoRowsOf(extra, k);
        GroupItemsCorrect(items, k);
        GroupItemsCorrect(items + extra, k);
        RowsOfConcat(items, extra, k);
        assert RowsOf(items + extra, k) == RowsOf(items, k);
      }
    }
    assert LeftJoinItems(timed, g1) == LeftJoinItems(timed, g0);
  }

  /**
   * transform_orders as the program runs it: the caller's frame has its
   * date columns converted and gains the two duration columns (and nothing
   * else), and the result is Transform of the frame's rows as they were.
   */
  method TransformOrders(orders: OrdersFrame, items: seq<Item>, customers: seq<Customer>,
                         parse: string -> Option<Timestamp>) returns (result: seq<Enriched>)
    requires orders.Valid()
    modifies orders
    ensures orders.Valid()
    ensures result == Transform(old(orders.Rows()), items, customers, parse)
    ensures orders.Rows() == CoerceOrders(old(orders.Rows()), parse)
    ensures orders.deliveryTimeDays.Some? && orders.deliveryDelayDays.Some?
    ensures orders.Timed() == TimeOrders(orders.Rows())
  {
    orders.CoerceDateColumns(parse);
    orders.AddDurationColumns();
    var timed := orders.Timed();
    var itemsGrouped := GroupItems(items);
    var joined := LeftJoinItems(timed, itemsGrouped);
    result := LeftJoinCustomers(joined, customers);
  }

  /** 2023-01-01T00:00:00 as a datetime64[ns] value. */
  const NewYear2023: Timestamp := 1_672_531_200_000_000_000

  /** A parser that knows three dates. */
  function ScenarioParse(s: string): Option<Timestamp> {
    if s == "2023-01-01" then Some(NewYear2023)
    else if s == "2023-01-03" then Some(NewYear2023 + 2 * NanosPerDay)
    else if s == "2023-01-05" then Some(NewYear2023 + 4 * NanosPerDay)
    else None
  }

  /**
   * Order 1, bought on 2023-01-01, estimated for 2023-01-03 and delivered on
   * 2023-01-05, with two items of 10.00 + 2.00 and 5.00 + 1.00 freight and a
   * customer in SP; order 2 has an unparseable purchase date, no items and
   * an unknown customer.
   */
  lemma Scenario()
    ensures
      var o1 := Order(Some("1"), Some("c1"), None, Text(Some("2023-01-01")), Text(None), Text(None),
                      Text(Some("2023-01-05")), Text(Some("2023-01-03")));
      var o2 := Order(Some("2"), Some("c2"), None, Text(Some("yesterday")), Text(None), Text(None),
                      Text(Some("2023-01-05")), Text(Some("2023-01-03")));
      var items := [Item(Some("1"), Some(1), None, Some(1000), Some(200)),
                    Item(Some("1"), Some(2), None, Some(500), Some(100))];
      var customers := [Customer(Some("c1"), None, None, Some("SP"), Some("SP"))];
      var out := Transform([o1, o2], items, customers, ScenarioParse);
      && |out| == 2
      && out[0].row.timed.deliveryTimeDays == Some(4)
      && out[0].row.timed.deliveryDelayDays == Some(2)
      && out[0].row.totalItems == Some(2)
      && out[0].row.totalValue == Some(1500)
      && out[0].row.totalFreight == Some(300)
      && out[0].customerCity == Some("SP") && out[0].customerState == Some("SP")
      && out[1].row.timed.deliveryTimeDays.None?
      && out[1].row.timed.deliveryDelayDays == Some(2)
      && out[1].row.totalItems.None? && out[1].row.totalValue.None? && out[1].row.totalFreight.None?
      && out[1].customerCity.None? && out[1].customerState.None?
  {
    var o1 := Order(Some("1"), Some("c1"), None, Text(Some("2023-01-01")), Text(None), Text(None),
                    Text(Some("2023-01-05")), Text(Some("2023-01-03")));
    var o2 := Order(Some("2"), Some("c2"), None, Text(Some("yesterday")), Text(None), Text(None),
                    Text(Some("2023-01-05")), Text(Some("2023-01-03")));
    var items := [Item(Some("1"), Some(1), None, Some(1000), Some(200)),
                  Item(Some("1"), Some(2), None, Some(500), Some(100))];
    var customers := [Customer(Some("c1"), None, None, Some("SP"), Some("SP"))];
    assert ScenarioParse("2023-01-01") == Some(NewYear2023);
    assert ScenarioParse("2023-01-05") == Some(NewYear2023 + 4 * NanosPerDay);
    assert ScenarioParse("2023-01-03") == Some(NewYear2023 + 2 * NanosPerDay);
    assert ScenarioParse("yesterday") == None;
    var p1, p2 := CoerceDates(o1, ScenarioParse), CoerceDates(o2, ScenarioParse);
    WholeDays(NewYear2023, 4);
    WholeDays(NewYear2023 + 2 * NanosPerDay, 2);
    assert DaysBetween(p1.deliveredCustomer.stamp, p1.purchase.stamp) == Some(4);
    assert DaysBetween(p1.deliveredCustomer.stamp, p1.estimatedDelivery.stamp) == Some(2);
    assert DaysBetween(p2.deliveredCustomer.stamp, p2.purchase.stamp) == None;
    assert RowsOf(items[1..], "1") == items[1..];
    assert RowsOf(items, "1") == items;
    assert RowsOf(items[1..], "2") == [];
    assert RowsOf(items, "2") == [];
    assert CountIds(items) == 2 && SumPrice(items) == 1500 && SumFreight(items) == 300;
    assert !HasCustomer(customers, Some("c2"));
    TransformRows([o1, o2], items, customers, ScenarioParse);
    var out := Transform([o1, o2], items, customers, ScenarioParse);
    assert RowFrom(o1, out[0], items, ScenarioParse) && CustomerAgrees(out[0], Some("c1"), customers);
    assert RowFrom(o2, out[1], items, ScenarioParse) && CustomerAgrees(out[1], Some("c2"), customers);
  }

}
