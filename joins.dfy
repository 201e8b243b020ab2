/**
 * The two left merges of transform_orders: with the item aggregate on
 * order_id, and with customer_id, customer_city, customer_state of the
 * customers table on customer_id. Both keep every left row and the left
 * order; unmatched rows get missing values in the new columns.
 */
module Joins {

  import opened Options
  import opened Tables
  import opened Aggregation

  /** The aggregate row of an order, if its order_id has a group. */
  function Lookup(groups: map<OrderId, Agg>, key: Option<OrderId>): Option<Agg> {
    if key.Some? && key.value in groups then Some(groups[key.value]) else None
  }

  function WithTotals(row: TimedOrder, a: Option<Agg>): ItemsJoined {
    match a
    case None => ItemsJoined(row, None, None, None)
    case Some(g) => ItemsJoined(row, Some(g.count), Some(g.value), Some(g.freight))
  }

  /**
   * `orders.merge(items_grouped, on="order_id", how="left")`. The aggregate
   * has one row per order_id, so each order row meets at most one: one output
   * row per input row, in input order, with null totals where there is no group.
   */
  function LeftJoinItems(rows: seq<TimedOrder>, groups: map<OrderId, Agg>): (r: seq<ItemsJoined>)
    ensures |r| == |rows|
    ensures forall i :: 0 <= i < |rows| ==> r[i].timed == rows[i]
    ensures forall i :: 0 <= i < |rows| ==>
      (r[i].totalItems.Some? <==> rows[i].order.orderId.Some? && rows[i].order.orderId.value in groups)
    ensures forall i :: 0 <= i < |rows| && r[i].totalItems.Some? ==>
      var g := groups[rows[i].order.orderId.value];
      r[i].totalItems == Some(g.count) && r[i].totalValue == Some(g.value) && r[i].totalFreight == Some(g.freight)
    ensures forall i :: 0 <= i < |rows| && r[i].totalItems.None? ==>
      r[i].totalValue.None? && r[i].totalFreight.None?
  {
    seq(|rows|, i requires 0 <= i < |rows| => WithTotals(rows[i], Lookup(groups, rows[i].order.orderId)))
  }

  /** A customers row projected to customer_id, customer_city, customer_state. */
  datatype CustomerSlice = CustomerSlice(customerId: Option<CustomerId>, city: Option<string>, state: Option<string>)

  function Project(customers: seq<Customer>): (r: seq<CustomerSlice>)
    ensures |r| == |customers|
    ensures forall j :: 0 <= j < |customers| ==>
      r[j] == CustomerSlice(customers[j].customerId, customers[j].city, customers[j].state)
  {
    seq(|customers|, j requires 0 <= j < |customers| =>
      CustomerSlice(customers[j].customerId, customers[j].city, customers[j].state))
  }

  /**
   * The customer rows a key meets, in table order. Two missing keys are
   * equal here, as pandas merges a missing key with a missing key.
   */
  function Matches(slices: seq<CustomerSlice>, key: Option<CustomerId>): (r: seq<CustomerSlice>)
    ensures forall s :: s in r ==> s in slices && s.customerId == key
    ensures forall j :: 0 <= j < |slices| && slices[j].customerId == key ==> slices[j] in r
  {
    if slices == [] then []
    else (if slices[0].customerId == key then [slices[0]] else []) + Matches(slices[1..], key)
  }

  /** The output rows of one left row: one per match, or one null-filled row. */
  function Attach(row: ItemsJoined, ms: seq<CustomerSlice>): (r: seq<Enriched>)
    ensures |r| == if ms == [] then 1 else |ms|
  {
    if ms == [] then [Enriched(row, None, None)]
    else seq(|ms|, j requires 0 <= j < |ms| => Enriched(row, ms[j].city, ms[j].state))
  }

  function JoinSlices(rows: seq<ItemsJoined>, slices: seq<CustomerSlice>): (r: seq<Enriched>)
    ensures |r| >= |rows|
  {
    if rows == [] then []
    else Attach(rows[0], Matches(slices, rows[0].timed.order.customerId)) + JoinSlices(rows[1..], slices)
  }

  /**
   * `orders.merge(customers[['customer_id','customer_city','customer_state']],
   * on="customer_id", how="left")`: every left row is kept, in order, once
   * per customer row with its customer_id, or once with null city and state.
   */
  function LeftJoinCustomers(rows: seq<ItemsJoined>, customers: seq<Customer>): (r: seq<Enriched>)
    ensures |r| >= |rows|
  {
    JoinSlices(rows, Project(customers))
  }

  /** customer_id identifies at most one customers row. */
  predicate UniqueCustomerIds(customers: seq<Customer>) {
    forall i, j :: 0 <= i < j < |customers| ==> customers[i].customerId != customers[j].customerId
  }

  predicate HasCustomer(customers: seq<Customer>, key: Option<CustomerId>) {
    exists j :: 0 <= j < |customers| && customers[j].customerId == key
  }

  /** City and state come from the customer with the key, and are null when there is none. */
  predicate CustomerAgrees(e: Enriched, key: Option<CustomerId>, customers: seq<Customer>) {
    && (forall j :: 0 <= j < |customers| && customers[j].customerId == key ==>
          e.customerCity == customers[j].city && e.customerState == customers[j].state)
    && (!HasCustomer(customers, key) ==> e.customerCity.None? && e.customerState.None?)
  }

  /** City and state come from some customer with the key, or are null when there is none. */
  predicate CustomerFrom(e: Enriched, key: Option<CustomerId>, customers: seq<Customer>) {
    || (exists j :: 0 <= j < |customers| && customers[j].customerId == key
          && e.customerCity == customers[j].city && e.customerState == customers[j].state)
    || (!HasCustomer(customers, key) && e.customerCity.None? && e.customerState.None?)
  }

  /** The customers merge is a concatenation of per-row results: it keeps the left order. */
  lemma {:induction false} JoinSlicesAppend(a: seq<ItemsJoined>, b: seq<ItemsJoined>, slices: seq<CustomerSlice>)
    ensures JoinSlices(a + b, slices) == JoinSlices(a, slices) + JoinSlices(b, slices)
  {
    if a == [] {
      assert a + b == b;
    } else {
      assert (a + b)[0] == a[0];
      assert (a + b)[1..] == a[1..] + b;
      JoinSlicesAppend(a[1..], b, slices);
    }
  }

  lemma MatchesInCustomers(customers: seq<Customer>, key: Option<CustomerId>, s: CustomerSlice)
    requires s in Matches(Project(customers), key)
    ensures exists j :: (0 <= j < |customers| && customers[j].customerId == key
      && s.city == customers[j].city && s.state == customers[j].state)
  {
    var slices := Project(customers);
    var j :| 0 <= j < |slices| && slices[j] == s;
  }

  /** The customers rows that carry a key, in table order. */
  function CustomersWith(customers: seq<Customer>, key: Option<CustomerId>): (r: seq<Customer>)
    ensures |r| <= |customers|
    ensures forall c :: c in r ==> c in customers && c.customerId == key
    ensures forall j :: 0 <= j < |customers| && customers[j].customerId == key ==> customers[j] in r
  {
    if customers == [] then []
    else (if customers[0].customerId == key then [customers[0]] else []) + CustomersWith(customers[1..], key)
  }

  lemma ProjectConcat(a: seq<Customer>, b: seq<Customer>)
    ensures Project(a + b) == Project(a) + Project(b)
  {
    assert forall j :: 0 <= j < |a + b| ==> Project(a + b)[j] == (Project(a) + Project(b))[j];
  }

  lemma {:induction false} MatchesProject(customers: seq<Customer>, key: Option<CustomerId>)
    ensures Matches(Project(customers), key) == Project(CustomersWith(customers, key))
  {
    if customers != [] {
      var c, rest := customers[0], customers[1..];
      var slices := Project(customers);
      assert slices[0] == CustomerSlice(c.customerId, c.city, c.state);
      assert slices[1..] == Project(rest);
      var head := if c.customerId == key then [c] else [];
      assert Matches(slices, key) == Project(head) + Matches(Project(rest), key);
      MatchesProject(rest, key);
      assert CustomersWith(customers, key) == head + CustomersWith(rest, key);
      ProjectConcat(head, CustomersWith(rest, key));
    }
  }

  /**
   * Without any assumption on the customers table, the merge turns one row
   * into one output row per customers row that carries its key, in the
   * customers' order, each with that customer's city and state; or into one
   * row with null city and state when no customer carries the key.
   */
  lemma JoinCustomersOne(row: ItemsJoined, customers: seq<Customer>)
    ensures var ms := CustomersWith(customers, row.timed.order.customerId);
      |LeftJoinCustomers([row], customers)| == if ms == [] then 1 else |ms|
    ensures var ms := CustomersWith(customers, row.timed.order.customerId);
      ms == [] ==> LeftJoinCustomers([row], customers) == [Enriched(row, None, None)]
    ensures var ms := CustomersWith(customers, row.timed.order.customerId);
      forall t :: 0 <= t < |ms| ==>
        LeftJoinCustomers([row], customers)[t] == Enriched(row, ms[t].city, ms[t].state)
    ensures forall e :: e in LeftJoinCustomers([row], customers) ==>
      e.row == row && CustomerFrom(e, row.timed.order.customerId, customers)
  {
    var key := row.timed.order.customerId;
    var slices := Project(customers);
    var ms := Matches(slices, key);
    var cs := CustomersWith(customers, key);
    MatchesProject(customers, key);
    assert |ms| == |cs|;
    assert [row][1..] == [];
    assert JoinSlices([row][1..], slices) == [];
    assert Attach(row, ms) + [] == Attach(row, ms);
    assert LeftJoinCustomers([row], customers) == Attach(row, ms);
    if ms != [] {
      forall e | e in Attach(row, ms)
        ensures e.row == row && CustomerFrom(e, key, customers)
      {
        var j :| 0 <= j < |ms| && Attach(row, ms)[j] == e;
        MatchesInCustomers(customers, key, ms[j]);
      }
    }
  }

  predicate UniqueSliceIds(slices: seq<CustomerSlice>) {
    forall i, j :: 0 <= i < j < |slices| ==> slices[i].customerId != slices[j].customerId
  }

  lemma {:induction false} NoMatches(slices: seq<CustomerSlice>, key: Option<CustomerId>)
    requires forall j :: 0 <= j < |slices| ==> slices[j].customerId != key
    ensures Matches(slices, key) == []
  {
    if slices != [] {
      NoMatches(slices[1..], key);
    }
  }

  lemma {:induction false} MatchesAtMostOne(slices: seq<CustomerSlice>, key: Option<CustomerId>)
    requires UniqueSliceIds(slices)
    ensures |Matches(slices, key)| <= 1
  {
    if slices != [] {
      var rest := slices[1..];
      if slices[0].customerId == key {
        NoMatches(rest, key);
      } else {
        MatchesAtMostOne(rest, key);
      }
    }
  }

  /** The one output row of a left row when keys are unique. */
  function JoinOne(row: ItemsJoined, slices: seq<CustomerSlice>): Enriched {
    var ms := Matches(slices, row.timed.order.customerId);
    if ms == [] then Enriched(row, None, None) else Enriched(row, ms[0].city, ms[0].state)
  }

  lemma AttachUnique(row: ItemsJoined, slices: seq<CustomerSlice>)
    requires UniqueSliceIds(slices)
    ensures Attach(row, Matches(slices, row.timed.order.customerId)) == [JoinOne(row, slices)]
  {
    var ms := Matches(slices, row.timed.order.customerId);
    MatchesAtMostOne(slices, row.timed.order.customerId);
    if ms != [] {
      assert |ms| == 1;
      assert Attach(row, ms)[0] == JoinOne(row, slices);
    }
  }

  lemma {:induction false} JoinSlicesUnique(rows: seq<ItemsJoined>, slices: seq<CustomerSlice>)
    requires UniqueSliceIds(slices)
    ensures |JoinSlices(rows, slices)| == |rows|
    ensures forall i :: 0 <= i < |rows| ==> JoinSlices(rows, slices)[i] == JoinOne(rows[i], slices)
  {
    if rows != [] {
      JoinSlicesUnique(rows[1..], slices);
      AttachUnique(rows[0], slices);
      var r := JoinSlices(rows, slices);
      assert r == [JoinOne(rows[0], slices)] + JoinSlices(rows[1..], slices);
      forall i | 0 <= i < |rows|
        ensures r[i] == JoinOne(rows[i], slices)
      {
        if i > 0 {
          assert r[i] == JoinSlices(rows[1..], slices)[i - 1];
        }
      }
    }
  }

  lemma JoinOneAgrees(row: ItemsJoined, customers: seq<Customer>)
    requires UniqueCustomerIds(customers)
    ensures JoinOne(row, Project(customers)).row == row
    ensures CustomerAgrees(JoinOne(row, Project(customers)), row.timed.order.customerId, customers)
  {
    var slices := Project(customers);
    var key := row.timed.order.customerId;
    var ms := Matches(slices, key);
    MatchesAtMostOne(slices, key);
    if ms != [] {
      MatchesInCustomers(customers, key, ms[0]);
    }
    if HasCustomer(customers, key) {
      var j :| 0 <= j < |customers| && customers[j].customerId == key;
      assert slices[j] in ms;
      assert ms == [slices[j]];
      forall j' | 0 <= j' < |customers| && customers[j'].customerId == key
        ensures customers[j'].city == customers[j].city && customers[j'].state == customers[j].state
      {
        assert j' == j;
      }
    }
  }

  /**
   * When customer_id is unique in customers, the customers merge keeps the
   * row count: output row i is input row i, with the city and state of the
   * customer whose customer_id it carries, or null city and state when no
   * customer has it.
   */
  lemma LeftJoinCustomersUnique(rows: seq<ItemsJoined>, customers: seq<Customer>)
    requires UniqueCustomerIds(customers)
    ensures |LeftJoinCustomers(rows, customers)| == |rows|
    ensures forall i :: 0 <= i < |rows| ==> LeftJoinCustomers(rows, customers)[i].row == rows[i]
    ensures forall i :: 0 <= i < |rows| ==>
      CustomerAgrees(LeftJoinCustomers(rows, customers)[i], rows[i].timed.order.customerId, customers)
  {
    var slices := Project(customers);
    assert UniqueSliceIds(slices);
    JoinSlicesUnique(rows, slices);
    forall i | 0 <= i < |rows|
      ensures LeftJoinCustomers(rows, customers)[i].row == rows[i]
      ensures CustomerAgrees(LeftJoinCustomers(rows, customers)[i], rows[i].timed.order.customerId, customers)
    {
      JoinOneAgrees(rows[i], customers);
    }
  }

}
