/**
 * `items.groupby("order_id").agg(total_items=("order_item_id", "count"),
 * total_value=("price", "sum"), total_freight=("freight_value", "sum"))`.
 *
 * GroupItems builds the aggregate the way a hash aggregation does, one item
 * row at a time into a map; RowsOf and Summary are the reference meaning of a
 * group-by (select the rows of one key, then count and add them up), and
 * GroupItemsCorrect proves the two agree.
 */
module Aggregation {

  import opened Options
  import opened Tables

  /** One row of the aggregate: total_items, total_value, total_freight. */
  datatype Agg = Agg(count: nat, value: Money, freight: Money)

  /** A sum skips missing values, as pandas' sum does. */
  function OrZero(m: Option<Money>): Money {
    if m.Some? then m.value else 0
  }

  /** The item rows of order k, in table order. */
  function RowsOf(items: seq<Item>, k: OrderId): (r: seq<Item>)
    ensures |r| <= |items|
    ensures forall x :: x in r ==> x in items && x.orderId == Some(k)
    ensures forall i :: 0 <= i < |items| && items[i].orderId == Some(k) ==> items[i] in r
  {
    if items == [] then []
    else (if items[0].orderId == Some(k) then [items[0]] else []) + RowsOf(items[1..], k)
  }

  /** "count" of order_item_id: the rows where it is not missing. */
  function CountIds(rows: seq<Item>): (n: nat)
    ensures n <= |rows|
  {
    if rows == [] then 0
    else (if rows[0].orderItemId.Some? then 1 else 0) + CountIds(rows[1..])
  }

  /** "sum" of price over the rows. */
  function SumPrice(rows: seq<Item>): Money {
    if rows == [] then 0 else OrZero(rows[0].price) + SumPrice(rows[1..])
  }

  /** "sum" of freight_value over the rows. */
  function SumFreight(rows: seq<Item>): Money {
    if rows == [] then 0 else OrZero(rows[0].freightValue) + SumFreight(rows[1..])
  }

  /** The aggregate of one group, from its rows. */
  function Summary(rows: seq<Item>): Agg {
    Agg(CountIds(rows), SumPrice(rows), SumFreight(rows))
  }

  /** The running aggregate of a group after one more of its rows. */
  function Absorb(a: Agg, x: Item): Agg {
    Agg(a.count + (if x.orderItemId.Some? then 1 else 0),
        a.value + OrZero(x.price),
        a.freight + OrZero(x.freightValue))
  }

  /**
   * The group-by as a fold over the item rows. A row whose order_id is
   * missing is dropped, as groupby does by default; every other row lands in
   * the group of its order_id.
   */
  function GroupItems(items: seq<Item>): (groups: map<OrderId, Agg>)
    ensures forall k :: k in groups <==> exists i :: 0 <= i < |items| && items[i].orderId == Some(k)
    decreases |items|
  {
    if items == [] then map[]
    else
      var before := items[..|items| - 1];
      var x := items[|items| - 1];
      var groups := GroupItems(before);
      assert forall i :: 0 <= i < |before| ==> before[i] == items[i];
      match x.orderId
      case None => groups
      case Some(k) => groups[k := Absorb(if k in groups then groups[k] else Agg(0, 0, 0), x)]
  }

  lemma {:induction false} RowsOfConcat(a: seq<Item>, b: seq<Item>, k: OrderId)
    ensures RowsOf(a + b, k) == RowsOf(a, k) + RowsOf(b, k)
  {
    if a == [] {
      assert a + b == b;
    } else {
      assert (a + b)[0] == a[0];
      assert (a + b)[1..] == a[1..] + b;
      RowsOfConcat(a[1..], b, k);
    }
  }

  lemma {:induction false} SummarySnoc(rows: seq<Item>, x: Item)
    ensures Summary(rows + [x]) == Absorb(Summary(rows), x)
  {
    if rows == [] {
      assert rows + [x] == [x];
      assert [x][1..] == [];
    } else {
      assert (rows + [x])[0] == rows[0];
      assert (rows + [x])[1..] == rows[1..] + [x];
      SummarySnoc(rows[1..], x);
    }
  }

  /**
   * The fold computes the group-by: order k has a row in the aggregate
   * exactly when some item row carries order_id k, and that row holds the
   * count of non-missing order_item_id and the sums of price and
   * freight_value over exactly those item rows.
   */
  lemma {:induction false} GroupItemsCorrect(items: seq<Item>, k: OrderId)
    ensures k in GroupItems(items) <==> RowsOf(items, k) != []
    ensures k in GroupItems(items) ==> GroupItems(items)[k] == Summary(RowsOf(items, k))
  {
    if items != [] {
      var before := items[..|items| - 1];
      var x := items[|items| - 1];
      assert items == before + [x];
      GroupItemsCorrect(before, k);
      RowsOfConcat(before, [x], k);
      assert [x][1..] == [];
      if x.orderId == Some(k) {
        SummarySnoc(RowsOf(before, k), x);
        assert RowsOf(items, k) == RowsOf(before, k) + [x];
      } else {
        assert RowsOf(items, k) == RowsOf(before, k);
      }
    }
  }

}
