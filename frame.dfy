/**
 * The caller's orders DataFrame, which transform_orders changes in place:
 * the conversion loop overwrites the five date columns, and the two
 * duration columns are then assigned onto the same frame.
 */
module Frames {

  import opened Options
  import opened Tables
  import opened Dates

  /** The cells of one date column of a table of orders. */
  function Column(rows: seq<Order>, c: DateColumn): (col: seq<DateCell>)
    ensures |col| == |rows|
    ensures forall k :: 0 <= k < |rows| ==> col[k] == rows[k].Date(c)
  {
    seq(|rows|, k requires 0 <= k < |rows| => rows[k].Date(c))
  }

  lemma AllDateCols()
    ensures forall c :: c in DateCols
  {
    forall c: DateColumn ensures c in DateCols {
      match c
      case Purchase => assert DateCols[0] == c;
      case Approved => assert DateCols[1] == c;
      case DeliveredCarrier => assert DateCols[2] == c;
      case DeliveredCustomer => assert DateCols[3] == c;
      case EstimatedDelivery => assert DateCols[4] == c;
    }
  }

  /** Columns of equal length, with every date column present. */
  ghost predicate WellFormed(ids: seq<Option<OrderId>>, cids: seq<Option<CustomerId>>,
                             st: seq<Option<string>>, d: map<DateColumn, seq<DateCell>>)
  {
    && |cids| == |ids|
    && |st| == |ids|
    && (forall c :: c in d)
    && (forall c :: c in d ==> |d[c]| == |ids|)
  }

  /** The rows that a set of columns holds. */
  function Assemble(ids: seq<Option<OrderId>>, cids: seq<Option<CustomerId>>,
                    st: seq<Option<string>>, d: map<DateColumn, seq<DateCell>>): (rows: seq<Order>)
    requires WellFormed(ids, cids, st, d)
    ensures |rows| == |ids|
    ensures forall k :: 0 <= k < |ids| ==>
      rows[k].orderId == ids[k] && rows[k].customerId == cids[k] && rows[k].status == st[k]
    ensures forall k, c :: 0 <= k < |ids| ==> rows[k].Date(c) == d[c][k]
  {
    seq(|ids|, k requires 0 <= k < |ids| && WellFormed(ids, cids, st, d) =>
      Order(ids[k], cids[k], st[k],
        d[Purchase][k], d[Approved][k], d[DeliveredCarrier][k],
        d[DeliveredCustomer][k], d[EstimatedDelivery][k]))
  }

  /** Converting every date column converts every row. */
  lemma AssembleCoerced(ids: seq<Option<OrderId>>, cids: seq<Option<CustomerId>>, st: seq<Option<string>>,
                        d0: map<DateColumn, seq<DateCell>>, d1: map<DateColumn, seq<DateCell>>,
                        parse: string -> Option<Timestamp>)
    requires WellFormed(ids, cids, st, d0)
    requires forall c :: c in d1 && d1[c] == CoerceColumn(d0[c], parse)
    ensures WellFormed(ids, cids, st, d1)
    ensures Assemble(ids, cids, st, d1) == CoerceOrders(Assemble(ids, cids, st, d0), parse)
  {
    var before := Assemble(ids, cids, st, d0);
    var after := Assemble(ids, cids, st, d1);
    forall k | 0 <= k < |ids|
      ensures after[k] == CoerceDates(before[k], parse)
    {
      var o := CoerceDates(before[k], parse);
      assert after[k].purchase == o.purchase;
      assert after[k].approved == o.approved;
      assert after[k].deliveredCarrier == o.deliveredCarrier;
      assert after[k].deliveredCustomer == o.deliveredCustomer;
      assert after[k].estimatedDelivery == o.estimatedDelivery;
    }
  }

  /** The orders frame, column by column. */
  class OrdersFrame {
    var orderId: seq<Option<OrderId>>
    var customerId: seq<Option<CustomerId>>
    var status: seq<Option<string>>
    var dates: map<DateColumn, seq<DateCell>>
    /** None while the frame has no delivery_time_days column. */
    var deliveryTimeDays: Option<seq<Option<int>>>
    /** None while the frame has no delivery_delay_days column. */
    var deliveryDelayDays: Option<seq<Option<int>>>

    /** Every column is present and as long as the others. */
    ghost predicate Valid()
      reads this
    {
      && WellFormed(orderId, customerId, status, dates)
      && (deliveryTimeDays.Some? ==> |deliveryTimeDays.value| == |orderId|)
      && (deliveryDelayDays.Some? ==> |deliveryDelayDays.value| == |orderId|)
    }

    /** The frame read row by row, without the duration columns. */
    function Rows(): (rows: seq<Order>)
      reads this
      requires Valid()
      ensures |rows| == |orderId|
      ensures forall k :: 0 <= k < |orderId| ==>
        rows[k].orderId == orderId[k] && rows[k].customerId == customerId[k] && rows[k].status == status[k]
      ensures forall k, c :: 0 <= k < |orderId| ==> rows[k].Date(c) == dates[c][k]
    {
      Assemble(orderId, customerId, status, dates)
    }

    /** The frame read row by row with its two duration columns. */
    function Timed(): (rows: seq<TimedOrder>)
      reads this
      requires Valid() && deliveryTimeDays.Some? && deliveryDelayDays.Some?
      ensures |rows| == |orderId|
      ensures forall k :: 0 <= k < |orderId| ==>
        rows[k] == TimedOrder(Rows()[k], deliveryTimeDays.value[k], deliveryDelayDays.value[k])
    {
      var base, times, delays := Rows(), deliveryTimeDays.value, deliveryDelayDays.value;
      seq(|base|, k requires 0 <= k < |base| && |times| == |base| && |delays| == |base| =>
        TimedOrder(base[k], times[k], delays[k]))
    }

    /** The frame the CSV reader builds from a table of orders; it has no duration columns yet. */
    constructor (rows: seq<Order>)
      ensures Valid() && Rows() == rows
      ensures deliveryTimeDays.None? && deliveryDelayDays.None?
    {
      orderId := seq(|rows|, k requires 0 <= k < |rows| => rows[k].orderId);
      customerId := seq(|rows|, k requires 0 <= k < |rows| => rows[k].customerId);
      status := seq(|rows|, k requires 0 <= k < |rows| => rows[k].status);
      dates := map[
        Purchase := Column(rows, Purchase),
        Approved := Column(rows, Approved),
        DeliveredCarrier := Column(rows, DeliveredCarrier),
        DeliveredCustomer := Column(rows, DeliveredCustomer),
        EstimatedDelivery := Column(rows, EstimatedDelivery)];
      deliveryTimeDays := None;
      deliveryDelayDays := None;
      new;
      forall c: DateColumn ensures c in dates {
        AllDateCols();
        assert c in DateCols;
      }
      assert forall k :: 0 <= k < |rows| ==> Rows()[k] == rows[k];
    }

    /**
     * `for col in date_cols: orders[col] = pd.to_datetime(orders[col], errors="coerce")`:
     * each date column is replaced by its conversion; no other column changes.
     */
    method CoerceDateColumns(parse: string -> Option<Timestamp>)
      requires Valid()
      modifies this
      ensures Valid()
      ensures Rows() == CoerceOrders(old(Rows()), parse)
      ensures orderId == old(orderId) && customerId == old(customerId) && status == old(status)
      ensures deliveryTimeDays == old(deliveryTimeDays) && deliveryDelayDays == old(deliveryDelayDays)
    {
      for i := 0 to |DateCols|
        invariant Valid()
        invariant orderId == old(orderId) && customerId == old(customerId) && status == old(status)
        invariant deliveryTimeDays == old(deliveryTimeDays) && deliveryDelayDays == old(deliveryDelayDays)
        invariant forall c :: c in DateCols[..i] ==> dates[c] == CoerceColumn(old(dates)[c], parse)
        invariant forall c :: c !in DateCols[..i] ==> dates[c] == old(dates)[c]
      {
        var col := DateCols[i];
        dates := dates[col := CoerceColumn(dates[col], parse)];
        assert DateCols[..i + 1] == DateCols[..i] + [col];
      }
      AllDateCols();
      assert DateCols[..|DateCols|] == DateCols;
      AssembleCoerced(orderId, customerId, status, old(dates), dates, parse);
    }

    /**
     * `orders["delivery_time_days"] = (delivered - purchase).dt.days` and
     * `orders["delivery_delay_days"] = (delivered - estimated).dt.days`:
     * the two columns are added (or overwritten); no other column changes.
     */
    method AddDurationColumns()
      requires Valid()
      requires forall k :: 0 <= k < |orderId| ==> Rows()[k].Parsed()
      modifies this
      ensures Valid()
      ensures orderId == old(orderId) && customerId == old(customerId) && status == old(status)
      ensures dates == old(dates) && Rows() == old(Rows())
      ensures deliveryTimeDays.Some? && deliveryDelayDays.Some?
      ensures Timed() == TimeOrders(Rows())
    {
      var rows := Rows();
      deliveryTimeDays := Some(seq(|rows|, k requires 0 <= k < |rows| =>
        DaysBetween(rows[k].deliveredCustomer.stamp, rows[k].purchase.stamp)));
      deliveryDelayDays := Some(seq(|rows|, k requires 0 <= k < |rows| =>
        DaysBetween(rows[k].deliveredCustomer.stamp, rows[k].estimatedDelivery.stamp)));
      assert Rows() == rows;
    }
  }

}
