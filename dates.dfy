/**
 * Date handling of transform_orders: `pd.to_datetime(col, errors="coerce")`
 * on the five date columns and the whole-day differences `.dt.days`.
 * Text-to-timestamp parsing itself is the parameter `parse`.
 */
module Dates {

  import opened Options
  import opened Tables

  /** The cell is, or becomes, NaT: missing text, text `parse` rejects, or NaT already. */
  predicate BecomesNaT(cell: DateCell, parse: string -> Option<Timestamp>) {
    match cell
    case Text(None) => true
    case Text(Some(s)) => parse(s).None?
    case Stamp(t) => t.None?
  }

  /**
   * to_datetime with errors="coerce" on one cell. It never fails: what cannot
   * be parsed becomes NaT, and a cell that is already a timestamp is kept.
   */
  function Coerce(cell: DateCell, parse: string -> Option<Timestamp>): (r: DateCell)
    ensures r.Stamp?
    ensures r.stamp.None? <==> BecomesNaT(cell, parse)
    ensures cell.Text? && cell.text.Some? ==> r.stamp == parse(cell.text.value)
    ensures cell.Stamp? ==> r == cell
  {
    match cell
    case Text(None) => Stamp(None)
    case Text(Some(s)) => Stamp(parse(s))
    case Stamp(_) => cell
  }

  /** to_datetime over a whole column. */
  function CoerceColumn(col: seq<DateCell>, parse: string -> Option<Timestamp>): (r: seq<DateCell>)
    ensures |r| == |col|
    ensures forall i :: 0 <= i < |col| ==> r[i] == Coerce(col[i], parse)
  {
    seq(|col|, i requires 0 <= i < |col| => Coerce(col[i], parse))
  }

  /**
   * Converting a column that was already converted changes nothing: a second
   * transform_orders call on the same caller frame finds its dates converted
   * and leaves them as they are.
   */
  lemma CoerceColumnIdempotent(col: seq<DateCell>, parse: string -> Option<Timestamp>)
    ensures CoerceColumn(CoerceColumn(col, parse), parse) == CoerceColumn(col, parse)
  {
    var once := CoerceColumn(col, parse);
    assert forall i :: 0 <= i < |col| ==> CoerceColumn(once, parse)[i] == once[i];
  }

  /** An order row after the conversion loop: the five date cells converted, nothing else touched. */
  function CoerceDates(o: Order, parse: string -> Option<Timestamp>): (r: Order)
    ensures r.Parsed()
    ensures r.orderId == o.orderId && r.customerId == o.customerId && r.status == o.status
    ensures forall c :: r.Date(c) == Coerce(o.Date(c), parse)
  {
    o.(purchase := Coerce(o.purchase, parse),
       approved := Coerce(o.approved, parse),
       deliveredCarrier := Coerce(o.deliveredCarrier, parse),
       deliveredCustomer := Coerce(o.deliveredCustomer, parse),
       estimatedDelivery := Coerce(o.estimatedDelivery, parse))
  }

  /**
   * `(later - earlier).dt.days`: the whole days of the difference, rounded
   * toward negative infinity as Timedelta.days is; NaT on either side gives NaN.
   */
  function DaysBetween(later: Option<Timestamp>, earlier: Option<Timestamp>): (r: Option<int>)
    ensures r.Some? <==> later.Some? && earlier.Some?
    ensures r.Some? ==>
      r.value * NanosPerDay <= later.value - earlier.value < r.value * NanosPerDay + NanosPerDay
  {
    if later.Some? && earlier.Some? then Some((later.value - earlier.value) / NanosPerDay) else None
  }

  /**
   * The sign of a delay: positive exactly when the delivery came at least a
   * whole day after the estimate, negative exactly when it came before it
   * (by any amount, since the days are floored), zero otherwise.
   */
  lemma DelaySign(delivered: Timestamp, estimated: Timestamp)
    ensures var d := DaysBetween(Some(delivered), Some(estimated)).value;
      && (d > 0 <==> delivered - estimated >= NanosPerDay)
      && (d < 0 <==> delivered < estimated)
      && (d == 0 <==> estimated <= delivered < estimated + NanosPerDay)
  {
  }

  /** A difference of exactly n days is n, whatever the sign of n. */
  lemma WholeDays(earlier: Timestamp, n: int)
    ensures DaysBetween(Some(earlier + n * NanosPerDay), Some(earlier)) == Some(n)
  {
    var d := DaysBetween(Some(earlier + n * NanosPerDay), Some(earlier)).value;
    assert d * NanosPerDay <= n * NanosPerDay < d * NanosPerDay + NanosPerDay;
  }

  /** The orders table after the conversion loop. */
  function CoerceOrders(orders: seq<Order>, parse: string -> Option<Timestamp>): (r: seq<Order>)
    ensures |r| == |orders|
    ensures forall k :: 0 <= k < |orders| ==> r[k] == CoerceDates(orders[k], parse)
  {
    seq(|orders|, k requires 0 <= k < |orders| => CoerceDates(orders[k], parse))
  }

  /**
   * A converted order with delivery_time_days (delivered to the customer
   * minus purchased) and delivery_delay_days (delivered to the customer minus
   * estimated).
   */
  function TimeOrder(o: Order): TimedOrder
    requires o.Parsed()
  {
    TimedOrder(o,
      DaysBetween(o.deliveredCustomer.stamp, o.purchase.stamp),
      DaysBetween(o.deliveredCustomer.stamp, o.estimatedDelivery.stamp))
  }

  function TimeOrders(orders: seq<Order>): (r: seq<TimedOrder>)
    requires forall k :: 0 <= k < |orders| ==> orders[k].Parsed()
    ensures |r| == |orders|
    ensures forall k :: 0 <= k < |orders| ==> r[k] == TimeOrder(orders[k])
  {
    seq(|orders|, k requires 0 <= k < |orders| => TimeOrder(orders[k]))
  }

  /**
   * delivery_time_days of a raw order row: null exactly when the purchase or
   * the delivery-to-customer cell is missing or unparseable, and otherwise
   * the floored number of whole days between the two parsed timestamps.
   */
  lemma DeliveryTimeOfRaw(o: Order, parse: string -> Option<Timestamp>)
    ensures var t := TimeOrder(CoerceDates(o, parse));
      && (t.deliveryTimeDays.None? <==>
            BecomesNaT(o.deliveredCustomer, parse) || BecomesNaT(o.purchase, parse))
      && (t.deliveryTimeDays.Some? ==>
            var span := Coerce(o.deliveredCustomer, parse).stamp.value - Coerce(o.purchase, parse).stamp.value;
            t.deliveryTimeDays.value * NanosPerDay <= span < t.deliveryTimeDays.value * NanosPerDay + NanosPerDay)
  {
  }

  /**
   * delivery_delay_days of a raw order row: null exactly when the
   * delivery-to-customer or the estimated-delivery cell is missing or
   * unparseable, and otherwise the floored whole days of the delay.
   */
  lemma DeliveryDelayOfRaw(o: Order, parse: string -> Option<Timestamp>)
    ensures var t := TimeOrder(CoerceDates(o, parse));
      && (t.deliveryDelayDays.None? <==>
            BecomesNaT(o.deliveredCustomer, parse) || BecomesNaT(o.estimatedDelivery, parse))
      && (t.deliveryDelayDays.Some? ==>
            var span := Coerce(o.deliveredCustomer, parse).stamp.value - Coerce(o.estimatedDelivery, parse).stamp.value;
            t.deliveryDelayDays.value * NanosPerDay <= span < t.deliveryDelayDays.value * NanosPerDay + NanosPerDay)
  {
  }

}
