/**
 * The rows of the three input tables of transform_orders and of the tables
 * it builds on the way to its result. Every cell that pandas may hold as a
 * missing value is an Option.
 */
module Tables {

  import opened Options

  type OrderId = string
  type CustomerId = string

  /** A datetime64[ns] value: nanoseconds since the epoch, timezone-naive. */
  type Timestamp = int

  /** price and freight_value, as an integer number of cents. */
  type Money = int

  /** One day as a Timedelta, in nanoseconds. */
  const NanosPerDay: int := 86_400_000_000_000

  /** The five columns that transform_orders converts to timestamps. */
  datatype DateColumn =
    | Purchase           // order_purchase_timestamp
    | Approved           // order_approved_at
    | DeliveredCarrier   // order_delivered_carrier_date
    | DeliveredCustomer  // order_delivered_customer_date
    | EstimatedDelivery  // order_estimated_delivery_date

  /** `date_cols`, in the order the conversion loop visits them. */
  const DateCols: seq<DateColumn> :=
    [Purchase, Approved, DeliveredCarrier, DeliveredCustomer, EstimatedDelivery]

  /**
   * A cell of a date column: the text the CSV reader left there (or a
   * missing value), or, once converted, a timestamp (or NaT).
   */
  datatype DateCell = Text(text: Option<string>) | Stamp(stamp: Option<Timestamp>)

  /** A row of the orders table; `status` stands for the columns the transform never names. */
  datatype Order = Order(
    orderId: Option<OrderId>,
    customerId: Option<CustomerId>,
    status: Option<string>,
    purchase: DateCell,
    approved: DateCell,
    deliveredCarrier: DateCell,
    deliveredCustomer: DateCell,
    estimatedDelivery: DateCell)
  {
    function Date(c: DateColumn): DateCell {
      match c
      case Purchase => purchase
      case Approved => approved
      case DeliveredCarrier => deliveredCarrier
      case DeliveredCustomer => deliveredCustomer
      case EstimatedDelivery => estimatedDelivery
    }

    /** All five date cells hold timestamps (or NaT), none holds text. */
    predicate Parsed() {
      purchase.Stamp? && approved.Stamp? && deliveredCarrier.Stamp?
      && deliveredCustomer.Stamp? && estimatedDelivery.Stamp?
    }
  }

  /** A row of the order items table. */
  datatype Item = Item(
    orderId: Option<OrderId>,
    orderItemId: Option<int>,
    productId: Option<string>,
    price: Option<Money>,
    freightValue: Option<Money>)

  /** A row of the customers table. */
  datatype Customer = Customer(
    customerId: Option<CustomerId>,
    uniqueId: Option<string>,
    zipCodePrefix: Option<string>,
    city: Option<string>,
    state: Option<string>)

  /** An order after date conversion, with delivery_time_days and delivery_delay_days. */
  datatype TimedOrder = TimedOrder(
    order: Order,
    deliveryTimeDays: Option<int>,
    deliveryDelayDays: Option<int>)

  /** A row after the merge with the item aggregate: total_items, total_value, total_freight. */
  datatype ItemsJoined = ItemsJoined(
    timed: TimedOrder,
    totalItems: Option<nat>,
    totalValue: Option<Money>,
    totalFreight: Option<Money>)

  /** A row of the result, after the merge with customer_city and customer_state. */
  datatype Enriched = Enriched(
    row: ItemsJoined,
    customerCity: Option<string>,
    customerState: Option<string>)

}
