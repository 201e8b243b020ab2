# transform_orders, modelled in Dafny

This project models `transform_orders` in `src/transform.py`. It is the
transform step of a small ETL pipeline over e-commerce orders. The step takes
three tables (orders, order items, customers) and does four things:

1. It converts the five text date columns of the orders to timestamps. A
   value that is missing or cannot be parsed becomes NaT; nothing fails.
2. It adds `delivery_time_days` (delivered to customer minus purchase) and
   `delivery_delay_days` (delivered to customer minus estimated delivery).
   Both are whole days, floored, and null when either timestamp is NaT.
3. It groups the items by `order_id` into `total_items` (count of
   non-missing `order_item_id`), `total_value` (sum of `price`) and
   `total_freight` (sum of `freight_value`).
4. It left-merges that aggregate on `order_id`, then `customer_id`,
   `customer_city` and `customer_state` of the customers on `customer_id`.

Steps 1 and 2 change the caller's orders frame in place. Steps 3 and 4 build
new frames, and only the returned table holds their columns.

Files, one module each:

- `options.dfy` (`Options`): the `Option` type used for every cell that can
  be missing.
- `tables.dfy` (`Tables`): the rows of the input tables and of each stage's
  output. Timestamps are `int` nanoseconds (datetime64[ns]). Money is `int`
  cents.
- `dates.dfy` (`Dates`): `to_datetime(..., errors="coerce")` per cell,
  column and order row, and the floored day difference `DaysBetween`.
- `aggregation.dfy` (`Aggregation`): the group-by as a fold into a
  `map<OrderId, Agg>` (`GroupItems`). It is proved equal to the per-key
  reference meaning: select the rows of the key (`RowsOf`), then count and
  sum them.
- `joins.dfy` (`Joins`): the two left merges.
- `frame.dfy` (`Frames`): the caller's orders frame as a class
  `OrdersFrame`, with one sequence per column. Its methods are the in-place
  part of the source: the conversion loop and the two new columns.
- `transform.dfy` (`OrdersTransform`): the pure `Transform` of the three
  tables, the lemmas about it, and the method `TransformOrders`. That
  method runs the two frame methods and then the merges, as the source does.

Points where pandas' behaviour is easy to miss:

- `total_items` is pandas' `count` of `order_item_id`. It counts the item
  rows whose `order_item_id` is not missing, not all rows of the group.
- Item rows with a missing `order_id` are dropped by `groupby`. So an order
  whose `order_id` is missing never gets totals.
- The customers merge is not protected against repeated `customer_id`
  values. The model keeps that behaviour: each matching customer row gives
  its own output row. The one-row-per-order result is proved under the
  precondition that `customer_id` is unique (`TransformRows`). Without that
  precondition, `TransformOne` and `TransformAppend` show that the left order
  is still kept.
- pandas merges a missing key with a missing key. In the customers merge,
  `None` therefore matches `None`.
- A column missing from an input table makes pandas raise `KeyError`. No
  separate schema error exists.

## Model

| member | source | states |
|---|---|---|
| `Dates.Coerce` | src/transform.py:15-16 | a converted cell is always a timestamp; it is NaT exactly when the text is missing or unparseable (or it was NaT already); parsed text gives the parser's value; a timestamp is kept as it is |
| `Dates.CoerceColumnIdempotent` | src/transform.py:15-16 | converting a column that was already converted changes nothing, so a second transform_orders call on the same caller frame leaves its converted dates as they are |
| `Dates.CoerceDates` | src/transform.py:7-16 | after the loop all five date cells of a row are timestamps, each the conversion of the old cell; order_id, customer_id and the other columns are unchanged |
| `Dates.DaysBetween` | src/transform.py:19-26 | the day difference is defined exactly when both timestamps are present, and then it is the floor of the difference divided by one day |
| `Dates.DelaySign` | src/transform.py:24-26 | the delay is positive exactly when the delivery is at least one whole day after the estimate, negative exactly when it is before it, and zero otherwise |
| `Dates.WholeDays` | src/transform.py:19-26 | a difference of exactly n days gives n, for negative n too |
| `Dates.DeliveryTimeOfRaw` | src/transform.py:15-21 | delivery_time_days of a raw row is null exactly when the purchase or delivered-to-customer cell is missing or unparseable, and otherwise the floored whole days between them |
| `Dates.DeliveryDelayOfRaw` | src/transform.py:15-26 | delivery_delay_days of a raw row is null exactly when the delivered-to-customer or estimated cell is missing or unparseable, and otherwise the floored whole days of the delay |
| `Aggregation.RowsOf` | src/transform.py:29 | the rows selected for an order_id are rows of the item table carrying that order_id, and every such row is selected |
| `Aggregation.GroupItems` | src/transform.py:29-33 | the aggregate has a row for an order_id exactly when some item row carries that order_id; rows with a missing order_id make no group |
| `Aggregation.GroupItemsCorrect` | src/transform.py:29-33 | the aggregate row of order k is the count of non-missing order_item_id and the sums of price and freight_value over exactly the item rows of k |
| `Joins.LeftJoinItems` | src/transform.py:35 | one output row per order, in order, carrying the order unchanged; the totals are present exactly when the order's order_id has a group, and then equal that group; otherwise all three are null |
| `Joins.LeftJoinCustomers` | src/transform.py:38-40 | the customers merge never loses an order row |
| `Joins.JoinSlicesAppend` | src/transform.py:38-40 | the customers merge of two tables put together is the two merges put together, so the left order is kept |
| `Joins.JoinCustomersOne` | src/transform.py:38-40 | with any customers table, one row gives exactly one output row per customers row carrying its customer_id, in the customers' order, output row t holding the t-th such customer's city and state; with no such customer, exactly one row with null city and state |
| `Joins.LeftJoinCustomersUnique` | src/transform.py:38-40 | when customer_id is unique in customers, output row i is input row i, with the city and state of its customer, or null when there is none |
| `OrdersTransform.Transform` | src/transform.py:3-42 | the result never has fewer rows than the orders |
| `OrdersTransform.TransformRows` | src/transform.py:15-40 | with unique customer_id: exactly one row per order, in order; row i holds order i with its dates converted and the other columns unchanged, its two durations, its item totals (null with no item rows), and its customer's city and state (null with no customer) |
| `OrdersTransform.TransformAppend` | src/transform.py:35-40 | the result for two tables of orders put together is the two results put together |
| `OrdersTransform.TransformOne` | src/transform.py:15-40 | for any customers table, one order gives one row per customers row carrying its customer_id (row t with the t-th such customer's city and state), or one row when there is none; each row holds that order's converted columns, durations and totals |
| `OrdersTransform.UnmatchedItemsIgnored` | src/transform.py:29-35 | adding item rows whose order_id matches no order leaves the result unchanged |
| `OrdersTransform.TransformOrders` | src/transform.py:3-42 | the result is Transform of the frame's rows as they were; the caller's frame has its five date columns converted and gains the two duration columns, and nothing else in it changes |
| `OrdersTransform.Scenario` | src/transform.py:3-42 | a worked case: delivery in 4 days and 2 days late, 2 items worth 1500 cents with 300 cents of freight, city and state SP; an unparseable purchase date gives a null delivery_time_days, and no items or customer give nulls |
| `Frames.OrdersFrame.CoerceDateColumns` | src/transform.py:15-16 | the loop replaces each date column of the frame by its conversion; the frame's rows become the converted rows, and the other columns are unchanged |
| `Frames.OrdersFrame.AddDurationColumns` | src/transform.py:18-26 | the frame gains delivery_time_days and delivery_delay_days, computed from its converted dates; the other columns are unchanged |

## Left out

- Text-to-timestamp parsing inside `pd.to_datetime` is the parameter
  `parse`. It is applied to each cell on its own, and the same function
  serves all five columns, so a cell's result never depends on the other
  cells of its column. pandas 2 instead guesses one format from a column's
  first non-missing text and turns cells that do not match it into NaT.
  Relative words such as "now" or "today" parse against the clock. Neither
  is modelled. Time zones and out-of-range dates are left to `parse`.
- OrdersTransform.TransformAppend: holds for the program only when every
  date column's cells parse the same way whichever cell comes first, that is
  when each column uses one consistent format. Otherwise putting two order
  tables together can change the format pandas guesses, and with it which
  cells become NaT.
- Dates.DaysBetween: gives a result for any two timestamps. In the program
  the subtraction can raise instead. It raises `OverflowError` when two
  datetime64[ns] values are more than about 292 years apart, because the
  int64 nanosecond difference overflows. It raises `TypeError` when one
  column parsed with a time zone and the other without. `Timestamp` is an
  unbounded integer, and time zones are not modelled, so neither error is
  modelled.
- `price` and `freight_value` are floating point in the source. They are
  integer cents here, so float rounding in the sums is not modelled.
- Column dtypes are not modelled. For example, an integer column becomes
  float when the merge fills it with NaN. Ids here are always text. In
  pandas, a merge raises `ValueError` when the two key columns were read
  with different dtypes, numeric on one side and text on the other. That
  happens, for instance, when every `customer_id` of the orders is missing,
  so the column is read as float NaN, while the customers hold text ids.
  `Joins.LeftJoinItems` and `Joins.LeftJoinCustomers` always merge, so that
  error is not modelled.
- `groupby` sorts its keys. The aggregate is a map here, so it has no order.
  This does not change the result, because the merge keeps the orders'
  order.
- A missing column (pandas `KeyError`) is not modelled. The typed rows
  always have every column that the transform names.
- The progress `print` at src/transform.py:4 is left out.
- src/extract.py, src/load.py, src/load_sql.py and src/pipeline.py are only
  CSV and SQLite I/O and the order of the calls. They are not part of this
  model.
- `Frames.OrdersFrame` stores each column as a Dafny sequence. Sharing of
  column data between pandas objects (views and copies) is not modelled.
- `OrdersTransform.Transform`: its own contract states only that no order row
  is lost. The row-by-row content is stated by `TransformRows`,
  `TransformOne` and `TransformAppend`.
- `Joins.LeftJoinCustomers`: its own contract states only that no row is
  lost. What each row holds is stated by `JoinCustomersOne` and
  `LeftJoinCustomersUnique`.
