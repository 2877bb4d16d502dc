/**
 * The one-row-per-order streams (orders, payments, shipments), each rendered by its own process
 * from its own counter, and the exact reconciliation of their amounts with the item stream.
 */
module DswtStreams {
  import opened DswtModel
  import opened DswtItems
  import opened Renderer

  datatype OrderRow = OrderRow(oid: nat, orderTotal: int, orderTs: int)

  datatype PaymentRow = PaymentRow(oid: nat, amount: int, declined: bool, authorizedTs: int)

  datatype ShipmentRow = ShipmentRow(oid: nat, promisedDays: int, shippedTs: int)

  function LinesOf(s: Seeds, oid: nat): nat {
    if s.itemCount(oid) < 0 then 0 else s.itemCount(oid)
  }

  function OrderOf(s: Seeds, oid: nat): OrderRow {
    OrderRow(oid, TotalOf(s, oid, LinesOf(s, oid)), OrderMs(oid))
  }

  function PaymentOf(s: Seeds, oid: nat): PaymentRow {
    PaymentRow(oid, TotalOf(s, oid, LinesOf(s, oid)), s.declined(oid), OrderMs(oid) + s.authDelay(oid) * 1000)
  }

  function ShipmentOf(s: Seeds, oid: nat): ShipmentRow {
    ShipmentRow(oid, s.promised(oid), ShippedMs(oid))
  }

  /** The order number the next render will take. */
  function Next(st: RenderState): int {
    if "orders" in st.counters then st.counters["orders"] else 0
  }

  /** One render of the orders template. */
  method RenderOrder(r: TemplateRenderer, s: Seeds) returns (row: OrderRow)
    requires Next(r.View()) >= 0
    modifies r`counters
    ensures row == OrderOf(s, Next(old(r.View())))
    ensures Next(r.View()) == row.oid + 1
  {
    var oid := r.NextCount("orders", 0, 1);
    var itemCount := s.itemCount(oid);
    var total, line := 0, 1;
    while line < itemCount + 1
      invariant 1 <= line && (itemCount >= 0 ==> line <= itemCount + 1)
      invariant itemCount < 0 ==> line == 1
      invariant total == TotalOf(s, oid, line - 1)
    {
      var sku := s.sku(oid, line);
      var unitPrice := s.price(sku);
      var quantity := s.quantity(oid, line);
      total := total + unitPrice * quantity;
      line := line + 1;
    }
    row := OrderRow(oid, total, OrderMs(oid));
  }

  /** One render of the payments template, which recomputes the total on its own. */
  method RenderPayment(r: TemplateRenderer, s: Seeds) returns (row: PaymentRow)
    requires Next(r.View()) >= 0
    modifies r`counters
    ensures row == PaymentOf(s, Next(old(r.View())))
    ensures Next(r.View()) == row.oid + 1
  {
    var oid := r.NextCount("orders", 0, 1);
    var authorizedMs := OrderMs(oid) + s.authDelay(oid) * 1000;
    var itemCount := s.itemCount(oid);
    var total, line := 0, 1;
    while line < itemCount + 1
      invariant 1 <= line && (itemCount >= 0 ==> line <= itemCount + 1)
      invariant itemCount < 0 ==> line == 1
      invariant total == TotalOf(s, oid, line - 1)
    {
      var sku := s.sku(oid, line);
      var unitPrice := s.price(sku);
      var quantity := s.quantity(oid, line);
      total := total + unitPrice * quantity;
      line := line + 1;
    }
    row := PaymentRow(oid, total, s.declined(oid), authorizedMs);
  }

  /** One render of the shipments template. */
  method RenderShipment(r: TemplateRenderer, s: Seeds) returns (row: ShipmentRow)
    requires Next(r.View()) >= 0
    modifies r`counters
    ensures row == ShipmentOf(s, Next(old(r.View())))
    ensures Next(r.View()) == row.oid + 1
  {
    var oid := r.NextCount("orders", 0, 1);
    row := ShipmentRow(oid, s.promised(oid), OrderMs(oid) + SHIP_DELAY_MS);
  }

  /** The rows of the first n renders: the counter starts at 0 and takes each number once. */
  function Orders(s: Seeds, n: nat): (rows: seq<OrderRow>)
    ensures |rows| == n && forall k | 0 <= k < n :: rows[k] == OrderOf(s, k)
  {
    if n == 0 then [] else Orders(s, n - 1) + [OrderOf(s, n - 1)]
  }

  function Payments(s: Seeds, n: nat): (rows: seq<PaymentRow>)
    ensures |rows| == n && forall k | 0 <= k < n :: rows[k] == PaymentOf(s, k)
  {
    if n == 0 then [] else Payments(s, n - 1) + [PaymentOf(s, n - 1)]
  }

  function Shipments(s: Seeds, n: nat): (rows: seq<ShipmentRow>)
    ensures |rows| == n && forall k | 0 <= k < n :: rows[k] == ShipmentOf(s, k)
  {
    if n == 0 then [] else Shipments(s, n - 1) + [ShipmentOf(s, n - 1)]
  }

  /** Main: the o-th row of each stream is order o's: placed five minutes after the order before,
      charged for its lines, authorised after the drawn delay, and shipped two hours after it was
      placed with the promise drawn for it. */
  lemma OrderOnTheStreams(s: Seeds, n: nat, o: nat)
    requires InRange(s) && o < n
    ensures var placed, total := 1767225600000 + o * 300000, Charged(s, o, s.itemCount(o));
            && Orders(s, n)[o] == OrderRow(o, total, placed)
            && Payments(s, n)[o] == PaymentRow(o, total, s.declined(o), placed + s.authDelay(o) * 1000)
            && Shipments(s, n)[o] == ShipmentRow(o, s.promised(o), placed + 7200000)
  {
    TotalIsCharged(s, o, s.itemCount(o));
  }

  /** A producer of the orders stream: sample for a schema, then render n rows. */
  method ProduceOrders(samples: seq<seq<Call>>, s: Seeds, n: nat) returns (rows: seq<OrderRow>)
    ensures rows == Orders(s, n)
  {
    var r := new TemplateRenderer();
    var sampled := r.Sample(samples);
    rows := [];
    for i := 0 to n
      invariant Next(r.View()) == i
      invariant rows == Orders(s, i)
    {
      var row := RenderOrder(r, s);
      rows := rows + [row];
    }
  }

  /** Likewise for the payments stream, in a process of its own. */
  method ProducePayments(samples: seq<seq<Call>>, s: Seeds, n: nat) returns (rows: seq<PaymentRow>)
    ensures rows == Payments(s, n)
  {
    var r := new TemplateRenderer();
    var sampled := r.Sample(samples);
    rows := [];
    for i := 0 to n
      invariant Next(r.View()) == i
      invariant rows == Payments(s, i)
    {
      var row := RenderPayment(r, s);
      rows := rows + [row];
    }
  }

  /** And for the shipments stream. */
  method ProduceShipments(samples: seq<seq<Call>>, s: Seeds, n: nat) returns (rows: seq<ShipmentRow>)
    ensures rows == Shipments(s, n)
  {
    var r := new TemplateRenderer();
    var sampled := r.Sample(samples);
    rows := [];
    for i := 0 to n
      invariant Next(r.View()) == i
      invariant rows == Shipments(s, i)
    {
      var row := RenderShipment(r, s);
      rows := rows + [row];
    }
  }

  lemma PriceTimesQuantity(price: int, quantity: int)
    requires price >= 500 && quantity >= 1
    ensures price * quantity >= 500
  {
    assert price * quantity == price * (quantity - 1) + price;
    assert price * (quantity - 1) >= 0;
  }

  lemma {:induction false} TotalPositive(s: Seeds, oid: nat, n: nat)
    requires InRange(s)
    ensures TotalOf(s, oid, n) >= 500 * n
  {
    if n > 0 {
      TotalPositive(s, oid, n - 1);
      var price, quantity := s.price(s.sku(oid, n)), s.quantity(oid, n);
      PriceTimesQuantity(price, quantity);
    }
  }

  /** Main: for every order, the line totals the item cursor emits add up to the order's total,
      which is the amount its payment carries, though three processes compute the three. */
  lemma StreamsReconcile(s: Seeds, n: nat, oid: nat)
    requires InRange(s) && oid < n
    ensures SumFor(Emitted(s, LineCount(s, n)), oid) == Orders(s, n)[oid].orderTotal
    ensures Orders(s, n)[oid].orderTotal == Payments(s, n)[oid].amount
    ensures Orders(s, n)[oid].orderTotal > 0
  {
    ItemsCoverOrders(s, n);
    SumForAll(s, n, oid);
    TotalPositive(s, oid, s.itemCount(oid));
  }
}
