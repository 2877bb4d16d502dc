/**
 * The delivery-status stream: a second pool cursor that walks each order through a four-step
 * lifecycle, and the silver query that recovers lateness and revenue leaks the stream never states.
 */
module DswtDelivery {
  import opened Prelude
  import opened DswtModel
  import opened DswtStreams
  import opened Renderer

  datatype Status = Created | InTransit | OutForDelivery | Delivered | PaymentFlagged | OnHold | Cancelled

  datatype StatusRow = StatusRow(oid: nat, status: Status, eventTs: int)

  predicate IsDelivered(s: Seeds, oid: nat) { !s.declined(oid) || s.leaked(oid) }

  function ActualDays(s: Seeds, oid: nat): int {
    s.promised(oid) + if s.late(oid) then s.extraDays(oid) else 0
  }

  function StatusAt(s: Seeds, oid: nat, step: int): Status
    requires 0 <= step < 4
  {
    if IsDelivered(s, oid) then [Created, InTransit, OutForDelivery, Delivered][step]
    else [Created, PaymentFlagged, OnHold, Cancelled][step]
  }

  function OffsetHours(s: Seeds, oid: nat, step: int): int
    requires 0 <= step < 4
  {
    if IsDelivered(s, oid)
    then [0, 24, ActualDays(s, oid) * 24 - 6, ActualDays(s, oid) * 24][step]
    else [0, 1, 2, 3][step]
  }

  function StatusOf(s: Seeds, oid: nat, step: int): StatusRow
    requires 0 <= step < 4
  {
    StatusRow(oid, StatusAt(s, oid, step), ShippedMs(oid) + OffsetHours(s, oid, step) * HOUR_MS)
  }

  // ---- The cursor machine ----

  datatype Lifecycle = Lifecycle(oid: int, step: int, next: nat)

  const PHANTOM := Lifecycle(-1, 4, 0)

  predicate LifecycleOk(c: Lifecycle) { 0 <= c.step && (c.step < 4 ==> c.oid >= 0) }

  datatype Tracked = Tracked(cursor: Lifecycle, row: StatusRow)

  function LifecycleStep(c: Lifecycle, s: Seeds): Tracked
    requires LifecycleOk(c)
  {
    var advance := c.step >= 4;
    var oid: nat := if advance then c.next else c.oid;
    var step := if advance then 0 else c.step;
    Tracked(Lifecycle(oid, step + 1, if advance then c.next + 1 else c.next), StatusOf(s, oid, step))
  }

  function LifecycleAfter(s: Seeds, n: nat): (c: Lifecycle)
    ensures LifecycleOk(c)
  {
    if n == 0 then PHANTOM else LifecycleStep(LifecycleAfter(s, n - 1), s).cursor
  }

  /** The rows of the first n renders. */
  function Statuses(s: Seeds, n: nat): (rows: seq<StatusRow>)
    ensures |rows| == n
  {
    if n == 0 then [] else Statuses(s, n - 1) + [LifecycleStep(LifecycleAfter(s, n - 1), s).row]
  }

  lemma {:induction false} LifecyclePlace(s: Seeds, n: nat)
    requires n > 0
    ensures var c := LifecycleAfter(s, n);
            c.oid == (n - 1) / 4 && c.step == (n - 1) % 4 + 1 && c.next == c.oid + 1
  {
    if n > 1 { LifecyclePlace(s, n - 1); }
    else { assert LifecycleAfter(s, 0) == PHANTOM; }
  }

  /** Main: the k-th render is step k mod 4 of order k div 4, so after 4n renders every order
      below n has exactly its four statuses, in order, and no other order has any. */
  lemma {:induction false} StatusesCoverOrders(s: Seeds, n: nat, k: nat)
    requires k < n
    ensures Statuses(s, n)[k] == StatusOf(s, k / 4, k % 4)
  {
    if k < n - 1 {
      StatusesCoverOrders(s, n - 1, k);
    } else if k > 0 {
      LifecyclePlace(s, k);
    } else {
      assert LifecycleAfter(s, 0) == PHANTOM;
    }
  }

  /** Main: of 4n renders, rows 4o to 4o+3 are order o's lifecycle. A captured or leaked order is
      created, in transit a day later, out for delivery six hours before its day count is up, and
      delivered then; any other is created, flagged, put on hold and cancelled, an hour apart. */
  lemma LifecycleOfOrder(s: Seeds, n: nat, o: nat)
    requires o < n
    ensures var shipped := 1767225600000 + o * 300000 + 7200000;
            var days := s.promised(o) + if s.late(o) then s.extraDays(o) else 0;
            Statuses(s, 4 * n)[4 * o..4 * o + 4]
              == if !s.declined(o) || s.leaked(o)
                 then [StatusRow(o, Created, shipped),
                       StatusRow(o, InTransit, shipped + 24 * 3600000),
                       StatusRow(o, OutForDelivery, shipped + (days * 24 - 6) * 3600000),
                       StatusRow(o, Delivered, shipped + days * 24 * 3600000)]
                 else [StatusRow(o, Created, shipped),
                       StatusRow(o, PaymentFlagged, shipped + 3600000),
                       StatusRow(o, OnHold, shipped + 2 * 3600000),
                       StatusRow(o, Cancelled, shipped + 3 * 3600000)]
  {
    var rows := Statuses(s, 4 * n)[4 * o..4 * o + 4];
    forall step | 0 <= step < 4 ensures rows[step] == StatusOf(s, o, step) {
      StatusesCoverOrders(s, 4 * n, 4 * o + step);
      assert (4 * o + step) / 4 == o && (4 * o + step) % 4 == step;
    }
    assert rows == [rows[0], rows[1], rows[2], rows[3]];
  }

  /** Main: within an order the event times strictly increase. */
  lemma EventTimesIncrease(s: Seeds, oid: nat, i: int, j: int)
    requires InRange(s) && 0 <= i < j < 4
    ensures StatusOf(s, oid, i).eventTs < StatusOf(s, oid, j).eventTs
  {
    assert ActualDays(s, oid) >= 2;
    if IsDelivered(s, oid) {
      assert OffsetHours(s, oid, 0) < OffsetHours(s, oid, 1) < OffsetHours(s, oid, 2) < OffsetHours(s, oid, 3);
    } else {
      assert OffsetHours(s, oid, 0) < OffsetHours(s, oid, 1) < OffsetHours(s, oid, 2) < OffsetHours(s, oid, 3);
    }
  }

  // ---- The template on the renderer ----

  predicate TrackerOk(st: RenderState) {
    && ("orders" in st.counters ==> st.counters["orders"] >= 0)
    && ("ds" in st.pools ==>
          && "cursor" in st.pools["ds"]
          && var a := st.pools["ds"]["cursor"];
             && "oid" in a && a["oid"].Num?
             && "step" in a && a["step"].Num?)
  }

  function TrackerOf(st: RenderState): Lifecycle
    requires TrackerOk(st)
  {
    var next := if "orders" in st.counters then st.counters["orders"] else 0;
    if "ds" !in st.pools then Lifecycle(-1, 4, next)
    else
      var a := st.pools["ds"]["cursor"];
      Lifecycle(a["oid"].n, a["step"].n, next)
  }

  method InitTracker(r: TemplateRenderer)
    requires r.Valid() && TrackerOk(r.View())
    modifies r`pools
    ensures r.Valid() && fresh(Entries(r.pools) - old(Entries(r.pools)))
    ensures TrackerOk(r.View()) && "ds" in r.View().pools
    ensures TrackerOf(r.View()) == TrackerOf(old(r.View()))
  {
    r.Init("ds", map["cursor" := map["oid" := Num(-1), "step" := Num(4)]]);
  }

  /** Read the cursor and, past the last step, move on to the next order. */
  method TakeStep(r: TemplateRenderer) returns (oid: nat, step: int)
    requires r.Valid() && TrackerOk(r.View()) && "ds" in r.View().pools && LifecycleOk(TrackerOf(r.View()))
    modifies r`counters
    ensures r.Valid() && TrackerOk(r.View()) && "ds" in r.View().pools && 0 <= step < 4
    ensures var c := TrackerOf(old(r.View()));
            && oid == (if c.step >= 4 then c.next else c.oid)
            && step == (if c.step >= 4 then 0 else c.step)
            && TrackerOf(r.View()).next == (if c.step >= 4 then c.next + 1 else c.next)
  {
    var oidV := r.Lookup("ds", "cursor", "oid", Nil);
    var stepV := r.Lookup("ds", "cursor", "step", Nil);
    var curOid := oidV.n;
    step := stepV.n;
    if step >= 4 {
      curOid := r.NextCount("orders", 0, 1);
      step := 0;
    }
    oid := curOid;
  }

  lemma UpdateTracker(st: RenderState, field: string, n: int)
    requires TrackerOk(st) && "ds" in st.pools && field in ["oid", "step"]
    ensures var next := Perform(st, Update("ds", "cursor", field, Num(n))).state;
            && TrackerOk(next) && "ds" in next.pools
            && TrackerOf(next) == (if field == "oid" then TrackerOf(st).(oid := n) else TrackerOf(st).(step := n))
  {
  }

  method WriteTracker(r: TemplateRenderer, oid: nat, step: int)
    requires r.Valid() && TrackerOk(r.View()) && "ds" in r.View().pools
    modifies Entries(r.pools)
    ensures r.Valid() && TrackerOk(r.View())
    ensures TrackerOf(r.View()) == Lifecycle(oid, step, TrackerOf(old(r.View())).next)
  {
    UpdateTracker(r.View(), "oid", oid);
    r.Assign("ds", "cursor", "oid", Num(oid));
    UpdateTracker(r.View(), "step", step);
    r.Assign("ds", "cursor", "step", Num(step));
  }

  /** The payment-gated branch of the template. */
  method BuildStatus(s: Seeds, oid: nat, step: int) returns (row: StatusRow)
    requires 0 <= step < 4
    ensures row == StatusOf(s, oid, step)
  {
    var shippedMs := OrderMs(oid) + SHIP_DELAY_MS;
    var statuses, offsets := [Created, PaymentFlagged, OnHold, Cancelled], [0, 1, 2, 3];
    if !s.declined(oid) || s.leaked(oid) {
      var actualDays := s.promised(oid) + if s.late(oid) then s.extraDays(oid) else 0;
      statuses := [Created, InTransit, OutForDelivery, Delivered];
      offsets := [0, 24, actualDays * 24 - 6, actualDays * 24];
    }
    row := StatusRow(oid, statuses[step], shippedMs + offsets[step] * HOUR_MS);
  }

  /** One render of the template. */
  method RenderStatus(r: TemplateRenderer, s: Seeds) returns (row: StatusRow)
    requires r.Valid() && TrackerOk(r.View()) && LifecycleOk(TrackerOf(r.View()))
    modifies r, Entries(r.pools)
    ensures r.Valid() && fresh(Entries(r.pools) - old(Entries(r.pools)))
    ensures TrackerOk(r.View()) && LifecycleOk(TrackerOf(r.View()))
    ensures Tracked(TrackerOf(r.View()), row) == LifecycleStep(TrackerOf(old(r.View())), s)
  {
    InitTracker(r);
    var oid, step := TakeStep(r);
    row := BuildStatus(s, oid, step);
    WriteTracker(r, oid, step + 1);
  }

  /** The renderer stands where the lifecycle machine stands after n steps. */
  ghost predicate AtStep(r: TemplateRenderer, s: Seeds, n: nat)
    reads r, Entries(r.pools)
  {
    r.Valid() && TrackerOk(r.View()) && TrackerOf(r.View()) == LifecycleAfter(s, n)
  }

  /** The next render of a run. */
  method RenderNext(r: TemplateRenderer, s: Seeds, ghost n: nat) returns (row: StatusRow)
    requires AtStep(r, s, n)
    modifies r, Entries(r.pools)
    ensures AtStep(r, s, n + 1) && fresh(Entries(r.pools) - old(Entries(r.pools)))
    ensures Statuses(s, n + 1) == Statuses(s, n) + [row]
  {
    row := RenderStatus(r, s);
  }

  /** n renders from a fresh cursor. */
  method RenderStatuses(r: TemplateRenderer, s: Seeds, n: nat) returns (rows: seq<StatusRow>)
    requires AtStep(r, s, 0)
    modifies r, Entries(r.pools)
    ensures AtStep(r, s, n) && rows == Statuses(s, n)
  {
    rows := [];
    for i := 0 to n
      invariant AtStep(r, s, i) && fresh(Entries(r.pools) - old(Entries(r.pools)))
      invariant rows == Statuses(s, i)
    {
      var row := RenderNext(r, s, i);
      rows := rows + [row];
    }
  }

  /** A producer of the stream: sample for a schema, then render. */
  method ProduceStatuses(samples: seq<seq<Call>>, s: Seeds, n: nat) returns (rows: seq<StatusRow>)
    ensures rows == Statuses(s, n)
  {
    var r := new TemplateRenderer();
    var sampled := r.Sample(samples);
    rows := RenderStatuses(r, s, n);
  }

  // ---- The silver query ----

  /** The bronze tables keep the last row per order. */
  function LastOf<T>(rows: seq<T>, key: T -> nat, oid: nat): (last: Option<T>)
    ensures last.Some? ==> last.value in rows && key(last.value) == oid
  {
    if rows == [] then None
    else if key(rows[|rows| - 1]) == oid then Some(rows[|rows| - 1])
    else LastOf(rows[..|rows| - 1], key, oid)
  }

  function PaymentKey(p: PaymentRow): nat { p.oid }

  function ShipmentKey(h: ShipmentRow): nat { h.oid }

  function StatusKey(d: StatusRow): nat { d.oid }

  /** SQL's day difference truncates toward zero. */
  function DayDiff(from: int, to: int): int {
    if from <= to then (to - from) / DAY_MS else -((from - to) / DAY_MS)
  }

  /** SQL's three-valued conjunction; None is NULL. */
  function And3(a: Option<bool>, b: Option<bool>): Option<bool> {
    if a == Some(false) || b == Some(false) then Some(false)
    else if a == Some(true) && b == Some(true) then Some(true)
    else None
  }

  datatype Fulfillment = Fulfillment(
    amountMatches: Option<bool>,
    promisedDays: Option<int>,
    actualDays: Option<int>,
    isLate: Option<bool>,
    deliveredDespiteDecline: Option<bool>)

  /** One row of the query: an order left-joined with its payment, shipment and current status. */
  function Fulfil(o: OrderRow, p: Option<PaymentRow>, sh: Option<ShipmentRow>, d: Option<StatusRow>): Fulfillment {
    var isDelivered := if d.Some? then Some(d.value.status == Delivered) else None;
    var actual := if isDelivered == Some(true) && sh.Some? then Some(DayDiff(sh.value.shippedTs, d.value.eventTs)) else None;
    Fulfillment(
      if p.Some? then Some(p.value.amount == o.orderTotal) else None,
      if sh.Some? then Some(sh.value.promisedDays) else None,
      actual,
      if actual.Some? then Some(actual.value > sh.value.promisedDays) else None,
      And3(if p.Some? then Some(p.value.declined) else None, isDelivered))
  }

  /** The query's row for one order, over the rows of three topics. */
  function Silver(o: OrderRow, payments: seq<PaymentRow>, shipments: seq<ShipmentRow>, statuses: seq<StatusRow>): Fulfillment {
    Fulfil(o, LastOf(payments, PaymentKey, o.oid), LastOf(shipments, ShipmentKey, o.oid), LastOf(statuses, StatusKey, o.oid))
  }

  /** Main: a day difference counts the whole days of 24 hours between two times, with the sign of
      the difference. */
  lemma DayDiffTruncates(from: int, to: int)
    ensures from <= to ==> DayDiff(from, to) * 86400000 <= to - from < (DayDiff(from, to) + 1) * 86400000
    ensures DayDiff(to, from) == -DayDiff(from, to)
  {
  }

  /** The day difference recovers the generator's own day count. */
  lemma DaysRecovered(s: Seeds, oid: nat)
    requires InRange(s) && IsDelivered(s, oid)
    ensures DayDiff(ShippedMs(oid), StatusOf(s, oid, 3).eventTs) == ActualDays(s, oid)
  {
    assert OffsetHours(s, oid, 3) == ActualDays(s, oid) * 24;
    assert ActualDays(s, oid) * 24 * HOUR_MS == ActualDays(s, oid) * DAY_MS;
  }

  /** The last row with a key: found exactly if there is one, and no later row has the key. */
  lemma {:induction false} LastAt<T>(rows: seq<T>, key: T -> nat, oid: nat)
    ensures LastOf(rows, key, oid).None? <==> forall k | 0 <= k < |rows| :: key(rows[k]) != oid
    ensures LastOf(rows, key, oid).Some? ==>
              exists k :: 0 <= k < |rows| && rows[k] == LastOf(rows, key, oid).value && key(rows[k]) == oid
                       && forall j | k < j < |rows| :: key(rows[j]) != oid
  {
    if rows != [] {
      var n := |rows| - 1;
      if key(rows[n]) != oid {
        LastAt(rows[..n], key, oid);
        if LastOf(rows[..n], key, oid).Some? {
          var k :| 0 <= k < n && rows[..n][k] == LastOf(rows[..n], key, oid).value && key(rows[..n][k]) == oid
                && forall j | k < j < n :: key(rows[..n][j]) != oid;
          assert rows[k] == LastOf(rows, key, oid).value;
          forall j | k < j < |rows| ensures key(rows[j]) != oid { if j < n { assert rows[j] == rows[..n][j]; } }
        } else {
          forall k | 0 <= k < |rows| ensures key(rows[k]) != oid { if k < n { assert rows[k] == rows[..n][k]; } }
        }
      } else {
        assert key(rows[n]) == oid;
      }
    }
  }

  lemma PaymentFound(s: Seeds, n: nat, oid: nat)
    ensures LastOf(Payments(s, n), PaymentKey, oid) == if oid < n then Some(PaymentOf(s, oid)) else None
  {
    var rows := Payments(s, n);
    LastAt(rows, PaymentKey, oid);
    if oid < n { assert PaymentKey(rows[oid]) == oid; }
  }

  lemma ShipmentFound(s: Seeds, n: nat, oid: nat)
    ensures LastOf(Shipments(s, n), ShipmentKey, oid) == if oid < n then Some(ShipmentOf(s, oid)) else None
  {
    var rows := Shipments(s, n);
    LastAt(rows, ShipmentKey, oid);
    if oid < n { assert ShipmentKey(rows[oid]) == oid; }
  }

  /** A row with the key that no later row has is the last one. */
  lemma LastIs<T>(rows: seq<T>, key: T -> nat, oid: nat, last: nat)
    requires last < |rows| && key(rows[last]) == oid && forall j | last < j < |rows| :: key(rows[j]) != oid
    ensures LastOf(rows, key, oid) == Some(rows[last])
  {
    LastAt(rows, key, oid);
  }

  /** An order's current status after n renders is its latest step so far, if any. */
  lemma StatusFound(s: Seeds, n: nat, oid: nat)
    ensures LastOf(Statuses(s, n), StatusKey, oid)
         == if n <= 4 * oid then None else Some(StatusOf(s, oid, Min(n - 4 * oid, 4) - 1))
  {
    var rows := Statuses(s, n);
    forall k | 0 <= k < n
      ensures StatusKey(rows[k]) == oid <==> 4 * oid <= k < 4 * oid + 4
      ensures StatusKey(rows[k]) == oid ==> rows[k] == StatusOf(s, oid, k - 4 * oid)
    {
      StatusesCoverOrders(s, n, k);
    }
    if n > 4 * oid {
      LastIs(rows, StatusKey, oid, 4 * oid + Min(n - 4 * oid, 4) - 1);
    } else {
      LastAt(rows, StatusKey, oid);
    }
  }

  /** What the query says of an order from any part of its payment, shipment and current status. */
  lemma Judgement(s: Seeds, oid: nat, p: Option<PaymentRow>, sh: Option<ShipmentRow>, step: int)
    requires InRange(s) && -1 <= step < 4
    requires p.Some? ==> p.value == PaymentOf(s, oid)
    requires sh.Some? ==> sh.value == ShipmentOf(s, oid)
    ensures var f := Fulfil(OrderOf(s, oid), p, sh, if step < 0 then None else Some(StatusOf(s, oid, step)));
            var arrived := step == 3 && IsDelivered(s, oid);
            && f.amountMatches == (if p.Some? then Some(true) else None)
            && f.promisedDays == (if sh.Some? then Some(s.promised(oid)) else None)
            && f.actualDays == (if arrived && sh.Some? then Some(ActualDays(s, oid)) else None)
            && f.isLate == (if arrived && sh.Some? then Some(s.late(oid)) else None)
            && (f.deliveredDespiteDecline == Some(true) <==> arrived && p.Some? && s.declined(oid))
            && (f.deliveredDespiteDecline.None? <==> (step < 0 && (p.None? || s.declined(oid))) || (p.None? && arrived))
  {
    if step >= 0 {
      assert StatusAt(s, oid, step) == Delivered <==> step == 3 && IsDelivered(s, oid);
    }
    if IsDelivered(s, oid) { DaysRecovered(s, oid); }
  }

  lemma Joined(o: OrderRow, payments: seq<PaymentRow>, shipments: seq<ShipmentRow>, statuses: seq<StatusRow>,
               p: Option<PaymentRow>, sh: Option<ShipmentRow>, d: Option<StatusRow>)
    requires LastOf(payments, PaymentKey, o.oid) == p && LastOf(shipments, ShipmentKey, o.oid) == sh
    requires LastOf(statuses, StatusKey, o.oid) == d
    ensures Silver(o, payments, shipments, statuses) == Fulfil(o, p, sh, d)
  {
  }

  lemma SilverRow(s: Seeds, n: nat, oid: nat)
    requires oid < n
    ensures Silver(OrderOf(s, oid), Payments(s, n), Shipments(s, n), Statuses(s, 4 * n))
         == Fulfil(OrderOf(s, oid), Some(PaymentOf(s, oid)), Some(ShipmentOf(s, oid)), Some(StatusOf(s, oid, 3)))
  {
    PaymentFound(s, n, oid);
    ShipmentFound(s, n, oid);
    StatusFound(s, 4 * n, oid);
    Joined(OrderOf(s, oid), Payments(s, n), Shipments(s, n), Statuses(s, 4 * n),
           Some(PaymentOf(s, oid)), Some(ShipmentOf(s, oid)), Some(StatusOf(s, oid, 3)));
  }

  /** Main: once the streams have reached an order, the query recovers what the delivery stream
      never says: the generator's day count, lateness exactly for delivered orders drawn late,
      and the leak exactly for declined payments drawn leaked; and amounts match. */
  lemma SilverRecovers(s: Seeds, n: nat, oid: nat)
    requires InRange(s) && oid < n
    ensures var f := Silver(Orders(s, n)[oid], Payments(s, n), Shipments(s, n), Statuses(s, 4 * n));
            && f.amountMatches == Some(true)
            && f.promisedDays == Some(s.promised(oid))
            && f.actualDays == (if IsDelivered(s, oid) then Some(ActualDays(s, oid)) else None)
            && f.isLate == (if IsDelivered(s, oid) then Some(s.late(oid)) else None)
            && f.deliveredDespiteDecline == Some(s.declined(oid) && s.leaked(oid))
  {
    SilverRow(s, n, oid);
    assert Orders(s, n)[oid] == OrderOf(s, oid);
    Judgement(s, oid, Some(PaymentOf(s, oid)), Some(ShipmentOf(s, oid)), 3);
  }

  /** A status row the template renders is some step of its order's lifecycle. */
  lemma RenderedStatus(s: Seeds, n: nat, r: StatusRow) returns (step: int)
    requires r in Statuses(s, n)
    ensures 0 <= step < 4 && r == StatusOf(s, r.oid, step)
  {
    var k :| 0 <= k < n && Statuses(s, n)[k] == r;
    StatusesCoverOrders(s, n, k);
    step := k % 4;
  }

  /** Main: whatever rows of the three streams have arrived, in any order, with any dropped and any
      repeated, no verdict is wrong: a day count or a lateness verdict is the final one, a leak is
      flagged only if there is one, and no amount is ever reported as mismatched. */
  lemma SilverNeverMisjudges(s: Seeds, n: nat, oid: nat, payments: seq<PaymentRow>, shipments: seq<ShipmentRow>, statuses: seq<StatusRow>)
    requires InRange(s)
    requires forall r | r in payments :: r in Payments(s, n)
    requires forall r | r in shipments :: r in Shipments(s, n)
    requires forall r | r in statuses :: r in Statuses(s, 4 * n)
    ensures var f := Silver(OrderOf(s, oid), payments, shipments, statuses);
            && (f.isLate.Some? ==> IsDelivered(s, oid) && f.isLate.value == s.late(oid))
            && (f.actualDays.Some? ==> IsDelivered(s, oid) && f.actualDays.value == ActualDays(s, oid))
            && (f.deliveredDespiteDecline == Some(true) ==> s.declined(oid) && s.leaked(oid))
            && f.amountMatches != Some(false)
  {
    var p, sh := LastOf(payments, PaymentKey, oid), LastOf(shipments, ShipmentKey, oid);
    var d := LastOf(statuses, StatusKey, oid);
    var step := -1;
    if d.Some? { step := RenderedStatus(s, 4 * n, d.value); }
    Judgement(s, oid, p, sh, step);
  }
}
