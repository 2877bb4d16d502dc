/**
 * The shared, seeded order model of the DSWT streams. Every producer process recomputes these
 * values from the order number, so they are functions of it; nothing is known about them but
 * the ranges the templates ask for. Money is in pence, time in milliseconds.
 */
module DswtModel {

  datatype Seeds = Seeds(
    itemCount: nat -> int,
    sku: (nat, int) -> int,
    price: int -> int,
    quantity: (nat, int) -> int,
    promised: nat -> int,
    declined: nat -> bool,
    leaked: nat -> bool,
    late: nat -> bool,
    extraDays: nat -> int,
    authDelay: nat -> int)

  ghost predicate InRange(s: Seeds) {
    && (forall o: nat :: 2 <= s.itemCount(o) <= 5)
    && (forall o: nat, l: int :: 0 <= s.sku(o, l) <= 99)
    && (forall k: int :: 500 <= s.price(k) <= 50000)
    && (forall o: nat, l: int :: 1 <= s.quantity(o, l) <= 4)
    && (forall o: nat :: 2 <= s.promised(o) <= 7)
    && (forall o: nat :: 1 <= s.extraDays(o) <= 6)
    && (forall o: nat :: 60 <= s.authDelay(o) <= 900)
  }

  const BASE_MS := 1767225600000
  const STRIDE_MS := 300000
  const SHIP_DELAY_MS := 7200000
  const HOUR_MS := 3600000
  const DAY_MS := 86400000

  function OrderMs(oid: nat): int { BASE_MS + oid * STRIDE_MS }

  function ShippedMs(oid: nat): int { OrderMs(oid) + SHIP_DELAY_MS }

  // ---- Items ----

  datatype ItemRow = ItemRow(oid: nat, line: int, sku: int, quantity: int, unitPrice: int, lineTotal: int)

  function ItemOf(s: Seeds, oid: nat, line: int): ItemRow {
    var sku := s.sku(oid, line);
    ItemRow(oid, line, sku, s.quantity(oid, line), s.price(sku), s.price(sku) * s.quantity(oid, line))
  }

  /** Lines 1 to n of an order. */
  function OrderLines(s: Seeds, oid: nat, n: nat): (rows: seq<ItemRow>)
    ensures |rows| == n
    ensures forall i | 0 <= i < n :: rows[i] == ItemOf(s, oid, i + 1)
  {
    if n == 0 then [] else OrderLines(s, oid, n - 1) + [ItemOf(s, oid, n)]
  }

  /** Every line of orders 0 to n-1, in order. */
  function AllLines(s: Seeds, n: nat): seq<ItemRow>
    requires InRange(s)
  {
    if n == 0 then [] else AllLines(s, n - 1) + OrderLines(s, n - 1, s.itemCount(n - 1))
  }

  /** The number the start script computes for the item stream. */
  function LineCount(s: Seeds, n: nat): nat
    requires InRange(s)
  {
    if n == 0 then 0 else LineCount(s, n - 1) + s.itemCount(n - 1)
  }

  lemma {:induction false} AllLinesLength(s: Seeds, n: nat)
    requires InRange(s)
    ensures |AllLines(s, n)| == LineCount(s, n)
  {
    if n > 0 { AllLinesLength(s, n - 1); }
  }

  lemma {:induction false} LineCountMonotone(s: Seeds, m: nat, n: nat)
    requires InRange(s) && m <= n
    ensures LineCount(s, m) + 2 * (n - m) <= LineCount(s, n)
    decreases n
  {
    if m < n { LineCountMonotone(s, m, n - 1); }
  }

  /** The listed lines are exactly those of the orders: each line of each order, no other. */
  lemma {:induction false} AllLinesMembers(s: Seeds, n: nat, r: ItemRow)
    requires InRange(s)
    ensures r in AllLines(s, n) <==> r.oid < n && 1 <= r.line <= s.itemCount(r.oid) && r == ItemOf(s, r.oid, r.line)
  {
    if n > 0 {
      AllLinesMembers(s, n - 1, r);
      var lines := OrderLines(s, n - 1, s.itemCount(n - 1));
      assert r in AllLines(s, n) <==> r in AllLines(s, n - 1) || r in lines;
      if r.oid == n - 1 && 1 <= r.line <= s.itemCount(r.oid) && r == ItemOf(s, r.oid, r.line) {
        assert lines[r.line - 1] == r;
      }
    }
  }

  /** Where a line is listed. */
  lemma {:induction false} AllLinesAt(s: Seeds, n: nat, oid: nat, line: int)
    requires InRange(s) && oid < n && 1 <= line <= s.itemCount(oid)
    ensures var i := LineCount(s, oid) + line - 1;
            i < |AllLines(s, n)| && AllLines(s, n)[i] == ItemOf(s, oid, line)
  {
    AllLinesLength(s, n - 1);
    if oid < n - 1 {
      AllLinesAt(s, n - 1, oid, line);
      assert AllLines(s, n)[..|AllLines(s, n - 1)|] == AllLines(s, n - 1);
    } else {
      assert AllLines(s, n) == AllLines(s, oid) + OrderLines(s, oid, s.itemCount(oid));
    }
  }

  /** No line is listed twice. */
  lemma {:induction false} AllLinesDistinct(s: Seeds, n: nat, i: nat, j: nat)
    requires InRange(s) && i < j < |AllLines(s, n)|
    ensures AllLines(s, n)[i] != AllLines(s, n)[j]
  {
    if n > 0 {
      var before := AllLines(s, n - 1);
      if j < |before| {
        AllLinesDistinct(s, n - 1, i, j);
      } else if i < |before| {
        AllLinesMembers(s, n - 1, before[i]);
        assert before[i] in before;
      }
    }
  }

  // ---- Totals ----

  /** The sum of the line totals of lines 1 to n. */
  function TotalOf(s: Seeds, oid: nat, n: nat): int {
    if n == 0 then 0 else TotalOf(s, oid, n - 1) + ItemOf(s, oid, n).lineTotal
  }

  /** What an order's first n lines cost: unit price by quantity, line by line. */
  ghost function Charged(s: Seeds, oid: nat, n: nat): int {
    if n == 0 then 0 else Charged(s, oid, n - 1) + s.price(s.sku(oid, n)) * s.quantity(oid, n)
  }

  lemma {:induction false} TotalIsCharged(s: Seeds, oid: nat, n: nat)
    ensures TotalOf(s, oid, n) == Charged(s, oid, n)
  {
    if n > 0 { TotalIsCharged(s, oid, n - 1); }
  }

  /** The sum of the line totals that a stream of item rows carries for one order. */
  function SumFor(rows: seq<ItemRow>, oid: nat): int {
    if rows == [] then 0
    else SumFor(rows[..|rows| - 1], oid) + if rows[|rows| - 1].oid == oid then rows[|rows| - 1].lineTotal else 0
  }

  lemma {:induction false} SumForAppend(a: seq<ItemRow>, b: seq<ItemRow>, oid: nat)
    ensures SumFor(a + b, oid) == SumFor(a, oid) + SumFor(b, oid)
  {
    if b == [] {
      assert a + b == a;
    } else {
      SumForAppend(a, b[..|b| - 1], oid);
      assert (a + b)[..|a + b| - 1] == a + b[..|b| - 1];
    }
  }

  lemma {:induction false} SumForLines(s: Seeds, oid: nat, n: nat, o: nat)
    ensures SumFor(OrderLines(s, oid, n), o) == if o == oid then TotalOf(s, oid, n) else 0
  {
    if n > 0 {
      SumForLines(s, oid, n - 1, o);
      assert OrderLines(s, oid, n)[..n - 1] == OrderLines(s, oid, n - 1);
    }
  }

  lemma SumForStep(s: Seeds, n: nat, oid: nat)
    requires InRange(s)
    ensures SumFor(AllLines(s, n + 1), oid)
         == SumFor(AllLines(s, n), oid) + if oid == n then TotalOf(s, n, s.itemCount(n)) else 0
  {
    SumForLines(s, n, s.itemCount(n), oid);
    SumForAppend(AllLines(s, n), OrderLines(s, n, s.itemCount(n)), oid);
  }

  /** Main: over all lines of n orders, one order's line totals add up to its total. */
  lemma {:induction false} SumForAll(s: Seeds, n: nat, oid: nat)
    requires InRange(s)
    ensures SumFor(AllLines(s, n), oid) == if oid < n then TotalOf(s, oid, s.itemCount(oid)) else 0
  {
    if n > 0 {
      SumForAll(s, n - 1, oid);
      SumForStep(s, n - 1, oid);
    }
  }
}
