/**
 * The order-items stream: a cursor in a state pool that stays on one order until its lines are
 * out, then takes the next order number from a counter.
 */
module DswtItems {
  import opened DswtModel
  import opened Renderer
  import opened ProducerLoop

  /** The pool cursor together with the counter's next value. */
  datatype Cursor = Cursor(oid: nat, line: int, max: int, next: nat)

  const FRESH := Cursor(0, 0, 0, 0)

  datatype Emission = Emission(cursor: Cursor, row: ItemRow)

  function ItemStep(c: Cursor, s: Seeds): Emission {
    var advance := c.line >= c.max;
    var oid := if advance then c.next else c.oid;
    var max := if advance then s.itemCount(oid) else c.max;
    var line := (if advance then 0 else c.line) + 1;
    Emission(Cursor(oid, line, max, if advance then c.next + 1 else c.next), ItemOf(s, oid, line))
  }

  function CursorAfter(s: Seeds, n: nat): Cursor {
    if n == 0 then FRESH else ItemStep(CursorAfter(s, n - 1), s).cursor
  }

  /** The rows of the first n renders. */
  function Emitted(s: Seeds, n: nat): (rows: seq<ItemRow>)
    ensures |rows| == n
  {
    if n == 0 then [] else Emitted(s, n - 1) + [ItemStep(CursorAfter(s, n - 1), s).row]
  }

  /** One step from a line of an order extends what lies before the cursor by one row. */
  lemma OneMoreLine(s: Seeds, c: Cursor)
    requires InRange(s) && c.next == c.oid + 1 && 1 <= c.line <= c.max == s.itemCount(c.oid)
    ensures var e := ItemStep(c, s);
            && e.cursor.next == e.cursor.oid + 1 && 1 <= e.cursor.line <= e.cursor.max == s.itemCount(e.cursor.oid)
            && LineCount(s, e.cursor.oid) + e.cursor.line == LineCount(s, c.oid) + c.line + 1
            && AllLines(s, e.cursor.oid) + OrderLines(s, e.cursor.oid, e.cursor.line)
                 == (AllLines(s, c.oid) + OrderLines(s, c.oid, c.line)) + [e.row]
  {
    if c.line >= c.max {
      assert OrderLines(s, c.oid + 1, 0) == [];
      assert OrderLines(s, c.oid + 1, 1) == [ItemOf(s, c.oid + 1, 1)];
    }
  }

  /** After n renders the cursor stands on a line of some order, and what has been emitted is
      every line before it. */
  lemma {:induction false} CursorPlace(s: Seeds, n: nat)
    requires InRange(s) && n > 0
    ensures var c := CursorAfter(s, n);
            && c.next == c.oid + 1 && 1 <= c.line <= c.max == s.itemCount(c.oid)
            && n == LineCount(s, c.oid) + c.line
            && Emitted(s, n) == AllLines(s, c.oid) + OrderLines(s, c.oid, c.line)
  {
    if n == 1 {
      assert CursorAfter(s, 0) == FRESH;
      assert Emitted(s, 0) == [];
      assert OrderLines(s, 0, 1) == [ItemOf(s, 0, 1)];
    } else {
      CursorPlace(s, n - 1);
      OneMoreLine(s, CursorAfter(s, n - 1));
    }
  }

  lemma CursorAtEnd(s: Seeds, n: nat, c: Cursor)
    requires InRange(s) && n > 0
    requires 1 <= c.line <= s.itemCount(c.oid) && LineCount(s, n) == LineCount(s, c.oid) + c.line
    ensures c.oid == n - 1 && c.line == s.itemCount(c.oid)
  {
    if c.oid >= n { LineCountMonotone(s, n, c.oid); }
    else if c.oid < n - 1 { LineCountMonotone(s, c.oid + 1, n - 1); }
  }

  /** Main: exactly the counted number of renders covers every line of orders 0 to n-1 once,
      in order, and touches no later order. */
  lemma ItemsCoverOrders(s: Seeds, n: nat)
    requires InRange(s)
    ensures Emitted(s, LineCount(s, n)) == AllLines(s, n)
  {
    if n > 0 {
      LineCountMonotone(s, 0, n);
      CursorPlace(s, LineCount(s, n));
      CursorAtEnd(s, n, CursorAfter(s, LineCount(s, n)));
    }
  }

  /** Main: the row of each line of each order, at its place in the stream: its product and quantity
      are drawn for that line, its price is the product's, and its total is their product. */
  lemma LineOnTheStream(s: Seeds, n: nat, o: nat, line: int)
    requires InRange(s) && o < n && 1 <= line <= s.itemCount(o)
    ensures var i, price := LineCount(s, o) + line - 1, s.price(s.sku(o, line));
            && i < LineCount(s, n)
            && Emitted(s, LineCount(s, n))[i]
                 == ItemRow(o, line, s.sku(o, line), s.quantity(o, line), price, price * s.quantity(o, line))
  {
    ItemsCoverOrders(s, n);
    AllLinesLength(s, n);
    AllLinesAt(s, n, o, line);
  }

  /** A render after the counted ones belongs to a later order. */
  lemma LaterRowsAreLaterOrders(s: Seeds, n: nat, k: nat)
    requires InRange(s) && LineCount(s, n) <= k
    ensures Emitted(s, k + 1)[k].oid >= n
  {
    CursorPlace(s, k + 1);
    var c := CursorAfter(s, k + 1);
    if c.oid < n { LineCountMonotone(s, c.oid + 1, n); }
  }

  // ---- Records dropped by the producer ----

  /** The rows that reach the topic when the i-th attempt renders the i-th row. */
  ghost function Kept(env: nat -> Record, s: Seeds, n: nat): seq<ItemRow> {
    if n == 0 then []
    else Kept(env, s, n - 1) + if Succeeds(env(n - 1)) then [Emitted(s, n)[n - 1]] else []
  }

  lemma {:induction false} KeptAll(env: nat -> Record, s: Seeds, n: nat)
    requires Successes(env, n) == n
    ensures Kept(env, s, n) == Emitted(s, n)
  {
    NoFailuresNoWaste(env, n);
    if n > 0 {
      NoFailuresNoWaste(env, n - 1);
      KeptAll(env, s, n - 1);
    }
  }

  /** If some attempt failed, the last row kept belongs to a later order. */
  lemma FailureSpills(env: nat -> Record, s: Seeds, n: nat, attempts: nat)
    requires InRange(s) && LineCount(s, n) < attempts && Succeeds(env(attempts - 1))
    ensures Kept(env, s, attempts) != AllLines(s, n)
  {
    var rows := Kept(env, s, attempts);
    LaterRowsAreLaterOrders(s, n, attempts - 1);
    var last := rows[|rows| - 1];
    assert last == Emitted(s, attempts)[attempts - 1] && last in rows;
    AllLinesMembers(s, n, last);
  }

  /** Main: when the counted loop meets its target, the topic holds exactly the lines of the
      orders if and only if no attempt failed: a failed attempt has still moved the cursor. */
  lemma CoverageIffNoFailure(env: nat -> Record, s: Seeds, n: nat, attempts: nat)
    requires InRange(s) && n > 0
    requires attempts > 0 && Successes(env, attempts) == LineCount(s, n)
    requires Successes(env, attempts - 1) < LineCount(s, n)
    ensures Kept(env, s, attempts) == AllLines(s, n) <==> forall i: nat | i < attempts :: Succeeds(env(i))
  {
    NoFailuresNoWaste(env, attempts);
    if Successes(env, attempts) == attempts {
      KeptAll(env, s, attempts);
      ItemsCoverOrders(s, n);
    } else {
      FailureSpills(env, s, n, attempts);
    }
  }

  // ---- The template on the renderer ----

  /** The pool is absent or holds a numeric cursor, and the counter is not negative. */
  predicate CursorOk(st: RenderState) {
    && ("orders" in st.counters ==> st.counters["orders"] >= 0)
    && ("oi" in st.pools ==>
          && "cursor" in st.pools["oi"]
          && var a := st.pools["oi"]["cursor"];
             && "oid" in a && a["oid"].Num? && a["oid"].n >= 0
             && "line" in a && a["line"].Num?
             && "max" in a && a["max"].Num?)
  }

  function CursorOf(st: RenderState): Cursor
    requires CursorOk(st)
  {
    var next := if "orders" in st.counters then st.counters["orders"] else 0;
    if "oi" !in st.pools then Cursor(0, 0, 0, next)
    else
      var a := st.pools["oi"]["cursor"];
      Cursor(a["oid"].n, a["line"].n, a["max"].n, next)
  }

  /** The cursor as the three pool look-ups read it. */
  method ReadCursor(r: TemplateRenderer) returns (oid: nat, line: int, max: int)
    requires r.Valid() && CursorOk(r.View()) && "oi" in r.View().pools
    ensures Cursor(oid, line, max, CursorOf(r.View()).next) == CursorOf(r.View())
  {
    var oidV := r.Lookup("oi", "cursor", "oid", Nil);
    var lineV := r.Lookup("oi", "cursor", "line", Nil);
    var maxV := r.Lookup("oi", "cursor", "max", Nil);
    oid, line, max := oidV.n, lineV.n, maxV.n;
  }

  /** What one pool update does to the cursor. */
  lemma UpdateCursor(st: RenderState, field: string, n: int)
    requires CursorOk(st) && "oi" in st.pools
    requires field in ["oid", "line", "max"] && (field == "oid" ==> n >= 0)
    ensures var next := Perform(st, Update("oi", "cursor", field, Num(n))).state;
            && CursorOk(next) && "oi" in next.pools
            && CursorOf(next) == (if field == "oid" then CursorOf(st).(oid := n)
                                  else if field == "line" then CursorOf(st).(line := n)
                                  else CursorOf(st).(max := n))
  {
  }

  method WriteCursor(r: TemplateRenderer, oid: nat, line: int, max: int)
    requires r.Valid() && CursorOk(r.View()) && "oi" in r.View().pools
    modifies Entries(r.pools)
    ensures r.Valid() && CursorOk(r.View())
    ensures CursorOf(r.View()) == Cursor(oid, line, max, CursorOf(old(r.View())).next)
  {
    UpdateCursor(r.View(), "oid", oid);
    r.Assign("oi", "cursor", "oid", Num(oid));
    UpdateCursor(r.View(), "line", line);
    r.Assign("oi", "cursor", "line", Num(line));
    UpdateCursor(r.View(), "max", max);
    r.Assign("oi", "cursor", "max", Num(max));
  }

  method InitCursor(r: TemplateRenderer)
    requires r.Valid() && CursorOk(r.View())
    modifies r`pools
    ensures r.Valid() && fresh(Entries(r.pools) - old(Entries(r.pools)))
    ensures CursorOk(r.View()) && "oi" in r.View().pools
    ensures CursorOf(r.View()) == CursorOf(old(r.View()))
  {
    r.Init("oi", map["cursor" := map["oid" := Num(0), "line" := Num(0), "max" := Num(0)]]);
  }

  /** The shared order counter. */
  method NextOrder(r: TemplateRenderer) returns (oid: nat)
    requires r.Valid() && CursorOk(r.View())
    modifies r`counters
    ensures r.Valid() && CursorOk(r.View()) && oid == CursorOf(old(r.View())).next
    ensures CursorOf(r.View()) == CursorOf(old(r.View())).(next := oid + 1)
    ensures r.View().pools == old(r.View()).pools
  {
    oid := r.NextCount("orders", 0, 1);
  }

  /** Read the cursor and, past the last line, move on to the next order. */
  method TakeLine(r: TemplateRenderer, s: Seeds) returns (oid: nat, lineNo: int, max: int)
    requires r.Valid() && CursorOk(r.View()) && "oi" in r.View().pools
    modifies r`counters
    ensures r.Valid() && CursorOk(r.View()) && "oi" in r.View().pools
    ensures var after := ItemStep(CursorOf(old(r.View())), s).cursor;
            Cursor(oid, lineNo, max, CursorOf(r.View()).next) == after
  {
    var line;
    oid, line, max := ReadCursor(r);
    if line >= max {
      oid := NextOrder(r);
      max := s.itemCount(oid);
      line := 0;
    }
    lineNo := line + 1;
  }

  /** One render of the template. */
  method RenderItem(r: TemplateRenderer, s: Seeds) returns (row: ItemRow)
    requires r.Valid() && CursorOk(r.View())
    modifies r, Entries(r.pools)
    ensures r.Valid() && fresh(Entries(r.pools) - old(Entries(r.pools)))
    ensures CursorOk(r.View())
    ensures Emission(CursorOf(r.View()), row) == ItemStep(CursorOf(old(r.View())), s)
  {
    ghost var before := CursorOf(r.View());
    InitCursor(r);
    var oid, lineNo, max := TakeLine(r, s);
    var sku := s.sku(oid, lineNo);
    var unitPrice := s.price(sku);
    var quantity := s.quantity(oid, lineNo);
    row := ItemRow(oid, lineNo, sku, quantity, unitPrice, unitPrice * quantity);
    assert row == ItemStep(before, s).row;
    WriteCursor(r, oid, lineNo, max);
  }

  /** The renderer stands where the cursor machine stands after n steps. */
  ghost predicate AtStep(r: TemplateRenderer, s: Seeds, n: nat)
    reads r, Entries(r.pools)
  {
    r.Valid() && CursorOk(r.View()) && CursorOf(r.View()) == CursorAfter(s, n)
  }

  /** The next render of a run. */
  method RenderNext(r: TemplateRenderer, s: Seeds, ghost n: nat) returns (row: ItemRow)
    requires AtStep(r, s, n)
    modifies r, Entries(r.pools)
    ensures AtStep(r, s, n + 1) && fresh(Entries(r.pools) - old(Entries(r.pools)))
    ensures Emitted(s, n + 1) == Emitted(s, n) + [row]
  {
    row := RenderItem(r, s);
  }

  /** n renders from a fresh cursor. */
  method RenderItems(r: TemplateRenderer, s: Seeds, n: nat) returns (rows: seq<ItemRow>)
    requires AtStep(r, s, 0)
    modifies r, Entries(r.pools)
    ensures AtStep(r, s, n) && rows == Emitted(s, n)
  {
    rows := [];
    for i := 0 to n
      invariant AtStep(r, s, i) && fresh(Entries(r.pools) - old(Entries(r.pools)))
      invariant rows == Emitted(s, i)
    {
      var row := RenderNext(r, s, i);
      rows := rows + [row];
    }
  }

  /** A producer of the stream: sample for a schema, then render. Whatever the samples did, the rows
      are the first n of the cursor machine. */
  method ProduceItems(samples: seq<seq<Call>>, s: Seeds, n: nat) returns (rows: seq<ItemRow>)
    ensures rows == Emitted(s, n)
  {
    var r := new TemplateRenderer();
    var sampled := r.Sample(samples);
    rows := RenderItems(r, s, n);
  }
}
