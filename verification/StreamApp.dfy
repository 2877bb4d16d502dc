/**
 * The DNS app as the program writes it: an object whose dictionaries are reassigned by the
 * consume loop. Each method is proved to do what the functions of StreamSpec say.
 */
module StreamApp {
  import opened Prelude
  import opened Aggregation
  import opened StreamSpec
  import opened StreamSystem

  /** `min` over a non-empty collection of integers. */
  method LeastKey(s: set<int>) returns (m: int)
    requires s != {}
    ensures m == MinOf(s)
    ensures IsMinOf(m, s)
  {
    ghost var x0 := Pick(s);
    var x: int :| x in s;
    m := x;
    var rest := s - {m};
    while rest != {}
      invariant rest <= s && m in s
      invariant forall z | z in s && z !in rest :: m <= z
      decreases |rest|
    {
      ghost var y0 := Pick(rest);
      var y: int :| y in rest;
      if y < m { m := y; }
      rest := rest - {y};
    }
    assert IsMinOf(m, s);
    assert MinOf(s) <= m <= MinOf(s);
  }

  /** `sorted(due)`: repeatedly take the least remaining element. */
  method Sorted(due: set<int>) returns (ws: seq<int>)
    ensures ws == SortedOf(due)
    ensures (forall x :: x in ws <==> x in due) && forall i, j | 0 <= i < j < |ws| :: ws[i] < ws[j]
  {
    ws := [];
    var rest := due;
    while rest != {}
      invariant rest <= due
      invariant StrictlySorted(ws)
      invariant forall i, x | 0 <= i < |ws| && x in rest :: ws[i] < x
      invariant forall x :: x in due <==> x in ws || x in rest
      decreases |rest|
    {
      var m := LeastKey(rest);
      ws := ws + [m];
      rest := rest - {m};
    }
    forall x ensures x in Elements(ws) <==> x in due { }
    SortedUnique(ws, SortedOf(due));
  }

  /** The window's total event count. */
  method SumCounts(groups: Groups) returns (total: nat)
    ensures total == CountAll(groups)
  {
    total := 0;
    var rest := groups;
    while rest != map[]
      invariant total + CountAll(rest) == CountAll(groups)
      decreases |rest|
    {
      var k :| k in rest;
      CountAllRemove(rest, k);
      total := total + rest[k].eventCount;
      rest := rest - {k};
    }
  }

  /** Once a produce has raised, the remaining groups are not attempted. */
  lemma {:induction false} RaisedStays(broker: Broker, attempts: seq<Attempt>, groups: Groups, w: int, windowMs: int, n: nat)
    requires n <= |attempts| && ProduceAll(broker, attempts[..n], groups, w, windowMs).raised
    ensures ProduceAll(broker, attempts, groups, w, windowMs) == ProduceAll(broker, attempts[..n], groups, w, windowMs)
  {
    if n == |attempts| {
      assert attempts[..n] == attempts;
    } else {
      var init := attempts[..|attempts| - 1];
      assert init[..n] == attempts[..n];
      RaisedStays(broker, init, groups, w, windowMs, n);
    }
  }

  /** Produce one aggregate per group; swallowed errors are skipped, a failed retry escapes. */
  method FlushWindow(broker: Broker, w: int, windowMs: int, groups: Groups, attempts: seq<Attempt>)
    returns (after: Broker, produced: nat, raised: bool)
    requires forall i | 0 <= i < |attempts| :: attempts[i].group in groups
    ensures ProduceState(after, produced, raised) == ProduceAll(broker, attempts, groups, w, windowMs)
  {
    after, produced, raised := broker, 0, false;
    for i := 0 to |attempts|
      invariant ProduceState(after, produced, raised) == ProduceAll(broker, attempts[..i], groups, w, windowMs)
      invariant !raised
    {
      var a := attempts[i];
      var row := RowOf(a.group, groups[a.group], w, windowMs);
      assert attempts[..i + 1][..i] == attempts[..i];
      match a.outcome {
        case Sent =>
          after := Enqueue(after, row);
          produced := produced + 1;
        case SentAfterFlush(unacked) =>
          after := Enqueue(Flush(after, unacked), row);
          produced := produced + 1;
        case RetryRaised(unacked) =>
          after := Flush(after, unacked);
          raised := true;
          RaisedStays(broker, attempts, groups, w, windowMs, i + 1);
          return;
        case Swallowed =>
      }
    }
    assert attempts[..|attempts|] == attempts;
  }

  /** Forgetting one more partition's offsets. */
  lemma ReleasedMore(buffered: map<int, OffsetMap>, popped: map<int, seq<int>>, rest: set<int>, p: int)
    requires p in rest && rest <= popped.Keys
    ensures var before := Released(buffered, popped - rest);
            Released(buffered, popped - (rest - {p}))
              == if p in buffered then before[p := before[p] - Elements(popped[p])] else before
  {
    var before, after := Released(buffered, popped - rest), Released(buffered, popped - (rest - {p}));
    forall q | q in buffered && q != p ensures after[q] == before[q] { }
  }

  lemma EmitAllSnoc(st: EmitState, ws: seq<int>, scripts: Scripts, windowMs: int, i: nat)
    requires i < |ws|
    ensures EmitAll(st, ws[..i + 1], scripts, windowMs)
         == EmitOne(EmitAll(st, ws[..i], scripts, windowMs), ws[i], ScriptFor(scripts, ws[i]), windowMs)
  {
    assert ws[..i + 1][..i] == ws[..i];
  }

  /** Likewise for the windows of a round. */
  lemma {:induction false} RoundStops(st: EmitState, ws: seq<int>, scripts: Scripts, windowMs: int, n: nat)
    requires n <= |ws| && EmitAll(st, ws[..n], scripts, windowMs).raised
    ensures EmitAll(st, ws, scripts, windowMs) == EmitAll(st, ws[..n], scripts, windowMs)
  {
    if n == |ws| {
      assert ws[..n] == ws;
    } else {
      var init := ws[..|ws| - 1];
      assert init[..n] == ws[..n];
      RoundStops(st, init, scripts, windowMs, n);
    }
  }

  /** What one turn of the loop sees: the clock, the broker's answers, and a message if any. */
  datatype Message = Message(partition: int, offset: int, payload: Payload)

  datatype Turn = Turn(now: int, scripts: Scripts, commit: CommitOutcome, message: Option<Message>)

  datatype LoopState = LoopState(app: App, broker: Broker, raised: bool)

  ghost function LoopOne(st: LoopState, turn: Turn, cfg: Config): LoopState
    requires cfg.windowMs > 0
  {
    if st.raised then st
    else
      var closed := MaybeClose(st.app, st.broker, turn.now, turn.scripts, turn.commit, cfg);
      if closed.raised || turn.message.None? then LoopState(closed.app, closed.broker, closed.raised)
      else
        var m := turn.message.value;
        LoopState(Consume(closed.app, m.partition, m.offset, m.payload, cfg.windowMs), closed.broker, false)
  }

  ghost function LoopAll(st: LoopState, turns: seq<Turn>, cfg: Config): LoopState
    requires cfg.windowMs > 0
  {
    if turns == [] then st
    else LoopOne(LoopAll(st, turns[..|turns| - 1], cfg), turns[|turns| - 1], cfg)
  }

  lemma {:induction false} LoopStops(st: LoopState, turns: seq<Turn>, cfg: Config, n: nat)
    requires cfg.windowMs > 0
    requires n <= |turns| && LoopAll(st, turns[..n], cfg).raised
    ensures LoopAll(st, turns, cfg) == LoopAll(st, turns[..n], cfg)
  {
    if n == |turns| {
      assert turns[..n] == turns;
    } else {
      var init := turns[..|turns| - 1];
      assert init[..n] == turns[..n];
      LoopStops(st, init, cfg, n);
    }
  }

  /** The script of every turn the loop reaches covers the windows it will meet. */
  ghost predicate LoopCovered(app: App, broker: Broker, turns: seq<Turn>, cfg: Config)
    requires cfg.windowMs > 0
  {
    forall i {:trigger turns[i]} | 0 <= i < |turns| ::
      var st := LoopAll(LoopState(app, broker, false), turns[..i], cfg);
      !st.raised ==> ScriptsCover(st.app, Due(st.app, WindowFloor(turns[i].now, cfg.windowMs)), turns[i].scripts)
  }

  /** So does the script of the final flush. */
  ghost predicate TurnsCovered(app: App, broker: Broker, turns: seq<Turn>, last: Scripts, cfg: Config)
    requires cfg.windowMs > 0
  {
    var end := LoopAll(LoopState(app, broker, false), turns, cfg);
    LoopCovered(app, broker, turns, cfg) && ScriptsCover(end.app, end.app.windows.Keys, last)
  }

  /** One turn of the loop is a Tick step followed, if a message came, by a Poll step. */
  lemma LoopOneIsTwoSteps(s: System, turn: Turn, topic: Topic, cfg: Config)
    requires cfg.windowMs > 0 && s.phase.Running?
    requires ApplyTick(s, turn.now, turn.scripts, turn.commit, cfg).phase.Running? && turn.message.Some? ==>
               var m := turn.message.value; Id(m.partition, m.offset) in topic && topic[Id(m.partition, m.offset)] == m.payload
    ensures var ticked := ApplyTick(s, turn.now, turn.scripts, turn.commit, cfg);
            var next :=
              if !ticked.phase.Running? || turn.message.None? then ticked
              else ApplyPoll(ticked, turn.message.value.partition, turn.message.value.offset, topic, cfg.windowMs);
            LoopOne(LoopState(s.app, s.broker, false), turn, cfg)
              == LoopState(next.app, next.broker, !next.phase.Running?)
  {
    TickMatches(s, turn.now, turn.scripts, turn.commit, cfg);
  }

  /** Fold one event into a window's groups. */
  method FoldEvent(groups: Groups, e: Event) returns (next: Groups)
    ensures next == AddToGroups(groups, e)
  {
    var group := GroupOf(e);
    var agg := if group in groups then groups[group] else Fresh(EventTs(e));
    next := groups[group := Bump(agg, e)];
  }

  lemma Overwritten(windows: map<int, Groups>, w: int, a: Groups, b: Groups)
    ensures windows[w := a][w := b] == windows[w := b]
  {
  }

  class DnsStreamApp {
    const cfg: Config
    var windows: map<int, Groups>
    var windowOffsets: map<int, map<int, seq<int>>>
    var buffered: map<int, OffsetMap>
    var lastOffset: OffsetMap
    var stats: Stats
    var closedThrough: Option<int>
    var currentWindowStart: int

    ghost function View(): App
      reads this
    {
      App(windows, windowOffsets, buffered, lastOffset, stats, closedThrough, currentWindowStart)
    }

    constructor (cfg: Config, now: int)
      requires cfg.windowMs > 0
      ensures this.cfg == cfg && View() == InitialApp(now, cfg.windowMs)
    {
      this.cfg := cfg;
      windows, windowOffsets, buffered, lastOffset := map[], map[], map[], map[];
      stats := Stats(0, 0, 0, 0);
      closedThrough := None;
      currentWindowStart := WindowFloor(now, cfg.windowMs);
    }

    /** Fold one event into its window's group. */
    method UpdateState(e: Event) returns (w: int)
      requires cfg.windowMs > 0
      modifies this`windows
      ensures w == WindowFloor(EventTs(e), cfg.windowMs)
      ensures windows == UpdateWindows(old(windows), e, cfg.windowMs)
    {
      w := WindowFloor(EventTs(e), cfg.windowMs);
      if w !in windows { windows := windows[w := map[]]; }
      var next := FoldEvent(windows[w], e);
      Overwritten(old(windows), w, map[], next);
      windows := windows[w := next];
    }

    /** Remember that `offset` is held by window `w`, under both indexes. */
    method Hold(partition: int, offset: int, w: int)
      modifies this`buffered, this`windowOffsets
      ensures buffered == old(buffered)[partition := Entry(old(buffered), partition)[offset := w]]
      ensures windowOffsets == old(windowOffsets)[w := AppendOffset(Entry(old(windowOffsets), w), partition, offset)]
    {
      if partition !in buffered { buffered := buffered[partition := map[]]; }
      buffered := buffered[partition := buffered[partition][offset := w]];
      if w !in windowOffsets { windowOffsets := windowOffsets[w := map[]]; }
      var perPartition := windowOffsets[w];
      if partition !in perPartition { perPartition := perPartition[partition := []]; }
      perPartition := perPartition[partition := perPartition[partition] + [offset]];
      assert perPartition == AppendOffset(Entry(old(windowOffsets), w), partition, offset);
      windowOffsets := windowOffsets[w := perPartition];
    }

    /** One message of the consume loop: track, then skip, discard or accept. */
    method HandleMessage(partition: int, offset: int, payload: Payload)
      requires cfg.windowMs > 0
      modifies this
      ensures View() == Consume(old(View()), partition, offset, payload, cfg.windowMs)
    {
      var last := if partition in lastOffset then lastOffset[partition] else -1;
      lastOffset := lastOffset[partition := Max(last, offset)];
      if !payload.Decoded? { return; }
      var e := payload.event;
      var w := WindowFloor(EventTs(e), cfg.windowMs);
      if closedThrough.Some? && w < closedThrough.value {
        stats := stats.(discarded := stats.discarded + 1);
        return;
      }
      var at := UpdateState(e);
      Hold(partition, offset, w);
    }

    static method Forget(pending: OffsetMap, offsets: seq<int>) returns (left: OffsetMap)
      ensures left == pending - Elements(offsets)
    {
      left := pending;
      for i := 0 to |offsets|
        invariant left == pending - Elements(offsets[..i])
      {
        left := left - {offsets[i]};
        assert offsets[..i + 1] == offsets[..i] + [offsets[i]];
        assert Elements(offsets[..i + 1]) == Elements(offsets[..i]) + {offsets[i]};
      }
      assert offsets[..|offsets|] == offsets;
    }

    static method ForgetAll(buffered: map<int, OffsetMap>, popped: map<int, seq<int>>) returns (left: map<int, OffsetMap>)
      ensures left == Released(buffered, popped)
    {
      left := buffered;
      var rest := popped.Keys;
      assert popped - rest == map[];
      while rest != {}
        invariant rest <= popped.Keys
        invariant left == Released(buffered, popped - rest)
        decreases |rest|
      {
        ghost var p0 := Pick(rest);
        var p: int :| p in rest;
        ReleasedMore(buffered, popped, rest, p);
        if p in left {
          var pending := Forget(left[p], popped[p]);
          left := left[p := pending];
        }
        rest := rest - {p};
      }
      assert popped - {} == popped;
    }

    /** Drop an emitted window's offsets from the pending bookkeeping. */
    method Release(w: int)
      modifies this`windowOffsets, this`buffered
      ensures View() == ReleaseOffsets(old(View()), w)
    {
      var popped := if w in windowOffsets then windowOffsets[w] else map[];
      windowOffsets := windowOffsets - {w};
      buffered := ForgetAll(buffered, popped);
    }

    /** Commit up to the earliest offset still held, or past the last one consumed. */
    method CommitOffsets(broker: Broker, outcome: CommitOutcome, ghost releasedAny: bool)
      returns (after: Broker, raised: bool)
      ensures EmitState(View(), after, releasedAny, raised)
           == Commit(EmitState(View(), broker, releasedAny, false), outcome)
    {
      var tps: OffsetMap := map[];
      var rest := lastOffset.Keys;
      while rest != {}
        invariant rest <= lastOffset.Keys
        invariant tps.Keys == lastOffset.Keys - rest
        invariant forall p | p in tps :: tps[p] == CommitPosition(View(), p)
        decreases |rest|
      {
        ghost var p0 := Pick(rest);
        var p: int :| p in rest;
        var position := lastOffset[p] + 1;
        if p in buffered && buffered[p] != map[] {
          assert buffered[p].Keys != {} by { assert |buffered[p]| != 0; }
          position := LeastKey(buffered[p].Keys);
        }
        tps := tps[p := position];
        rest := rest - {p};
      }
      assert tps == CommitMap(View());
      after, raised := broker, false;
      if tps != map[] {
        match outcome {
          case Stored => after := broker.(committed := broker.committed + tps);
          case Skipped =>
          case Failed(reached) =>
            if reached { after := broker.(committed := broker.committed + tps); }
            raised := true;
        }
      }
    }

    /** The body of the emission loop for one window. */
    method EmitWindow(w: int, script: FlushScript, broker: Broker, ghost before: bool)
      returns (after: Broker, released: bool, raised: bool)
      requires cfg.windowMs > 0 && w in windows
      requires Covers(script.attempts, windows[w].Keys)
      modifies this
      ensures EmitState(View(), after, before || released, raised)
           == EmitOne(EmitState(old(View()), broker, before, false), w, script, cfg.windowMs)
      ensures windows.Keys == if released then old(windows).Keys - {w} else old(windows).Keys
      ensures forall v | v in windows :: windows[v] == old(windows)[v]
    {
      released := false;
      var groups := windows[w];
      var produced;
      after, produced, raised := FlushWindow(broker, w, cfg.windowMs, groups, script.attempts);
      if raised { return; }
      after := Flush(after, script.unacked);
      if after.queue != {} { return; }
      var eventTotal := SumCounts(groups);
      windows := windows - {w};
      Release(w);
      stats := stats.(windows := stats.windows + 1,
                      aggregates := stats.aggregates + produced,
                      events := stats.events + eventTotal);
      released := true;
    }

    /** The emission loop. */
    method EmitEach(ws: seq<int>, scripts: Scripts, broker: Broker)
      returns (after: Broker, releasedAny: bool, raised: bool)
      requires cfg.windowMs > 0 && StrictlySorted(ws)
      requires forall i | 0 <= i < |ws| :: ws[i] in windows && Covers(ScriptFor(scripts, ws[i]).attempts, windows[ws[i]].Keys)
      modifies this
      ensures EmitState(View(), after, releasedAny, raised)
           == EmitAll(EmitState(old(View()), broker, false, false), ws, scripts, cfg.windowMs)
    {
      after, releasedAny, raised := broker, false, false;
      ghost var st0 := EmitState(View(), broker, false, false);
      for i := 0 to |ws|
        invariant EmitState(View(), after, releasedAny, raised) == EmitAll(st0, ws[..i], scripts, cfg.windowMs)
        invariant !raised
        invariant forall j | i <= j < |ws| :: ws[j] in windows && windows[ws[j]] == old(windows)[ws[j]]
      {
        EmitAllSnoc(st0, ws, scripts, cfg.windowMs, i);
        var released;
        after, released, raised := EmitWindow(ws[i], ScriptFor(scripts, ws[i]), after, releasedAny);
        releasedAny := releasedAny || released;
        if raised {
          RoundStops(st0, ws, scripts, cfg.windowMs, i + 1);
          return;
        }
      }
      assert ws[..|ws|] == ws;
    }

    /** Flush, and if nothing is left undelivered release, each due window in time order; then
        commit if any window was released. */
    method EmitWindows(due: set<int>, scripts: Scripts, outcome: CommitOutcome, broker: Broker)
      returns (after: Broker, raised: bool)
      requires cfg.windowMs > 0
      requires due <= windows.Keys
      requires ScriptsCover(View(), due, scripts)
      modifies this
      ensures var st := Emit(old(View()), broker, due, scripts, outcome, cfg.windowMs);
              View() == st.app && after == st.broker && raised == st.raised
    {
      var ws := Sorted(due);
      assert forall i | 0 <= i < |ws| :: ws[i] in Elements(ws);
      var releasedAny;
      after, releasedAny, raised := EmitEach(ws, scripts, broker);
      if !raised && releasedAny {
        after, raised := CommitOffsets(after, outcome, releasedAny);
      }
    }

    /** If the current window has ended, grace included, release every ended window. */
    method MaybeCloseBoundary(now: int, scripts: Scripts, outcome: CommitOutcome, broker: Broker)
      returns (after: Broker, raised: bool)
      requires cfg.windowMs > 0
      requires ScriptsCover(View(), Due(View(), WindowFloor(now, cfg.windowMs)), scripts)
      modifies this
      ensures var st := MaybeClose(old(View()), broker, now, scripts, outcome, cfg);
              View() == st.app && after == st.broker && raised == st.raised
    {
      after, raised := broker, false;
      if now < currentWindowStart + cfg.windowMs + cfg.graceMs { return; }
      var cutoff := WindowFloor(now, cfg.windowMs);
      var due := set w | w in windows && w < cutoff;
      after, raised := EmitWindows(due, scripts, outcome, broker);
      if raised { return; }
      closedThrough := Some(cutoff);
      currentWindowStart := cutoff;
    }

    /** One turn of the consume loop. */
    method TakeTurn(turn: Turn, broker: Broker) returns (after: Broker, raised: bool)
      requires cfg.windowMs > 0
      requires ScriptsCover(View(), Due(View(), WindowFloor(turn.now, cfg.windowMs)), turn.scripts)
      modifies this
      ensures LoopState(View(), after, raised) == LoopOne(LoopState(old(View()), broker, false), turn, cfg)
    {
      after, raised := MaybeCloseBoundary(turn.now, turn.scripts, turn.commit, broker);
      if !raised && turn.message.Some? {
        var m := turn.message.value;
        HandleMessage(m.partition, m.offset, m.payload);
      }
    }

    /** The consume loop and its `finally`: check the boundary, handle what was polled, and on
        leaving the loop, by signal or by exception, emit every open window. */
    method Run(turns: seq<Turn>, last: Scripts, lastCommit: CommitOutcome, broker: Broker)
      returns (after: Broker)
      requires cfg.windowMs > 0
      requires TurnsCovered(View(), broker, turns, last, cfg)
      modifies this
      ensures var st := LoopAll(LoopState(old(View()), broker, false), turns, cfg);
              var final := FinalFlush(st.app, st.broker, last, lastCommit, cfg.windowMs);
              View() == final.app && after == final.broker
    {
      after := broker;
      ghost var st0 := LoopState(View(), broker, false);
      var i, raised := 0, false;
      while i < |turns| && !raised
        invariant 0 <= i <= |turns|
        invariant LoopState(View(), after, raised) == LoopAll(st0, turns[..i], cfg)
        decreases |turns| - i
      {
        assert turns[..i + 1][..i] == turns[..i];
        after, raised := TakeTurn(turns[i], after);
        i := i + 1;
      }
      if raised { LoopStops(st0, turns, cfg, i); }
      assert turns[..|turns|] == turns;
      var failed;
      after, failed := EmitWindows(windows.Keys, last, lastCommit, after);
    }
  }
}
