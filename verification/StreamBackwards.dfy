/**
 * What depends on a boundary that cannot move back. With window plus grace negative the clock may
 * step back past a closed boundary; released windows then reopen, retries send different rows,
 * committed messages are held again and committed offsets regress. Each promise holds in every run
 * exactly when this cannot happen.
 */
module StreamBackwards {
  import opened Prelude
  import opened Aggregation
  import opened StreamSpec
  import opened StreamSystem
  import opened StreamPollProofs
  import opened StreamEmitProofs
  import opened StreamRuns
  import opened StreamTheorems
  import opened StreamCounterexamples

  // ---- The steps the runs below share ----

  lemma WindowsNearZero(n: int)
    requires n > 0
    ensures WindowFloor(0, n) == 0 && WindowFloor(n - 1, n) == 0
    ensures WindowFloor(n, n) == n && WindowFloor(2 * n, n) == 2 * n
  {
    MultipleIsAligned(0, n);
    MultipleIsAligned(1, n);
    MultipleIsAligned(2, n);
    WindowFloorUnique(0, n, 0);
    WindowFloorUnique(n - 1, n, 0);
    WindowFloorUnique(n, n, n);
    WindowFloorUnique(2 * n, n, 2 * n);
  }

  /** The messages of a topic with two offsets. */
  function TwoMessages(e: Event, f: Event): Topic {
    map[Id(0, 0) := Decoded(e), Id(0, 1) := Decoded(f)]
  }

  /** A closing tick, given its round; nothing is committed. */
  lemma TickThen(t: Trace, now: int, scripts: Scripts, ws: seq<int>, r: Round, topic: Topic, cfg: Config) returns (u: Trace)
    requires cfg.windowMs > 0 && IsTrace(t, topic, cfg) && Last(t).phase.Running? && BoundaryReached(Last(t).app, now, cfg)
    requires SortedOf(Due(Last(t).app, WindowFloor(now, cfg.windowMs))) == ws
    requires ScriptsCover(Last(t).app, Due(Last(t).app, WindowFloor(now, cfg.windowMs)), scripts)
    requires r == RoundAll(Round(Last(t), false, false), ws, scripts, cfg.windowMs) && !r.raised
    ensures IsTrace(u, topic, cfg) && OneMore(t, u)
    ensures var cutoff := WindowFloor(now, cfg.windowMs);
            Last(u) == r.sys.(app := r.sys.app.(closedThrough := Some(cutoff), currentWindowStart := cutoff))
  {
    u := Then(t, Tick(now, scripts, Skipped), ApplyTick(Last(t), now, scripts, Skipped, cfg), topic, cfg);
  }

  lemma CommittedResult(s: System, now: int, scripts: Scripts, ws: seq<int>, r: Round, o: int, cfg: Config)
    requires cfg.windowMs > 0 && BoundaryReached(s.app, now, cfg)
    requires SortedOf(Due(s.app, WindowFloor(now, cfg.windowMs))) == ws
    requires r == RoundAll(Round(s, false, false), ws, scripts, cfg.windowMs) && !r.raised && r.releasedAny
    requires CommitMap(r.sys.app) == map[0 := o] && r.sys.broker.committed.Keys <= {0}
    ensures var cutoff := WindowFloor(now, cfg.windowMs);
            ApplyTick(s, now, scripts, Stored, cfg)
              == r.sys.(app := r.sys.app.(closedThrough := Some(cutoff), currentWindowStart := cutoff),
                        broker := r.sys.broker.(committed := map[0 := o]))
  {
    var offsets: OffsetMap := map[0 := o];
    assert 0 in offsets;
    assert r.sys.broker.committed + offsets == offsets;
  }

  /** A closing tick whose round releases something, and whose commit is stored. */
  lemma TickCommits(t: Trace, now: int, scripts: Scripts, ws: seq<int>, r: Round, o: int, topic: Topic, cfg: Config) returns (u: Trace)
    requires cfg.windowMs > 0 && IsTrace(t, topic, cfg) && Last(t).phase.Running? && BoundaryReached(Last(t).app, now, cfg)
    requires SortedOf(Due(Last(t).app, WindowFloor(now, cfg.windowMs))) == ws
    requires ScriptsCover(Last(t).app, Due(Last(t).app, WindowFloor(now, cfg.windowMs)), scripts)
    requires r == RoundAll(Round(Last(t), false, false), ws, scripts, cfg.windowMs) && !r.raised && r.releasedAny
    requires CommitMap(r.sys.app) == map[0 := o] && r.sys.broker.committed.Keys <= {0}
    ensures IsTrace(u, topic, cfg) && OneMore(t, u)
    ensures var cutoff := WindowFloor(now, cfg.windowMs);
            Last(u) == r.sys.(app := r.sys.app.(closedThrough := Some(cutoff), currentWindowStart := cutoff),
                              broker := r.sys.broker.(committed := map[0 := o]))
  {
    CommittedResult(Last(t), now, scripts, ws, r, o, cfg);
    u := Then(t, Tick(now, scripts, Stored), ApplyTick(Last(t), now, scripts, Stored, cfg), topic, cfg);
  }

  /** With the boundary at n, a clock that reads n - 1 moves it back to 0. */
  lemma ClockStepsBack(t: Trace, topic: Topic, cfg: Config) returns (u: Trace)
    requires cfg.windowMs > 0 && !Forward(cfg) && IsTrace(t, topic, cfg) && Last(t).phase.Running?
    requires Last(t).app.currentWindowStart == cfg.windowMs && forall w | w in Last(t).app.windows :: 0 <= w
    ensures IsTrace(u, topic, cfg) && OneMore(t, u)
    ensures Last(u) == Last(t).(app := Last(t).app.(closedThrough := Some(0), currentWindowStart := 0))
  {
    var s, now := Last(t), cfg.windowMs - 1;
    WindowsNearZero(cfg.windowMs);
    assert Due(s.app, 0) == {};
    u := TickThen(t, now, map[], [], Round(s, false, false), topic, cfg);
  }

  /** With the boundary at 0, an event of window 0 is accepted. */
  lemma AcceptedAtZero(t: Trace, o: int, e: Event, topic: Topic, cfg: Config) returns (u: Trace)
    requires cfg.windowMs > 0 && IsTrace(t, topic, cfg) && Last(t).phase.Running? && Last(t).app.closedThrough == Some(0)
    requires WindowFloor(EventTs(e), cfg.windowMs) == 0
    requires IsNext(Last(t), topic, 0, o) && topic[Id(0, o)] == Decoded(e)
    ensures IsTrace(u, topic, cfg) && OneMore(t, u)
    ensures Accepts(Last(t), Last(u), Id(0, o), e, 0) && Moves(Last(t), Last(u), 0, o)
  {
    PollFrame(Last(t), 0, o, topic, cfg.windowMs);
    u := Then(t, Poll(0, o), ApplyPoll(Last(t), 0, o, topic, cfg.windowMs), topic, cfg);
  }

  // ---- Released windows reopen ----

  /** The only window is released at the close at n. */
  lemma ReleasedOnce(t: Trace, g: Group, topic: Topic, cfg: Config) returns (u: Trace)
    requires cfg.windowMs > 0 && cfg.graceMs < 0 && IsTrace(t, topic, cfg)
    requires HoldsOnly(Last(t), g, 0) && Last(t).app.currentWindowStart == 0
    ensures IsTrace(u, topic, cfg) && OneMore(t, u)
    ensures Last(u).phase.Running? && Last(u).app.windows == map[] && 0 in Last(u).done
    ensures Last(u).app.currentWindowStart == cfg.windowMs && Last(u).pos == Last(t).pos
  {
    var s, n, a := Last(t), cfg.windowMs, Attempt(g, Swallowed);
    var scripts: Scripts := map[0 := FlushScript([a], {})];
    WindowsNearZero(n);
    assert Due(s.app, n) == {0} == s.app.windows.Keys;
    LoneWindowCovered(s.app, 0, a, scripts);
    LoneWindowRound(s, 0, a, scripts, n);
    var r := RoundAll(Round(s, false, false), SortedOf({0}), scripts, n);
    u := TickThen(t, n, scripts, SortedOf({0}), r, topic, cfg);
  }

  lemma ReopenedRun(cfg: Config) returns (t: Trace, topic: Topic)
    requires cfg.windowMs > 0 && !Forward(cfg)
    ensures WellFormed(topic) && IsTrace(t, topic, cfg) && 0 in Last(t).done && 0 in Last(t).app.windows
  {
    var e: Event := map[];
    topic := TwoMessages(e, e);
    WindowsNearZero(cfg.windowMs);
    t := FirstPolled(e, topic, cfg);
    t := ReleasedOnce(t, GroupOf(e), topic, cfg);
    t := ClockStepsBack(t, topic, cfg);
    t := AcceptedAtZero(t, 1, e, topic, cfg);
  }

  /** Main: released windows stay closed in every run exactly when the boundary cannot move back. */
  lemma NeverReopenedIffForward(cfg: Config)
    requires cfg.windowMs > 0
    ensures Forward(cfg) <==>
      forall states: seq<System>, steps: seq<Step>, topic: Topic, j: nat, w: int |
        WellFormed(topic) && IsRun(states, steps, topic, cfg) && j < |states| && w in states[j].done ::
        w !in states[j].app.windows
  {
    if Forward(cfg) {
      forall states: seq<System>, steps: seq<Step>, topic: Topic, j: nat, w: int |
        WellFormed(topic) && IsRun(states, steps, topic, cfg) && j < |states| && w in states[j].done
        ensures w !in states[j].app.windows
      {
        RunKeepsInv(states, steps, topic, cfg, j);
      }
    } else {
      var t, topic := ReopenedRun(cfg);
      assert IsRun(t.states, t.steps, topic, cfg);
    }
  }

  // ---- Retries send different rows ----

  /** The only window is produced at the close at n, but not delivered, and kept. */
  lemma KeptOnce(t: Trace, g: Group, topic: Topic, cfg: Config) returns (u: Trace)
    requires cfg.windowMs > 0 && cfg.graceMs < 0 && IsTrace(t, topic, cfg)
    requires HoldsOnly(Last(t), g, 0) && Last(t).app.currentWindowStart == 0
    ensures IsTrace(u, topic, cfg) && OneMore(t, u)
    ensures var s, row := Last(t), RowOf(g, Last(t).app.windows[0][g], 0, cfg.windowMs);
            Last(u) == s.(app := s.app.(closedThrough := Some(cfg.windowMs), currentWindowStart := cfg.windowMs),
                          broker := Broker({row}, {}, {row}, map[]))
  {
    var s, n, a := Last(t), cfg.windowMs, Attempt(g, Sent);
    var row := RowOf(g, s.app.windows[0][g], 0, n);
    var scripts: Scripts := map[0 := FlushScript([a], {row})];
    WindowsNearZero(n);
    assert Due(s.app, n) == {0} == s.app.windows.Keys;
    LoneWindowCovered(s.app, 0, a, scripts);
    SortedSingle(0);
    OneTurn(Round(s, false, false), 0, scripts, n);
    LoneTurn(Round(s, false, false), 0, a, {row}, n);
    var b := Broker({row}, {}, {row}, map[]);
    assert Flush(b, {row}) == b;
    u := TickThen(t, n, scripts, [0], Round(s.(broker := b), false, false), topic, cfg);
  }

  /** A later close produces the window again, as it now is. */
  lemma SentAgain(t: Trace, g: Group, topic: Topic, cfg: Config) returns (u: Trace)
    requires cfg.windowMs > 0 && cfg.graceMs < 0 && IsTrace(t, topic, cfg) && Last(t).phase.Running?
    requires Last(t).app.currentWindowStart == 0
    requires Last(t).app.windows.Keys == {0} == Last(t).held.Keys && Last(t).app.windows[0].Keys == {g}
    ensures IsTrace(u, topic, cfg) && OneMore(t, u)
    ensures Last(t).broker.sent <= Last(u).broker.sent
    ensures RowOf(g, Last(t).app.windows[0][g], 0, cfg.windowMs) in Last(u).broker.sent
  {
    var s, n, a := Last(t), cfg.windowMs, Attempt(g, Sent);
    var scripts: Scripts := map[0 := FlushScript([a], {})];
    WindowsNearZero(n);
    assert Due(s.app, n) == {0} == s.app.windows.Keys;
    LoneWindowCovered(s.app, 0, a, scripts);
    SortedSingle(0);
    OneTurn(Round(s, false, false), 0, scripts, n);
    LoneTurn(Round(s, false, false), 0, a, {}, n);
    var r := RoundAll(Round(s, false, false), [0], scripts, n);
    u := TickThen(t, n, scripts, [0], r, topic, cfg);
  }

  lemma TwoRowsDiffer(rows: set<Row>, r: Row, q: Row)
    requires r in rows && q in rows && r.group == q.group && r.record.windowStart == q.record.windowStart
    requires r.record.eventCount != q.record.eventCount
    ensures !RowsFunctional(rows)
  {
  }

  lemma DifferingRun(cfg: Config) returns (t: Trace, topic: Topic)
    requires cfg.windowMs > 0 && !Forward(cfg)
    ensures WellFormed(topic) && IsTrace(t, topic, cfg) && !RowsFunctional(Last(t).broker.sent)
  {
    var e: Event, g := map[], GroupOf(map[]);
    topic := TwoMessages(e, e);
    WindowsNearZero(cfg.windowMs);
    t := FirstPolled(e, topic, cfg);
    var r := RowOf(g, Last(t).app.windows[0][g], 0, cfg.windowMs);
    t := KeptOnce(t, g, topic, cfg);
    t := ClockStepsBack(t, topic, cfg);
    t := AcceptedAtZero(t, 1, e, topic, cfg);
    assert Last(t).app.windows[0].Keys == {g} && Last(t).app.windows[0][g].eventCount == 2;
    var q := RowOf(g, Last(t).app.windows[0][g], 0, cfg.windowMs);
    t := SentAgain(t, g, topic, cfg);
    TwoRowsDiffer(Last(t).broker.sent, r, q);
  }

  /** Main: any two rows a process hands over for the same window and group are equal, in every
      run, exactly when the boundary cannot move back. */
  lemma RetriesRepeatIffForward(cfg: Config)
    requires cfg.windowMs > 0
    ensures Forward(cfg) <==>
      forall states: seq<System>, steps: seq<Step>, topic: Topic, j: nat |
        WellFormed(topic) && IsRun(states, steps, topic, cfg) && j < |states| ::
        RowsFunctional(states[j].broker.sent)
  {
    if Forward(cfg) {
      forall states: seq<System>, steps: seq<Step>, topic: Topic, j: nat |
        WellFormed(topic) && IsRun(states, steps, topic, cfg) && j < |states|
        ensures RowsFunctional(states[j].broker.sent)
      {
        RunKeepsInv(states, steps, topic, cfg, j);
      }
    } else {
      var t, topic := DifferingRun(cfg);
      assert IsRun(t.states, t.steps, topic, cfg);
    }
  }

  // ---- Committed offsets regress ----

  ghost predicate ListsOnly(perPartition: map<int, seq<int>>, o: int) {
    perPartition.Keys == {0} && perPartition[0] == [o]
  }

  /** Offset 0 is held in window 0 and offset 1 in window n. */
  ghost predicate HoldsBoth(s: System, g: Group, n: int) {
    && s.app.windows.Keys == {0, n} == s.held.Keys && s.app.windows[0].Keys == {g} && s.app.windows[n].Keys == {g}
    && s.app.windowOffsets.Keys == {0, n} && ListsOnly(s.app.windowOffsets[0], 0) && ListsOnly(s.app.windowOffsets[n], 1)
    && s.app.buffered.Keys == {0} && s.app.buffered[0].Keys == {0, 1}
    && s.app.lastOffset.Keys == {0} && s.app.lastOffset[0] == 1
    && s.broker.queue == {} && s.broker.sent == {} && s.broker.sink == {} && s.phase.Running?
  }

  /** Offset 1 alone is held, in window n. */
  ghost predicate HoldsSecond(s: System, g: Group, n: int) {
    && s.app.windows.Keys == {n} == s.held.Keys && s.app.windows[n].Keys == {g}
    && s.app.windowOffsets.Keys == {n} && ListsOnly(s.app.windowOffsets[n], 1)
    && s.app.buffered.Keys == {0} && s.app.buffered[0].Keys == {1}
    && s.app.lastOffset.Keys == {0} && s.app.lastOffset[0] == 1
    && s.broker.queue == {} && s.broker.sent == {} && s.broker.sink == {} && s.phase.Running?
  }

  lemma SecondHeld(s: System, next: System, f: Event, g: Group, n: int)
    requires n > 0 && HoldsOnly(s, g, 0) && GroupOf(f) == g
    requires Accepts(s, next, Id(0, 1), f, n) && Moves(s, next, 0, 1)
    ensures HoldsBoth(next, g, n)
  {
    assert [] + [1] == [1];
  }

  lemma FirstHeld(s: System, next: System, e: Event, g: Group, n: int)
    requires n > 0 && HoldsSecond(s, g, n) && GroupOf(e) == g
    requires Accepts(s, next, Id(0, 0), e, 0) && Moves(s, next, 0, 0)
    ensures HoldsBoth(next, g, n)
  {
    assert [] + [0] == [0];
  }

  lemma SecondPolled(t: Trace, e: Event, f: Event, cfg: Config) returns (u: Trace)
    requires cfg.windowMs > 0 && IsTrace(t, TwoMessages(e, f), cfg)
    requires HoldsOnly(Last(t), GroupOf(e), 0) && Last(t).pos == map[0 := 1] && Last(t).app.closedThrough.None?
    requires GroupOf(f) == GroupOf(e) && WindowFloor(EventTs(f), cfg.windowMs) == cfg.windowMs
    ensures IsTrace(u, TwoMessages(e, f), cfg) && OneMore(t, u)
    ensures HoldsBoth(Last(u), GroupOf(e), cfg.windowMs) && Last(u).broker.committed == map[]
    ensures Last(u).app.currentWindowStart == Last(t).app.currentWindowStart
  {
    var s, topic := Last(t), TwoMessages(e, f);
    PollFrame(s, 0, 1, topic, cfg.windowMs);
    var next := ApplyPoll(s, 0, 1, topic, cfg.windowMs);
    SecondHeld(s, next, f, GroupOf(e), cfg.windowMs);
    u := Then(t, Poll(0, 1), next, topic, cfg);
  }

  lemma Rewound(t: Trace, g: Group, n: int, topic: Topic, cfg: Config) returns (u: Trace)
    requires cfg.windowMs > 0 && IsTrace(t, topic, cfg) && HoldsBoth(Last(t), g, n) && Last(t).broker.committed == map[]
    ensures IsTrace(u, topic, cfg) && HoldsBoth(Last(u), g, n) && Last(u).broker.committed == map[]
    ensures Last(u).app == Last(t).app && 0 in Last(u).pos && Last(u).pos[0] == 0
  {
    u := Then(t, Rewind(0), ApplyRewind(Last(t), 0), topic, cfg);
  }

  /** Both messages polled, and the consumer back at the first. */
  lemma BothPolled(e: Event, f: Event, cfg: Config) returns (t: Trace)
    requires cfg.windowMs > 0 && GroupOf(f) == GroupOf(e)
    requires WindowFloor(EventTs(e), cfg.windowMs) == 0 && WindowFloor(EventTs(f), cfg.windowMs) == cfg.windowMs
    ensures IsTrace(t, TwoMessages(e, f), cfg)
    ensures HoldsBoth(Last(t), GroupOf(e), cfg.windowMs) && Last(t).broker.committed == map[]
    ensures Last(t).app.currentWindowStart == 0 && 0 in Last(t).pos && Last(t).pos[0] == 0
  {
    t := FirstPolled(e, TwoMessages(e, f), cfg);
    t := SecondPolled(t, e, f, cfg);
    t := Rewound(t, GroupOf(e), cfg.windowMs, TwoMessages(e, f), cfg);
  }

  lemma BothCovered(s: System, g: Group, n: int, due: set<int>, scripts: Scripts)
    requires HoldsBoth(s, g, n) && due <= {0, n}
    requires forall w | w in due :: w in scripts && |scripts[w].attempts| == 1 && scripts[w].attempts[0].group == g
    ensures ScriptsCover(s.app, due, scripts)
  {
  }

  /** Releasing window 0 leaves offset 1 pending. */
  lemma FirstGoes(s: System, g: Group, n: int, swallowed: set<Row>)
    requires n > 0 && HoldsBoth(s, g, n)
    ensures var next := Release(s, 0, 0, swallowed);
            HoldsSecond(next, g, n) && CommitMap(next.app) == map[0 := 1]
            && next.app.currentWindowStart == s.app.currentWindowStart && next.pos == s.pos && next.broker == s.broker
  {
    ReleaseFrame(s, 0, 0, swallowed);
    var next := Release(s, 0, 0, swallowed);
    assert Elements([0]) == {0};
    assert next.app.buffered[0].Keys == {0, 1} - {0};
    CommitOne(next.app, 1);
  }

  /** Releasing window n leaves offset 0 pending. */
  lemma SecondGoes(s: System, g: Group, n: int, swallowed: set<Row>)
    requires n > 0 && HoldsBoth(s.(broker := Broker({}, {}, {}, s.broker.committed)), g, n)
    ensures CommitMap(Release(s, n, 0, swallowed).app) == map[0 := 0]
  {
    ReleaseFrame(s, n, 0, swallowed);
    var next := Release(s, n, 0, swallowed);
    assert Elements([1]) == {1};
    assert next.app.buffered[0].Keys == {0, 1} - {1};
    CommitOne(next.app, 0);
  }

  lemma FirstTurn(s: System, g: Group, n: int)
    requires n > 0 && HoldsBoth(s, g, n)
    ensures var r := RoundOne(Round(s, false, false), 0, FlushScript([Attempt(g, Swallowed)], {}), n);
            && r.releasedAny && !r.raised && HoldsSecond(r.sys, g, n) && CommitMap(r.sys.app) == map[0 := 1]
            && r.sys.app.currentWindowStart == s.app.currentWindowStart && r.sys.pos == s.pos && r.sys.broker == s.broker
  {
    LoneTurn(Round(s, false, false), 0, Attempt(g, Swallowed), {}, n);
    assert Flush(s.broker, {}) == s.broker;
    FirstGoes(s, g, n, SwallowedRows(s.app.windows[0], [Attempt(g, Swallowed)], 0, n));
  }

  /** Window 0 is released at the close at n and the commit moves to offset 1. */
  lemma FirstReleased(t: Trace, g: Group, topic: Topic, cfg: Config) returns (u: Trace)
    requires cfg.windowMs > 0 && cfg.graceMs < 0 && IsTrace(t, topic, cfg)
    requires HoldsBoth(Last(t), g, cfg.windowMs) && Last(t).broker.committed == map[] && Last(t).app.currentWindowStart == 0
    ensures IsTrace(u, topic, cfg) && OneMore(t, u)
    ensures HoldsSecond(Last(u), g, cfg.windowMs) && Last(u).broker.committed == map[0 := 1]
    ensures Last(u).app.currentWindowStart == cfg.windowMs && Last(u).pos == Last(t).pos
  {
    var s, n := Last(t), cfg.windowMs;
    var scripts: Scripts := map[0 := FlushScript([Attempt(g, Swallowed)], {})];
    WindowsNearZero(n);
    assert Due(s.app, n) == {0};
    BothCovered(s, g, n, {0}, scripts);
    SortedSingle(0);
    OneTurn(Round(s, false, false), 0, scripts, n);
    FirstTurn(s, g, n);
    u := TickCommits(t, n, scripts, [0], RoundAll(Round(s, false, false), [0], scripts, n), 1, topic, cfg);
  }

  lemma TwoTurns(r: Round, v: int, w: int, scripts: Scripts, windowMs: int)
    ensures RoundAll(r, [v, w], scripts, windowMs)
         == RoundOne(RoundOne(r, v, ScriptFor(scripts, v), windowMs), w, ScriptFor(scripts, w), windowMs)
  {
    assert [v, w][..1] == [v];
    OneTurn(r, v, scripts, windowMs);
  }

  /** Window 0's turn leaves its row unacknowledged, so the window stays. */
  lemma FirstStays(s: System, g: Group, row: Row, n: int)
    requires n > 0 && HoldsBoth(s, g, n) && row == RowOf(g, s.app.windows[0][g], 0, n)
    ensures RoundOne(Round(s, false, false), 0, FlushScript([Attempt(g, Sent)], {row}), n)
         == Round(s.(broker := Broker({row}, {}, {row}, s.broker.committed)), false, false)
  {
    LoneTurn(Round(s, false, false), 0, Attempt(g, Sent), {row}, n);
    var b := Broker({row}, {}, {row}, s.broker.committed);
    assert Flush(b, {row}) == b;
  }

  /** Window n's turn swallows its row and delivers what was left, so the window goes. */
  lemma SecondTurn(s: System, g: Group, row: Row, n: int)
    requires n > 0 && HoldsBoth(s, g, n)
    ensures var r := RoundOne(Round(s.(broker := Broker({row}, {}, {row}, s.broker.committed)), false, false),
                              n, FlushScript([Attempt(g, Swallowed)], {}), n);
            r.releasedAny && !r.raised && r.sys.broker.committed == s.broker.committed && CommitMap(r.sys.app) == map[0 := 0]
  {
    var kept := s.(broker := Broker({row}, {}, {row}, s.broker.committed));
    LoneTurn(Round(kept, false, false), n, Attempt(g, Swallowed), {}, n);
    var flushed := kept.(broker := Flush(kept.broker, {}));
    assert flushed.broker.queue == {};
    SecondGoes(flushed, g, n, SwallowedRows(s.app.windows[n], [Attempt(g, Swallowed)], n, n));
    ReleaseFrame(flushed, n, 0, SwallowedRows(s.app.windows[n], [Attempt(g, Swallowed)], n, n));
  }

  /** At the close at 2n window 0 stays, window n goes, and the commit returns to offset 0. */
  lemma CommitMovesBack(t: Trace, g: Group, topic: Topic, cfg: Config) returns (u: Trace)
    requires cfg.windowMs > 0 && cfg.graceMs < 0 && IsTrace(t, topic, cfg)
    requires HoldsBoth(Last(t), g, cfg.windowMs) && Last(t).broker.committed == map[0 := 1]
    requires Last(t).app.currentWindowStart == 0
    ensures IsTrace(u, topic, cfg) && OneMore(t, u) && Last(u).broker.committed == map[0 := 0]
  {
    var s, n := Last(t), cfg.windowMs;
    var row := RowOf(g, s.app.windows[0][g], 0, n);
    var scripts: Scripts :=
      map[0 := FlushScript([Attempt(g, Sent)], {row}), n := FlushScript([Attempt(g, Swallowed)], {})];
    WindowsNearZero(n);
    assert Due(s.app, 2 * n) == {0, n};
    BothCovered(s, g, n, {0, n}, scripts);
    SortedPair(0, n);
    TwoTurns(Round(s, false, false), 0, n, scripts, n);
    FirstStays(s, g, row, n);
    SecondTurn(s, g, row, n);
    u := TickCommits(t, 2 * n, scripts, [0, n], RoundAll(Round(s, false, false), [0, n], scripts, n), 0, topic, cfg);
  }

  /** The clock steps back and the first message is polled and held a second time. */
  lemma FirstHeldAgain(t: Trace, e: Event, f: Event, cfg: Config) returns (u: Trace)
    requires cfg.windowMs > 0 && !Forward(cfg) && IsTrace(t, TwoMessages(e, f), cfg)
    requires HoldsSecond(Last(t), GroupOf(e), cfg.windowMs) && 0 in Last(t).pos && Last(t).pos[0] == 0
    requires Last(t).app.currentWindowStart == cfg.windowMs && WindowFloor(EventTs(e), cfg.windowMs) == 0
    ensures IsTrace(u, TwoMessages(e, f), cfg)
    ensures HoldsBoth(Last(u), GroupOf(e), cfg.windowMs) && Last(u).broker == Last(t).broker
    ensures Last(u).app.currentWindowStart == 0
  {
    var back := ClockStepsBack(t, TwoMessages(e, f), cfg);
    u := AcceptedAtZero(back, 0, e, TwoMessages(e, f), cfg);
    FirstHeld(Last(back), Last(u), e, GroupOf(e), cfg.windowMs);
  }

  lemma RegressingWith(e: Event, f: Event, cfg: Config) returns (t: Trace, u: Trace)
    requires cfg.windowMs > 0 && !Forward(cfg) && GroupOf(f) == GroupOf(e)
    requires WindowFloor(EventTs(e), cfg.windowMs) == 0 && WindowFloor(EventTs(f), cfg.windowMs) == cfg.windowMs
    ensures IsTrace(t, TwoMessages(e, f), cfg) && IsTrace(u, TwoMessages(e, f), cfg) && OneMore(t, u)
    ensures Last(t).broker.committed == map[0 := 1] && Last(u).broker.committed == map[0 := 0]
    ensures HoldsBoth(Last(t), GroupOf(e), cfg.windowMs)
  {
    t := BothPolled(e, f, cfg);
    t := FirstReleased(t, GroupOf(e), TwoMessages(e, f), cfg);
    t := FirstHeldAgain(t, e, f, cfg);
    u := CommitMovesBack(t, GroupOf(e), TwoMessages(e, f), cfg);
  }

  lemma RegressingRun(cfg: Config) returns (t: Trace, u: Trace, topic: Topic)
    requires cfg.windowMs > 0 && !Forward(cfg)
    ensures WellFormed(topic) && IsTrace(t, topic, cfg) && IsTrace(u, topic, cfg) && OneMore(t, u)
    ensures Last(t).broker.committed == map[0 := 1] && Last(u).broker.committed == map[0 := 0]
    ensures exists g: Group :: HoldsBoth(Last(t), g, cfg.windowMs)
  {
    var e: Event, f: Event := map[], map["ts" := Raw("", Some(cfg.windowMs))];
    WindowsNearZero(cfg.windowMs);
    t, u := RegressingWith(e, f, cfg);
    topic := TwoMessages(e, f);
  }

  /** Main: committed offsets never fall, in any run, exactly when the boundary cannot move back. */
  lemma CommitsMonotoneIffForward(cfg: Config)
    requires cfg.windowMs > 0
    ensures Forward(cfg) <==>
      forall states: seq<System>, steps: seq<Step>, topic: Topic, i: nat, j: nat |
        WellFormed(topic) && IsRun(states, steps, topic, cfg) && i <= j < |states| ::
        Behind(states[i].broker.committed, states[j].broker.committed)
  {
    if Forward(cfg) {
      forall states: seq<System>, steps: seq<Step>, topic: Topic, i: nat, j: nat |
        WellFormed(topic) && IsRun(states, steps, topic, cfg) && i <= j < |states|
        ensures Behind(states[i].broker.committed, states[j].broker.committed)
      {
        CommitsAreMonotone(states, steps, topic, cfg, i, j);
      }
    } else {
      var t, u, topic := RegressingRun(cfg);
      assert IsRun(u.states, u.steps, topic, cfg);
      var i := |t.states| - 1;
      assert u.states[i] == t.states[i];
      assert 0 in u.states[i].broker.committed;
      assert !Behind(u.states[i].broker.committed, u.states[i + 1].broker.committed);
    }
  }

  /** A message pending below the committed offset is held in some open window. */
  lemma PendingBelowCommitted(s: System, id: Id)
    requires BufferAgrees(s) && Pending(s, id) && id.partition in s.broker.committed
    requires id.offset < s.broker.committed[id.partition]
    ensures !HeldUncommitted(s)
  {
    var w := s.app.buffered[id.partition][id.offset];
    assert BufferedAt(s, id, w);
    assert HeldAt(s, id, w);
  }

  /** Main: no committed message is held, in any run, exactly when the boundary cannot move back. */
  lemma HeldUncommittedIffForward(cfg: Config)
    requires cfg.windowMs > 0
    ensures Forward(cfg) <==>
      forall states: seq<System>, steps: seq<Step>, topic: Topic, j: nat |
        WellFormed(topic) && IsRun(states, steps, topic, cfg) && j < |states| ::
        HeldUncommitted(states[j])
  {
    if Forward(cfg) {
      forall states: seq<System>, steps: seq<Step>, topic: Topic, j: nat |
        WellFormed(topic) && IsRun(states, steps, topic, cfg) && j < |states|
        ensures HeldUncommitted(states[j])
      {
        CommittedIsNotHeld(states, steps, topic, cfg, j);
      }
    } else {
      var t, u, topic := RegressingRun(cfg);
      var j := |t.states| - 1;
      RunKeepsLedger(t.states, t.steps, topic, cfg, j);
      PendingBelowCommitted(t.states[j], Id(0, 0));
      assert IsRun(t.states, t.steps, topic, cfg);
    }
  }
}
