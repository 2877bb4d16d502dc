/**
 * What the DNS app does not promise, by constructed runs: a row whose produce error is swallowed
 * is lost, and not every released window has had the grace.
 */
module StreamCounterexamples {
  import opened Prelude
  import opened Aggregation
  import opened StreamSpec
  import opened StreamSystem
  import opened StreamPollProofs
  import opened StreamEmitProofs
  import opened StreamRuns
  import opened StreamTheorems
  import opened StreamRows

  // ---- Building runs ----

  /** A run under construction. */
  datatype Trace = Trace(states: seq<System>, steps: seq<Step>)

  /** A run of a single process. */
  ghost predicate IsTrace(t: Trace, topic: Topic, cfg: Config)
    requires cfg.windowMs > 0
  {
    IsRun(t.states, t.steps, topic, cfg) && forall step | step in t.steps :: !step.Restart?
  }

  function Last(t: Trace): System
    requires |t.states| > 0
  {
    t.states[|t.states| - 1]
  }

  /** `u` is `t` with one more step. */
  ghost predicate OneMore(t: Trace, u: Trace) {
    |u.states| == |t.states| + 1 && u.states[..|t.states|] == t.states
  }

  lemma Booted(topic: Topic, cfg: Config) returns (t: Trace)
    requires cfg.windowMs > 0
    ensures IsTrace(t, topic, cfg) && t.states == [Boot(0, map[], {}, {}, {}, cfg.windowMs)]
  {
    t := Trace([Boot(0, map[], {}, {}, {}, cfg.windowMs)], []);
    assert t.states[0] == Boot(0, map[], {}, {}, {}, cfg.windowMs);
  }

  lemma Then(t: Trace, step: Step, next: System, topic: Topic, cfg: Config) returns (u: Trace)
    requires cfg.windowMs > 0 && IsTrace(t, topic, cfg) && Leads(Last(t), step, next, topic, cfg) && !step.Restart?
    ensures IsTrace(u, topic, cfg) && OneMore(t, u) && Last(u) == next && u.steps == t.steps + [step]
  {
    u := Trace(t.states + [next], t.steps + [step]);
    RunThen(t.states, t.steps, step, next, topic, cfg);
  }

  lemma TraceIsProcess(t: Trace, topic: Topic, cfg: Config)
    requires cfg.windowMs > 0 && IsTrace(t, topic, cfg)
    ensures OneProcess(t.steps, 0, |t.steps|)
  {
    assert forall m | 0 <= m < |t.steps| :: t.steps[m] in t.steps;
  }

  // ---- One event ----

  /** Nothing polled, nothing produced yet. */
  ghost predicate IsFresh(s: System) {
    && s.app.windows == map[] && s.app.windowOffsets == map[] && s.app.buffered == map[]
    && s.app.lastOffset == map[] && s.held == map[] && s.app.closedThrough.None?
    && s.broker == Broker({}, {}, {}, map[]) && s.batches == {} && s.late == {} && s.phase.Running?
  }

  /** The dictionaries after one accepted event, and nothing else having happened. */
  ghost predicate HoldsOnly(s: System, g: Group, w: int) {
    && s.app.windows.Keys == {w} && s.app.windows[w].Keys == {g} && s.app.windows[w][g].eventCount == 1
    && s.app.windowOffsets == map[w := map[0 := [0]]]
    && s.app.buffered == map[0 := map[0 := w]]
    && s.app.lastOffset == map[0 := 0]
    && s.held == map[w := [Id(0, 0)]]
    && s.broker == Broker({}, {}, {}, map[]) && s.batches == {} && s.late == {} && s.phase.Running?
  }

  lemma FirstAccepted(s: System, next: System, e: Event, f: int)
    requires IsFresh(s) && Accepts(s, next, Id(0, 0), e, f) && Moves(s, next, 0, 0)
    ensures HoldsOnly(next, GroupOf(e), f)
  {
    assert [] + [0] == [0];
    assert [] + [Id(0, 0)] == [Id(0, 0)];
  }

  /** Any event polled by a fresh process leaves it holding just that event. */
  lemma PolledOnceHoldsOnly(s: System, e: Event, topic: Topic, windowMs: int)
    requires windowMs > 0 && IsFresh(s) && Id(0, 0) in topic && topic[Id(0, 0)] == Decoded(e)
    ensures HoldsOnly(ApplyPoll(s, 0, 0, topic, windowMs), GroupOf(e), WindowFloor(EventTs(e), windowMs))
  {
    PollFrame(s, 0, 0, topic, windowMs);
    FirstAccepted(s, ApplyPoll(s, 0, 0, topic, windowMs), e, WindowFloor(EventTs(e), windowMs));
  }

  /** Boot at time 0 and poll the first message. */
  lemma FirstPolled(e: Event, topic: Topic, cfg: Config) returns (t: Trace)
    requires cfg.windowMs > 0 && WellFormed(topic) && Id(0, 0) in topic && topic[Id(0, 0)] == Decoded(e)
    ensures IsTrace(t, topic, cfg) && |t.states| == 2
    ensures HoldsOnly(Last(t), GroupOf(e), WindowFloor(EventTs(e), cfg.windowMs))
    ensures Last(t).app.currentWindowStart == 0 && Last(t).app.closedThrough.None? && Last(t).pos == map[0 := 1]
  {
    t := Booted(topic, cfg);
    var s := Last(t);
    var next := ApplyPoll(s, 0, 0, topic, cfg.windowMs);
    PolledOnceHoldsOnly(s, e, topic, cfg.windowMs);
    PollFrame(s, 0, 0, topic, cfg.windowMs);
    MultipleIsAligned(0, cfg.windowMs);
    WindowFloorUnique(0, cfg.windowMs, 0);
    t := Then(t, Poll(0, 0), next, topic, cfg);
  }

  // ---- One window's turn ----

  lemma LoneWindowCovered(app: App, w: int, a: Attempt, scripts: Scripts)
    requires w in scripts && scripts[w].attempts == [a]
    requires app.windows.Keys == {w} && app.windows[w].Keys == {a.group}
    ensures ScriptsCover(app, app.windows.Keys, scripts)
  {
    assert [a][0].group == a.group;
  }

  /** The broker after one attempt that is accepted or swallowed. */
  function AfterAttempt(b: Broker, a: Attempt, row: Row): Broker {
    if a.outcome.Sent? then Enqueue(b, row) else b
  }

  lemma OneAttempt(b: Broker, a: Attempt, groups: Groups, w: int, windowMs: int)
    requires (a.outcome.Sent? || a.outcome.Swallowed?) && a.group in groups
    ensures ProduceAll(b, [a], groups, w, windowMs)
         == ProduceState(AfterAttempt(b, a, RowOf(a.group, groups[a.group], w, windowMs)),
                         if a.outcome.Sent? then 1 else 0, false)
  {
    assert [a][..0] == [];
  }

  /** The turn of a window with one group: kept if the flush leaves something, else released. */
  lemma LoneTurn(r: Round, w: int, a: Attempt, unacked: set<Row>, windowMs: int)
    requires !r.raised && w in r.sys.app.windows && w in r.sys.held
    requires (a.outcome.Sent? || a.outcome.Swallowed?) && a.group in r.sys.app.windows[w]
    ensures var row := RowOf(a.group, r.sys.app.windows[w][a.group], w, windowMs);
            var flushed := Flush(AfterAttempt(r.sys.broker, a, row), unacked);
            var after := RoundOne(r, w, FlushScript([a], unacked), windowMs);
            if flushed.queue != {}
            then after == Round(r.sys.(broker := flushed), r.releasedAny, false)
            else after == Round(Release(r.sys.(broker := flushed), w, if a.outcome.Sent? then 1 else 0,
                                        SwallowedRows(r.sys.app.windows[w], [a], w, windowMs)), true, false)
  {
    OneAttempt(r.sys.broker, a, r.sys.app.windows[w], w, windowMs);
  }

  lemma OneTurn(r: Round, w: int, scripts: Scripts, windowMs: int)
    ensures RoundAll(r, [w], scripts, windowMs) == RoundOne(r, w, ScriptFor(scripts, w), windowMs)
  {
    assert [w][..0] == [];
    assert RoundAll(r, [], scripts, windowMs) == r;
  }

  /** Partition 0, with at most one offset pending, commits that offset or the one after the last. */
  lemma CommitOne(app: App, o: int)
    requires app.lastOffset.Keys == {0} && app.buffered.Keys == {0}
    requires app.buffered[0].Keys == {o} || (app.buffered[0] == map[] && app.lastOffset[0] + 1 == o)
    ensures CommitMap(app) == map[0 := o]
  {
    if app.buffered[0].Keys == {o} { assert IsMinOf(o, {o}); }
    assert CommitPosition(app, 0) == o;
  }

  /** The emission round over one window whose only row is swallowed. */
  lemma LoneWindowRound(s: System, w: int, a: Attempt, scripts: Scripts, windowMs: int)
    requires a.outcome.Swallowed? && w in scripts && scripts[w] == FlushScript([a], {})
    requires HoldsOnly(s, a.group, w)
    ensures var r := RoundAll(Round(s, false, false), SortedOf({w}), scripts, windowMs);
            && r.releasedAny && !r.raised
            && r.sys.broker == s.broker && r.sys.app.windows == map[] && w in r.sys.done
            && r.sys.pos == s.pos && r.sys.start == s.start && r.sys.phase == s.phase && r.sys.late == s.late
            && CommitMap(r.sys.app) == map[0 := 1]
  {
    var r0 := Round(s, false, false);
    SortedSingle(w);
    OneTurn(r0, w, scripts, windowMs);
    LoneTurn(r0, w, a, {}, windowMs);
    var swallowed := SwallowedRows(s.app.windows[w], [a], w, windowMs);
    assert Flush(s.broker, {}) == s.broker;
    ReleaseFrame(s, w, 0, swallowed);
    var next := Release(s, w, 0, swallowed);
    assert Entry(s.app.windowOffsets, w) == map[0 := [0]];
    assert next.app.buffered[0] == map[];
    CommitOne(next.app, 1);
  }

  // ---- A swallowed produce error does lose rows ----

  lemma LoneShutdownLoses(s: System, g: Group, w: int, scripts: Scripts, cfg: Config)
    requires cfg.windowMs > 0 && HoldsOnly(s, g, w) && w in scripts && scripts[w] == FlushScript([Attempt(g, Swallowed)], {})
    ensures var next := ApplyShutdown(s, scripts, Stored, cfg);
            && next.broker.committed == map[0 := 1] && next.broker.sink == {} && next.late == {}
            && next.app.windows == map[]
  {
    LoneWindowRound(s, w, Attempt(g, Swallowed), scripts, cfg.windowMs);
    var offsets: OffsetMap := map[0 := 1];
    assert 0 in offsets;
    assert s.broker.committed + offsets == offsets;
  }

  /** Main: the loss happens in a run of every setting, with every event: it is polled, its window's
      one produce error is swallowed, the window is released and the offset committed, and the
      sink stays empty. */
  lemma SwallowedErrorLosesTheRow(e: Event, cfg: Config) returns (t: Trace, topic: Topic)
    requires cfg.windowMs > 0
    ensures topic == map[Id(0, 0) := Decoded(e)] && IsTrace(t, topic, cfg) && |t.steps| == 2
    ensures Last(t).broker.committed == map[0 := 1] && Last(t).broker.sink == {} && Last(t).late == {}
    ensures HoldsOnly(t.states[1], GroupOf(e), WindowFloor(EventTs(e), cfg.windowMs)) && Last(t).app.windows == map[]
  {
    topic := map[Id(0, 0) := Decoded(e)];
    t := FirstPolled(e, topic, cfg);
    var s, g, w := Last(t), GroupOf(e), WindowFloor(EventTs(e), cfg.windowMs);
    var scripts: Scripts := map[w := FlushScript([Attempt(g, Swallowed)], {})];
    LoneWindowCovered(s.app, w, Attempt(g, Swallowed), scripts);
    LoneShutdownLoses(s, g, w, scripts, cfg);
    t := Then(t, Shutdown(scripts, Stored), ApplyShutdown(s, scripts, Stored, cfg), topic, cfg);
  }

  /** In that run no attempt for the lost row is accepted, as the exact condition for delivery says. */
  lemma LostRowWasNeverAccepted(e: Event, cfg: Config) returns (t: Trace, topic: Topic, row: Row)
    requires cfg.windowMs > 0
    ensures topic == map[Id(0, 0) := Decoded(e)] && IsTrace(t, topic, cfg) && |t.steps| == 2
    ensures CarriesContents(t.states[1], row, cfg.windowMs) && row.group == GroupOf(e)
    ensures row !in Last(t).broker.sink && !SentDuring(t.states, t.steps, 0, 2, row, cfg)
  {
    t, topic := SwallowedErrorLosesTheRow(e, cfg);
    var w, g := WindowFloor(EventTs(e), cfg.windowMs), GroupOf(e);
    TraceIsProcess(t, topic, cfg);
    assert HeldAt(t.states[1], Id(0, 0), w);
    MessageDeliveredIff(t.states, t.steps, topic, cfg, 0, 1, Id(0, 0), w);
    row := RowOf(g, t.states[1].app.windows[w][g], w, cfg.windowMs);
  }

  // ---- The grace is not for every window ----

  /** Step i closes the boundary and window w is due. */
  ghost predicate DueAt(states: seq<System>, steps: seq<Step>, i: nat, w: int, cfg: Config)
    requires cfg.windowMs > 0 && i < |steps| < |states|
  {
    && steps[i].Tick? && BoundaryReached(states[i].app, steps[i].now, cfg)
    && w in Due(states[i].app, WindowFloor(steps[i].now, cfg.windowMs))
  }

  /** The clock read has passed the window's end by the grace. */
  predicate HadGrace(w: int, now: int, cfg: Config) { w + cfg.windowMs + cfg.graceMs <= now }

  lemma DueHasEnded(states: seq<System>, steps: seq<Step>, topic: Topic, cfg: Config, i: nat, w: int)
    requires Setting(topic, cfg) && IsRun(states, steps, topic, cfg) && i < |steps| && DueAt(states, steps, i, w, cfg)
    ensures w + cfg.windowMs <= WindowFloor(steps[i].now, cfg.windowMs)
  {
    RunKeepsLedger(states, steps, topic, cfg, i);
    OpenWindowIsAligned(states[i], topic, cfg.windowMs, w);
    AlignedBelow(w, WindowFloor(steps[i].now, cfg.windowMs), cfg.windowMs);
  }

  /** Main: at every close, a due window that starts no later than the window current at the last
      close has had its grace; and when the newest ended window is open, all due windows have had
      it if and only if the grace has passed since that window's end. */
  lemma CloseGivesGraceIff(states: seq<System>, steps: seq<Step>, topic: Topic, cfg: Config, i: nat)
    requires Setting(topic, cfg) && IsRun(states, steps, topic, cfg) && i < |steps|
    requires steps[i].Tick? && BoundaryReached(states[i].app, steps[i].now, cfg)
    ensures forall w | DueAt(states, steps, i, w, cfg) && w <= states[i].app.currentWindowStart ::
              HadGrace(w, steps[i].now, cfg)
    ensures WindowFloor(steps[i].now, cfg.windowMs) - cfg.windowMs in states[i].app.windows ==>
              ((forall w | DueAt(states, steps, i, w, cfg) :: HadGrace(w, steps[i].now, cfg))
               <==> WindowFloor(steps[i].now, cfg.windowMs) + cfg.graceMs <= steps[i].now)
  {
    var now := steps[i].now;
    var newest := WindowFloor(now, cfg.windowMs) - cfg.windowMs;
    forall w | DueAt(states, steps, i, w, cfg) ensures w <= newest {
      DueHasEnded(states, steps, topic, cfg, i, w);
    }
    if newest in states[i].app.windows {
      assert DueAt(states, steps, i, newest, cfg);
    }
  }

  lemma WindowsAt(k: int, n: int)
    requires n > 0
    ensures WindowFloor(k * n, n) == k * n && WindowFloor(k * n + n, n) == k * n + n
  {
    MultipleIsAligned(k, n);
    MultipleIsAligned(k + 1, n);
    assert (k + 1) * n == k * n + n;
    WindowFloorUnique(k * n, n, k * n);
    WindowFloorUnique(k * n + n, n, k * n + n);
  }

  /** An event of window k of a run booted at time 0, and the tick at that window's end. */
  lemma UngracedRun(cfg: Config) returns (t: Trace, topic: Topic, w: int)
    requires cfg.windowMs > 0 && cfg.graceMs > 0
    ensures WellFormed(topic) && IsTrace(t, topic, cfg) && |t.steps| == 2
    ensures DueAt(t.states, t.steps, 1, w, cfg) && !HadGrace(w, t.steps[1].now, cfg)
  {
    var n, k := cfg.windowMs, cfg.graceMs;
    w := k * n;
    MulMonotone(1, n, k);
    WindowsAt(k, n);
    var e: Event := map["ts" := Raw("", Some(w))];
    topic := map[Id(0, 0) := Decoded(e)];
    t := FirstPolled(e, topic, cfg);
    var s, a := Last(t), Attempt(GroupOf(e), Swallowed);
    var tick := Tick(w + n, map[w := FlushScript([a], {})], Skipped);
    LoneWindowCovered(s.app, w, a, tick.scripts);
    assert Due(s.app, w + n) == {w} == s.app.windows.Keys;
    t := Then(t, tick, Apply(s, tick, topic, cfg), topic, cfg);
  }

  /** Main: every window due at every close of every run has had its grace exactly when there is
      none to have. */
  lemma EveryWindowGracedIffNone(cfg: Config)
    requires cfg.windowMs > 0
    ensures cfg.graceMs <= 0 <==>
      forall states: seq<System>, steps: seq<Step>, topic: Topic, i: nat, w: int |
        WellFormed(topic) && IsRun(states, steps, topic, cfg) && i < |steps| && DueAt(states, steps, i, w, cfg) ::
        HadGrace(w, steps[i].now, cfg)
  {
    if cfg.graceMs <= 0 {
      forall states: seq<System>, steps: seq<Step>, topic: Topic, i: nat, w: int |
        WellFormed(topic) && IsRun(states, steps, topic, cfg) && i < |steps| && DueAt(states, steps, i, w, cfg)
        ensures HadGrace(w, steps[i].now, cfg)
      {
        DueHasEnded(states, steps, topic, cfg, i, w);
      }
    } else {
      var t, topic, w := UngracedRun(cfg);
      assert DueAt(t.states, t.steps, 1, w, cfg);
    }
  }
}
