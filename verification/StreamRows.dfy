/**
 * Exactly which rows reach the sink: the rows a process has handed over are those of the produce
 * attempts that were accepted, and a released window's row is in the sink if and only if it was
 * there when the process booted or some attempt for it was accepted.
 */
module StreamRows {
  import opened Prelude
  import opened Aggregation
  import opened StreamSpec
  import opened StreamSystem
  import opened StreamPollProofs
  import opened StreamEmitProofs
  import opened StreamRuns
  import opened StreamTheorems

  // ---- One window's flush ----

  /** The i-th attempt is made: no earlier one has escaped. */
  ghost predicate Made(attempts: seq<Attempt>, groups: Groups, i: nat) {
    && i < |attempts| && attempts[i].group in groups
    && forall j | 0 <= j < i && attempts[j].group in groups :: !attempts[j].outcome.RetryRaised?
  }

  predicate Accepted(outcome: ProduceOutcome) { outcome.Sent? || outcome.SentAfterFlush? }

  /** Some attempt for the group is made and accepted. */
  ghost predicate HandsOver(attempts: seq<Attempt>, groups: Groups, k: Group) {
    exists i: nat :: Made(attempts, groups, i) && attempts[i].group == k && Accepted(attempts[i].outcome)
  }

  lemma HandsOverSnoc(attempts: seq<Attempt>, groups: Groups, k: Group)
    requires attempts != []
    ensures var n := |attempts| - 1;
            HandsOver(attempts, groups, k) <==>
              || HandsOver(attempts[..n], groups, k)
              || (Made(attempts, groups, n) && attempts[n].group == k && Accepted(attempts[n].outcome))
  {
    var n := |attempts| - 1;
    forall i: nat | i < n ensures Made(attempts, groups, i) <==> Made(attempts[..n], groups, i) { }
    if HandsOver(attempts[..n], groups, k) {
      var i: nat :| Made(attempts[..n], groups, i) && attempts[..n][i].group == k && Accepted(attempts[..n][i].outcome);
      assert Made(attempts, groups, i);
    }
    if HandsOver(attempts, groups, k) {
      var i: nat :| Made(attempts, groups, i) && attempts[i].group == k && Accepted(attempts[i].outcome);
      if i < n { assert Made(attempts[..n], groups, i); }
    }
  }

  /** Main: producing a window hands over exactly the rows of the accepted attempts. */
  lemma {:induction false} ProducedExactly(b: Broker, attempts: seq<Attempt>, groups: Groups, w: int, windowMs: int)
    ensures var r := ProduceAll(b, attempts, groups, w, windowMs);
            && (r.raised <==> exists i | 0 <= i < |attempts| :: attempts[i].group in groups && attempts[i].outcome.RetryRaised?)
            && (forall x :: x in r.broker.sent <==>
                  || x in b.sent
                  || (HandsOver(attempts, groups, x.group) && x == RowOf(x.group, groups[x.group], w, windowMs)))
  {
    if attempts != [] {
      var n := |attempts| - 1;
      ProducedExactly(b, attempts[..n], groups, w, windowMs);
      var before := ProduceAll(b, attempts[..n], groups, w, windowMs);
      assert before.raised <==> exists i | 0 <= i < n :: attempts[i].group in groups && attempts[i].outcome.RetryRaised?;
      assert Made(attempts, groups, n) <==> attempts[n].group in groups && !before.raised;
      forall x
        ensures x in ProduceAll(b, attempts, groups, w, windowMs).broker.sent <==>
                  || x in b.sent
                  || (HandsOver(attempts, groups, x.group) && x == RowOf(x.group, groups[x.group], w, windowMs))
      {
        HandsOverSnoc(attempts, groups, x.group);
      }
    }
  }

  /** Main: a full buffer is flushed before the row is offered again: of what was queued, the rows the
      flush leaves behind stay, and the others are in the sink, whether the second try succeeds or
      escapes. */
  lemma FullBufferIsFlushed(b: Broker, attempts: seq<Attempt>, groups: Groups, w: int, windowMs: int)
    requires attempts != [] && !ProduceAll(b, attempts[..|attempts| - 1], groups, w, windowMs).raised
    requires var a := attempts[|attempts| - 1]; a.group in groups && (a.outcome.SentAfterFlush? || a.outcome.RetryRaised?)
    ensures var before := ProduceAll(b, attempts[..|attempts| - 1], groups, w, windowMs);
            var r, a := ProduceAll(b, attempts, groups, w, windowMs), attempts[|attempts| - 1];
            && (forall x :: x in before.broker.queue && x !in a.outcome.unacked ==> x in r.broker.sink)
            && (forall x :: x in before.broker.queue && x in a.outcome.unacked ==> x in r.broker.queue)
            && (r.raised <==> a.outcome.RetryRaised?)
            && r.produced == before.produced + if a.outcome.SentAfterFlush? then 1 else 0
  {
  }

  // ---- One round ----

  /** Row x is handed over in its window's turn. */
  ghost predicate TurnSends(r: Round, script: FlushScript, x: Row, windowMs: int) {
    var w := x.record.windowStart;
    && !r.raised && w in r.sys.app.windows
    && HandsOver(script.attempts, r.sys.app.windows[w], x.group)
    && x == RowOf(x.group, r.sys.app.windows[w][x.group], w, windowMs)
  }

  lemma TurnSent(r: Round, w: int, script: FlushScript, x: Row, windowMs: int)
    ensures x in RoundOne(r, w, script, windowMs).sys.broker.sent
       <==> x in r.sys.broker.sent || (x.record.windowStart == w && TurnSends(r, script, x, windowMs))
  {
    if !r.raised && w in r.sys.app.windows {
      ProducedExactly(r.sys.broker, script.attempts, r.sys.app.windows[w], w, windowMs);
    }
  }

  /** Row x is handed over in some turn of the round. */
  ghost predicate RoundSends(r: Round, ws: seq<int>, scripts: Scripts, x: Row, windowMs: int) {
    exists i: nat | i < |ws| ::
      ws[i] == x.record.windowStart && TurnSends(RoundAll(r, ws[..i], scripts, windowMs), ScriptFor(scripts, ws[i]), x, windowMs)
  }

  lemma {:induction false} RoundSent(r: Round, ws: seq<int>, scripts: Scripts, x: Row, windowMs: int)
    ensures x in RoundAll(r, ws, scripts, windowMs).sys.broker.sent
       <==> x in r.sys.broker.sent || RoundSends(r, ws, scripts, x, windowMs)
  {
    if ws != [] {
      var n := |ws| - 1;
      RoundSent(r, ws[..n], scripts, x, windowMs);
      TurnSent(RoundAll(r, ws[..n], scripts, windowMs), ws[n], ScriptFor(scripts, ws[n]), x, windowMs);
      assert forall i: nat | i < n :: ws[..n][..i] == ws[..i];
    }
  }

  /** Once a window has left, every row of it that was handed over is in the sink. */
  ghost predicate Gone(s: System, next: System, w: int) {
    && (w !in next.app.windows ==> w in next.done)
    && (w !in next.app.windows ==> forall x | x in next.broker.sent && x.record.windowStart == w :: x in next.broker.sink)
    && (w in next.app.windows ==> w in s.app.windows && next.app.windows[w] == s.app.windows[w])
  }

  lemma TurnGone(s: System, r: Round, v: int, script: FlushScript, w: int, windowMs: int)
    requires w in s.app.windows && Gone(s, r.sys, w)
    requires BrokerAgrees(r.sys.broker) && r.sys.app.windows.Keys == r.sys.held.Keys
    ensures var next := RoundOne(r, v, script, windowMs).sys;
            Gone(s, next, w) && BrokerAgrees(next.broker) && next.app.windows.Keys == next.held.Keys
  {
    RoundOneCases(r, v, script, windowMs);
    if !r.raised && v in r.sys.app.windows {
      ProduceAllFacts(r.sys.broker, script.attempts, r.sys.app.windows[v], v, windowMs);
      var next := RoundOne(r, v, script, windowMs).sys;
      if w !in next.app.windows {
        forall x | x in next.broker.sent && x.record.windowStart == w ensures x in next.broker.sink {
          if v == w {
            var sent := ProduceAll(r.sys.broker, script.attempts, r.sys.app.windows[v], v, windowMs).broker;
            assert x !in sent.queue * script.unacked;
          } else {
            assert x in r.sys.broker.sent;
          }
        }
      }
    }
  }

  lemma {:induction false} RoundGone(s: System, ws: seq<int>, scripts: Scripts, w: int, windowMs: int)
    requires w in s.app.windows && BrokerAgrees(s.broker) && s.app.windows.Keys == s.held.Keys
    ensures var next := RoundAll(Round(s, false, false), ws, scripts, windowMs).sys;
            Gone(s, next, w) && BrokerAgrees(next.broker) && next.app.windows.Keys == next.held.Keys
  {
    if ws != [] {
      var n := |ws| - 1;
      RoundGone(s, ws[..n], scripts, w, windowMs);
      TurnGone(s, RoundAll(Round(s, false, false), ws[..n], scripts, windowMs), ws[n], ScriptFor(scripts, ws[n]), w, windowMs);
    }
  }

  // ---- One step ----

  /** The windows a step tries to emit. */
  ghost function Emits(s: System, step: Step, cfg: Config): set<int>
    requires cfg.windowMs > 0
  {
    match step
    case Tick(now, _, _) => if BoundaryReached(s.app, now, cfg) then Due(s.app, WindowFloor(now, cfg.windowMs)) else {}
    case Shutdown(_, _) => s.app.windows.Keys
    case _ => {}
  }

  /** Row x is handed over in the step: its window is emitted, and the attempt for its group is
      made, accepted, and carries the group's aggregate. */
  ghost predicate StepSends(s: System, step: Step, x: Row, cfg: Config)
    requires cfg.windowMs > 0
  {
    (step.Tick? || step.Shutdown?)
    && RoundSends(Round(s, false, false), SortedOf(Emits(s, step, cfg)), step.scripts, x, cfg.windowMs)
  }

  /** What a step that emits leaves, up to the commit and the phase. */
  lemma StepRound(s: System, step: Step, topic: Topic, cfg: Config)
    requires Setting(topic, cfg) && Enabled(s, step, topic, cfg) && (step.Tick? || step.Shutdown?)
    ensures var next := Apply(s, step, topic, cfg);
            var mid := RoundAll(Round(s, false, false), SortedOf(Emits(s, step, cfg)), step.scripts, cfg.windowMs).sys;
            && next.broker.sent == mid.broker.sent && next.broker.sink == mid.broker.sink
            && next.app.windows == mid.app.windows && next.done == mid.done
  {
    var mid := RoundAll(Round(s, false, false), SortedOf(Emits(s, step, cfg)), step.scripts, cfg.windowMs);
    CommitFrame(mid, step.commit);
  }

  lemma StepSent(s: System, step: Step, topic: Topic, cfg: Config, x: Row)
    requires Setting(topic, cfg) && Enabled(s, step, topic, cfg) && !step.Restart?
    ensures x in Apply(s, step, topic, cfg).broker.sent <==> x in s.broker.sent || StepSends(s, step, x, cfg)
  {
    if step.Poll? {
      PollFrame(s, step.partition, step.offset, topic, cfg.windowMs);
    } else if step.Tick? || step.Shutdown? {
      StepRound(s, step, topic, cfg);
      RoundSent(Round(s, false, false), SortedOf(Emits(s, step, cfg)), step.scripts, x, cfg.windowMs);
    }
  }

  lemma StepGone(s: System, step: Step, topic: Topic, cfg: Config, w: int)
    requires Setting(topic, cfg) && Ledger(s, topic, cfg) && Enabled(s, step, topic, cfg) && !step.Restart?
    requires w in s.app.windows && w !in Apply(s, step, topic, cfg).app.windows
    ensures Gone(s, Apply(s, step, topic, cfg), w) && (step.Tick? || step.Shutdown?)
  {
    if step.Poll? {
      PollFrame(s, step.partition, step.offset, topic, cfg.windowMs);
    } else if step.Tick? || step.Shutdown? {
      StepRound(s, step, topic, cfg);
      RoundGone(s, SortedOf(Emits(s, step, cfg)), step.scripts, w, cfg.windowMs);
    }
  }

  /** Row x is the row of its window and group as the state has them. */
  ghost predicate CarriesContents(s: System, x: Row, windowMs: int) {
    var w := x.record.windowStart;
    w in s.app.windows && x.group in s.app.windows[w] && x == RowOf(x.group, s.app.windows[w][x.group], w, windowMs)
  }

  lemma RoundCarriesContents(s: System, ws: seq<int>, scripts: Scripts, x: Row, windowMs: int)
    requires BrokerAgrees(s.broker) && s.app.windows.Keys == s.held.Keys && Elements(ws) <= s.app.windows.Keys
    requires RoundSends(Round(s, false, false), ws, scripts, x, windowMs)
    ensures CarriesContents(s, x, windowMs)
  {
    var w := x.record.windowStart;
    var i: nat :| i < |ws| && ws[i] == w
      && TurnSends(RoundAll(Round(s, false, false), ws[..i], scripts, windowMs), ScriptFor(scripts, ws[i]), x, windowMs);
    assert ws[i] in Elements(ws);
    RoundGone(s, ws[..i], scripts, w, windowMs);
  }

  /** A row handed over in a step carries its window's contents before the step. */
  lemma SentCarriesContents(s: System, step: Step, topic: Topic, cfg: Config, x: Row)
    requires Setting(topic, cfg) && Ledger(s, topic, cfg) && StepSends(s, step, x, cfg)
    ensures CarriesContents(s, x, cfg.windowMs)
  {
    assert Emits(s, step, cfg) <= s.app.windows.Keys;
    RoundCarriesContents(s, SortedOf(Emits(s, step, cfg)), step.scripts, x, cfg.windowMs);
  }

  // ---- One process ----

  /** Row x is handed over in step m of the run. */
  ghost predicate SendsAt(states: seq<System>, steps: seq<Step>, m: nat, x: Row, cfg: Config)
    requires cfg.windowMs > 0 && m < |steps| < |states|
  {
    StepSends(states[m], steps[m], x, cfg)
  }

  lemma RunSent(states: seq<System>, steps: seq<Step>, topic: Topic, cfg: Config, m: nat, x: Row)
    requires Setting(topic, cfg) && IsRun(states, steps, topic, cfg) && m < |steps| && !steps[m].Restart?
    ensures x in states[m + 1].broker.sent <==> x in states[m].broker.sent || SendsAt(states, steps, m, x, cfg)
  {
    assert LeadsAt(states, steps, m, topic, cfg);
    StepSent(states[m], steps[m], topic, cfg, x);
  }

  /** Row x is handed over in one of the steps from i to j. */
  ghost predicate SentDuring(states: seq<System>, steps: seq<Step>, i: nat, j: nat, x: Row, cfg: Config)
    requires cfg.windowMs > 0 && j <= |steps| < |states|
  {
    exists m: nat | i <= m < j :: SendsAt(states, steps, m, x, cfg)
  }

  lemma NothingSentAtBoot(states: seq<System>, steps: seq<Step>, topic: Topic, cfg: Config, i: nat, x: Row)
    requires Setting(topic, cfg) && IsRun(states, steps, topic, cfg) && OneProcess(steps, i, i)
    ensures x !in states[i].broker.sent && !SentDuring(states, steps, i, i, x, cfg)
  {
    if i > 0 { assert LeadsAt(states, steps, i - 1, topic, cfg); }
  }

  lemma {:induction false} SentExactly(states: seq<System>, steps: seq<Step>, topic: Topic, cfg: Config, i: nat, j: nat, x: Row)
    requires Setting(topic, cfg) && IsRun(states, steps, topic, cfg) && OneProcess(steps, i, j)
    ensures x in states[j].broker.sent <==> SentDuring(states, steps, i, j, x, cfg)
    decreases j - i
  {
    if i < j {
      SentExactly(states, steps, topic, cfg, i, j - 1, x);
      RunSent(states, steps, topic, cfg, j - 1, x);
    } else {
      NothingSentAtBoot(states, steps, topic, cfg, i, x);
    }
  }

  lemma StepSink(s: System, step: Step, topic: Topic, cfg: Config)
    requires Setting(topic, cfg) && Ledger(s, topic, cfg) && Enabled(s, step, topic, cfg)
    ensures var next := Apply(s, step, topic, cfg);
            && s.broker.sink <= next.broker.sink
            && (!step.Restart? ==> next.broker.sink <= s.broker.sink + next.broker.sent && s.broker.sent <= next.broker.sent)
  {
    if step.Poll? {
      PollFrame(s, step.partition, step.offset, topic, cfg.windowMs);
    } else if step.Tick? || step.Shutdown? {
      StepExtends(s, step, topic, cfg);
    }
  }

  lemma RunSink(states: seq<System>, steps: seq<Step>, topic: Topic, cfg: Config, m: nat)
    requires Setting(topic, cfg) && IsRun(states, steps, topic, cfg) && m < |steps|
    ensures var s, next := states[m].broker, states[m + 1].broker;
            && s.sink <= next.sink
            && (!steps[m].Restart? ==> next.sink <= s.sink + next.sent && s.sent <= next.sent)
  {
    RunKeepsLedger(states, steps, topic, cfg, m);
    assert LeadsAt(states, steps, m, topic, cfg);
    StepSink(states[m], steps[m], topic, cfg);
  }

  /** What is in the sink was there at boot or has been handed over since. */
  lemma {:induction false} SinkOrigin(states: seq<System>, steps: seq<Step>, topic: Topic, cfg: Config, i: nat, j: nat)
    requires Setting(topic, cfg) && IsRun(states, steps, topic, cfg) && OneProcess(steps, i, j)
    ensures states[i].broker.sink <= states[j].broker.sink <= states[i].broker.sink + states[j].broker.sent
    decreases j - i
  {
    if i < j {
      SinkOrigin(states, steps, topic, cfg, i, j - 1);
      RunSink(states, steps, topic, cfg, j - 1);
    }
  }

  lemma {:induction false} SinkGrows(states: seq<System>, steps: seq<Step>, topic: Topic, cfg: Config, i: nat, j: nat)
    requires Setting(topic, cfg) && IsRun(states, steps, topic, cfg) && i <= j < |states|
    ensures states[i].broker.sink <= states[j].broker.sink
    decreases j - i
  {
    if i < j {
      SinkGrows(states, steps, topic, cfg, i, j - 1);
      RunSink(states, steps, topic, cfg, j - 1);
    }
  }

  lemma RunGone(states: seq<System>, steps: seq<Step>, topic: Topic, cfg: Config, m: nat, w: int)
    requires Setting(topic, cfg) && IsRun(states, steps, topic, cfg) && m < |steps| && !steps[m].Restart?
    requires w in states[m].app.windows && w !in states[m + 1].app.windows
    ensures Gone(states[m], states[m + 1], w)
  {
    RunKeepsLedger(states, steps, topic, cfg, m);
    assert LeadsAt(states, steps, m, topic, cfg);
    StepGone(states[m], steps[m], topic, cfg, w);
  }

  lemma RunCarriesContents(states: seq<System>, steps: seq<Step>, topic: Topic, cfg: Config, m: nat, x: Row)
    requires Setting(topic, cfg) && IsRun(states, steps, topic, cfg) && m < |steps| && SendsAt(states, steps, m, x, cfg)
    ensures CarriesContents(states[m], x, cfg.windowMs) && !steps[m].Restart?
  {
    RunKeepsLedger(states, steps, topic, cfg, m);
    SentCarriesContents(states[m], steps[m], topic, cfg, x);
  }

  /** With a boundary that cannot move back, a row handed over earlier still carries its window's contents. */
  lemma SentCarriesOn(states: seq<System>, steps: seq<Step>, topic: Topic, cfg: Config, m: nat, x: Row)
    requires Setting(topic, cfg) && Forward(cfg) && IsRun(states, steps, topic, cfg) && m < |states|
    requires x in states[m].broker.sent && x.record.windowStart in states[m].app.windows
    ensures CarriesContents(states[m], x, cfg.windowMs)
  {
    RunKeepsInv(states, steps, topic, cfg, m);
  }

  /** Main: the row of a window released in step m is in the sink afterwards if and only if it was
      there when the process booted, or some attempt that carried it was accepted since. */
  lemma ReleasedRowInSinkIff(states: seq<System>, steps: seq<Step>, topic: Topic, cfg: Config, i: nat, m: nat, w: int, k: Group)
    requires Setting(topic, cfg) && IsRun(states, steps, topic, cfg) && i <= m && OneProcess(steps, i, m + 1)
    requires w in states[m].app.windows && k in states[m].app.windows[w] && w !in states[m + 1].app.windows
    ensures var row := RowOf(k, states[m].app.windows[w][k], w, cfg.windowMs);
            row in states[m + 1].broker.sink <==>
              || row in states[i].broker.sink
              || SentDuring(states, steps, i, m + 1, row, cfg)
  {
    var row := RowOf(k, states[m].app.windows[w][k], w, cfg.windowMs);
    RunGone(states, steps, topic, cfg, m, w);
    SinkOrigin(states, steps, topic, cfg, i, m + 1);
    SentExactly(states, steps, topic, cfg, i, m + 1, row);
  }

  /** Some attempt for the window and group is made and accepted in one of the steps from i to j. */
  ghost predicate AcceptedDuring(states: seq<System>, steps: seq<Step>, i: nat, j: nat, w: int, k: Group, cfg: Config)
    requires cfg.windowMs > 0 && j <= |steps| < |states|
  {
    exists n: nat, x: Row | i <= n < j && x.group == k && x.record.windowStart == w :: SendsAt(states, steps, n, x, cfg)
  }

  /** With a boundary that cannot move back, every attempt for a window that is later released
      carries the row the window had at its release, and none comes after. */
  lemma AcceptedIsReleasedRow(states: seq<System>, steps: seq<Step>, topic: Topic, cfg: Config, i: nat, m: nat, j: nat, n: nat, w: int, x: Row)
    requires Setting(topic, cfg) && Forward(cfg) && IsRun(states, steps, topic, cfg)
    requires i <= m < j && i <= n < j && OneProcess(steps, i, j)
    requires w in states[m].app.windows && w !in states[m + 1].app.windows
    requires x.record.windowStart == w && SendsAt(states, steps, n, x, cfg)
    ensures CarriesContents(states[m], x, cfg.windowMs) && x in states[m + 1].broker.sent
  {
    RunCarriesContents(states, steps, topic, cfg, n, x);
    if n > m {
      RunGone(states, steps, topic, cfg, m, w);
      ReleasedIsNeverReopened(states, steps, topic, cfg, m + 1, n, w);
      assert false;
    } else {
      RunSent(states, steps, topic, cfg, n, x);
      ClosedWindowsAreFrozen(states, steps, topic, cfg, n + 1, m + 1);
      if n < m {
        ClosedWindowsAreFrozen(states, steps, topic, cfg, n + 1, m);
        SentCarriesOn(states, steps, topic, cfg, m, x);
      }
    }
  }

  /** The messages held in x's window in step m are those the row reports. */
  ghost predicate ReportedAt(states: seq<System>, m: nat, topic: Topic, x: Row, cfg: Config)
    requires cfg.windowMs > 0 && m < |states|
  {
    var w := x.record.windowStart;
    && w in states[m].held && IdsInWindow(topic, states[m].held[w], w, cfg.windowMs)
    && Reports(x, EventsOf(topic, states[m].held[w]), cfg.windowMs)
  }

  /** A row handed over reports, field by field, the messages its window holds in that step. */
  lemma HandedOverReports(states: seq<System>, steps: seq<Step>, topic: Topic, cfg: Config, m: nat, x: Row)
    requires Setting(topic, cfg) && IsRun(states, steps, topic, cfg) && m < |steps| && SendsAt(states, steps, m, x, cfg)
    ensures ReportedAt(states, m, topic, x, cfg)
  {
    RunCarriesContents(states, steps, topic, cfg, m, x);
    RunKeepsLedger(states, steps, topic, cfg, m);
    var w := x.record.windowStart;
    RowReports(EventsOf(topic, states[m].held[w]), x.group, w, cfg.windowMs);
  }

  /** Main: whatever a process has handed over, or has added to the sink, reports field by field the
      messages its window held in some step of the process. */
  lemma SentRowsReport(states: seq<System>, steps: seq<Step>, topic: Topic, cfg: Config, i: nat, j: nat, x: Row)
    requires Setting(topic, cfg) && IsRun(states, steps, topic, cfg) && OneProcess(steps, i, j)
    requires x in states[j].broker.sent || (x in states[j].broker.sink && x !in states[i].broker.sink)
    ensures exists m: nat :: i <= m < j && ReportedAt(states, m, topic, x, cfg)
  {
    SinkOrigin(states, steps, topic, cfg, i, j);
    SentExactly(states, steps, topic, cfg, i, j, x);
    var m: nat :| i <= m < j && SendsAt(states, steps, m, x, cfg);
    HandedOverReports(states, steps, topic, cfg, m, x);
  }

  lemma SentIsAccepted(states: seq<System>, steps: seq<Step>, i: nat, j: nat, x: Row, cfg: Config)
    requires cfg.windowMs > 0 && j <= |steps| < |states| && SentDuring(states, steps, i, j, x, cfg)
    ensures AcceptedDuring(states, steps, i, j, x.record.windowStart, x.group, cfg)
  {
    var n: nat :| i <= n < j && SendsAt(states, steps, n, x, cfg);
  }

  lemma InSinkIsAccepted(states: seq<System>, steps: seq<Step>, topic: Topic, cfg: Config, i: nat, j: nat, x: Row)
    requires Setting(topic, cfg) && IsRun(states, steps, topic, cfg) && OneProcess(steps, i, j)
    requires x in states[j].broker.sink
    ensures x in states[i].broker.sink || AcceptedDuring(states, steps, i, j, x.record.windowStart, x.group, cfg)
  {
    SinkOrigin(states, steps, topic, cfg, i, j);
    SentExactly(states, steps, topic, cfg, i, j, x);
    if SentDuring(states, steps, i, j, x, cfg) { SentIsAccepted(states, steps, i, j, x, cfg); }
  }

  lemma AcceptedWasSent(states: seq<System>, steps: seq<Step>, topic: Topic, cfg: Config, i: nat, m: nat, j: nat, w: int, k: Group)
    requires Setting(topic, cfg) && Forward(cfg) && IsRun(states, steps, topic, cfg)
    requires i <= m < j && OneProcess(steps, i, j)
    requires w in states[m].app.windows && k in states[m].app.windows[w] && w !in states[m + 1].app.windows
    requires AcceptedDuring(states, steps, i, j, w, k, cfg)
    ensures RowOf(k, states[m].app.windows[w][k], w, cfg.windowMs) in states[m + 1].broker.sent
  {
    var n: nat, x: Row :| i <= n < j && x.group == k && x.record.windowStart == w && SendsAt(states, steps, n, x, cfg);
    AcceptedIsReleasedRow(states, steps, topic, cfg, i, m, j, n, w, x);
  }

  lemma SentIsInSink(states: seq<System>, steps: seq<Step>, topic: Topic, cfg: Config, m: nat, j: nat, x: Row)
    requires Setting(topic, cfg) && IsRun(states, steps, topic, cfg) && m < j < |states| && !steps[m].Restart?
    requires x.record.windowStart in states[m].app.windows && x.record.windowStart !in states[m + 1].app.windows
    requires x in states[m + 1].broker.sent
    ensures x in states[j].broker.sink
  {
    RunGone(states, steps, topic, cfg, m, x.record.windowStart);
    SinkGrows(states, steps, topic, cfg, m + 1, j);
  }

  /** Main: with a boundary that cannot move back, a released window's row for a group is in the
      sink, from the release to the end of the process, if and only if it was there when the
      process booted or some attempt for that window and group was accepted; it is missing exactly
      when every attempt was swallowed or escaped. */
  lemma ReleasedGroupInSinkIff(states: seq<System>, steps: seq<Step>, topic: Topic, cfg: Config, i: nat, m: nat, j: nat, w: int, k: Group)
    requires Setting(topic, cfg) && Forward(cfg) && IsRun(states, steps, topic, cfg)
    requires i <= m < j && OneProcess(steps, i, j)
    requires w in states[m].app.windows && k in states[m].app.windows[w] && w !in states[m + 1].app.windows
    ensures RowOf(k, states[m].app.windows[w][k], w, cfg.windowMs) in states[j].broker.sink <==>
              || RowOf(k, states[m].app.windows[w][k], w, cfg.windowMs) in states[i].broker.sink
              || AcceptedDuring(states, steps, i, j, w, k, cfg)
  {
    var row := RowOf(k, states[m].app.windows[w][k], w, cfg.windowMs);
    if row in states[j].broker.sink {
      InSinkIsAccepted(states, steps, topic, cfg, i, j, row);
    }
    if row in states[i].broker.sink {
      SinkGrows(states, steps, topic, cfg, i, j);
    }
    if AcceptedDuring(states, steps, i, j, w, k, cfg) {
      AcceptedWasSent(states, steps, topic, cfg, i, m, j, w, k);
      SentIsInSink(states, steps, topic, cfg, m, j, row);
    }
  }

  lemma HeldGroup(topic: Topic, ids: seq<Id>, id: Id)
    requires id in ids && id in topic && topic[id].Decoded?
    ensures GroupOf(topic[id].event) in FoldGroups(EventsOf(topic, ids))
  {
    var events := EventsOf(topic, ids);
    var l :| 0 <= l < |ids| && ids[l] == id;
    assert events[l] == topic[id].event;
    FoldIsGroupBy(events);
  }

  /** Main: a message that a process lets go of by releasing its window has its group's row in the
      sink if and only if that row was there at boot or some attempt that carried it was accepted. */
  lemma MessageDeliveredIff(states: seq<System>, steps: seq<Step>, topic: Topic, cfg: Config, i: nat, m: nat, id: Id, w: int)
    requires Setting(topic, cfg) && IsRun(states, steps, topic, cfg) && i <= m && OneProcess(steps, i, m + 1)
    requires HeldAt(states[m], id, w) && w !in states[m + 1].app.windows
    ensures id in topic && topic[id].Decoded? && w in states[m].app.windows
    ensures var groups, k := states[m].app.windows[w], GroupOf(topic[id].event);
            && k in groups
            && (RowOf(k, groups[k], w, cfg.windowMs) in states[m + 1].broker.sink <==>
                  || RowOf(k, groups[k], w, cfg.windowMs) in states[i].broker.sink
                  || SentDuring(states, steps, i, m + 1, RowOf(k, groups[k], w, cfg.windowMs), cfg))
  {
    RunKeepsLedger(states, steps, topic, cfg, m);
    var ids := states[m].held[w];
    assert IdsInWindow(topic, ids, w, cfg.windowMs);
    HeldGroup(topic, ids, id);
    ReleasedRowInSinkIff(states, steps, topic, cfg, i, m, w, GroupOf(topic[id].event));
  }
}
