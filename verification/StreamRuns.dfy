/** Runs of the system, and the invariants that hold in every state of every run. */
module StreamRuns {
  import opened Prelude
  import opened Aggregation
  import opened StreamSpec
  import opened StreamSystem
  import opened StreamPollProofs
  import opened StreamEmitProofs

  /** Every positive window size, every grace, every source topic. */
  ghost predicate Setting(topic: Topic, cfg: Config) {
    cfg.windowMs > 0 && WellFormed(topic)
  }

  // ---- Steps only add to what is delivered and committed ----

  /** The parts of the state that an emission round may only extend. */
  ghost predicate Extends(s: System, next: System) {
    && s.broker.sink <= next.broker.sink && s.broker.sent <= next.broker.sent
    && s.done <= next.done && s.batches <= next.batches && s.late <= next.late
    && next.broker.sink <= s.broker.sink + next.broker.sent
  }

  lemma {:induction false} NothingSwallowed(groups: Groups, attempts: seq<Attempt>, w: int, windowMs: int)
    ensures SwallowedCount(attempts) == 0 ==> SwallowedRows(groups, attempts, w, windowMs) == {}
    ensures SwallowedCount(attempts) == 0 <==> forall a | a in attempts :: !a.outcome.Swallowed?
  {
    if attempts != [] {
      NothingSwallowed(groups, attempts[..|attempts| - 1], w, windowMs);
      assert attempts == attempts[..|attempts| - 1] + [attempts[|attempts| - 1]];
    }
  }

  lemma RoundOneExtends(r: Round, w: int, script: FlushScript, windowMs: int)
    requires BrokerAgrees(r.sys.broker)
    ensures var next := RoundOne(r, w, script, windowMs).sys;
            && Extends(r.sys, next) && BrokerAgrees(next.broker)
            && next.broker.committed == r.sys.broker.committed
            && (forall b | b in next.batches - r.sys.batches ::
                  b.window == w && (SwallowedCount(script.attempts) == 0 ==> b.swallowed == {}))
            && next.done <= r.sys.done + {w}
  {
    if w in r.sys.app.windows {
      ProduceAllFacts(r.sys.broker, script.attempts, r.sys.app.windows[w], w, windowMs);
      NothingSwallowed(r.sys.app.windows[w], script.attempts, w, windowMs);
    }
  }

  /** No produce error is swallowed. */
  ghost predicate Clean(scripts: Scripts) {
    forall w | w in scripts :: SwallowedCount(scripts[w].attempts) == 0
  }

  lemma {:induction false} RoundAllExtends(r: Round, ws: seq<int>, scripts: Scripts, windowMs: int)
    requires BrokerAgrees(r.sys.broker)
    ensures var next := RoundAll(r, ws, scripts, windowMs).sys;
            && Extends(r.sys, next) && BrokerAgrees(next.broker)
            && next.broker.committed == r.sys.broker.committed
            && (Clean(scripts) ==> forall b | b in next.batches - r.sys.batches :: b.swallowed == {})
            && next.done <= r.sys.done + Elements(ws)
  {
    if ws != [] {
      var n := |ws| - 1;
      RoundAllExtends(r, ws[..n], scripts, windowMs);
      RoundOneExtends(RoundAll(r, ws[..n], scripts, windowMs), ws[n], ScriptFor(scripts, ws[n]), windowMs);
      assert ws == ws[..n] + [ws[n]];
    }
  }

  /** Every committed offset is at least what it was. */
  ghost predicate Behind(before: OffsetMap, after: OffsetMap) {
    forall p | p in before :: p in after && before[p] <= after[p]
  }

  lemma RoundEmitExtends(s: System, due: set<int>, scripts: Scripts, outcome: CommitOutcome, topic: Topic, edge: Edge, windowMs: int)
    requires windowMs > 0 && Core(s, topic, edge, windowMs)
    requires forall w | w in due :: Under(w, edge)
    requires ScriptsCover(s.app, due, scripts)
    ensures var next := RoundEmit(s, due, scripts, outcome, windowMs).sys;
            && Extends(s, next)
            && (!edge.Untracked? ==> Behind(s.broker.committed, next.broker.committed))
            && (Clean(scripts) ==> forall b | b in next.batches - s.batches :: b.swallowed == {})
            && next.done <= s.done + due
  {
    var ws := SortedOf(due);
    assert forall i | 0 <= i < |ws| :: ws[i] in Elements(ws);
    RoundAllKeepsCore(Round(s, false, false), ws, scripts, topic, edge, windowMs);
    RoundAllExtends(Round(s, false, false), ws, scripts, windowMs);
    var mid := RoundAll(Round(s, false, false), ws, scripts, windowMs);
    CommitFrame(mid, outcome);
    CommitMapBounds(mid.sys);
  }

  // ---- One step ----

  lemma StepKeepsInv(s: System, step: Step, topic: Topic, cfg: Config)
    requires Setting(topic, cfg) && Forward(cfg)
    requires Inv(s, topic, cfg) && Enabled(s, step, topic, cfg)
    ensures Inv(Apply(s, step, topic, cfg), topic, cfg)
  {
    match step
    case Poll(p, o) =>
      PollKeepsCore(s, Apply(s, step, topic, cfg), p, o, topic, EdgeOf(s), cfg.windowMs);
      PollKeepsEdge(s, p, o, topic, cfg.windowMs);
    case Tick(now, scripts, outcome) => TickKeepsInv(s, now, scripts, outcome, topic, cfg);
    case Rewind(p) => RewindKeepsCore(s, p, topic, EdgeOf(s), cfg.windowMs);
    case Shutdown(scripts, outcome) => ShutdownKeepsInv(s, scripts, outcome, topic, cfg);
    case Restart(now, delivered) => RestartKeepsCore(s, now, delivered, topic, Nothing, cfg);
  }

  lemma StepKeepsLedger(s: System, step: Step, topic: Topic, cfg: Config)
    requires Setting(topic, cfg) && Ledger(s, topic, cfg) && Enabled(s, step, topic, cfg)
    ensures Ledger(Apply(s, step, topic, cfg), topic, cfg)
  {
    match step
    case Poll(p, o) => PollKeepsCore(s, Apply(s, step, topic, cfg), p, o, topic, Untracked, cfg.windowMs);
    case Tick(now, scripts, outcome) => TickKeepsLedger(s, now, scripts, outcome, topic, cfg);
    case Rewind(p) => RewindKeepsCore(s, p, topic, Untracked, cfg.windowMs);
    case Shutdown(scripts, outcome) => ShutdownKeepsCore(s, scripts, outcome, topic, Untracked, cfg);
    case Restart(now, delivered) => RestartKeepsCore(s, now, delivered, topic, Untracked, cfg);
  }

  /** The round a tick or a shutdown starts, if it starts one, only adds. */
  lemma StepExtends(s: System, step: Step, topic: Topic, cfg: Config)
    requires Setting(topic, cfg) && Ledger(s, topic, cfg) && Enabled(s, step, topic, cfg)
    requires step.Tick? || step.Shutdown?
    ensures var next := Apply(s, step, topic, cfg);
            && Extends(s, next)
            && (Clean(step.scripts) ==> forall b | b in next.batches - s.batches :: b.swallowed == {})
  {
    match step
    case Tick(now, scripts, outcome) =>
      if BoundaryReached(s.app, now, cfg) {
        RoundEmitExtends(s, Due(s.app, WindowFloor(now, cfg.windowMs)), scripts, outcome, topic, Untracked, cfg.windowMs);
      }
    case Shutdown(scripts, outcome) =>
      RoundEmitExtends(s, s.app.windows.Keys, scripts, outcome, topic, Untracked, cfg.windowMs);
    case _ =>
  }

  // ---- Runs ----

  /** `step` leads from one state to the next. */
  ghost predicate Leads(s: System, step: Step, next: System, topic: Topic, cfg: Config)
    requires cfg.windowMs > 0
  {
    Enabled(s, step, topic, cfg) && next == Apply(s, step, topic, cfg)
  }

  ghost predicate LeadsAt(states: seq<System>, steps: seq<Step>, i: nat, topic: Topic, cfg: Config)
    requires cfg.windowMs > 0 && i < |steps| < |states|
  {
    Leads(states[i], steps[i], states[i + 1], topic, cfg)
  }

  ghost predicate IsRun(states: seq<System>, steps: seq<Step>, topic: Topic, cfg: Config)
    requires cfg.windowMs > 0
  {
    && |states| == |steps| + 1
    && (exists now, sink :: states[0] == Boot(now, map[], sink, {}, {}, cfg.windowMs))
    && (forall i: nat | i < |steps| :: LeadsAt(states, steps, i, topic, cfg))
  }

  /** A run goes on with any step that is enabled. */
  lemma RunThen(states: seq<System>, steps: seq<Step>, step: Step, next: System, topic: Topic, cfg: Config)
    requires cfg.windowMs > 0 && IsRun(states, steps, topic, cfg) && Leads(states[|steps|], step, next, topic, cfg)
    ensures IsRun(states + [next], steps + [step], topic, cfg)
  {
    assert (states + [next])[0] == states[0];
    forall i: nat | i < |steps + [step]| ensures LeadsAt(states + [next], steps + [step], i, topic, cfg) {
      if i < |steps| { assert LeadsAt(states, steps, i, topic, cfg); }
    }
  }

  lemma NextKeepsInv(states: seq<System>, steps: seq<Step>, topic: Topic, cfg: Config, i: nat)
    requires Setting(topic, cfg) && Forward(cfg) && IsRun(states, steps, topic, cfg) && 0 < i < |states|
    requires Inv(states[i - 1], topic, cfg)
    ensures Inv(states[i], topic, cfg)
  {
    assert LeadsAt(states, steps, i - 1, topic, cfg);
    StepKeepsInv(states[i - 1], steps[i - 1], topic, cfg);
  }

  lemma NextKeepsLedger(states: seq<System>, steps: seq<Step>, topic: Topic, cfg: Config, i: nat)
    requires Setting(topic, cfg) && IsRun(states, steps, topic, cfg) && 0 < i < |states|
    requires Ledger(states[i - 1], topic, cfg)
    ensures Ledger(states[i], topic, cfg)
  {
    assert LeadsAt(states, steps, i - 1, topic, cfg);
    StepKeepsLedger(states[i - 1], steps[i - 1], topic, cfg);
  }

  lemma RunKeepsInv(states: seq<System>, steps: seq<Step>, topic: Topic, cfg: Config, i: nat)
    requires Setting(topic, cfg) && Forward(cfg) && IsRun(states, steps, topic, cfg) && i < |states|
    ensures Inv(states[i], topic, cfg)
  {
    for k := 0 to i
      invariant Inv(states[k], topic, cfg)
    {
      NextKeepsInv(states, steps, topic, cfg, k + 1);
    }
  }

  /** Main: the bookkeeping invariant holds in every state of every run, for every grace. */
  lemma RunKeepsLedger(states: seq<System>, steps: seq<Step>, topic: Topic, cfg: Config, i: nat)
    requires Setting(topic, cfg) && IsRun(states, steps, topic, cfg) && i < |states|
    ensures Ledger(states[i], topic, cfg)
  {
    for k := 0 to i
      invariant Ledger(states[k], topic, cfg)
    {
      NextKeepsLedger(states, steps, topic, cfg, k + 1);
    }
  }

  // ---- Processes ----

  /** States i to j belong to one process, booted in state i. */
  ghost predicate OneProcess(steps: seq<Step>, i: nat, j: nat) {
    && i <= j <= |steps|
    && (i == 0 || steps[i - 1].Restart?)
    && forall m | i <= m < j :: !steps[m].Restart?
  }
}
