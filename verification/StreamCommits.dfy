/**
 * How far commits do reach: a stored commit is at the first offset still held, or past the last one
 * consumed; a flush that leaves nothing behind lets every due window go; and a final flush of that
 * kind commits every message the process has polled.
 */
module StreamCommits {
  import opened Prelude
  import opened Aggregation
  import opened StreamSpec
  import opened StreamSystem
  import opened StreamPollProofs
  import opened StreamEmitProofs
  import opened StreamRuns
  import opened StreamTheorems
  import opened StreamRows

  // ---- A step that emits ----

  /** What the emission loop of a step leaves, before the commit. */
  ghost function EmitRound(s: System, step: Step, cfg: Config): Round
    requires cfg.windowMs > 0 && (step.Tick? || step.Shutdown?)
  {
    RoundAll(Round(s, false, false), SortedOf(Emits(s, step, cfg)), step.scripts, cfg.windowMs)
  }

  lemma TurnReleases(r: Round, w: int, script: FlushScript, windowMs: int)
    ensures var next := RoundOne(r, w, script, windowMs);
            && next.sys.app.lastOffset == r.sys.app.lastOffset
            && next.sys.app.windows.Keys <= r.sys.app.windows.Keys
            && next.releasedAny == (r.releasedAny || next.sys.app.windows.Keys != r.sys.app.windows.Keys)
  {
    var next := RoundOne(r, w, script, windowMs);
    assert EmitView(next) == EmitOne(EmitView(r), w, script, windowMs);
    if next.sys.app.windows != r.sys.app.windows {
      assert w in r.sys.app.windows.Keys && w !in next.sys.app.windows.Keys;
    }
  }

  lemma {:induction false} RoundReleases(r: Round, ws: seq<int>, scripts: Scripts, windowMs: int)
    ensures var next := RoundAll(r, ws, scripts, windowMs);
            && next.sys.app.lastOffset == r.sys.app.lastOffset
            && next.sys.app.windows.Keys <= r.sys.app.windows.Keys
            && next.releasedAny == (r.releasedAny || next.sys.app.windows.Keys != r.sys.app.windows.Keys)
  {
    if ws != [] {
      var n := |ws| - 1;
      RoundReleases(r, ws[..n], scripts, windowMs);
      TurnReleases(RoundAll(r, ws[..n], scripts, windowMs), ws[n], ScriptFor(scripts, ws[n]), windowMs);
    }
  }

  lemma EmitRoundFrame(s: System, step: Step, topic: Topic, cfg: Config)
    requires Setting(topic, cfg) && Ledger(s, topic, cfg) && (step.Tick? || step.Shutdown?)
    ensures var r := EmitRound(s, step, cfg);
            && r.sys.broker.committed == s.broker.committed && r.sys.app.lastOffset == s.app.lastOffset
            && r.sys.app.windows.Keys <= s.app.windows.Keys
            && (r.releasedAny <==> r.sys.app.windows.Keys != s.app.windows.Keys)
  {
    var ws := SortedOf(Emits(s, step, cfg));
    RoundReleases(Round(s, false, false), ws, step.scripts, cfg.windowMs);
    RoundAllExtends(Round(s, false, false), ws, step.scripts, cfg.windowMs);
  }

  /** What the commit at the end of the round does. */
  function CommittedAfter(before: OffsetMap, offered: OffsetMap, outcome: CommitOutcome): OffsetMap {
    match outcome
    case Stored => before + offered
    case Skipped => before
    case Failed(reached) => if reached then before + offered else before
  }

  lemma RoundCommitted(r: Round, outcome: CommitOutcome)
    ensures RoundCommit(r, outcome).sys.broker.committed
         == CommittedAfter(r.sys.broker.committed, CommitMap(r.sys.app), outcome)
  {
    if CommitMap(r.sys.app) == map[] {
      assert r.sys.broker.committed + CommitMap(r.sys.app) == r.sys.broker.committed;
    }
  }

  /** The round and, if it raised nothing and released something, its commit. */
  ghost function EmitEnd(s: System, step: Step, cfg: Config): Round
    requires cfg.windowMs > 0 && (step.Tick? || step.Shutdown?)
  {
    var r := EmitRound(s, step, cfg);
    if r.raised || !r.releasedAny then r else RoundCommit(r, step.commit)
  }

  /** The two states differ at most in the phase and the boundary. */
  ghost predicate EndsIn(next: System, end: System) {
    && next.app.windows == end.app.windows && next.app.buffered == end.app.buffered
    && next.app.lastOffset == end.app.lastOffset && next.broker == end.broker
  }

  lemma TickEnds(s: System, step: Step, cfg: Config)
    requires cfg.windowMs > 0 && step.Tick?
    ensures EndsIn(ApplyTick(s, step.now, step.scripts, step.commit, cfg), EmitEnd(s, step, cfg).sys)
  {
    if BoundaryReached(s.app, step.now, cfg) {
      assert EmitEnd(s, step, cfg) == RoundEmit(s, Emits(s, step, cfg), step.scripts, step.commit, cfg.windowMs);
    } else {
      assert EmitEnd(s, step, cfg) == Round(s, false, false);
    }
  }

  lemma ShutdownEnds(s: System, step: Step, cfg: Config)
    requires cfg.windowMs > 0 && step.Shutdown?
    ensures EndsIn(ApplyShutdown(s, step.scripts, step.commit, cfg), EmitEnd(s, step, cfg).sys)
  {
    assert EmitEnd(s, step, cfg) == RoundEmit(s, Emits(s, step, cfg), step.scripts, step.commit, cfg.windowMs);
  }

  lemma EmittedStep(s: System, step: Step, topic: Topic, cfg: Config)
    requires Setting(topic, cfg) && Enabled(s, step, topic, cfg) && (step.Tick? || step.Shutdown?)
    ensures EndsIn(Apply(s, step, topic, cfg), EmitEnd(s, step, cfg).sys)
  {
    if step.Tick? { TickEnds(s, step, cfg); } else { ShutdownEnds(s, step, cfg); }
  }

  // ---- Where a commit lands ----

  /** Offset o is where partition p is safe to resume: at its first offset held in an open window,
      or past the last one consumed if none is held. */
  ghost predicate IsResumePoint(s: System, p: int, o: int)
    requires p in s.app.lastOffset
  {
    if exists w, id: Id :: HeldAt(s, id, w) && id.partition == p
    then (exists w :: HeldAt(s, Id(p, o), w)) && forall w, id: Id | HeldAt(s, id, w) && id.partition == p :: o <= id.offset
    else o == s.app.lastOffset[p] + 1
  }

  lemma CommitPositionResumes(s: System, p: int)
    requires BufferAgrees(s) && p in s.app.lastOffset
    ensures IsResumePoint(s, p, CommitPosition(s.app, p))
  {
    var pending := Entry(s.app.buffered, p);
    forall w, id: Id | HeldAt(s, id, w) && id.partition == p ensures id.offset in pending {
      assert BufferedAt(s, id, w);
    }
    if pending != map[] {
      var o := MinOf(pending.Keys);
      assert BufferedAt(s, Id(p, o), pending[o]);
      assert HeldAt(s, Id(p, o), pending[o]);
    }
  }

  predicate ReachesBroker(outcome: CommitOutcome) {
    outcome.Stored? || (outcome.Failed? && outcome.reachedBroker)
  }

  /** The step's round raises nothing, releases some window, and its commit reaches the broker. */
  ghost predicate Commits(s: System, step: Step, next: System, cfg: Config)
    requires cfg.windowMs > 0 && (step.Tick? || step.Shutdown?)
  {
    !EmitRound(s, step, cfg).raised && next.app.windows.Keys != s.app.windows.Keys && ReachesBroker(step.commit)
  }

  lemma SameCommitMap(a: App, b: App)
    requires a.buffered == b.buffered && a.lastOffset == b.lastOffset
    ensures CommitMap(a) == CommitMap(b)
  {
    assert forall p | p in a.lastOffset :: CommitPosition(a, p) == CommitPosition(b, p);
  }

  lemma EmittedCommits(s: System, step: Step, topic: Topic, cfg: Config)
    requires Setting(topic, cfg) && Ledger(s, topic, cfg) && Enabled(s, step, topic, cfg) && (step.Tick? || step.Shutdown?)
    ensures var next := Apply(s, step, topic, cfg);
            next.broker.committed
              == if Commits(s, step, next, cfg) then s.broker.committed + CommitMap(next.app) else s.broker.committed
  {
    var r, next := EmitRound(s, step, cfg), Apply(s, step, topic, cfg);
    EmitRoundFrame(s, step, topic, cfg);
    EmittedStep(s, step, topic, cfg);
    CommitFrame(r, step.commit);
    RoundCommitted(r, step.commit);
    SameCommitMap(next.app, r.sys.app);
  }

  lemma RunCommits(states: seq<System>, steps: seq<Step>, topic: Topic, cfg: Config, i: nat)
    requires Setting(topic, cfg) && IsRun(states, steps, topic, cfg) && i < |steps|
    requires steps[i].Tick? || steps[i].Shutdown?
    ensures var s, next := states[i], states[i + 1];
            next.broker.committed
              == if Commits(s, steps[i], next, cfg) then s.broker.committed + CommitMap(next.app) else s.broker.committed
  {
    RunKeepsLedger(states, steps, topic, cfg, i);
    assert LeadsAt(states, steps, i, topic, cfg);
    EmittedCommits(states[i], steps[i], topic, cfg);
  }

  lemma RunResumes(states: seq<System>, steps: seq<Step>, topic: Topic, cfg: Config, i: nat, p: int)
    requires Setting(topic, cfg) && IsRun(states, steps, topic, cfg) && i < |states| && p in states[i].app.lastOffset
    ensures IsResumePoint(states[i], p, CommitPosition(states[i].app, p))
  {
    RunKeepsLedger(states, steps, topic, cfg, i);
    CommitPositionResumes(states[i], p);
  }

  /** Main: when a close or the final flush releases a window and its commit reaches the broker,
      every partition consumed is committed exactly where it is safe to resume: at the first offset
      still held, or past the last one consumed. Otherwise nothing is committed. */
  lemma CommitIsExact(states: seq<System>, steps: seq<Step>, topic: Topic, cfg: Config, i: nat)
    requires Setting(topic, cfg) && IsRun(states, steps, topic, cfg) && i < |steps|
    requires steps[i].Tick? || steps[i].Shutdown?
    ensures var s, next := states[i], states[i + 1];
            if Commits(s, steps[i], next, cfg)
            then forall p | p in next.app.lastOffset ::
                   p in next.broker.committed && IsResumePoint(next, p, next.broker.committed[p])
            else next.broker.committed == s.broker.committed
  {
    var next := states[i + 1];
    RunCommits(states, steps, topic, cfg, i);
    forall p | p in next.app.lastOffset ensures IsResumePoint(next, p, CommitPosition(next.app, p)) {
      RunResumes(states, steps, topic, cfg, i + 1, p);
    }
  }

  // ---- Flushes that leave nothing behind ----

  /** No produce escapes and the flush leaves nothing undelivered. */
  ghost predicate Empties(script: FlushScript) {
    script.unacked == {} && forall a | a in script.attempts :: !a.outcome.RetryRaised?
  }

  lemma EmptiedTurn(r: Round, w: int, script: FlushScript, windowMs: int)
    requires !r.raised && Empties(script)
    ensures var next := RoundOne(r, w, script, windowMs);
            !next.raised && next.sys.app.windows == r.sys.app.windows - {w}
  {
    if w in r.sys.app.windows {
      ProducedExactly(r.sys.broker, script.attempts, r.sys.app.windows[w], w, windowMs);
    }
  }

  lemma {:induction false} EmptiedRound(r: Round, ws: seq<int>, scripts: Scripts, windowMs: int)
    requires !r.raised && forall w | w in ws :: Empties(ScriptFor(scripts, w))
    ensures var next := RoundAll(r, ws, scripts, windowMs);
            !next.raised && next.sys.app.windows == r.sys.app.windows - Elements(ws)
  {
    if ws != [] {
      var n := |ws| - 1;
      EmptiedRound(r, ws[..n], scripts, windowMs);
      EmptiedTurn(RoundAll(r, ws[..n], scripts, windowMs), ws[n], ScriptFor(scripts, ws[n]), windowMs);
      assert Elements(ws) == Elements(ws[..n]) + {ws[n]};
      assert r.sys.app.windows - Elements(ws[..n]) - {ws[n]} == r.sys.app.windows - Elements(ws);
    } else {
      assert r.sys.app.windows - Elements(ws) == r.sys.app.windows;
    }
  }

  /** Main: when every flush of a close or of the final flush leaves nothing behind, every due
      window goes and no other. */
  lemma EmptiedFlushesReleaseAll(states: seq<System>, steps: seq<Step>, topic: Topic, cfg: Config, i: nat)
    requires Setting(topic, cfg) && IsRun(states, steps, topic, cfg) && i < |steps|
    requires steps[i].Tick? || steps[i].Shutdown?
    requires forall w | w in Emits(states[i], steps[i], cfg) :: Empties(ScriptFor(steps[i].scripts, w))
    ensures !EmitRound(states[i], steps[i], cfg).raised
    ensures states[i + 1].app.windows == states[i].app.windows - Emits(states[i], steps[i], cfg)
  {
    var s, step := states[i], steps[i];
    var ws := SortedOf(Emits(s, step, cfg));
    assert LeadsAt(states, steps, i, topic, cfg);
    EmittedStep(s, step, topic, cfg);
    assert forall w :: w in ws <==> w in Elements(ws);
    EmptiedRound(Round(s, false, false), ws, step.scripts, cfg.windowMs);
    CommitFrame(EmitRound(s, step, cfg), step.commit);
  }

  // ---- What a close does ----

  /** The windows a close tries to emit are those that have ended. */
  lemma EndedAreTried(states: seq<System>, steps: seq<Step>, topic: Topic, cfg: Config, i: nat, w: int)
    requires Setting(topic, cfg) && IsRun(states, steps, topic, cfg) && i < |steps| && steps[i].Tick?
    requires states[i].app.currentWindowStart + cfg.windowMs + cfg.graceMs <= steps[i].now
    ensures w in Emits(states[i], steps[i], cfg) <==> w in states[i].app.windows && w + cfg.windowMs <= steps[i].now
  {
    RunKeepsLedger(states, steps, topic, cfg, i);
    if w in Emits(states[i], steps[i], cfg) {
      OpenWindowIsAligned(states[i], topic, cfg.windowMs, w);
      AlignedBelow(w, WindowFloor(steps[i].now, cfg.windowMs), cfg.windowMs);
    }
  }

  /** Main: once the clock has passed the current window's end by the grace, a close whose flushes
      leave nothing behind lets go of every window that has ended, however old, and of no other:
      backlog and windows kept after a failed flush included. */
  lemma CloseEmitsWhatHasEnded(states: seq<System>, steps: seq<Step>, topic: Topic, cfg: Config, i: nat)
    requires Setting(topic, cfg) && IsRun(states, steps, topic, cfg) && i < |steps| && steps[i].Tick?
    requires states[i].app.currentWindowStart + cfg.windowMs + cfg.graceMs <= steps[i].now
    requires forall w | w in states[i].app.windows && w + cfg.windowMs <= steps[i].now ::
               Empties(ScriptFor(steps[i].scripts, w))
    ensures forall w :: w in states[i + 1].app.windows
                   <==> w in states[i].app.windows && steps[i].now < w + cfg.windowMs
    ensures forall w | w in states[i + 1].app.windows :: states[i + 1].app.windows[w] == states[i].app.windows[w]
  {
    forall w ensures w in Emits(states[i], steps[i], cfg)
                <==> w in states[i].app.windows && w + cfg.windowMs <= steps[i].now
    {
      EndedAreTried(states, steps, topic, cfg, i, w);
    }
    EmptiedFlushesReleaseAll(states, steps, topic, cfg, i);
  }

  /** Some produce for an open window's group fails twice. */
  ghost predicate Escapes(windows: map<int, Groups>, w: int, scripts: Scripts) {
    w in windows && exists a :: a in ScriptFor(scripts, w).attempts && a.group in windows[w] && a.outcome.RetryRaised?
  }

  /** `left` are the windows that remain of `windows` when only those in `ws` can have gone. */
  ghost predicate Remain(windows: map<int, Groups>, left: map<int, Groups>, ws: seq<int>) {
    && (forall v | v !in ws :: v in left <==> v in windows)
    && (forall v | v in left :: v in windows && left[v] == windows[v])
  }

  lemma TurnEscapes(r: Round, w: int, scripts: Scripts, windowMs: int)
    requires !r.raised
    ensures var next := RoundOne(r, w, ScriptFor(scripts, w), windowMs);
            && (next.raised <==> Escapes(r.sys.app.windows, w, scripts))
            && Remain(r.sys.app.windows, next.sys.app.windows, [w])
  {
    RoundOneShrinks(r, w, ScriptFor(scripts, w), windowMs);
    if w in r.sys.app.windows {
      ProducedExactly(r.sys.broker, ScriptFor(scripts, w).attempts, r.sys.app.windows[w], w, windowMs);
    }
  }

  lemma RaisedTurn(r: Round, w: int, script: FlushScript, windowMs: int)
    requires r.raised
    ensures var next := RoundOne(r, w, script, windowMs); next.raised && next.sys.app.windows == r.sys.app.windows
  {
  }

  lemma RemainSnoc(windows: map<int, Groups>, left: map<int, Groups>, next: map<int, Groups>, ws: seq<int>, w: int)
    requires Remain(windows, left, ws) && Remain(left, next, [w])
    ensures Remain(windows, next, ws + [w])
  {
    forall v | v !in ws + [w] ensures v in next <==> v in windows {
      assert v !in ws && v !in [w];
    }
  }

  lemma EscapesSnoc(windows: map<int, Groups>, left: map<int, Groups>, ws: seq<int>, w: int, scripts: Scripts)
    requires Remain(windows, left, ws) && w !in ws
    ensures (exists v :: v in ws + [w] && Escapes(windows, v, scripts))
       <==> (exists v :: v in ws && Escapes(windows, v, scripts)) || Escapes(left, w, scripts)
  {
    assert forall v :: v in ws + [w] <==> v in ws || v == w;
    assert Escapes(left, w, scripts) <==> Escapes(windows, w, scripts);
  }

  lemma {:induction false} RoundEscapes(r: Round, ws: seq<int>, scripts: Scripts, windowMs: int)
    requires !r.raised && StrictlySorted(ws)
    ensures var next := RoundAll(r, ws, scripts, windowMs);
            && (next.raised <==> exists w :: w in ws && Escapes(r.sys.app.windows, w, scripts))
            && Remain(r.sys.app.windows, next.sys.app.windows, ws)
  {
    if ws != [] {
      var n := |ws| - 1;
      RoundEscapes(r, ws[..n], scripts, windowMs);
      var mid := RoundAll(r, ws[..n], scripts, windowMs);
      assert ws == ws[..n] + [ws[n]] && ws[n] !in ws[..n];
      EscapesSnoc(r.sys.app.windows, mid.sys.app.windows, ws[..n], ws[n], scripts);
      if mid.raised { RaisedTurn(mid, ws[n], ScriptFor(scripts, ws[n]), windowMs); }
      else { TurnEscapes(mid, ws[n], scripts, windowMs); }
      var next := RoundAll(r, ws, scripts, windowMs);
      RemainSnoc(r.sys.app.windows, mid.sys.app.windows, next.sys.app.windows, ws[..n], ws[n]);
    }
  }

  lemma OpenMeansConsumed(s: System, topic: Topic, windowMs: int, w: int)
    requires windowMs > 0 && KeysAgree(s) && ContentsAgree(s, topic, windowMs) && BufferAgrees(s) && PendingInRange(s)
    requires w in s.app.windows
    ensures s.app.lastOffset.Keys != {}
  {
    assert IdsInWindow(topic, s.held[w], w, windowMs);
    var id := s.held[w][0];
    assert HeldAt(s, id, w);
    assert BufferedAt(s, id, w);
  }

  lemma CommitRaisesIff(r: Round, outcome: CommitOutcome)
    requires !r.raised && r.sys.app.lastOffset.Keys != {}
    ensures RoundCommit(r, outcome).raised <==> outcome.Failed?
  {
    var p := Pick(r.sys.app.lastOffset.Keys);
    assert p in CommitMap(r.sys.app);
  }

  lemma EmitRoundRaisesIff(s: System, step: Step, cfg: Config)
    requires cfg.windowMs > 0 && (step.Tick? || step.Shutdown?)
    ensures EmitRound(s, step, cfg).raised
       <==> exists w :: w in Emits(s, step, cfg) && Escapes(s.app.windows, w, step.scripts)
  {
    var ws := SortedOf(Emits(s, step, cfg));
    RoundEscapes(Round(s, false, false), ws, step.scripts, cfg.windowMs);
    assert forall w :: w in ws <==> w in Elements(ws);
  }

  lemma EmitEndRaised(s: System, step: Step, topic: Topic, cfg: Config)
    requires Setting(topic, cfg) && Ledger(s, topic, cfg) && (step.Tick? || step.Shutdown?)
    ensures var r := EmitRound(s, step, cfg);
            EmitEnd(s, step, cfg).raised <==> r.raised || (r.sys.app.windows.Keys != s.app.windows.Keys && step.commit.Failed?)
  {
    var r := EmitRound(s, step, cfg);
    EmitRoundFrame(s, step, topic, cfg);
    if !r.raised && r.releasedAny {
      OpenMeansConsumed(s, topic, cfg.windowMs, Pick(s.app.windows.Keys));
      CommitRaisesIff(r, step.commit);
    }
  }

  lemma TickRunsOn(s: System, step: Step, topic: Topic, cfg: Config)
    requires Setting(topic, cfg) && Enabled(s, step, topic, cfg) && step.Tick? && BoundaryReached(s.app, step.now, cfg)
    ensures Apply(s, step, topic, cfg).phase.Running? <==> !EmitEnd(s, step, cfg).raised
  {
    assert EmitEnd(s, step, cfg) == RoundEmit(s, Emits(s, step, cfg), step.scripts, step.commit, cfg.windowMs);
    RoundAllPhase(Round(s, false, false), SortedOf(Emits(s, step, cfg)), step.scripts, cfg.windowMs);
  }

  /** Main: the consume loop survives a close if and only if no produce for a window that has ended
      fails twice, and no commit is made or it does not fail: a refused commit is no failure. */
  lemma LoopGoesOnIff(states: seq<System>, steps: seq<Step>, topic: Topic, cfg: Config, i: nat)
    requires Setting(topic, cfg) && IsRun(states, steps, topic, cfg) && i < |steps| && steps[i].Tick?
    requires states[i].app.currentWindowStart + cfg.windowMs + cfg.graceMs <= steps[i].now
    ensures states[i + 1].phase.Running? <==>
              && (forall w | w + cfg.windowMs <= steps[i].now :: !Escapes(states[i].app.windows, w, steps[i].scripts))
              && (steps[i].commit.Failed? ==> states[i + 1].app.windows.Keys == states[i].app.windows.Keys)
  {
    var s, step := states[i], steps[i];
    RunKeepsLedger(states, steps, topic, cfg, i);
    assert LeadsAt(states, steps, i, topic, cfg);
    EmittedStep(s, step, topic, cfg);
    CommitFrame(EmitRound(s, step, cfg), step.commit);
    EmitRoundRaisesIff(s, step, cfg);
    EmitEndRaised(s, step, topic, cfg);
    TickRunsOn(s, step, topic, cfg);
    forall w ensures w in Emits(s, step, cfg) <==> w in s.app.windows && w + cfg.windowMs <= step.now {
      EndedAreTried(states, steps, topic, cfg, i, w);
    }
  }

  /** Main: until then a check changes nothing at all. */
  lemma EarlyCheckDoesNothing(states: seq<System>, steps: seq<Step>, topic: Topic, cfg: Config, i: nat)
    requires Setting(topic, cfg) && IsRun(states, steps, topic, cfg) && i < |steps| && steps[i].Tick?
    requires steps[i].now < states[i].app.currentWindowStart + cfg.windowMs + cfg.graceMs
    ensures states[i + 1] == states[i]
  {
    assert LeadsAt(states, steps, i, topic, cfg);
  }

  /** Nothing has been closed since the process booted inside window w. */
  ghost predicate Unclosed(s: System, w: int) {
    && s.app.currentWindowStart == w && s.app.closedThrough.None? && s.app.stats.discarded == 0
    && s.done == {} && s.broker.sent == {}
  }

  lemma StepBeforeBoundary(states: seq<System>, steps: seq<Step>, topic: Topic, cfg: Config, m: nat, w: int)
    requires Setting(topic, cfg) && IsRun(states, steps, topic, cfg) && m < |steps|
    requires !steps[m].Restart? && !steps[m].Shutdown? && Unclosed(states[m], w)
    requires steps[m].Tick? ==> steps[m].now < w + cfg.windowMs + cfg.graceMs
    ensures Unclosed(states[m + 1], w) && states[m + 1].broker == states[m].broker
  {
    assert LeadsAt(states, steps, m, topic, cfg);
    if steps[m].Poll? { PollFrame(states[m], steps[m].partition, steps[m].offset, topic, cfg.windowMs); }
  }

  /** Main: a process booted at clock t inside the window that starts at w discards nothing, backlog
      included, and hands over nothing, until the clock passes that window's end by the grace. */
  lemma {:induction false} NothingBeforeFirstBoundary(states: seq<System>, steps: seq<Step>, topic: Topic, cfg: Config,
                                                      i: nat, j: nat, t: int, w: int)
    requires Setting(topic, cfg) && IsRun(states, steps, topic, cfg) && i <= j < |states|
    requires states[i] == Boot(t, states[i].broker.committed, states[i].broker.sink, states[i].late, states[i].batches, cfg.windowMs)
    requires w % cfg.windowMs == 0 && w <= t < w + cfg.windowMs
    requires forall m | i <= m < j :: !steps[m].Restart? && !steps[m].Shutdown?
    requires forall m | i <= m < j :: steps[m].Tick? ==> steps[m].now < w + cfg.windowMs + cfg.graceMs
    ensures Unclosed(states[j], w) && states[j].broker == states[i].broker
    decreases j - i
  {
    if i < j {
      NothingBeforeFirstBoundary(states, steps, topic, cfg, i, j - 1, t, w);
      StepBeforeBoundary(states, steps, topic, cfg, j - 1, w);
    } else {
      WindowFloorUnique(t, cfg.windowMs, w);
    }
  }

  // ---- The final flush ----

  lemma StepKeepsLast(s: System, step: Step, topic: Topic, cfg: Config)
    requires Setting(topic, cfg) && Ledger(s, topic, cfg) && Enabled(s, step, topic, cfg) && !step.Restart?
    ensures var next := Apply(s, step, topic, cfg);
            && Behind(s.app.lastOffset, next.app.lastOffset)
            && (step.Poll? ==> step.partition in next.app.lastOffset && step.offset <= next.app.lastOffset[step.partition])
  {
    if step.Poll? {
      PollFrame(s, step.partition, step.offset, topic, cfg.windowMs);
    } else if step.Tick? || step.Shutdown? {
      EmitRoundFrame(s, step, topic, cfg);
      EmittedStep(s, step, topic, cfg);
      CommitFrame(EmitRound(s, step, cfg), step.commit);
    }
  }

  lemma RunKeepsLast(states: seq<System>, steps: seq<Step>, topic: Topic, cfg: Config, m: nat)
    requires Setting(topic, cfg) && IsRun(states, steps, topic, cfg) && m < |steps| && !steps[m].Restart?
    ensures Behind(states[m].app.lastOffset, states[m + 1].app.lastOffset)
    ensures steps[m].Poll? ==>
              && steps[m].partition in states[m + 1].app.lastOffset
              && steps[m].offset <= states[m + 1].app.lastOffset[steps[m].partition]
  {
    RunKeepsLedger(states, steps, topic, cfg, m);
    assert LeadsAt(states, steps, m, topic, cfg);
    StepKeepsLast(states[m], steps[m], topic, cfg);
  }

  /** What a process has polled is within its last consumed offsets. */
  lemma {:induction false} PolledIsConsumed(states: seq<System>, steps: seq<Step>, topic: Topic, cfg: Config, m: nat, j: nat,
                                            p: int, o: int)
    requires Setting(topic, cfg) && IsRun(states, steps, topic, cfg) && m < j < |states|
    requires steps[m] == Poll(p, o) && forall k | m <= k < j :: !steps[k].Restart?
    ensures p in states[j].app.lastOffset && o <= states[j].app.lastOffset[p]
    decreases j - m
  {
    if m + 1 < j { PolledIsConsumed(states, steps, topic, cfg, m, j - 1, p, o); }
    RunKeepsLast(states, steps, topic, cfg, j - 1);
  }

  lemma NothingOpenNothingHeld(states: seq<System>, steps: seq<Step>, topic: Topic, cfg: Config, i: nat)
    requires Setting(topic, cfg) && IsRun(states, steps, topic, cfg) && i < |states| && states[i].app.windows == map[]
    ensures states[i].held == map[]
  {
    RunKeepsLedger(states, steps, topic, cfg, i);
  }

  /** A commit past the last offset consumed covers what was polled. */
  lemma PolledIsCommitted(states: seq<System>, steps: seq<Step>, topic: Topic, cfg: Config, m: nat, j: nat, p: int, o: int)
    requires Setting(topic, cfg) && IsRun(states, steps, topic, cfg) && m < j < |states|
    requires steps[m] == Poll(p, o) && forall k | m <= k < j :: !steps[k].Restart?
    requires states[j].app.windows == map[]
    requires forall q | q in states[j].app.lastOffset ::
               q in states[j].broker.committed && IsResumePoint(states[j], q, states[j].broker.committed[q])
    ensures p in states[j].broker.committed && o < states[j].broker.committed[p]
  {
    PolledIsConsumed(states, steps, topic, cfg, m, j, p, o);
    NothingOpenNothingHeld(states, steps, topic, cfg, j);
  }

  /** Main: a final flush that finds an open window and leaves nothing behind, and whose commit
      reaches the broker, closes every window and commits every message the process has polled.
      With no open window the final flush commits nothing. */
  lemma FinalFlushCommitsAll(states: seq<System>, steps: seq<Step>, topic: Topic, cfg: Config, i: nat, j: nat)
    requires Setting(topic, cfg) && IsRun(states, steps, topic, cfg) && j < |steps| && OneProcess(steps, i, j + 1)
    requires steps[j].Shutdown? && ReachesBroker(steps[j].commit)
    requires forall w | w in states[j].app.windows :: Empties(ScriptFor(steps[j].scripts, w))
    ensures states[j + 1].app.windows == map[]
    ensures if states[j].app.windows == map[]
            then states[j + 1].broker.committed == states[j].broker.committed
            else forall m, p, o | i <= m < j && steps[m] == Poll(p, o) ::
                   p in states[j + 1].broker.committed && o < states[j + 1].broker.committed[p]
  {
    EmptiedFlushesReleaseAll(states, steps, topic, cfg, j);
    CommitIsExact(states, steps, topic, cfg, j);
    if states[j].app.windows != map[] {
      assert states[j].app.windows.Keys != states[j + 1].app.windows.Keys;
      forall m, p, o | i <= m < j && steps[m] == Poll(p, o)
        ensures p in states[j + 1].broker.committed && o < states[j + 1].broker.committed[p]
      {
        PolledIsCommitted(states, steps, topic, cfg, m, j + 1, p, o);
      }
    }
  }
}
