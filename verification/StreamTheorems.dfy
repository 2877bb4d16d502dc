/**
 * What the DNS app promises about whole runs: at-least-once delivery, frozen retries,
 * monotone commits, agreement and conservation of its bookkeeping, and boundary progress.
 */
module StreamTheorems {
  import opened Prelude
  import opened Aggregation
  import opened StreamSpec
  import opened StreamSystem
  import opened StreamPollProofs
  import opened StreamEmitProofs
  import opened StreamRuns

  // ---- At least once ----

  /** Batch b folded message `id` in, and the row of the message's group in that window, which
      reports the messages of the batch, is in the sink or recorded as a swallowed produce error. */
  ghost predicate DeliveredIn(b: Batch, sink: set<Row>, topic: Topic, id: Id, windowMs: int)
    requires windowMs > 0 && id in topic && topic[id].Decoded?
  {
    var e, events := topic[id].event, EventsOf(topic, b.ids);
    && id in b.ids && e in events
    && b.window == WindowFloor(EventTs(e), windowMs)
    && exists x: Row :: x in sink + b.swallowed && x.group == GroupOf(e) && x.record.windowStart == b.window
                     && Reports(x, events, windowMs)
  }

  /** `id`'s own group row of some released window that folded it in. */
  ghost predicate Delivered(s: System, topic: Topic, id: Id, windowMs: int)
    requires windowMs > 0 && id in topic && topic[id].Decoded?
  {
    exists b :: b in s.batches && DeliveredIn(b, s.broker.sink, topic, id, windowMs)
  }

  lemma BatchDelivers(b: Batch, sink: set<Row>, topic: Topic, id: Id, windowMs: int)
    requires windowMs > 0 && id in topic && topic[id].Decoded?
    requires BatchDelivered(b, sink, topic, windowMs) && id in b.ids
    ensures DeliveredIn(b, sink, topic, id, windowMs)
  {
    var e, events := topic[id].event, EventsOf(topic, b.ids);
    var i :| 0 <= i < |b.ids| && b.ids[i] == id;
    assert events[i] == e;
    FoldIsGroupBy(events);
    RowReports(events, GroupOf(e), b.window, windowMs);
    var x := RowOf(GroupOf(e), FoldGroups(events)[GroupOf(e)], b.window, windowMs);
    assert x in sink + b.swallowed;
  }

  /** Main: in every state of every run, each message below a committed offset was unusable,
      was discarded as late, or was folded into a released window whose rows were produced. */
  lemma AtLeastOnce(states: seq<System>, steps: seq<Step>, topic: Topic, cfg: Config, i: nat, id: Id)
    requires Setting(topic, cfg) && IsRun(states, steps, topic, cfg) && i < |states|
    requires id in topic && id.partition in states[i].broker.committed
    requires id.offset < states[i].broker.committed[id.partition]
    ensures !topic[id].Decoded? || id in states[i].late || Delivered(states[i], topic, id, cfg.windowMs)
  {
    var s := states[i];
    RunKeepsLedger(states, steps, topic, cfg, i);
    assert Settled(s, topic, id);
    if topic[id].Decoded? && id !in s.late {
      var b :| b in s.batches && id in b.ids;
      BatchDelivers(b, s.broker.sink, topic, id, cfg.windowMs);
    }
  }

  ghost predicate CleanStep(step: Step) {
    (step.Tick? || step.Shutdown?) ==> Clean(step.scripts)
  }

  lemma {:induction false} CleanRunLosesNothing(states: seq<System>, steps: seq<Step>, topic: Topic, cfg: Config, i: nat)
    requires Setting(topic, cfg) && IsRun(states, steps, topic, cfg) && i < |states|
    requires forall j | 0 <= j < i :: CleanStep(steps[j])
    ensures forall b | b in states[i].batches :: b.swallowed == {}
  {
    if i == 0 {
      assert states[0].batches == {};
    } else {
      CleanRunLosesNothing(states, steps, topic, cfg, i - 1);
      RunKeepsLedger(states, steps, topic, cfg, i - 1);
      assert LeadsAt(states, steps, i - 1, topic, cfg);
      var s, step := states[i - 1], steps[i - 1];
      match step
      case Poll(p, o) => PollFrame(s, p, o, topic, cfg.windowMs);
      case Rewind(_) =>
      case Restart(_, _) =>
      case _ =>
        StepExtends(s, step, topic, cfg);
        assert forall b | b in states[i].batches :: b in s.batches || b in states[i].batches - s.batches;
    }
  }

  /** Main: when no produce error is swallowed, each message below a committed offset that was
      neither unusable nor late has its window's group row in the sink. */
  lemma CleanAtLeastOnce(states: seq<System>, steps: seq<Step>, topic: Topic, cfg: Config, i: nat, id: Id)
    requires Setting(topic, cfg) && IsRun(states, steps, topic, cfg) && i < |states|
    requires forall j | 0 <= j < i :: CleanStep(steps[j])
    requires id in topic && id.partition in states[i].broker.committed
    requires id.offset < states[i].broker.committed[id.partition]
    requires topic[id].Decoded? && id !in states[i].late
    ensures exists b, x: Row ::
              && b in states[i].batches && id in b.ids && x in states[i].broker.sink
              && x.group == GroupOf(topic[id].event) && x.record.windowStart == b.window
              && Reports(x, EventsOf(topic, b.ids), cfg.windowMs)
  {
    AtLeastOnce(states, steps, topic, cfg, i, id);
    CleanRunLosesNothing(states, steps, topic, cfg, i);
    var b :| b in states[i].batches && DeliveredIn(b, states[i].broker.sink, topic, id, cfg.windowMs);
    assert b.swallowed == {};
  }

  lemma LateByTimestamp(s: System, topic: Topic, cfg: Config, ts: int)
    requires cfg.windowMs > 0 && BoundaryAligned(s, cfg.windowMs)
    ensures IsLate(s.app, WindowFloor(ts, cfg.windowMs)) <==> s.app.closedThrough.Some? && ts < s.app.closedThrough.value
  {
    var f := WindowFloor(ts, cfg.windowMs);
    if s.app.closedThrough.Some? && f < s.app.closedThrough.value {
      AlignedBelow(f, s.app.closedThrough.value, cfg.windowMs);
    }
  }

  /** Main: in every run a polled usable message is discarded exactly when its own timestamp lies
      below the last released boundary; every other usable message is held. */
  lemma DiscardedExactlyWhenLate(states: seq<System>, steps: seq<Step>, topic: Topic, cfg: Config, i: nat, p: int, o: int)
    requires Setting(topic, cfg) && IsRun(states, steps, topic, cfg) && i < |steps|
    requires steps[i] == Poll(p, o) && Id(p, o) in topic && topic[Id(p, o)].Decoded?
    ensures var s, next, ts := states[i], states[i + 1], EventTs(topic[Id(p, o)].event);
            var late := s.app.closedThrough.Some? && ts < s.app.closedThrough.value;
            && (next.app.stats.discarded == s.app.stats.discarded + 1 <==> late)
            && (late ==> Id(p, o) in next.late && next.held == s.held)
            && (!late ==> HeldAt(next, Id(p, o), WindowFloor(ts, cfg.windowMs)))
  {
    RunKeepsLedger(states, steps, topic, cfg, i);
    assert LeadsAt(states, steps, i, topic, cfg);
    PollFrame(states[i], p, o, topic, cfg.windowMs);
    LateByTimestamp(states[i], topic, cfg, EventTs(topic[Id(p, o)].event));
  }

  // ---- Frozen retries ----

  /** From a state to its successor within one process: windows below the boundary are frozen
      or released, released windows stay gone, and the closed region only grows. */
  ghost predicate Freezes(s: System, next: System) {
    && (forall w | Under(w, EdgeOf(s)) && w in next.app.windows ::
          w in s.app.windows && next.app.windows[w] == s.app.windows[w])
    && (forall w | Under(w, EdgeOf(s)) :: Under(w, EdgeOf(next)))
    && s.done <= next.done && s.broker.sent <= next.broker.sent
  }

  lemma PollFreezes(s: System, p: int, o: int, topic: Topic, windowMs: int)
    requires windowMs > 0 && Id(p, o) in topic && s.phase.Running?
    ensures Freezes(s, ApplyPoll(s, p, o, topic, windowMs))
  {
    PollFrame(s, p, o, topic, windowMs);
  }

  /** What a round leaves of the windows. */
  ghost predicate Thins(s: System, next: System) {
    && (forall w | w in next.app.windows :: w in s.app.windows && next.app.windows[w] == s.app.windows[w])
    && s.done <= next.done && s.broker.sent <= next.broker.sent
  }

  lemma RoundEmitThins(s: System, due: set<int>, scripts: Scripts, outcome: CommitOutcome, windowMs: int)
    requires BrokerAgrees(s.broker)
    ensures Thins(s, RoundEmit(s, due, scripts, outcome, windowMs).sys)
  {
    RoundAllShrinks(Round(s, false, false), SortedOf(due), scripts, windowMs);
    RoundAllExtends(Round(s, false, false), SortedOf(due), scripts, windowMs);
    CommitFrame(RoundAll(Round(s, false, false), SortedOf(due), scripts, windowMs), outcome);
  }

  lemma TickThins(s: System, now: int, scripts: Scripts, outcome: CommitOutcome, topic: Topic, cfg: Config)
    requires Setting(topic, cfg) && BrokerAgrees(s.broker) && BoundaryReached(s.app, now, cfg)
    ensures var next, cutoff := ApplyTick(s, now, scripts, outcome, cfg), WindowFloor(now, cfg.windowMs);
            Thins(s, next) && (next.phase.Running? ==> next.app.closedThrough == Some(cutoff))
  {
    RoundEmitThins(s, Due(s.app, WindowFloor(now, cfg.windowMs)), scripts, outcome, cfg.windowMs);
  }

  lemma TickFreezes(s: System, now: int, scripts: Scripts, outcome: CommitOutcome, topic: Topic, cfg: Config)
    requires Setting(topic, cfg) && Forward(cfg) && s.phase.Running?
    requires BrokerAgrees(s.broker) && BoundaryAligned(s, cfg.windowMs)
    ensures Freezes(s, ApplyTick(s, now, scripts, outcome, cfg))
  {
    if BoundaryReached(s.app, now, cfg) {
      TickThins(s, now, scripts, outcome, topic, cfg);
      BoundaryHolds(s.app, now, cfg);
    }
  }

  lemma ShutdownThins(s: System, scripts: Scripts, outcome: CommitOutcome, cfg: Config)
    requires BrokerAgrees(s.broker)
    ensures Thins(s, ApplyShutdown(s, scripts, outcome, cfg))
  {
    RoundEmitThins(s, s.app.windows.Keys, scripts, outcome, cfg.windowMs);
  }

  lemma ShutdownFreezes(s: System, scripts: Scripts, outcome: CommitOutcome, cfg: Config)
    requires BrokerAgrees(s.broker)
    ensures Freezes(s, ApplyShutdown(s, scripts, outcome, cfg))
  {
    ShutdownThins(s, scripts, outcome, cfg);
    assert ApplyShutdown(s, scripts, outcome, cfg).phase.Stopped?;
  }

  lemma StepFreezes(s: System, step: Step, topic: Topic, cfg: Config)
    requires Setting(topic, cfg) && Forward(cfg) && Enabled(s, step, topic, cfg) && !step.Restart?
    requires BrokerAgrees(s.broker) && BoundaryAligned(s, cfg.windowMs)
    ensures Freezes(s, Apply(s, step, topic, cfg))
  {
    match step
    case Poll(p, o) => PollFreezes(s, p, o, topic, cfg.windowMs);
    case Rewind(_) =>
    case Tick(now, scripts, outcome) => TickFreezes(s, now, scripts, outcome, topic, cfg);
    case Shutdown(scripts, outcome) => ShutdownFreezes(s, scripts, outcome, cfg);
    case Restart(_, _) =>
  }

  lemma RunFreezes(states: seq<System>, steps: seq<Step>, topic: Topic, cfg: Config, k: nat)
    requires Setting(topic, cfg) && Forward(cfg) && IsRun(states, steps, topic, cfg)
    requires k < |steps| && !steps[k].Restart?
    ensures Freezes(states[k], states[k + 1])
  {
    RunKeepsInv(states, steps, topic, cfg, k);
    assert LeadsAt(states, steps, k, topic, cfg);
    StepFreezes(states[k], steps[k], topic, cfg);
  }

  /** Main: within one process, whatever is polled in between, a window below the boundary never
      changes: later it is either gone or exactly what it was. */
  lemma {:induction false} ClosedWindowsAreFrozen(states: seq<System>, steps: seq<Step>, topic: Topic, cfg: Config, i: nat, j: nat)
    requires Setting(topic, cfg) && Forward(cfg) && IsRun(states, steps, topic, cfg) && i <= j < |states|
    requires forall k | i <= k < j :: !steps[k].Restart?
    ensures Freezes(states[i], states[j])
    decreases j - i
  {
    if i < j {
      ClosedWindowsAreFrozen(states, steps, topic, cfg, i, j - 1);
      RunFreezes(states, steps, topic, cfg, j - 1);
    }
  }

  /** Main: within one process, any two rows produced for the same window and group are equal,
      however many retries lie between them. */
  lemma RetriesRepeatTheSameRows(states: seq<System>, steps: seq<Step>, topic: Topic, cfg: Config, i: nat, j: nat, r: Row, q: Row)
    requires Setting(topic, cfg) && Forward(cfg) && IsRun(states, steps, topic, cfg) && i <= j < |states|
    requires forall k | i <= k < j :: !steps[k].Restart?
    requires r in states[i].broker.sent && q in states[j].broker.sent
    requires r.group == q.group && r.record.windowStart == q.record.windowStart
    ensures r == q
  {
    ClosedWindowsAreFrozen(states, steps, topic, cfg, i, j);
    RunKeepsInv(states, steps, topic, cfg, j);
  }

  /** Main: a window this process has released is never opened again by it. */
  lemma ReleasedIsNeverReopened(states: seq<System>, steps: seq<Step>, topic: Topic, cfg: Config, i: nat, j: nat, w: int)
    requires Setting(topic, cfg) && Forward(cfg) && IsRun(states, steps, topic, cfg) && i <= j < |states|
    requires forall k | i <= k < j :: !steps[k].Restart?
    requires w in states[i].done
    ensures w !in states[j].app.windows
  {
    ClosedWindowsAreFrozen(states, steps, topic, cfg, i, j);
    RunKeepsInv(states, steps, topic, cfg, j);
  }

  lemma RunCloses(states: seq<System>, steps: seq<Step>, topic: Topic, cfg: Config, i: nat, w: int)
    requires Setting(topic, cfg) && IsRun(states, steps, topic, cfg) && i < |steps|
    requires steps[i].Tick? && BoundaryReached(states[i].app, steps[i].now, cfg)
    requires w in Due(states[i].app, WindowFloor(steps[i].now, cfg.windowMs))
    ensures Under(w, EdgeOf(states[i + 1]))
    ensures w in states[i + 1].app.windows ==> states[i + 1].app.windows[w] == states[i].app.windows[w]
  {
    RunKeepsLedger(states, steps, topic, cfg, i);
    assert LeadsAt(states, steps, i, topic, cfg);
    TickThins(states[i], steps[i].now, steps[i].scripts, steps[i].commit, topic, cfg);
  }

  /** Main: a window that a close tried to emit, kept after a failed flush or not, lies below the
      boundary from then on: for the rest of the process any later event of it is late, and if it
      is still open it holds exactly what it held at the close. */
  lemma FailedWindowIsClosed(states: seq<System>, steps: seq<Step>, topic: Topic, cfg: Config, i: nat, j: nat, w: int, e: Event)
    requires Setting(topic, cfg) && Forward(cfg) && IsRun(states, steps, topic, cfg) && i < j < |states|
    requires forall k | i <= k < j :: !steps[k].Restart?
    requires steps[i].Tick? && BoundaryReached(states[i].app, steps[i].now, cfg)
    requires w in Due(states[i].app, WindowFloor(steps[i].now, cfg.windowMs))
    requires states[j].phase.Running? && WindowFloor(EventTs(e), cfg.windowMs) == w
    ensures IsLate(states[j].app, WindowFloor(EventTs(e), cfg.windowMs))
    ensures w in states[j].app.windows ==> states[j].app.windows[w] == states[i].app.windows[w]
  {
    RunCloses(states, steps, topic, cfg, i, w);
    ClosedWindowsAreFrozen(states, steps, topic, cfg, i + 1, j);
    assert Under(w, EdgeOf(states[j]));
  }

  /** Main: a process counts as emitted exactly the windows it has released, each once. */
  lemma ReleasedWindowsAreCounted(states: seq<System>, steps: seq<Step>, topic: Topic, cfg: Config, i: nat)
    requires Setting(topic, cfg) && Forward(cfg) && IsRun(states, steps, topic, cfg) && i < |states|
    ensures states[i].app.stats.windows == |states[i].done|
  {
    RunKeepsInv(states, steps, topic, cfg, i);
  }

  // ---- Commits ----

  lemma TickCommitsForward(s: System, now: int, scripts: Scripts, outcome: CommitOutcome, topic: Topic, cfg: Config)
    requires Setting(topic, cfg) && Forward(cfg) && Inv(s, topic, cfg) && BoundaryReached(s.app, now, cfg)
    requires Enabled(s, Tick(now, scripts, outcome), topic, cfg)
    ensures Behind(s.broker.committed, ApplyTick(s, now, scripts, outcome, cfg).broker.committed)
  {
    var cutoff := WindowFloor(now, cfg.windowMs);
    BoundaryHolds(s.app, now, cfg);
    RoundEmitExtends(s, Due(s.app, cutoff), scripts, outcome, topic, Below(cutoff), cfg.windowMs);
  }

  /** Main: no step, not even a crash, moves a committed offset backwards. */
  lemma CommittedNeverRegresses(s: System, step: Step, topic: Topic, cfg: Config)
    requires Setting(topic, cfg) && Forward(cfg)
    requires Inv(s, topic, cfg) && Enabled(s, step, topic, cfg)
    ensures Behind(s.broker.committed, Apply(s, step, topic, cfg).broker.committed)
  {
    match step
    case Poll(p, o) => PollFrame(s, p, o, topic, cfg.windowMs);
    case Rewind(_) =>
    case Restart(_, _) =>
    case Tick(now, scripts, outcome) =>
      if BoundaryReached(s.app, now, cfg) { TickCommitsForward(s, now, scripts, outcome, topic, cfg); }
    case Shutdown(scripts, outcome) =>
      RoundEmitExtends(s, s.app.windows.Keys, scripts, outcome, topic, Everything, cfg.windowMs);
  }

  lemma RunCommitsForward(states: seq<System>, steps: seq<Step>, topic: Topic, cfg: Config, k: nat)
    requires Setting(topic, cfg) && Forward(cfg) && IsRun(states, steps, topic, cfg) && k < |steps|
    ensures Behind(states[k].broker.committed, states[k + 1].broker.committed)
  {
    RunKeepsInv(states, steps, topic, cfg, k);
    assert LeadsAt(states, steps, k, topic, cfg);
    CommittedNeverRegresses(states[k], steps[k], topic, cfg);
  }

  /** Main: over a whole run committed offsets never fall. */
  lemma {:induction false} CommitsAreMonotone(states: seq<System>, steps: seq<Step>, topic: Topic, cfg: Config, i: nat, j: nat)
    requires Setting(topic, cfg) && Forward(cfg) && IsRun(states, steps, topic, cfg) && i <= j < |states|
    ensures Behind(states[i].broker.committed, states[j].broker.committed)
    decreases j - i
  {
    if i < j {
      CommitsAreMonotone(states, steps, topic, cfg, i, j - 1);
      RunCommitsForward(states, steps, topic, cfg, j - 1);
    }
  }

  /** Main: at every point of every run, whatever the grace, what is committed lies between the
      offset the process started from and the last consumed one plus one. */
  lemma CommittedIsBounded(states: seq<System>, steps: seq<Step>, topic: Topic, cfg: Config, i: nat, p: int)
    requires Setting(topic, cfg) && IsRun(states, steps, topic, cfg) && i < |states|
    requires p in states[i].broker.committed
    ensures Start(states[i], p) <= states[i].broker.committed[p]
    ensures p in states[i].app.lastOffset ==> states[i].broker.committed[p] <= states[i].app.lastOffset[p] + 1
    ensures p !in states[i].app.lastOffset ==> states[i].broker.committed[p] == Start(states[i], p)
  {
    RunKeepsLedger(states, steps, topic, cfg, i);
  }

  /** No message held in an open window lies below its partition's committed offset. */
  ghost predicate HeldUncommitted(s: System) {
    forall w, id: Id | HeldAt(s, id, w) && id.partition in s.broker.committed ::
      s.broker.committed[id.partition] <= id.offset
  }

  lemma CommittedIsNotHeld(states: seq<System>, steps: seq<Step>, topic: Topic, cfg: Config, i: nat)
    requires Setting(topic, cfg) && Forward(cfg) && IsRun(states, steps, topic, cfg) && i < |states|
    ensures HeldUncommitted(states[i])
  {
    RunKeepsInv(states, steps, topic, cfg, i);
    forall w, id: Id | HeldAt(states[i], id, w) && id.partition in states[i].broker.committed
      ensures states[i].broker.committed[id.partition] <= id.offset
    {
      assert BufferedAt(states[i], id, w);
    }
  }

  // ---- Bookkeeping ----

  ghost predicate IsBuffered(app: App, p: int, o: int, w: int) {
    p in app.buffered && o in app.buffered[p] && app.buffered[p][o] == w
  }

  ghost predicate IsListed(app: App, p: int, o: int, w: int) {
    w in app.windowOffsets && p in app.windowOffsets[w] && o in app.windowOffsets[w][p]
  }

  lemma ListedIffHeld(s: System, p: int, o: int, w: int)
    requires KeysAgree(s) && OffsetsAgree(s)
    ensures IsListed(s.app, p, o, w) <==> HeldAt(s, Id(p, o), w)
  {
    if w in s.held { OffsetsInMembers(s.held[w], p); }
  }

  lemma BufferedIffListed(s: System, p: int, o: int, w: int)
    requires KeysAgree(s) && OffsetsAgree(s) && BufferAgrees(s)
    ensures IsBuffered(s.app, p, o, w) <==> IsListed(s.app, p, o, w)
  {
    ListedIffHeld(s, p, o, w);
    assert BufferedAt(s, Id(p, o), w) <==> HeldAt(s, Id(p, o), w);
  }

  /** Main: at every point of every run the four dictionaries agree. The open windows are those
      with offsets, and an offset is buffered for a window exactly when it is listed under it. */
  lemma BookkeepingAgrees(states: seq<System>, steps: seq<Step>, topic: Topic, cfg: Config, i: nat)
    requires Setting(topic, cfg) && IsRun(states, steps, topic, cfg) && i < |states|
    ensures states[i].app.windows.Keys == states[i].app.windowOffsets.Keys
    ensures forall p, o, w :: IsBuffered(states[i].app, p, o, w) <==> IsListed(states[i].app, p, o, w)
  {
    RunKeepsLedger(states, steps, topic, cfg, i);
    forall p, o, w ensures IsBuffered(states[i].app, p, o, w) <==> IsListed(states[i].app, p, o, w) {
      BufferedIffListed(states[i], p, o, w);
    }
  }

  /** The number of offsets listed under one window. */
  ghost function Listed(perPartition: map<int, seq<int>>): nat {
    if perPartition == map[] then 0
    else
      var p := Pick(perPartition.Keys);
      |perPartition[p]| + Listed(perPartition - {p})
  }

  lemma {:induction false} ListedRemove(perPartition: map<int, seq<int>>, p: int)
    requires p in perPartition
    ensures Listed(perPartition) == |perPartition[p]| + Listed(perPartition - {p})
  {
    var q := Pick(perPartition.Keys);
    if q != p {
      ListedRemove(perPartition - {q}, p);
      ListedRemove(perPartition - {p}, q);
      assert perPartition - {q} - {p} == perPartition - {p} - {q};
    }
  }

  function ByPartition(ids: seq<Id>): map<int, seq<int>> {
    if ids == [] then map[]
    else AppendOffset(ByPartition(ids[..|ids| - 1]), ids[|ids| - 1].partition, ids[|ids| - 1].offset)
  }

  lemma {:induction false} ListedIsLength(ids: seq<Id>)
    ensures OffsetsListed(ByPartition(ids), ids)
    ensures Listed(ByPartition(ids)) == |ids|
  {
    if ids != [] {
      var before, id := ids[..|ids| - 1], ids[|ids| - 1];
      ListedIsLength(before);
      assert before + [id] == ids && Id(id.partition, id.offset) == id;
      ListedAfterAppend(ByPartition(before), before, id.partition, id.offset);
      var prev, next, p := ByPartition(before), ByPartition(ids), id.partition;
      ListedRemove(next, p);
      assert next - {p} == prev - {p};
      if p in prev { ListedRemove(prev, p); }
      else { assert prev - {p} == prev; }
    }
  }

  lemma ListingUnique(a: map<int, seq<int>>, b: map<int, seq<int>>, ids: seq<Id>)
    requires OffsetsListed(a, ids) && OffsetsListed(b, ids)
    ensures a == b
  {
    forall p ensures p in a <==> p in b { }
    forall p | p in a ensures a[p] == b[p] { }
  }

  lemma HeldCounts(s: System, topic: Topic, windowMs: int, w: int)
    requires windowMs > 0 && w in s.held && ContentsAgree(s, topic, windowMs) && OffsetsAgree(s)
    ensures CountAll(s.app.windows[w]) == Listed(s.app.windowOffsets[w]) == |s.held[w]|
  {
    var ids := s.held[w];
    CountAllOfFold(EventsOf(topic, ids));
    ListedIsLength(ids);
    ListingUnique(s.app.windowOffsets[w], ByPartition(ids), ids);
  }

  /** Main: at every point of every run, the event counts of an open window's groups add up to the
      number of offsets it holds. */
  lemma WindowCountsItsOffsets(states: seq<System>, steps: seq<Step>, topic: Topic, cfg: Config, i: nat, w: int)
    requires Setting(topic, cfg) && IsRun(states, steps, topic, cfg) && i < |states| && w in states[i].app.windows
    ensures w in states[i].app.windowOffsets
    ensures CountAll(states[i].app.windows[w]) == Listed(states[i].app.windowOffsets[w])
  {
    RunKeepsLedger(states, steps, topic, cfg, i);
    HeldCounts(states[i], topic, cfg.windowMs, w);
  }

  /** The events counted in open windows. */
  ghost function OpenEvents(windows: map<int, Groups>): nat {
    if windows == map[] then 0
    else
      var w := Pick(windows.Keys);
      CountAll(windows[w]) + OpenEvents(windows - {w})
  }

  lemma {:induction false} OpenEventsAreHeld(windows: map<int, Groups>, held: map<int, seq<Id>>)
    requires windows.Keys == held.Keys
    requires forall w | w in windows :: CountAll(windows[w]) == |held[w]|
    ensures OpenEvents(windows) == Sizes(held)
  {
    if windows != map[] {
      var w := Pick(windows.Keys);
      OpenEventsAreHeld(windows - {w}, held - {w});
      SizesRemove(held, w);
    } else {
      assert held == map[];
    }
  }

  /** Main: at every point of a run, the messages this process has polled are exactly those
      counted in open windows, counted in released windows, discarded as late, or unusable. */
  lemma MessagesAreConserved(states: seq<System>, steps: seq<Step>, topic: Topic, cfg: Config, i: nat)
    requires Setting(topic, cfg) && IsRun(states, steps, topic, cfg) && i < |states|
    ensures var s := states[i];
            s.consumed == OpenEvents(s.app.windows) + s.app.stats.events + s.app.stats.discarded + s.skipped
  {
    RunKeepsLedger(states, steps, topic, cfg, i);
    var s := states[i];
    forall w | w in s.app.windows ensures CountAll(s.app.windows[w]) == |s.held[w]| {
      HeldCounts(s, topic, cfg.windowMs, w);
    }
    OpenEventsAreHeld(s.app.windows, s.held);
  }

  // ---- The boundary ----

  /** Main: the boundary always advances exactly when the grace is not negative. */
  lemma BoundaryAdvancesIffGrace(cfg: Config)
    requires cfg.windowMs > 0
    ensures cfg.graceMs >= 0
       <==> (forall app: App, now | app.currentWindowStart % cfg.windowMs == 0 && BoundaryReached(app, now, cfg) ::
               app.currentWindowStart < WindowFloor(now, cfg.windowMs))
  {
    if cfg.graceMs >= 0 {
      forall app: App, now | app.currentWindowStart % cfg.windowMs == 0 && BoundaryReached(app, now, cfg)
        ensures app.currentWindowStart < WindowFloor(now, cfg.windowMs)
      {
        BoundaryAdvances(app, now, cfg);
      }
    } else {
      var app := App(map[], map[], map[], map[], Stats(0, 0, 0, 0), None, 0);
      var now := cfg.windowMs + cfg.graceMs;
      assert BoundaryReached(app, now, cfg);
      if 0 < WindowFloor(now, cfg.windowMs) {
        AlignedBelow(0, WindowFloor(now, cfg.windowMs), cfg.windowMs);
        assert false;
      }
    }
  }

  /** Main: the boundary never moves back, whatever the clock does, exactly when the grace is at
      least minus one window. */
  lemma BoundaryHoldsIffForward(cfg: Config)
    requires cfg.windowMs > 0
    ensures Forward(cfg)
       <==> (forall app: App, now | app.currentWindowStart % cfg.windowMs == 0 && BoundaryReached(app, now, cfg) ::
               app.currentWindowStart <= WindowFloor(now, cfg.windowMs))
  {
    if Forward(cfg) {
      forall app: App, now | app.currentWindowStart % cfg.windowMs == 0 && BoundaryReached(app, now, cfg)
        ensures app.currentWindowStart <= WindowFloor(now, cfg.windowMs)
      {
        BoundaryHolds(app, now, cfg);
      }
    } else {
      var app := App(map[], map[], map[], map[], Stats(0, 0, 0, 0), None, 0);
      var now := cfg.windowMs + cfg.graceMs;
      assert BoundaryReached(app, now, cfg);
    }
  }

  /** An open window starts at a multiple of the window size. */
  lemma OpenWindowIsAligned(s: System, topic: Topic, windowMs: int, w: int)
    requires windowMs > 0 && KeysAgree(s) && ContentsAgree(s, topic, windowMs) && w in s.app.windows
    ensures w % windowMs == 0
  {
    assert IdsInWindow(topic, s.held[w], w, windowMs);
    assert s.held[w][0] in s.held[w];
  }

  lemma CloseReleasesOnlyDue(s: System, step: Step, topic: Topic, cfg: Config)
    requires Setting(topic, cfg) && Ledger(s, topic, cfg) && Enabled(s, step, topic, cfg)
    requires step.Tick? && BoundaryReached(s.app, step.now, cfg)
    ensures Apply(s, step, topic, cfg).done <= s.done + Due(s.app, WindowFloor(step.now, cfg.windowMs))
  {
    RoundEmitExtends(s, Due(s.app, WindowFloor(step.now, cfg.windowMs)), step.scripts, step.commit, topic, Untracked, cfg.windowMs);
  }

  /** Main: whatever the grace, a close that raises nothing moves the boundary to an aligned instant
      no later than the clock, and past the old window's start if the grace is not negative; every
      window it releases had ended by the clock value read. */
  lemma ReleasedWindowsHadEnded(states: seq<System>, steps: seq<Step>, topic: Topic, cfg: Config, i: nat, w: int)
    requires Setting(topic, cfg) && IsRun(states, steps, topic, cfg) && i < |steps|
    requires steps[i].Tick? && BoundaryReached(states[i].app, steps[i].now, cfg)
    ensures var s, next, now := states[i], states[i + 1], steps[i].now;
            && (next.phase.Running? ==>
                  next.app.closedThrough.Some? && next.app.closedThrough.value % cfg.windowMs == 0
                  && next.app.closedThrough.value <= now < next.app.closedThrough.value + cfg.windowMs
                  && (cfg.graceMs >= 0 ==> s.app.currentWindowStart < next.app.closedThrough.value))
            && (w in next.done && w !in s.done ==> w + cfg.windowMs <= now)
  {
    var s, cutoff := states[i], WindowFloor(steps[i].now, cfg.windowMs);
    RunKeepsLedger(states, steps, topic, cfg, i);
    assert LeadsAt(states, steps, i, topic, cfg);
    if cfg.graceMs >= 0 { BoundaryAdvances(s.app, steps[i].now, cfg); }
    CloseReleasesOnlyDue(s, steps[i], topic, cfg);
    if w in Due(s.app, cutoff) {
      OpenWindowIsAligned(s, topic, cfg.windowMs, w);
      AlignedBelow(w, cutoff, cfg.windowMs);
    }
  }
}
