/**
 * Whole runs of the DNS app: the app's memory, the broker, the consumer position and the
 * source topic, stepped through any interleaving of polls, boundary checks, failed flushes,
 * skipped or failed commits, rewinds, shutdowns, crashes and restarts.
 *
 * Fields the program does not store (`held`, `late`, `batches`, `done`, `consumed`,
 * `skipped`) record history, so that invariants can speak about it.
 */
module StreamSystem {
  import opened Prelude
  import opened Aggregation
  import opened StreamSpec

  /** A message of the source topic. */
  datatype Id = Id(partition: int, offset: int)

  /** The source topic's messages, including those not yet written. */
  type Topic = map<Id, Payload>

  ghost predicate WellFormed(topic: Topic) {
    forall id | id in topic :: id.offset >= 0
  }

  /** A released window: the messages folded into it, in order, and the rows whose produce
      error was swallowed in the flush that released it. */
  datatype Batch = Batch(window: int, ids: seq<Id>, swallowed: set<Row>)

  /** Polling and closing; unwinding after an exception; process gone. */
  datatype Phase = Running | Stopping | Stopped

  datatype System = System(
    app: App, broker: Broker, phase: Phase,
    start: OffsetMap,             // offsets committed when this process started
    pos: OffsetMap,               // next offset the consumer will fetch, once assigned
    held: map<int, seq<Id>>,      // messages folded into each open window
    late: set<Id>,                // messages ever discarded as late
    batches: set<Batch>,          // windows ever released
    done: set<int>,               // windows this process has released
    consumed: nat, skipped: nat)  // messages this process has polled, and could not use

  function Start(s: System, p: int): int { if p in s.start then s.start[p] else 0 }

  function Position(s: System, p: int): int { if p in s.pos then s.pos[p] else Start(s, p) }

  function Boot(now: int, committed: OffsetMap, sink: set<Row>, late: set<Id>, batches: set<Batch>,
                windowMs: int): System
    requires windowMs > 0
  {
    System(InitialApp(now, windowMs), Broker({}, sink, {}, committed), Running,
           committed, map[], map[], late, batches, {}, 0, 0)
  }

  // ---- Steps ----

  datatype Step =
    | Poll(partition: int, offset: int)
    | Tick(now: int, scripts: Scripts, commit: CommitOutcome)
    | Rewind(partition: int)
    | Shutdown(scripts: Scripts, commit: CommitOutcome)
    | Restart(now: int, delivered: set<Row>)

  ghost predicate ScriptsCover(app: App, due: set<int>, scripts: Scripts) {
    forall w | w in due && w in app.windows :: Covers(ScriptFor(scripts, w).attempts, app.windows[w].Keys)
  }

  /** `offset` is the next message of its partition at or after the consumer position. */
  ghost predicate IsNext(s: System, topic: Topic, partition: int, offset: int) {
    && Id(partition, offset) in topic
    && Position(s, partition) <= offset
    && (forall id | id in topic && id.partition == partition && Position(s, partition) <= id.offset ::
          offset <= id.offset)
  }

  ghost predicate Enabled(s: System, step: Step, topic: Topic, cfg: Config)
    requires cfg.windowMs > 0
  {
    match step
    case Poll(p, o) => s.phase.Running? && IsNext(s, topic, p, o)
    case Tick(now, scripts, _) =>
      && s.phase.Running?
      && ScriptsCover(s.app, Due(s.app, WindowFloor(now, cfg.windowMs)), scripts)
    case Rewind(_) => s.phase.Running?
    case Shutdown(scripts, _) => !s.phase.Stopped? && ScriptsCover(s.app, s.app.windows.Keys, scripts)
    case Restart(_, _) => true
  }

  ghost function EventOf(topic: Topic, id: Id): Event {
    if id in topic && topic[id].Decoded? then topic[id].event else map[]
  }

  ghost function EventsOf(topic: Topic, ids: seq<Id>): seq<Event> {
    seq(|ids|, i requires 0 <= i < |ids| => EventOf(topic, ids[i]))
  }

  ghost function ApplyPoll(s: System, p: int, o: int, topic: Topic, windowMs: int): System
    requires windowMs > 0 && Id(p, o) in topic
  {
    var id := Id(p, o);
    var next := s.(app := Consume(s.app, p, o, topic[id], windowMs),
                   pos := s.pos[p := o + 1],
                   consumed := s.consumed + 1);
    match topic[id]
    case Undecodable => next.(skipped := s.skipped + 1)
    case Null => next.(skipped := s.skipped + 1)
    case Decoded(e) =>
      var w := WindowFloor(EventTs(e), windowMs);
      if IsLate(s.app, w) then next.(late := s.late + {id})
      else next.(held := s.held[w := (if w in s.held then s.held[w] else []) + [id]])
  }

  datatype Round = Round(sys: System, releasedAny: bool, raised: bool)

  function EmitView(r: Round): EmitState {
    EmitState(r.sys.app, r.sys.broker, r.releasedAny, r.raised)
  }

  /** The rows of a window whose produce error was swallowed. */
  function SwallowedRows(groups: Groups, attempts: seq<Attempt>, w: int, windowMs: int): set<Row> {
    set a | a in attempts && a.outcome.Swallowed? && a.group in groups ::
      RowOf(a.group, groups[a.group], w, windowMs)
  }

  ghost function RoundOne(r: Round, w: int, script: FlushScript, windowMs: int): Round {
    var st := EmitOne(EmitView(r), w, script, windowMs);
    var s := r.sys.(app := st.app, broker := st.broker);
    var next :=
      if w in r.sys.app.windows && w !in st.app.windows && w in r.sys.held
      then s.(held := s.held - {w},
              batches := s.batches + {Batch(w, s.held[w], SwallowedRows(r.sys.app.windows[w], script.attempts, w, windowMs))},
              done := s.done + {w})
      else s;
    Round(next, st.releasedAny, st.raised)
  }

  ghost function RoundAll(r: Round, ws: seq<int>, scripts: Scripts, windowMs: int): Round {
    if ws == [] then r
    else
      var w := ws[|ws| - 1];
      RoundOne(RoundAll(r, ws[..|ws| - 1], scripts, windowMs), w, ScriptFor(scripts, w), windowMs)
  }

  ghost function RoundCommit(r: Round, outcome: CommitOutcome): Round {
    var st := Commit(EmitView(r), outcome);
    Round(r.sys.(app := st.app, broker := st.broker), st.releasedAny, st.raised)
  }

  ghost function RoundEmit(s: System, due: set<int>, scripts: Scripts, outcome: CommitOutcome, windowMs: int): Round {
    var r := RoundAll(Round(s, false, false), SortedOf(due), scripts, windowMs);
    if r.raised || !r.releasedAny then r else RoundCommit(r, outcome)
  }

  ghost function ApplyTick(s: System, now: int, scripts: Scripts, outcome: CommitOutcome, cfg: Config): System
    requires cfg.windowMs > 0
  {
    if !BoundaryReached(s.app, now, cfg) then s
    else
      var cutoff := WindowFloor(now, cfg.windowMs);
      var r := RoundEmit(s, Due(s.app, cutoff), scripts, outcome, cfg.windowMs);
      if r.raised then r.sys.(phase := Stopping)
      else r.sys.(app := r.sys.app.(closedThrough := Some(cutoff), currentWindowStart := cutoff))
  }

  ghost function ApplyRewind(s: System, p: int): System {
    s.(pos := s.pos[p := if p in s.broker.committed then s.broker.committed[p] else 0])
  }

  ghost function ApplyShutdown(s: System, scripts: Scripts, outcome: CommitOutcome, cfg: Config): System {
    RoundEmit(s, s.app.windows.Keys, scripts, outcome, cfg.windowMs).sys.(phase := Stopped)
  }

  ghost function ApplyRestart(s: System, now: int, delivered: set<Row>, cfg: Config): System
    requires cfg.windowMs > 0
  {
    Boot(now, s.broker.committed, s.broker.sink + s.broker.queue * delivered, s.late, s.batches, cfg.windowMs)
  }

  ghost function Apply(s: System, step: Step, topic: Topic, cfg: Config): System
    requires cfg.windowMs > 0 && Enabled(s, step, topic, cfg)
  {
    match step
    case Poll(p, o) => ApplyPoll(s, p, o, topic, cfg.windowMs)
    case Tick(now, scripts, outcome) => ApplyTick(s, now, scripts, outcome, cfg)
    case Rewind(p) => ApplyRewind(s, p)
    case Shutdown(scripts, outcome) => ApplyShutdown(s, scripts, outcome, cfg)
    case Restart(now, delivered) => ApplyRestart(s, now, delivered, cfg)
  }

  /** The system steps do to memory and broker exactly what the app's own functions do. */
  lemma {:induction false} RoundAllMatches(r: Round, ws: seq<int>, scripts: Scripts, windowMs: int)
    ensures EmitView(RoundAll(r, ws, scripts, windowMs)) == EmitAll(EmitView(r), ws, scripts, windowMs)
  {
    if ws != [] { RoundAllMatches(r, ws[..|ws| - 1], scripts, windowMs); }
  }

  lemma {:induction false} RoundAllPhase(r: Round, ws: seq<int>, scripts: Scripts, windowMs: int)
    ensures RoundAll(r, ws, scripts, windowMs).sys.phase == r.sys.phase
  {
    if ws != [] { RoundAllPhase(r, ws[..|ws| - 1], scripts, windowMs); }
  }

  lemma TickMatches(s: System, now: int, scripts: Scripts, outcome: CommitOutcome, cfg: Config)
    requires cfg.windowMs > 0
    ensures var st := MaybeClose(s.app, s.broker, now, scripts, outcome, cfg);
            var next := ApplyTick(s, now, scripts, outcome, cfg);
            next.app == st.app && next.broker == st.broker
            && (s.phase.Running? ==> (st.raised <==> !next.phase.Running?))
  {
    var cutoff := WindowFloor(now, cfg.windowMs);
    RoundAllMatches(Round(s, false, false), SortedOf(Due(s.app, cutoff)), scripts, cfg.windowMs);
    RoundAllPhase(Round(s, false, false), SortedOf(Due(s.app, cutoff)), scripts, cfg.windowMs);
  }

  lemma ShutdownMatches(s: System, scripts: Scripts, outcome: CommitOutcome, cfg: Config)
    ensures var st := FinalFlush(s.app, s.broker, scripts, outcome, cfg.windowMs);
            var next := ApplyShutdown(s, scripts, outcome, cfg);
            next.app == st.app && next.broker == st.broker
  {
    RoundAllMatches(Round(s, false, false), SortedOf(s.app.windows.Keys), scripts, cfg.windowMs);
  }

  // ---- The invariant ----

  /** Which windows can no longer receive events: below the boundary while running, all of
      them once the loop has been left. Untracked makes no such claim: it is for settings
      whose boundary may move backwards. */
  datatype Edge = Nothing | Below(cut: int) | Everything | Untracked

  predicate Under(w: int, edge: Edge) {
    match edge
    case Nothing => false
    case Below(c) => w < c
    case Everything => true
    case Untracked => true
  }

  function EdgeOf(s: System): (edge: Edge)
    ensures !edge.Untracked?
  {
    if !s.phase.Running? then Everything
    else if s.app.closedThrough.None? then Nothing
    else Below(s.app.closedThrough.value)
  }

  ghost predicate HeldAt(s: System, id: Id, w: int) { w in s.held && id in s.held[w] }

  predicate Pending(s: System, id: Id) {
    id.partition in s.app.buffered && id.offset in s.app.buffered[id.partition]
  }

  ghost predicate BufferedAt(s: System, id: Id, w: int) {
    Pending(s, id) && s.app.buffered[id.partition][id.offset] == w
  }

  /** A message the app may forget: unusable, discarded as late, or in a released window. */
  ghost predicate Settled(s: System, topic: Topic, id: Id) {
    id in topic && (!topic[id].Decoded? || id in s.late || exists b :: b in s.batches && id in b.ids)
  }

  predicate Reached(s: System, id: Id) {
    id.offset < Start(s, id.partition)
    || (id.partition in s.app.lastOffset && id.offset <= s.app.lastOffset[id.partition])
  }

  function OffsetsIn(ids: seq<Id>, p: int): seq<int> {
    if ids == [] then []
    else OffsetsIn(ids[..|ids| - 1], p) + if ids[|ids| - 1].partition == p then [ids[|ids| - 1].offset] else []
  }

  ghost predicate KeysAgree(s: System) {
    s.app.windows.Keys == s.app.windowOffsets.Keys == s.held.Keys
  }

  ghost predicate IdsInWindow(topic: Topic, ids: seq<Id>, w: int, windowMs: int)
    requires windowMs > 0
  {
    && ids != []
    && forall id | id in ids :: id in topic && topic[id].Decoded? && WindowFloor(EventTs(topic[id].event), windowMs) == w
  }

  /** Each open window holds the fold, hence the group-by, of the messages it holds. */
  ghost predicate ContentsAgree(s: System, topic: Topic, windowMs: int)
    requires windowMs > 0
  {
    forall w | w in s.held ::
      && IdsInWindow(topic, s.held[w], w, windowMs)
      && w in s.app.windows
      && s.app.windows[w] == FoldGroups(EventsOf(topic, s.held[w]))
  }

  ghost predicate OffsetsListed(perPartition: map<int, seq<int>>, ids: seq<Id>) {
    forall p ::
      && (p in perPartition <==> OffsetsIn(ids, p) != [])
      && (p in perPartition ==> perPartition[p] == OffsetsIn(ids, p))
  }

  ghost predicate OffsetsAgree(s: System) {
    forall w | w in s.held :: w in s.app.windowOffsets && OffsetsListed(s.app.windowOffsets[w], s.held[w])
  }

  ghost predicate BufferAgrees(s: System) {
    forall id, w :: BufferedAt(s, id, w) <==> HeldAt(s, id, w)
  }

  ghost predicate PendingInRange(s: System) {
    forall id | Pending(s, id) ::
      && id.partition in s.app.lastOffset
      && Start(s, id.partition) <= id.offset <= s.app.lastOffset[id.partition]
  }

  /** Nothing below a committed offset is held. */
  ghost predicate PendingUncommitted(s: System) {
    forall id | Pending(s, id) && id.partition in s.broker.committed ::
      s.broker.committed[id.partition] <= id.offset
  }

  /** Everything below a committed offset is settled: the heart of at-least-once. */
  ghost predicate CommittedSettled(s: System, topic: Topic) {
    forall id | id in topic && id.partition in s.broker.committed && id.offset < s.broker.committed[id.partition] ::
      Settled(s, topic, id)
  }

  ghost predicate PositionsInRange(s: System) {
    && (forall p | p in s.start :: p in s.broker.committed)
    && (forall p | p in s.broker.committed :: Start(s, p) <= s.broker.committed[p])
    && (forall p | p in s.broker.committed && p !in s.app.lastOffset ::
          p in s.start && s.broker.committed[p] == s.start[p])
    && (forall p | p in s.broker.committed && p in s.app.lastOffset ::
          s.broker.committed[p] <= s.app.lastOffset[p] + 1)
    && (forall p | p in s.app.lastOffset :: 0 <= s.app.lastOffset[p] && Start(s, p) <= s.app.lastOffset[p])
    && (forall p {:trigger Position(s, p)} ::
          && Start(s, p) <= Position(s, p)
          && (if p in s.app.lastOffset then Position(s, p) <= s.app.lastOffset[p] + 1 else Position(s, p) == Start(s, p)))
  }

  /** No message is skipped over: what lies behind the consumer is settled or still held. */
  ghost predicate Accounted(s: System, topic: Topic) {
    forall id | id in topic && Reached(s, id) :: Settled(s, topic, id) || Pending(s, id)
  }

  /** A usable message this process has polled and no longer holds belongs to a closed window. */
  ghost predicate ForgottenIsClosed(s: System, topic: Topic, edge: Edge, windowMs: int)
    requires windowMs > 0
  {
    forall id | id in topic && topic[id].Decoded? && Start(s, id.partition) <= id.offset && Reached(s, id) && !Pending(s, id) ::
      Under(WindowFloor(EventTs(topic[id].event), windowMs), edge)
  }

  ghost predicate SentAgrees(s: System, edge: Edge, windowMs: int) {
    forall r | r in s.broker.sent ::
      var w := r.record.windowStart;
      && Under(w, edge)
      && (w in s.app.windows ==> r.group in s.app.windows[w] && r == RowOf(r.group, s.app.windows[w][r.group], w, windowMs))
  }

  ghost predicate RowsFunctional(rows: set<Row>) {
    forall r, q | r in rows && q in rows && r.group == q.group && r.record.windowStart == q.record.windowStart :: r == q
  }

  ghost predicate DoneIsClosed(s: System, edge: Edge) {
    forall w | w in s.done :: w !in s.app.windows && Under(w, edge)
  }

  ghost predicate WindowsCounted(s: System) { s.app.stats.windows == |s.done| }

  /** A released window's rows are in the sink, save those whose produce error was swallowed;
      each row is the group-by of the messages folded into that window. */
  ghost predicate BatchDelivered(b: Batch, sink: set<Row>, topic: Topic, windowMs: int)
    requires windowMs > 0
  {
    && IdsInWindow(topic, b.ids, b.window, windowMs)
    && var groups := FoldGroups(EventsOf(topic, b.ids));
       forall k | k in groups :: RowOf(k, groups[k], b.window, windowMs) in sink + b.swallowed
  }

  ghost predicate BatchesDelivered(s: System, topic: Topic, windowMs: int)
    requires windowMs > 0
  {
    forall b | b in s.batches :: BatchDelivered(b, s.broker.sink, topic, windowMs)
  }

  ghost predicate QueueAgrees(s: System) {
    s.broker.queue <= s.broker.sent <= s.broker.queue + s.broker.sink
  }

  ghost function Sizes(held: map<int, seq<Id>>): nat {
    if held == map[] then 0
    else
      var w := Pick(held.Keys);
      |held[w]| + Sizes(held - {w})
  }

  /** Every polled message is open, counted in a released window, discarded or skipped. */
  ghost predicate Conserved(s: System) {
    s.consumed == Sizes(s.held) + s.app.stats.events + s.app.stats.discarded + s.skipped
  }

  ghost predicate BoundaryAligned(s: System, windowMs: int)
    requires windowMs > 0
  {
    && s.app.currentWindowStart % windowMs == 0
    && (s.app.closedThrough.Some? ==> s.app.closedThrough.value == s.app.currentWindowStart)
  }

  /** What follows from closed windows staying closed. */
  ghost predicate Frozen(s: System, topic: Topic, edge: Edge, windowMs: int)
    requires windowMs > 0
  {
    && PendingUncommitted(s)
    && ForgottenIsClosed(s, topic, edge, windowMs)
    && SentAgrees(s, edge, windowMs)
    && RowsFunctional(s.broker.sent)
    && DoneIsClosed(s, edge)
    && WindowsCounted(s)
  }

  ghost predicate Core(s: System, topic: Topic, edge: Edge, windowMs: int)
    requires windowMs > 0
  {
    && KeysAgree(s)
    && ContentsAgree(s, topic, windowMs)
    && OffsetsAgree(s)
    && BufferAgrees(s)
    && PendingInRange(s)
    && PositionsInRange(s)
    && Accounted(s, topic)
    && CommittedSettled(s, topic)
    && BatchesDelivered(s, topic, windowMs)
    && QueueAgrees(s)
    && Conserved(s)
    && BoundaryAligned(s, windowMs)
    && (edge.Untracked? || Frozen(s, topic, edge, windowMs))
  }

  /** The part of the invariant that needs nothing of the grace. */
  ghost predicate Ledger(s: System, topic: Topic, cfg: Config)
    requires cfg.windowMs > 0
  {
    Core(s, topic, Untracked, cfg.windowMs)
  }

  ghost predicate Inv(s: System, topic: Topic, cfg: Config)
    requires cfg.windowMs > 0
  {
    Core(s, topic, EdgeOf(s), cfg.windowMs)
  }
}
