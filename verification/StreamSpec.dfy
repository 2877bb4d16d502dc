/**
 * The DNS app's transitions as functions on values: what one consumed message, one window
 * flush, one emission round, one offset commit and one boundary check do to the app's
 * dictionaries and to the broker. Everything the broker or the clock may decide is an argument.
 */
module StreamSpec {
  import opened Prelude
  import opened Aggregation

  /** What deserialising a message yields. */
  datatype Payload = Undecodable | Null | Decoded(event: Event)

  datatype Stats = Stats(windows: nat, aggregates: nat, events: nat, discarded: nat)

  type OffsetMap = map<int, int>

  /** The in-memory state of one process run. */
  datatype App = App(
    windows: map<int, Groups>,                     // window start -> group -> aggregate
    windowOffsets: map<int, map<int, seq<int>>>,   // window start -> partition -> offsets
    buffered: map<int, OffsetMap>,                 // partition -> offset -> window start
    lastOffset: OffsetMap,                         // partition -> highest consumed offset
    stats: Stats,
    closedThrough: Option<int>,
    currentWindowStart: int)

  /** The broker as this run sees it: rows queued in the producer, rows the sink topic holds,
      every row this run has handed to the producer, and the group's committed offsets. */
  datatype Broker = Broker(queue: set<Row>, sink: set<Row>, sent: set<Row>, committed: OffsetMap)

  function InitialApp(now: int, windowMs: int): App
    requires windowMs > 0
  {
    App(map[], map[], map[], map[], Stats(0, 0, 0, 0), None, WindowFloor(now, windowMs))
  }

  function Entry<K, V>(m: map<int, map<K, V>>, key: int): map<K, V> {
    if key in m then m[key] else map[]
  }

  // ---- One consumed message ----

  predicate IsLate(app: App, windowStart: int) {
    app.closedThrough.Some? && windowStart < app.closedThrough.value
  }

  function Track(app: App, partition: int, offset: int): App {
    var last := if partition in app.lastOffset then app.lastOffset[partition] else -1;
    app.(lastOffset := app.lastOffset[partition := Max(last, offset)])
  }

  function AppendOffset(perPartition: map<int, seq<int>>, partition: int, offset: int): map<int, seq<int>> {
    perPartition[partition := (if partition in perPartition then perPartition[partition] else []) + [offset]]
  }

  function Accept(app: App, partition: int, offset: int, e: Event, windowMs: int): App
    requires windowMs > 0
  {
    var w := WindowFloor(EventTs(e), windowMs);
    app.(windows := UpdateWindows(app.windows, e, windowMs),
         buffered := app.buffered[partition := Entry(app.buffered, partition)[offset := w]],
         windowOffsets := app.windowOffsets[w := AppendOffset(Entry(app.windowOffsets, w), partition, offset)])
  }

  function Consume(app: App, partition: int, offset: int, payload: Payload, windowMs: int): App
    requires windowMs > 0
  {
    var tracked := Track(app, partition, offset);
    match payload
    case Undecodable => tracked
    case Null => tracked
    case Decoded(e) =>
      if IsLate(app, WindowFloor(EventTs(e), windowMs))
      then tracked.(stats := tracked.stats.(discarded := tracked.stats.discarded + 1))
      else Accept(tracked, partition, offset, e, windowMs)
  }

  // ---- Producing one window ----

  /** How one `produce` call ends. After a full buffer the producer is flushed briefly and the
      call repeated; a second failure escapes the handler, any other error is swallowed.
      `unacked` lists the rows the brief flush leaves in the queue. */
  datatype ProduceOutcome =
    | Sent
    | SentAfterFlush(unacked: set<Row>)
    | RetryRaised(unacked: set<Row>)
    | Swallowed

  datatype Attempt = Attempt(group: Group, outcome: ProduceOutcome)

  /** One window's flush: the groups in dictionary order with their outcomes, and the rows
      still undelivered when the final flush times out. */
  datatype FlushScript = FlushScript(attempts: seq<Attempt>, unacked: set<Row>)

  /** The attempts visit every key exactly once. */
  ghost predicate Covers(attempts: seq<Attempt>, keys: set<Group>) {
    && (forall i | 0 <= i < |attempts| :: attempts[i].group in keys)
    && (forall i, j | 0 <= i < j < |attempts| :: attempts[i].group != attempts[j].group)
    && (forall k | k in keys :: exists i :: 0 <= i < |attempts| && attempts[i].group == k)
  }

  function Flush(broker: Broker, unacked: set<Row>): Broker {
    broker.(queue := broker.queue * unacked, sink := broker.sink + (broker.queue - unacked))
  }

  function Enqueue(broker: Broker, row: Row): Broker {
    broker.(queue := broker.queue + {row}, sent := broker.sent + {row})
  }

  datatype ProduceState = ProduceState(broker: Broker, produced: nat, raised: bool)

  function ProduceOne(st: ProduceState, a: Attempt, groups: Groups, w: int, windowMs: int): ProduceState {
    if st.raised || a.group !in groups then st
    else
      var row := RowOf(a.group, groups[a.group], w, windowMs);
      match a.outcome
      case Sent => ProduceState(Enqueue(st.broker, row), st.produced + 1, false)
      case SentAfterFlush(unacked) => ProduceState(Enqueue(Flush(st.broker, unacked), row), st.produced + 1, false)
      case RetryRaised(unacked) => ProduceState(Flush(st.broker, unacked), st.produced, true)
      case Swallowed => st
  }

  function ProduceAll(broker: Broker, attempts: seq<Attempt>, groups: Groups, w: int, windowMs: int): ProduceState {
    if attempts == [] then ProduceState(broker, 0, false)
    else ProduceOne(ProduceAll(broker, attempts[..|attempts| - 1], groups, w, windowMs),
                    attempts[|attempts| - 1], groups, w, windowMs)
  }

  // ---- Emission ----

  ghost function Released(buffered: map<int, OffsetMap>, held: map<int, seq<int>>): map<int, OffsetMap> {
    map p | p in buffered :: if p in held then buffered[p] - Elements(held[p]) else buffered[p]
  }

  ghost function ReleaseOffsets(app: App, w: int): App {
    app.(windowOffsets := app.windowOffsets - {w},
         buffered := Released(app.buffered, Entry(app.windowOffsets, w)))
  }

  datatype EmitState = EmitState(app: App, broker: Broker, releasedAny: bool, raised: bool)

  ghost function EmitOne(st: EmitState, w: int, script: FlushScript, windowMs: int): EmitState {
    if st.raised || w !in st.app.windows then st
    else
      var groups := st.app.windows[w];
      var r := ProduceAll(st.broker, script.attempts, groups, w, windowMs);
      if r.raised then st.(broker := r.broker, raised := true)
      else
        var flushed := Flush(r.broker, script.unacked);
        if flushed.queue != {} then st.(broker := flushed)
        else
          var s := st.app.stats;
          var closed := st.app.(windows := st.app.windows - {w},
                                stats := s.(windows := s.windows + 1,
                                            aggregates := s.aggregates + r.produced,
                                            events := s.events + CountAll(groups)));
          EmitState(ReleaseOffsets(closed, w), flushed, true, false)
  }

  type Scripts = map<int, FlushScript>

  function ScriptFor(scripts: Scripts, w: int): FlushScript {
    if w in scripts then scripts[w] else FlushScript([], {})
  }

  ghost function EmitAll(st: EmitState, ws: seq<int>, scripts: Scripts, windowMs: int): EmitState {
    if ws == [] then st
    else
      var w := ws[|ws| - 1];
      EmitOne(EmitAll(st, ws[..|ws| - 1], scripts, windowMs), w, ScriptFor(scripts, w), windowMs)
  }

  // ---- Offset commits ----

  /** The commit was stored, was refused for an illegal generation (a warning only), or raised
      another error; an error may still have reached the broker. */
  datatype CommitOutcome = Stored | Skipped | Failed(reachedBroker: bool)

  ghost function CommitPosition(app: App, partition: int): int
    requires partition in app.lastOffset
  {
    var pending := Entry(app.buffered, partition);
    if pending != map[] then MinOf(pending.Keys) else app.lastOffset[partition] + 1
  }

  ghost function CommitMap(app: App): OffsetMap {
    map p | p in app.lastOffset :: CommitPosition(app, p)
  }

  ghost function Commit(st: EmitState, outcome: CommitOutcome): EmitState {
    var offsets := CommitMap(st.app);
    if offsets == map[] then st
    else
      var stored := st.broker.(committed := st.broker.committed + offsets);
      match outcome
      case Stored => st.(broker := stored)
      case Skipped => st
      case Failed(reached) => st.(broker := if reached then stored else st.broker, raised := true)
  }

  ghost function Emit(app: App, broker: Broker, due: set<int>, scripts: Scripts, outcome: CommitOutcome,
                      windowMs: int): EmitState {
    var st := EmitAll(EmitState(app, broker, false, false), SortedOf(due), scripts, windowMs);
    if st.raised || !st.releasedAny then st else Commit(st, outcome)
  }

  // ---- The boundary check ----

  datatype Config = Config(windowMs: int, graceMs: int)

  predicate BoundaryReached(app: App, now: int, cfg: Config) {
    app.currentWindowStart + cfg.windowMs + cfg.graceMs <= now
  }

  ghost function Due(app: App, cutoff: int): set<int> {
    set w | w in app.windows && w < cutoff
  }

  ghost function MaybeClose(app: App, broker: Broker, now: int, scripts: Scripts, outcome: CommitOutcome,
                            cfg: Config): EmitState
    requires cfg.windowMs > 0
  {
    if !BoundaryReached(app, now, cfg) then EmitState(app, broker, false, false)
    else
      var cutoff := WindowFloor(now, cfg.windowMs);
      var st := Emit(app, broker, Due(app, cutoff), scripts, outcome, cfg.windowMs);
      if st.raised then st
      else st.(app := st.app.(closedThrough := Some(cutoff), currentWindowStart := cutoff))
  }

  /** The `finally` block: every window still open is emitted. */
  ghost function FinalFlush(app: App, broker: Broker, scripts: Scripts, outcome: CommitOutcome,
                            windowMs: int): EmitState {
    Emit(app, broker, app.windows.Keys, scripts, outcome, windowMs)
  }
}
