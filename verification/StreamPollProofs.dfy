/** A poll keeps the invariant, whatever the message: unusable, late or accepted. */
module StreamPollProofs {
  import opened Prelude
  import opened Aggregation
  import opened StreamSpec
  import opened StreamSystem

  lemma EventsOfSnoc(topic: Topic, ids: seq<Id>, id: Id)
    ensures EventsOf(topic, ids + [id]) == EventsOf(topic, ids) + [EventOf(topic, id)]
  {
  }

  /** A poll brings exactly the polled message within reach: nothing in between is skipped. */
  lemma ReachedAfterPoll(s: System, next: System, p: int, o: int, topic: Topic, x: Id)
    requires WellFormed(topic) && IsNext(s, topic, p, o) && PositionsInRange(s) && x in topic
    requires next.start == s.start && next.app.lastOffset == Track(s.app, p, o).lastOffset
    ensures Reached(next, x) <==> Reached(s, x) || x == Id(p, o)
  {
    assert Start(s, p) <= Position(s, p);
    if x.partition == p && Position(s, p) <= x.offset <= o {
      assert x.offset == o;
    }
  }

  // ---- What each kind of poll writes ----

  /** What every poll leaves alone, and how it moves the position. */
  ghost predicate Moves(s: System, next: System, p: int, o: int) {
    && next.start == s.start && next.broker == s.broker && next.pos == s.pos[p := o + 1]
    && next.batches == s.batches && next.done == s.done && next.phase == s.phase
    && next.app.lastOffset == Track(s.app, p, o).lastOffset
    && next.app.closedThrough == s.app.closedThrough
    && next.app.currentWindowStart == s.app.currentWindowStart
    && next.app.stats.windows == s.app.stats.windows
    && next.consumed == s.consumed + 1
  }

  ghost predicate SameWindows(s: System, next: System) {
    && next.app.windows == s.app.windows && next.app.windowOffsets == s.app.windowOffsets
    && next.app.buffered == s.app.buffered && next.held == s.held
    && next.app.stats.events == s.app.stats.events
  }

  ghost predicate Accepts(s: System, next: System, id: Id, e: Event, f: int) {
    && next.held == s.held[f := (if f in s.held then s.held[f] else []) + [id]]
    && next.app.windows == s.app.windows[f := AddToGroups(if f in s.app.windows then s.app.windows[f] else map[], e)]
    && next.app.windowOffsets == s.app.windowOffsets[f := AppendOffset(Entry(s.app.windowOffsets, f), id.partition, id.offset)]
    && next.app.buffered == s.app.buffered[id.partition := Entry(s.app.buffered, id.partition)[id.offset := f]]
    && next.late == s.late && next.app.stats == s.app.stats && next.skipped == s.skipped
  }

  /** The three outcomes of a poll, in terms of what they write. */
  lemma PollFrame(s: System, p: int, o: int, topic: Topic, windowMs: int)
    requires windowMs > 0 && Id(p, o) in topic
    ensures var id, next := Id(p, o), ApplyPoll(s, p, o, topic, windowMs);
            && Moves(s, next, p, o)
            && (!topic[id].Decoded? ==>
                  SameWindows(s, next) && next.late == s.late && next.skipped == s.skipped + 1
                  && next.app.stats.discarded == s.app.stats.discarded)
            && (topic[id].Decoded? ==>
                  var f := WindowFloor(EventTs(topic[id].event), windowMs);
                  if IsLate(s.app, f)
                  then SameWindows(s, next) && next.late == s.late + {id} && next.skipped == s.skipped
                       && next.app.stats.discarded == s.app.stats.discarded + 1
                  else Accepts(s, next, id, topic[id].event, f))
  {
  }

  lemma MovedPositions(s: System, next: System, p: int, o: int, topic: Topic)
    requires WellFormed(topic) && IsNext(s, topic, p, o) && PositionsInRange(s) && Moves(s, next, p, o)
    ensures PositionsInRange(next)
  {
    assert Start(s, p) <= Position(s, p) <= o;
    assert Start(next, p) == Start(s, p) && Position(next, p) == o + 1;
    forall q ensures
      && Start(next, q) <= Position(next, q)
      && (if q in next.app.lastOffset then Position(next, q) <= next.app.lastOffset[q] + 1 else Position(next, q) == Start(next, q))
    {
      if q != p {
        assert Start(next, q) == Start(s, q) && Position(next, q) == Position(s, q);
      }
    }
  }

  /** What is settled stays settled. */
  lemma StillSettled(s: System, next: System, topic: Topic)
    requires CommittedSettled(s, topic)
    requires next.broker.committed == s.broker.committed && s.late <= next.late && s.batches <= next.batches
    ensures CommittedSettled(next, topic)
  {
    forall x | x in topic && Settled(s, topic, x) ensures Settled(next, topic, x) { }
  }

  // ---- Messages that change no window ----

  lemma SameWindowsPending(s: System, next: System, p: int, o: int)
    requires Moves(s, next, p, o) && SameWindows(s, next)
    requires BufferAgrees(s) && PendingInRange(s)
    ensures BufferAgrees(next) && PendingInRange(next)
    ensures forall x :: Pending(next, x) <==> Pending(s, x)
  {
    assert forall x :: Pending(next, x) <==> Pending(s, x);
    forall x, w ensures BufferedAt(next, x, w) <==> HeldAt(next, x, w) {
      assert BufferedAt(s, x, w) <==> HeldAt(s, x, w);
    }
    assert forall q :: Start(next, q) == Start(s, q);
  }

  lemma SameWindowsFrozen(s: System, next: System, p: int, o: int, topic: Topic, edge: Edge, windowMs: int)
    requires windowMs > 0 && Frozen(s, topic, edge, windowMs)
    requires Moves(s, next, p, o) && SameWindows(s, next)
    requires forall x :: Pending(next, x) <==> Pending(s, x)
    requires ForgottenIsClosed(next, topic, edge, windowMs)
    ensures Frozen(next, topic, edge, windowMs)
  {
  }

  lemma SameWindowsAccounted(s: System, next: System, p: int, o: int, topic: Topic, edge: Edge, windowMs: int)
    requires windowMs > 0 && WellFormed(topic) && IsNext(s, topic, p, o) && PositionsInRange(s)
    requires Accounted(s, topic) && (edge.Untracked? || ForgottenIsClosed(s, topic, edge, windowMs))
    requires Moves(s, next, p, o) && SameWindows(s, next) && s.late <= next.late
    requires Settled(next, topic, Id(p, o))
    requires topic[Id(p, o)].Decoded? ==> Under(WindowFloor(EventTs(topic[Id(p, o)].event), windowMs), edge)
    ensures Accounted(next, topic) && (edge.Untracked? || ForgottenIsClosed(next, topic, edge, windowMs))
  {
    assert forall x :: Pending(next, x) <==> Pending(s, x);
    forall x | x in topic && Reached(next, x) ensures Reached(s, x) || x == Id(p, o) {
      ReachedAfterPoll(s, next, p, o, topic, x);
    }
    forall x | x in topic && Reached(next, x) ensures Settled(next, topic, x) || Pending(next, x) {
      if x != Id(p, o) { assert Settled(s, topic, x) || Pending(s, x); }
    }
    assert forall q :: Start(next, q) == Start(s, q);
  }

  /** An unusable or late message is settled at once; the windows stay as they are. */
  lemma SameWindowsKeepsCore(s: System, next: System, p: int, o: int, topic: Topic, edge: Edge, windowMs: int)
    requires windowMs > 0 && WellFormed(topic) && IsNext(s, topic, p, o)
    requires Core(s, topic, edge, windowMs)
    requires Moves(s, next, p, o) && SameWindows(s, next) && s.late <= next.late
    requires Settled(next, topic, Id(p, o))
    requires topic[Id(p, o)].Decoded? ==> Under(WindowFloor(EventTs(topic[Id(p, o)].event), windowMs), edge)
    requires next.app.stats.discarded + next.skipped == s.app.stats.discarded + s.skipped + 1
    ensures Core(next, topic, edge, windowMs)
  {
    MovedPositions(s, next, p, o, topic);
    SameWindowsPending(s, next, p, o);
    SameWindowsAccounted(s, next, p, o, topic, edge, windowMs);
    StillSettled(s, next, topic);
    if !edge.Untracked? { SameWindowsFrozen(s, next, p, o, topic, edge, windowMs); }
  }

  // ---- Accepted messages ----

  lemma {:induction false} SizesRemove(held: map<int, seq<Id>>, w: int)
    requires w in held
    ensures Sizes(held) == |held[w]| + Sizes(held - {w})
  {
    var v := Pick(held.Keys);
    if v != w {
      SizesRemove(held - {v}, w);
      SizesRemove(held - {w}, v);
      assert held - {v} - {w} == held - {w} - {v};
    }
  }

  lemma SizesGrow(held: map<int, seq<Id>>, w: int, id: Id)
    ensures Sizes(held[w := (if w in held then held[w] else []) + [id]]) == Sizes(held) + 1
  {
    var next := held[w := (if w in held then held[w] else []) + [id]];
    SizesRemove(next, w);
    assert next - {w} == held - {w};
    if w in held { SizesRemove(held, w); }
    else { assert held - {w} == held; }
  }

  /** The offset list kept per partition stays the partition's share of the held messages. */
  lemma ListedAfterAppend(perPartition: map<int, seq<int>>, ids: seq<Id>, p: int, o: int)
    requires OffsetsListed(perPartition, ids)
    ensures OffsetsListed(AppendOffset(perPartition, p, o), ids + [Id(p, o)])
  {
    var next := AppendOffset(perPartition, p, o);
    forall q
      ensures q in next <==> OffsetsIn(ids + [Id(p, o)], q) != []
      ensures q in next ==> next[q] == OffsetsIn(ids + [Id(p, o)], q)
    {
    }
  }

  lemma AcceptedWindow(groups: Groups, perPartition: map<int, seq<int>>, ids: seq<Id>, id: Id,
                       topic: Topic, w: int, windowMs: int)
    requires windowMs > 0 && id in topic && topic[id].Decoded?
    requires WindowFloor(EventTs(topic[id].event), windowMs) == w
    requires ids == [] || IdsInWindow(topic, ids, w, windowMs)
    requires groups == FoldGroups(EventsOf(topic, ids)) && OffsetsListed(perPartition, ids)
    ensures IdsInWindow(topic, ids + [id], w, windowMs)
    ensures AddToGroups(groups, topic[id].event) == FoldGroups(EventsOf(topic, ids + [id]))
    ensures OffsetsListed(AppendOffset(perPartition, id.partition, id.offset), ids + [id])
  {
    EventsOfSnoc(topic, ids, id);
    FoldSnoc(EventsOf(topic, ids), topic[id].event);
    ListedAfterAppend(perPartition, ids, id.partition, id.offset);
  }

  /** The window the message is folded into. */
  lemma AcceptedHere(s: System, next: System, id: Id, topic: Topic, f: int, windowMs: int)
    requires windowMs > 0 && id in topic && topic[id].Decoded?
    requires f == WindowFloor(EventTs(topic[id].event), windowMs) && Accepts(s, next, id, topic[id].event, f)
    requires KeysAgree(s) && ContentsAgree(s, topic, windowMs) && OffsetsAgree(s)
    ensures f in next.held && IdsInWindow(topic, next.held[f], f, windowMs)
    ensures f in next.app.windows && next.app.windows[f] == FoldGroups(EventsOf(topic, next.held[f]))
    ensures f in next.app.windowOffsets && OffsetsListed(next.app.windowOffsets[f], next.held[f])
  {
    var before := if f in s.held then s.held[f] else [];
    assert f in s.held <==> f in s.app.windows;
    assert EventsOf(topic, []) == [];
    AcceptedWindow(if f in s.app.windows then s.app.windows[f] else map[], Entry(s.app.windowOffsets, f),
                   before, id, topic, f, windowMs);
  }

  lemma AcceptContents(s: System, next: System, id: Id, topic: Topic, f: int, windowMs: int)
    requires windowMs > 0 && id in topic && topic[id].Decoded?
    requires f == WindowFloor(EventTs(topic[id].event), windowMs) && Accepts(s, next, id, topic[id].event, f)
    requires KeysAgree(s) && ContentsAgree(s, topic, windowMs) && OffsetsAgree(s)
    ensures ContentsAgree(next, topic, windowMs)
  {
    AcceptedHere(s, next, id, topic, f, windowMs);
    forall w | w in next.held
      ensures IdsInWindow(topic, next.held[w], w, windowMs)
      ensures w in next.app.windows && next.app.windows[w] == FoldGroups(EventsOf(topic, next.held[w]))
    {
      if w != f { assert w in s.held && next.held[w] == s.held[w]; }
    }
  }

  lemma AcceptOffsets(s: System, next: System, id: Id, e: Event, f: int)
    requires Accepts(s, next, id, e, f) && KeysAgree(s) && OffsetsAgree(s)
    requires f in next.held && f in next.app.windowOffsets && OffsetsListed(next.app.windowOffsets[f], next.held[f])
    ensures KeysAgree(next) && OffsetsAgree(next)
  {
    forall w | w in next.held
      ensures w in next.app.windowOffsets && OffsetsListed(next.app.windowOffsets[w], next.held[w])
    {
      if w != f { assert w in s.held && next.held[w] == s.held[w]; }
    }
  }

  lemma AcceptBuffer(s: System, next: System, id: Id, topic: Topic, f: int, windowMs: int)
    requires windowMs > 0 && id in topic && topic[id].Decoded?
    requires f == WindowFloor(EventTs(topic[id].event), windowMs) && Accepts(s, next, id, topic[id].event, f)
    requires ContentsAgree(s, topic, windowMs) && BufferAgrees(s)
    ensures BufferAgrees(next)
    ensures forall x :: Pending(next, x) <==> Pending(s, x) || x == id
  {
    forall x ensures Pending(next, x) <==> Pending(s, x) || x == id { }
    forall x, w ensures BufferedAt(next, x, w) <==> HeldAt(next, x, w) {
      assert BufferedAt(s, x, w) <==> HeldAt(s, x, w);
      if x == id {
        assert HeldAt(s, id, w) ==> w == f;
      }
    }
  }

  /** A message that is polled again can only be accepted if it is still held, so nothing
      below the committed position is ever held. */
  lemma AcceptRange(s: System, next: System, id: Id, topic: Topic, edge: Edge, windowMs: int)
    requires windowMs > 0 && WellFormed(topic) && IsNext(s, topic, id.partition, id.offset)
    requires Core(s, topic, edge, windowMs) && Moves(s, next, id.partition, id.offset)
    requires topic[id].Decoded? && (edge.Untracked? || !Under(WindowFloor(EventTs(topic[id].event), windowMs), edge))
    requires forall x :: Pending(next, x) <==> Pending(s, x) || x == id
    ensures PendingInRange(next)
    ensures edge.Untracked? || PendingUncommitted(next)
  {
    assert Start(s, id.partition) <= Position(s, id.partition) <= id.offset;
    if !edge.Untracked? && Reached(s, id) { assert Pending(s, id); }
    forall x | Pending(next, x)
      ensures x.partition in next.app.lastOffset
      ensures Start(next, x.partition) <= x.offset <= next.app.lastOffset[x.partition]
      ensures !edge.Untracked? && x.partition in next.broker.committed ==> next.broker.committed[x.partition] <= x.offset
    {
      assert Pending(s, x) || x == id;
      assert Start(next, x.partition) == Start(s, x.partition);
    }
  }

  lemma AcceptAccounted(s: System, next: System, id: Id, topic: Topic, edge: Edge, windowMs: int)
    requires windowMs > 0 && WellFormed(topic) && IsNext(s, topic, id.partition, id.offset) && PositionsInRange(s)
    requires Accounted(s, topic) && (edge.Untracked? || ForgottenIsClosed(s, topic, edge, windowMs))
    requires Moves(s, next, id.partition, id.offset) && next.late == s.late
    requires forall x :: Pending(next, x) <==> Pending(s, x) || x == id
    ensures Accounted(next, topic) && (edge.Untracked? || ForgottenIsClosed(next, topic, edge, windowMs))
  {
    forall x | x in topic && Reached(next, x) ensures Reached(s, x) || x == id {
      ReachedAfterPoll(s, next, id.partition, id.offset, topic, x);
    }
    forall x | x in topic && Reached(next, x) ensures Settled(next, topic, x) || Pending(next, x) {
      if x != id { assert Settled(s, topic, x) || Pending(s, x); }
    }
    assert forall q :: Start(next, q) == Start(s, q);
  }

  lemma AcceptFrozen(s: System, next: System, id: Id, topic: Topic, edge: Edge, windowMs: int)
    requires windowMs > 0 && WellFormed(topic) && IsNext(s, topic, id.partition, id.offset)
    requires Core(s, topic, edge, windowMs) && topic[id].Decoded? && !edge.Untracked?
    requires var f := WindowFloor(EventTs(topic[id].event), windowMs);
             !Under(f, edge) && Accepts(s, next, id, topic[id].event, f)
    requires Moves(s, next, id.partition, id.offset)
    requires forall x :: Pending(next, x) <==> Pending(s, x) || x == id
    ensures Frozen(next, topic, edge, windowMs)
  {
    AcceptRange(s, next, id, topic, edge, windowMs);
    AcceptAccounted(s, next, id, topic, edge, windowMs);
  }

  lemma AcceptLedger(s: System, next: System, id: Id, topic: Topic, windowMs: int)
    requires windowMs > 0 && WellFormed(topic) && IsNext(s, topic, id.partition, id.offset)
    requires Core(s, topic, Untracked, windowMs) && topic[id].Decoded?
    requires Moves(s, next, id.partition, id.offset)
    requires Accepts(s, next, id, topic[id].event, WindowFloor(EventTs(topic[id].event), windowMs))
    requires BufferAgrees(next) && (forall x :: Pending(next, x) <==> Pending(s, x) || x == id)
    ensures Core(next, topic, Untracked, windowMs)
  {
    MovedPositions(s, next, id.partition, id.offset, topic);
    AcceptContents(s, next, id, topic, WindowFloor(EventTs(topic[id].event), windowMs), windowMs);
    AcceptedHere(s, next, id, topic, WindowFloor(EventTs(topic[id].event), windowMs), windowMs);
    AcceptOffsets(s, next, id, topic[id].event, WindowFloor(EventTs(topic[id].event), windowMs));
    AcceptRange(s, next, id, topic, Untracked, windowMs);
    AcceptAccounted(s, next, id, topic, Untracked, windowMs);
    StillSettled(s, next, topic);
    SizesGrow(s.held, WindowFloor(EventTs(topic[id].event), windowMs), id);
  }

  lemma AcceptKeepsCore(s: System, next: System, id: Id, topic: Topic, edge: Edge, windowMs: int)
    requires windowMs > 0 && WellFormed(topic) && IsNext(s, topic, id.partition, id.offset)
    requires Core(s, topic, edge, windowMs) && topic[id].Decoded?
    requires edge.Untracked? || !Under(WindowFloor(EventTs(topic[id].event), windowMs), edge)
    requires Moves(s, next, id.partition, id.offset)
    requires Accepts(s, next, id, topic[id].event, WindowFloor(EventTs(topic[id].event), windowMs))
    ensures Core(next, topic, edge, windowMs)
  {
    var f := WindowFloor(EventTs(topic[id].event), windowMs);
    AcceptBuffer(s, next, id, topic, f, windowMs);
    AcceptLedger(s, next, id, topic, windowMs);
    if !edge.Untracked? { AcceptFrozen(s, next, id, topic, edge, windowMs); }
  }

  lemma PollKeepsEdge(s: System, p: int, o: int, topic: Topic, windowMs: int)
    requires windowMs > 0 && Id(p, o) in topic
    ensures EdgeOf(ApplyPoll(s, p, o, topic, windowMs)) == EdgeOf(s)
  {
    PollFrame(s, p, o, topic, windowMs);
  }

  /** `edge` is either the current edge or makes no claim. */
  lemma PollKeepsCore(s: System, next: System, p: int, o: int, topic: Topic, edge: Edge, windowMs: int)
    requires windowMs > 0 && WellFormed(topic)
    requires Core(s, topic, edge, windowMs) && s.phase.Running? && IsNext(s, topic, p, o)
    requires edge.Untracked? || edge == EdgeOf(s)
    requires next == ApplyPoll(s, p, o, topic, windowMs)
    ensures Core(next, topic, edge, windowMs)
  {
    var id := Id(p, o);
    PollFrame(s, p, o, topic, windowMs);
    if !topic[id].Decoded? || IsLate(s.app, WindowFloor(EventTs(topic[id].event), windowMs)) {
      SameWindowsKeepsCore(s, next, p, o, topic, edge, windowMs);
    } else {
      AcceptKeepsCore(s, next, id, topic, edge, windowMs);
    }
  }
}
