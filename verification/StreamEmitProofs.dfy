/** Flushing, releasing, committing, closing, rewinding, stopping and restarting keep the invariant. */
module StreamEmitProofs {
  import opened Prelude
  import opened Aggregation
  import opened StreamSpec
  import opened StreamSystem
  import opened StreamPollProofs

  // ---- Producing ----

  ghost predicate BrokerAgrees(b: Broker) { b.queue <= b.sent <= b.queue + b.sink }

  /** Producing a window hands over only that window's rows, loses nothing already delivered,
      and unless it raises, hands over every row except those whose error is swallowed. */
  lemma {:induction false} ProduceAllFacts(b: Broker, attempts: seq<Attempt>, groups: Groups, w: int, windowMs: int)
    requires BrokerAgrees(b)
    ensures var r := ProduceAll(b, attempts, groups, w, windowMs);
            && BrokerAgrees(r.broker)
            && r.broker.committed == b.committed
            && b.sink <= r.broker.sink <= b.sink + r.broker.sent && b.sent <= r.broker.sent
            && (forall x | x in r.broker.sent ::
                  x in b.sent || (x.group in groups && x == RowOf(x.group, groups[x.group], w, windowMs)))
            && (!r.raised ==> forall a | a in attempts && a.group in groups ::
                  a.outcome.Swallowed? || RowOf(a.group, groups[a.group], w, windowMs) in r.broker.sent)
  {
    if attempts != [] {
      var n := |attempts| - 1;
      ProduceAllFacts(b, attempts[..n], groups, w, windowMs);
      assert forall a :: a in attempts <==> a in attempts[..n] || a == attempts[n];
    }
  }

  function SwallowedCount(attempts: seq<Attempt>): nat {
    if attempts == [] then 0
    else SwallowedCount(attempts[..|attempts| - 1]) + if attempts[|attempts| - 1].outcome.Swallowed? then 1 else 0
  }

  /** Every group is counted as produced or was swallowed: `produced` is exact. */
  lemma {:induction false} ProducedCount(b: Broker, attempts: seq<Attempt>, groups: Groups, w: int, windowMs: int)
    requires forall i | 0 <= i < |attempts| :: attempts[i].group in groups
    requires !ProduceAll(b, attempts, groups, w, windowMs).raised
    ensures ProduceAll(b, attempts, groups, w, windowMs).produced + SwallowedCount(attempts) == |attempts|
  {
    if attempts != [] {
      ProducedCount(b, attempts[..|attempts| - 1], groups, w, windowMs);
    }
  }

  lemma {:induction false} DistinctCount(attempts: seq<Attempt>)
    requires forall i, j | 0 <= i < j < |attempts| :: attempts[i].group != attempts[j].group
    ensures |set i | 0 <= i < |attempts| :: attempts[i].group| == |attempts|
  {
    if attempts != [] {
      var n := |attempts| - 1;
      var before := attempts[..n];
      DistinctCount(before);
      assert (set i | 0 <= i < |attempts| :: attempts[i].group)
          == (set i | 0 <= i < n :: before[i].group) + {attempts[n].group};
    }
  }

  lemma AttemptedGroups(attempts: seq<Attempt>, keys: set<Group>)
    requires Covers(attempts, keys)
    ensures |attempts| == |keys|
  {
    var groups := set i | 0 <= i < |attempts| :: attempts[i].group;
    assert groups == keys;
    DistinctCount(attempts);
  }

  /** Main: when a window is released, the statistics grow by one window, by its groups save those
      whose error was swallowed, and by the number of messages folded into it. */
  lemma ReleaseStatistics(app: App, broker: Broker, w: int, script: FlushScript, es: seq<Event>, windowMs: int)
    requires w in app.windows && Covers(script.attempts, app.windows[w].Keys)
    requires app.windows[w] == FoldGroups(es)
    ensures var st := EmitOne(EmitState(app, broker, false, false), w, script, windowMs);
            st.releasedAny ==>
              && w !in st.app.windows
              && st.app.stats.windows == app.stats.windows + 1
              && st.app.stats.aggregates + SwallowedCount(script.attempts) == app.stats.aggregates + |app.windows[w].Keys|
              && st.app.stats.events == app.stats.events + |es|
              && st.app.stats.discarded == app.stats.discarded
  {
    var groups := app.windows[w];
    CountAllOfFold(es);
    AttemptedGroups(script.attempts, groups.Keys);
    if !ProduceAll(broker, script.attempts, groups, w, windowMs).raised {
      ProducedCount(broker, script.attempts, groups, w, windowMs);
    }
  }

  // ---- Changing only the broker ----

  /** Steps that leave the app's dictionaries alone leave the bookkeeping invariants alone. */
  lemma SameMemory(s: System, next: System, topic: Topic, edge: Edge, windowMs: int)
    requires windowMs > 0
    requires next.app.windows == s.app.windows && next.app.windowOffsets == s.app.windowOffsets
    requires next.app.buffered == s.app.buffered && next.app.lastOffset == s.app.lastOffset
    requires next.held == s.held && next.start == s.start && next.late == s.late && next.batches == s.batches
    requires KeysAgree(s) && ContentsAgree(s, topic, windowMs) && OffsetsAgree(s) && BufferAgrees(s) && PendingInRange(s)
    requires Accounted(s, topic) && (edge.Untracked? || ForgottenIsClosed(s, topic, edge, windowMs))
    ensures KeysAgree(next) && ContentsAgree(next, topic, windowMs) && OffsetsAgree(next) && BufferAgrees(next) && PendingInRange(next)
    ensures Accounted(next, topic) && (edge.Untracked? || ForgottenIsClosed(next, topic, edge, windowMs))
    ensures forall x :: Pending(next, x) <==> Pending(s, x)
  {
    assert forall x :: Pending(next, x) <==> Pending(s, x);
    assert forall x :: Reached(next, x) <==> Reached(s, x);
    forall x, v ensures BufferedAt(next, x, v) <==> HeldAt(next, x, v) {
      assert BufferedAt(s, x, v) <==> HeldAt(s, x, v);
    }
    forall x | x in topic && Reached(next, x) ensures Settled(next, topic, x) || Pending(next, x) {
      assert Settled(s, topic, x) || Pending(s, x);
    }
    assert forall p :: Start(next, p) == Start(s, p);
  }

  lemma SamePositions(s: System, next: System)
    requires PositionsInRange(s)
    requires next.app.lastOffset == s.app.lastOffset && next.start == s.start && next.pos == s.pos
    requires next.broker.committed == s.broker.committed
    ensures PositionsInRange(next)
  {
    assert forall p :: Position(next, p) == Position(s, p) && Start(next, p) == Start(s, p);
  }

  /** Steps that send and release nothing keep what closed windows guarantee. */
  lemma SameFrozen(s: System, next: System, topic: Topic, edge: Edge, windowMs: int)
    requires windowMs > 0 && Frozen(s, topic, edge, windowMs)
    requires next.app.windows == s.app.windows && next.done == s.done
    requires next.app.stats.windows == s.app.stats.windows
    requires next.broker.sent == s.broker.sent
    requires forall x :: Pending(next, x) <==> Pending(s, x)
    requires next.broker.committed == s.broker.committed || PendingUncommitted(next)
    requires ForgottenIsClosed(next, topic, edge, windowMs)
    ensures Frozen(next, topic, edge, windowMs)
  {
  }

  /** A retry repeats the rows already sent: the window they came from has not changed since. */
  lemma SendFrozen(s: System, b: Broker, w: int, topic: Topic, edge: Edge, windowMs: int)
    requires windowMs > 0 && Frozen(s, topic, edge, windowMs)
    requires w in s.app.windows && Under(w, edge) && b.committed == s.broker.committed
    requires forall x | x in b.sent :: x in s.broker.sent
               || (x.group in s.app.windows[w] && x == RowOf(x.group, s.app.windows[w][x.group], w, windowMs))
    requires ForgottenIsClosed(s.(broker := b), topic, edge, windowMs)
    ensures Frozen(s.(broker := b), topic, edge, windowMs)
  {
    assert forall x :: Pending(s.(broker := b), x) <==> Pending(s, x);
  }

  /** Sending rows of a closed window keeps the invariant. */
  lemma SendKeepsCore(s: System, b: Broker, w: int, topic: Topic, edge: Edge, windowMs: int)
    requires windowMs > 0 && Core(s, topic, edge, windowMs)
    requires w in s.app.windows && Under(w, edge)
    requires BrokerAgrees(b) && b.committed == s.broker.committed && s.broker.sink <= b.sink
    requires forall x | x in b.sent :: x in s.broker.sent
               || (x.group in s.app.windows[w] && x == RowOf(x.group, s.app.windows[w][x.group], w, windowMs))
    ensures Core(s.(broker := b), topic, edge, windowMs)
  {
    var next := s.(broker := b);
    SameMemory(s, next, topic, edge, windowMs);
    SamePositions(s, next);
    StillSettled(s, next, topic);
    if !edge.Untracked? { SendFrozen(s, b, w, topic, edge, windowMs); }
  }

  // ---- Releasing a window ----

  lemma {:induction false} OffsetsInMembers(ids: seq<Id>, p: int)
    ensures forall o :: o in OffsetsIn(ids, p) <==> Id(p, o) in ids
  {
    if ids != [] {
      OffsetsInMembers(ids[..|ids| - 1], p);
      assert ids == ids[..|ids| - 1] + [ids[|ids| - 1]];
    }
  }

  ghost function Release(s: System, w: int, produced: nat, swallowed: set<Row>): System
    requires w in s.app.windows && w in s.held
  {
    var st := s.app.stats;
    var closed := s.app.(windows := s.app.windows - {w},
                         stats := st.(windows := st.windows + 1,
                                      aggregates := st.aggregates + produced,
                                      events := st.events + CountAll(s.app.windows[w])));
    s.(app := ReleaseOffsets(closed, w),
       held := s.held - {w},
       batches := s.batches + {Batch(w, s.held[w], swallowed)},
       done := s.done + {w})
  }

  lemma ReleaseFrame(s: System, w: int, produced: nat, swallowed: set<Row>)
    requires w in s.app.windows && w in s.held
    ensures var next := Release(s, w, produced, swallowed);
            && next.app.windows == s.app.windows - {w}
            && next.app.windowOffsets == s.app.windowOffsets - {w}
            && next.app.buffered == Released(s.app.buffered, Entry(s.app.windowOffsets, w))
            && next.app.lastOffset == s.app.lastOffset
            && next.app.closedThrough == s.app.closedThrough
            && next.app.currentWindowStart == s.app.currentWindowStart
            && next.app.stats.events == s.app.stats.events + CountAll(s.app.windows[w])
            && next.app.stats.discarded == s.app.stats.discarded
            && next.app.stats.windows == s.app.stats.windows + 1
            && next.broker == s.broker && next.start == s.start && next.pos == s.pos
            && next.late == s.late && next.consumed == s.consumed && next.skipped == s.skipped
  {
  }

  /** Releasing a window drops exactly its messages from the pending bookkeeping. */
  lemma ReleaseBuffer(s: System, w: int, produced: nat, swallowed: set<Row>)
    requires w in s.app.windows && w in s.held
    requires KeysAgree(s) && OffsetsAgree(s) && BufferAgrees(s)
    ensures var next := Release(s, w, produced, swallowed);
            && (forall x :: Pending(next, x) <==> Pending(s, x) && x !in s.held[w])
            && BufferAgrees(next)
  {
    var next := Release(s, w, produced, swallowed);
    ReleaseFrame(s, w, produced, swallowed);
    var listed := s.app.windowOffsets[w];
    assert Entry(s.app.windowOffsets, w) == listed;
    forall x ensures Pending(next, x) <==> Pending(s, x) && x !in s.held[w]
             ensures Pending(next, x) ==> next.app.buffered[x.partition][x.offset] == s.app.buffered[x.partition][x.offset]
    {
      OffsetsInMembers(s.held[w], x.partition);
      assert x == Id(x.partition, x.offset);
      assert x in s.held[w] <==> (x.partition in listed && x.offset in Elements(listed[x.partition]));
    }
    forall x, v ensures BufferedAt(next, x, v) <==> HeldAt(next, x, v) {
      assert BufferedAt(s, x, v) <==> HeldAt(s, x, v);
      assert BufferedAt(s, x, w) <==> HeldAt(s, x, w);
    }
  }

  lemma ReleaseCounts(s: System, w: int, produced: nat, swallowed: set<Row>, topic: Topic, windowMs: int)
    requires windowMs > 0
    requires w in s.app.windows && w in s.held
    requires ContentsAgree(s, topic, windowMs) && Conserved(s)
    ensures Conserved(Release(s, w, produced, swallowed))
  {
    SizesRemove(s.held, w);
    CountAllOfFold(EventsOf(topic, s.held[w]));
  }

  lemma ReleaseAccounted(s: System, w: int, produced: nat, swallowed: set<Row>, topic: Topic, edge: Edge, windowMs: int)
    requires windowMs > 0 && Core(s, topic, edge, windowMs)
    requires w in s.app.windows && w in s.held && Under(w, edge)
    ensures Accounted(Release(s, w, produced, swallowed), topic)
    ensures PendingInRange(Release(s, w, produced, swallowed))
    ensures edge.Untracked? ||
      (ForgottenIsClosed(Release(s, w, produced, swallowed), topic, edge, windowMs) && PendingUncommitted(Release(s, w, produced, swallowed)))
  {
    var next := Release(s, w, produced, swallowed);
    var b := Batch(w, s.held[w], swallowed);
    ReleaseFrame(s, w, produced, swallowed);
    ReleaseBuffer(s, w, produced, swallowed);
    assert forall x :: Reached(next, x) <==> Reached(s, x);
    assert b in next.batches;
    forall x | x in topic && Reached(next, x) ensures Settled(next, topic, x) || Pending(next, x) {
      assert Settled(s, topic, x) || Pending(s, x);
      if x in s.held[w] { assert x in b.ids; }
    }
    forall x | x in topic && topic[x].Decoded? && Start(next, x.partition) <= x.offset && Reached(next, x) && !Pending(next, x)
      ensures Under(WindowFloor(EventTs(topic[x].event), windowMs), edge)
    {
      assert Start(next, x.partition) == Start(s, x.partition);
      if Pending(s, x) { assert x in s.held[w]; }
    }
  }

  lemma ReleaseBatches(s: System, w: int, produced: nat, swallowed: set<Row>, topic: Topic, windowMs: int)
    requires windowMs > 0 && w in s.app.windows && w in s.held
    requires ContentsAgree(s, topic, windowMs) && BatchesDelivered(s, topic, windowMs)
    requires forall k | k in s.app.windows[w] :: RowOf(k, s.app.windows[w][k], w, windowMs) in s.broker.sink + swallowed
    ensures BatchesDelivered(Release(s, w, produced, swallowed), topic, windowMs)
  {
    var next := Release(s, w, produced, swallowed);
    assert next.broker == s.broker && next.batches == s.batches + {Batch(w, s.held[w], swallowed)};
    assert BatchDelivered(Batch(w, s.held[w], swallowed), s.broker.sink, topic, windowMs);
  }

  lemma ReleaseRows(s: System, w: int, produced: nat, swallowed: set<Row>, topic: Topic, edge: Edge, windowMs: int)
    requires windowMs > 0 && !edge.Untracked? && Frozen(s, topic, edge, windowMs)
    requires w in s.app.windows && w in s.held && Under(w, edge)
    ensures var next := Release(s, w, produced, swallowed);
            SentAgrees(next, edge, windowMs) && DoneIsClosed(next, edge) && WindowsCounted(next)
  {
    ReleaseFrame(s, w, produced, swallowed);
  }

  lemma ReleaseContents(s: System, w: int, produced: nat, swallowed: set<Row>, topic: Topic, windowMs: int)
    requires windowMs > 0
    requires w in s.app.windows && w in s.held
    requires KeysAgree(s) && ContentsAgree(s, topic, windowMs) && OffsetsAgree(s)
    ensures var next := Release(s, w, produced, swallowed);
            KeysAgree(next) && ContentsAgree(next, topic, windowMs) && OffsetsAgree(next)
  {
    ReleaseFrame(s, w, produced, swallowed);
  }

  lemma ReleasePositions(s: System, w: int, produced: nat, swallowed: set<Row>)
    requires w in s.app.windows && w in s.held && PositionsInRange(s)
    ensures PositionsInRange(Release(s, w, produced, swallowed))
  {
    var next := Release(s, w, produced, swallowed);
    ReleaseFrame(s, w, produced, swallowed);
    assert forall p :: Position(next, p) == Position(s, p) && Start(next, p) == Start(s, p);
  }

  lemma ReleaseKeepsCore(s: System, w: int, produced: nat, swallowed: set<Row>, topic: Topic, edge: Edge, windowMs: int)
    requires windowMs > 0 && Core(s, topic, edge, windowMs)
    requires w in s.app.windows && w in s.held && Under(w, edge)
    requires forall k | k in s.app.windows[w] :: RowOf(k, s.app.windows[w][k], w, windowMs) in s.broker.sink + swallowed
    ensures Core(Release(s, w, produced, swallowed), topic, edge, windowMs)
  {
    ReleaseFrame(s, w, produced, swallowed);
    ReleaseContents(s, w, produced, swallowed, topic, windowMs);
    ReleaseBuffer(s, w, produced, swallowed);
    ReleaseCounts(s, w, produced, swallowed, topic, windowMs);
    ReleaseAccounted(s, w, produced, swallowed, topic, edge, windowMs);
    ReleasePositions(s, w, produced, swallowed);
    ReleaseBatches(s, w, produced, swallowed, topic, windowMs);
    if !edge.Untracked? { ReleaseRows(s, w, produced, swallowed, topic, edge, windowMs); }
    StillSettled(s, Release(s, w, produced, swallowed), topic);
  }

  // ---- One window of an emission round ----

  /** Without a swallowed error every row of the window has been handed over. */
  lemma CoveredRows(attempts: seq<Attempt>, groups: Groups, w: int, windowMs: int, sent: set<Row>, k: Group)
    requires Covers(attempts, groups.Keys) && k in groups
    requires forall a | a in attempts && a.group in groups ::
               a.outcome.Swallowed? || RowOf(a.group, groups[a.group], w, windowMs) in sent
    ensures RowOf(k, groups[k], w, windowMs) in sent + SwallowedRows(groups, attempts, w, windowMs)
  {
    var i :| 0 <= i < |attempts| && attempts[i].group == k;
    assert attempts[i] in attempts;
  }

  /** The three ways a window's turn in a round can end. */
  lemma RoundOneCases(r: Round, w: int, script: FlushScript, windowMs: int)
    ensures var s, next := r.sys, RoundOne(r, w, script, windowMs).sys;
            if r.raised || w !in s.app.windows then next == s
            else
              var pr := ProduceAll(s.broker, script.attempts, s.app.windows[w], w, windowMs);
              var flushed := Flush(pr.broker, script.unacked);
              if pr.raised then next == s.(broker := pr.broker)
              else if flushed.queue != {} then next == s.(broker := flushed)
              else w in s.held ==>
                     next == Release(s.(broker := flushed), w, pr.produced,
                                     SwallowedRows(s.app.windows[w], script.attempts, w, windowMs))
  {
  }

  lemma RoundOneReleases(s: System, pr: ProduceState, w: int, script: FlushScript, topic: Topic, edge: Edge, windowMs: int)
    requires windowMs > 0 && w in s.app.windows && w in s.held && Under(w, edge)
    requires Covers(script.attempts, s.app.windows[w].Keys)
    requires BrokerAgrees(pr.broker) && Flush(pr.broker, script.unacked).queue == {}
    requires forall a | a in script.attempts && a.group in s.app.windows[w] ::
               a.outcome.Swallowed? || RowOf(a.group, s.app.windows[w][a.group], w, windowMs) in pr.broker.sent
    requires Core(s.(broker := Flush(pr.broker, script.unacked)), topic, edge, windowMs)
    ensures Core(Release(s.(broker := Flush(pr.broker, script.unacked)), w, pr.produced,
                         SwallowedRows(s.app.windows[w], script.attempts, w, windowMs)), topic, edge, windowMs)
  {
    var groups, flushed := s.app.windows[w], Flush(pr.broker, script.unacked);
    var swallowed := SwallowedRows(groups, script.attempts, w, windowMs);
    forall k | k in groups ensures RowOf(k, groups[k], w, windowMs) in flushed.sink + swallowed {
      CoveredRows(script.attempts, groups, w, windowMs, pr.broker.sent, k);
    }
    ReleaseKeepsCore(s.(broker := flushed), w, pr.produced, swallowed, topic, edge, windowMs);
  }

  lemma RoundOneKeepsCore(r: Round, w: int, script: FlushScript, topic: Topic, edge: Edge, windowMs: int)
    requires windowMs > 0 && Core(r.sys, topic, edge, windowMs)
    requires Under(w, edge)
    requires w in r.sys.app.windows ==> Covers(script.attempts, r.sys.app.windows[w].Keys)
    ensures Core(RoundOne(r, w, script, windowMs).sys, topic, edge, windowMs)
  {
    var s := r.sys;
    RoundOneCases(r, w, script, windowMs);
    if !r.raised && w in s.app.windows {
      var groups := s.app.windows[w];
      var pr := ProduceAll(s.broker, script.attempts, groups, w, windowMs);
      var flushed := Flush(pr.broker, script.unacked);
      ProduceAllFacts(s.broker, script.attempts, groups, w, windowMs);
      if pr.raised {
        SendKeepsCore(s, pr.broker, w, topic, edge, windowMs);
      } else {
        SendKeepsCore(s, flushed, w, topic, edge, windowMs);
        if flushed.queue == {} {
          RoundOneReleases(s, pr, w, script, topic, edge, windowMs);
        }
      }
    }
  }

  /** A round only ever removes windows; those it keeps are unchanged. */
  lemma RoundOneShrinks(r: Round, w: int, script: FlushScript, windowMs: int)
    ensures var next := RoundOne(r, w, script, windowMs).sys;
            && next.app.windows.Keys <= r.sys.app.windows.Keys
            && (forall v | v in next.app.windows :: next.app.windows[v] == r.sys.app.windows[v])
            && next.app.closedThrough == r.sys.app.closedThrough
            && next.app.currentWindowStart == r.sys.app.currentWindowStart
            && next.phase == r.sys.phase
  {
    RoundOneCases(r, w, script, windowMs);
  }

  lemma {:induction false} RoundAllShrinks(r: Round, ws: seq<int>, scripts: Scripts, windowMs: int)
    ensures var next := RoundAll(r, ws, scripts, windowMs).sys;
            && next.app.windows.Keys <= r.sys.app.windows.Keys
            && (forall v | v in next.app.windows :: next.app.windows[v] == r.sys.app.windows[v])
            && next.app.closedThrough == r.sys.app.closedThrough
            && next.app.currentWindowStart == r.sys.app.currentWindowStart
            && next.phase == r.sys.phase
  {
    if ws != [] {
      var n := |ws| - 1;
      RoundAllShrinks(r, ws[..n], scripts, windowMs);
      RoundOneShrinks(RoundAll(r, ws[..n], scripts, windowMs), ws[n], ScriptFor(scripts, ws[n]), windowMs);
    }
  }

  /** The scripts of the windows in `ws` that are open cover their groups. */
  ghost predicate RoundCovered(windows: map<int, Groups>, ws: seq<int>, scripts: Scripts) {
    forall i | 0 <= i < |ws| && ws[i] in windows :: Covers(ScriptFor(scripts, ws[i]).attempts, windows[ws[i]].Keys)
  }

  lemma {:induction false} RoundAllKeepsCore(r: Round, ws: seq<int>, scripts: Scripts, topic: Topic, edge: Edge, windowMs: int)
    requires windowMs > 0 && Core(r.sys, topic, edge, windowMs)
    requires forall w | w in ws :: Under(w, edge)
    requires RoundCovered(r.sys.app.windows, ws, scripts)
    ensures Core(RoundAll(r, ws, scripts, windowMs).sys, topic, edge, windowMs)
  {
    if ws != [] {
      var before, w := ws[..|ws| - 1], ws[|ws| - 1];
      var mid := RoundAll(r, before, scripts, windowMs);
      RoundAllShrinks(r, before, scripts, windowMs);
      RoundAllKeepsCore(r, before, scripts, topic, edge, windowMs);
      RoundOneKeepsCore(mid, w, ScriptFor(scripts, w), topic, edge, windowMs);
    }
  }

  // ---- Committing ----

  /** A commit position never passes a held message or the last consumed one, and does not fall
      behind the stored one as long as nothing committed is held. */
  lemma CommitPositionBounds(s: System, p: int)
    requires PendingInRange(s) && PositionsInRange(s) && p in s.app.lastOffset
    ensures Start(s, p) <= CommitPosition(s.app, p) <= s.app.lastOffset[p] + 1
    ensures PendingUncommitted(s) && p in s.broker.committed ==> s.broker.committed[p] <= CommitPosition(s.app, p)
    ensures forall id: Id | Pending(s, id) && id.partition == p :: CommitPosition(s.app, p) <= id.offset
  {
    var pending := Entry(s.app.buffered, p);
    if pending != map[] {
      var m := MinOf(pending.Keys);
      assert Pending(s, Id(p, m));
    } else {
      assert forall id: Id | id.partition == p :: !Pending(s, id);
    }
  }

  lemma CommitPending(s: System, next: System)
    requires PendingInRange(s) && PositionsInRange(s)
    requires next.app == s.app && next.start == s.start
    requires next.broker.committed == s.broker.committed + CommitMap(s.app)
    ensures PendingInRange(next) && PendingUncommitted(next)
  {
    forall id | Pending(next, id)
      ensures id.partition in next.app.lastOffset
      ensures Start(next, id.partition) <= id.offset <= next.app.lastOffset[id.partition]
      ensures id.partition in next.broker.committed ==> next.broker.committed[id.partition] <= id.offset
    {
      assert Pending(s, id);
      CommitPositionBounds(s, id.partition);
    }
  }

  /** What a commit newly covers was reached and is no longer held, so it is settled. */
  lemma CommitSettles(s: System, next: System, topic: Topic)
    requires PendingInRange(s) && PositionsInRange(s) && Accounted(s, topic) && CommittedSettled(s, topic)
    requires next.app == s.app && next.late == s.late && next.batches == s.batches
    requires next.broker.committed == s.broker.committed + CommitMap(s.app)
    ensures CommittedSettled(next, topic)
  {
    forall id | id in topic && id.partition in next.broker.committed && id.offset < next.broker.committed[id.partition]
      ensures Settled(next, topic, id)
    {
      if id.partition in s.app.lastOffset {
        CommitPositionBounds(s, id.partition);
        assert Reached(s, id) && !Pending(s, id);
      }
      assert Settled(s, topic, id);
    }
  }

  lemma CommitPositions(s: System, next: System, m: OffsetMap)
    requires PositionsInRange(s)
    requires next.app.lastOffset == s.app.lastOffset && next.start == s.start && next.pos == s.pos
    requires m.Keys == s.app.lastOffset.Keys
    requires forall p | p in m :: Start(s, p) <= m[p] <= s.app.lastOffset[p] + 1
    requires next.broker.committed == s.broker.committed + m
    ensures PositionsInRange(next)
  {
    assert forall p :: Position(next, p) == Position(s, p) && Start(next, p) == Start(s, p);
  }

  lemma CommitMapBounds(s: System)
    requires PendingInRange(s) && PositionsInRange(s)
    ensures CommitMap(s.app).Keys == s.app.lastOffset.Keys
    ensures forall p | p in CommitMap(s.app) :: Start(s, p) <= CommitMap(s.app)[p] <= s.app.lastOffset[p] + 1
    ensures PendingUncommitted(s) ==>
      forall p | p in CommitMap(s.app) && p in s.broker.committed :: s.broker.committed[p] <= CommitMap(s.app)[p]
  {
    forall p | p in s.app.lastOffset
      ensures Start(s, p) <= CommitPosition(s.app, p) <= s.app.lastOffset[p] + 1
      ensures PendingUncommitted(s) && p in s.broker.committed ==> s.broker.committed[p] <= CommitPosition(s.app, p)
    {
      CommitPositionBounds(s, p);
    }
  }

  /** A commit changes nothing but, at most, the stored offsets. */
  lemma CommitFrame(r: Round, outcome: CommitOutcome)
    ensures var s, next := r.sys, RoundCommit(r, outcome).sys;
            && next.app == s.app && next.phase == s.phase && next.start == s.start && next.pos == s.pos
            && next.held == s.held && next.late == s.late && next.batches == s.batches && next.done == s.done
            && next.consumed == s.consumed && next.skipped == s.skipped
            && next.broker.queue == s.broker.queue && next.broker.sink == s.broker.sink && next.broker.sent == s.broker.sent
            && (next.broker.committed == s.broker.committed
                || next.broker.committed == s.broker.committed + CommitMap(s.app))
  {
  }

  lemma CommitKeepsCore(r: Round, outcome: CommitOutcome, topic: Topic, edge: Edge, windowMs: int)
    requires windowMs > 0 && Core(r.sys, topic, edge, windowMs)
    ensures var next := RoundCommit(r, outcome).sys;
            && Core(next, topic, edge, windowMs)
            && next.app == r.sys.app && next.phase == r.sys.phase
  {
    var s, next := r.sys, RoundCommit(r, outcome).sys;
    CommitFrame(r, outcome);
    SameMemory(s, next, topic, edge, windowMs);
    if next.broker.committed == s.broker.committed {
      StillSettled(s, next, topic);
      SamePositions(s, next);
    } else {
      CommitPending(s, next);
      CommitSettles(s, next, topic);
      CommitMapBounds(s);
      CommitPositions(s, next, CommitMap(s.app));
    }
    if !edge.Untracked? { SameFrozen(s, next, topic, edge, windowMs); }
  }

  lemma RoundEmitKeepsCore(s: System, due: set<int>, scripts: Scripts, outcome: CommitOutcome, topic: Topic, edge: Edge, windowMs: int)
    requires windowMs > 0 && Core(s, topic, edge, windowMs)
    requires forall w | w in due :: Under(w, edge)
    requires ScriptsCover(s.app, due, scripts)
    ensures var next := RoundEmit(s, due, scripts, outcome, windowMs).sys;
            && Core(next, topic, edge, windowMs)
            && next.app.windows.Keys <= s.app.windows.Keys
            && next.app.closedThrough == s.app.closedThrough
            && next.app.currentWindowStart == s.app.currentWindowStart
            && next.phase == s.phase
  {
    var ws := SortedOf(due);
    assert forall i | 0 <= i < |ws| :: ws[i] in Elements(ws);
    RoundAllKeepsCore(Round(s, false, false), ws, scripts, topic, edge, windowMs);
    RoundAllShrinks(Round(s, false, false), ws, scripts, windowMs);
    CommitKeepsCore(RoundAll(Round(s, false, false), ws, scripts, windowMs), outcome, topic, edge, windowMs);
  }

  // ---- Closing the boundary ----

  /** The boundary cannot move backwards, whatever the clock does. */
  predicate Forward(cfg: Config) { cfg.windowMs + cfg.graceMs >= 0 }

  lemma BoundaryHolds(app: App, now: int, cfg: Config)
    requires cfg.windowMs > 0 && Forward(cfg) && BoundaryReached(app, now, cfg)
    requires app.currentWindowStart % cfg.windowMs == 0
    ensures app.currentWindowStart <= WindowFloor(now, cfg.windowMs)
  {
    var cutoff := WindowFloor(now, cfg.windowMs);
    if cutoff < app.currentWindowStart {
      AlignedBelow(cutoff, app.currentWindowStart, cfg.windowMs);
    }
  }

  /** With a non-negative grace every close moves it strictly forward. */
  lemma BoundaryAdvances(app: App, now: int, cfg: Config)
    requires cfg.windowMs > 0 && cfg.graceMs >= 0 && BoundaryReached(app, now, cfg)
    requires app.currentWindowStart % cfg.windowMs == 0
    ensures app.currentWindowStart < WindowFloor(now, cfg.windowMs)
  {
    var cutoff := WindowFloor(now, cfg.windowMs);
    assert now < cutoff + cfg.windowMs;
  }

  /** The invariant does not read the phase, and reads the boundary only for alignment. */
  lemma PhaseIrrelevant(s: System, next: System, topic: Topic, edge: Edge, windowMs: int)
    requires windowMs > 0 && Core(s, topic, edge, windowMs)
    requires next == s.(phase := next.phase, app := s.app.(closedThrough := next.app.closedThrough,
                                                         currentWindowStart := next.app.currentWindowStart))
    requires BoundaryAligned(next, windowMs)
    ensures Core(next, topic, edge, windowMs)
  {
    SameMemory(s, next, topic, edge, windowMs);
    SamePositions(s, next);
    StillSettled(s, next, topic);
    if !edge.Untracked? { SameFrozen(s, next, topic, edge, windowMs); }
  }

  /** The boundary a tick closes at, as an edge. */
  function CutEdge(edge: Edge, cutoff: int): Edge {
    if edge.Untracked? then Untracked else Below(cutoff)
  }

  /** The edge after the loop has been left. */
  function EndEdge(edge: Edge): Edge {
    if edge.Untracked? then Untracked else Everything
  }

  lemma RaisedKeepsCore(s: System, next: System, topic: Topic, edge: Edge, cutoff: int, windowMs: int)
    requires windowMs > 0 && Core(s, topic, CutEdge(edge, cutoff), windowMs) && next == s.(phase := Stopping)
    ensures Core(next, topic, EndEdge(edge), windowMs)
  {
    PhaseIrrelevant(s, next, topic, EndEdge(edge), windowMs);
  }

  lemma ClosedKeepsCore(s: System, next: System, topic: Topic, edge: Edge, cutoff: int, windowMs: int)
    requires windowMs > 0 && Core(s, topic, edge, windowMs) && cutoff % windowMs == 0
    requires next == s.(app := s.app.(closedThrough := Some(cutoff), currentWindowStart := cutoff))
    ensures Core(next, topic, edge, windowMs)
  {
    PhaseIrrelevant(s, next, topic, edge, windowMs);
  }

  /** A tick that closes the boundary keeps the invariant with any edge the new boundary covers. */
  lemma ClosingKeepsCore(s: System, now: int, scripts: Scripts, outcome: CommitOutcome, topic: Topic, edge: Edge, cfg: Config)
    requires cfg.windowMs > 0 && BoundaryReached(s.app, now, cfg)
    requires Enabled(s, Tick(now, scripts, outcome), topic, cfg)
    requires var cut := CutEdge(edge, WindowFloor(now, cfg.windowMs)); Core(s, topic, cut, cfg.windowMs)
    ensures var next, cut := ApplyTick(s, now, scripts, outcome, cfg), CutEdge(edge, WindowFloor(now, cfg.windowMs));
            Core(next, topic, if next.phase.Running? then cut else EndEdge(edge), cfg.windowMs)
  {
    var cutoff := WindowFloor(now, cfg.windowMs);
    RoundEmitKeepsCore(s, Due(s.app, cutoff), scripts, outcome, topic, CutEdge(edge, cutoff), cfg.windowMs);
    var r := RoundEmit(s, Due(s.app, cutoff), scripts, outcome, cfg.windowMs);
    var next := ApplyTick(s, now, scripts, outcome, cfg);
    if r.raised {
      RaisedKeepsCore(r.sys, next, topic, edge, cutoff, cfg.windowMs);
    } else {
      ClosedKeepsCore(r.sys, next, topic, CutEdge(edge, cutoff), cutoff, cfg.windowMs);
    }
  }

  lemma TickKeepsInv(s: System, now: int, scripts: Scripts, outcome: CommitOutcome, topic: Topic, cfg: Config)
    requires cfg.windowMs > 0 && Forward(cfg)
    requires Inv(s, topic, cfg) && Enabled(s, Tick(now, scripts, outcome), topic, cfg)
    ensures Inv(ApplyTick(s, now, scripts, outcome, cfg), topic, cfg)
  {
    if BoundaryReached(s.app, now, cfg) {
      BoundaryHolds(s.app, now, cfg);
      ClosingKeepsCore(s, now, scripts, outcome, topic, Nothing, cfg);
    }
  }

  lemma TickKeepsLedger(s: System, now: int, scripts: Scripts, outcome: CommitOutcome, topic: Topic, cfg: Config)
    requires cfg.windowMs > 0
    requires Ledger(s, topic, cfg) && Enabled(s, Tick(now, scripts, outcome), topic, cfg)
    ensures Ledger(ApplyTick(s, now, scripts, outcome, cfg), topic, cfg)
  {
    if BoundaryReached(s.app, now, cfg) { ClosingKeepsCore(s, now, scripts, outcome, topic, Untracked, cfg); }
  }

  lemma ShutdownKeepsCore(s: System, scripts: Scripts, outcome: CommitOutcome, topic: Topic, edge: Edge, cfg: Config)
    requires cfg.windowMs > 0 && edge == EndEdge(edge) && Core(s, topic, edge, cfg.windowMs)
    requires Enabled(s, Shutdown(scripts, outcome), topic, cfg)
    ensures Core(ApplyShutdown(s, scripts, outcome, cfg), topic, edge, cfg.windowMs)
  {
    RoundEmitKeepsCore(s, s.app.windows.Keys, scripts, outcome, topic, edge, cfg.windowMs);
    var mid := RoundEmit(s, s.app.windows.Keys, scripts, outcome, cfg.windowMs).sys;
    PhaseIrrelevant(mid, ApplyShutdown(s, scripts, outcome, cfg), topic, edge, cfg.windowMs);
  }

  lemma ShutdownKeepsInv(s: System, scripts: Scripts, outcome: CommitOutcome, topic: Topic, cfg: Config)
    requires cfg.windowMs > 0 && Inv(s, topic, cfg) && Enabled(s, Shutdown(scripts, outcome), topic, cfg)
    ensures Inv(ApplyShutdown(s, scripts, outcome, cfg), topic, cfg)
  {
    ShutdownKeepsCore(s, scripts, outcome, topic, Everything, cfg);
  }

  // ---- Rewinding and restarting ----

  lemma RewoundPositions(s: System, p: int)
    requires PositionsInRange(s)
    ensures PositionsInRange(ApplyRewind(s, p))
  {
    var next := ApplyRewind(s, p);
    forall q ensures
      && Start(next, q) <= Position(next, q)
      && (if q in next.app.lastOffset then Position(next, q) <= next.app.lastOffset[q] + 1 else Position(next, q) == Start(next, q))
    {
      assert Start(s, q) <= Position(s, q);
    }
  }

  lemma RewindKeepsCore(s: System, p: int, topic: Topic, edge: Edge, windowMs: int)
    requires windowMs > 0 && Core(s, topic, edge, windowMs)
    ensures Core(ApplyRewind(s, p), topic, edge, windowMs)
  {
    var next := ApplyRewind(s, p);
    SameMemory(s, next, topic, edge, windowMs);
    RewoundPositions(s, p);
    StillSettled(s, next, topic);
    if !edge.Untracked? { SameFrozen(s, next, topic, edge, windowMs); }
  }

  /** A fresh process starts from the committed offsets with nothing held. */
  lemma BootKeepsCore(now: int, committed: OffsetMap, sink: set<Row>, late: set<Id>, batches: set<Batch>, topic: Topic, edge: Edge, cfg: Config)
    requires cfg.windowMs > 0 && WellFormed(topic)
    requires forall b | b in batches :: BatchDelivered(b, sink, topic, cfg.windowMs)
    requires forall id | id in topic && id.partition in committed && id.offset < committed[id.partition] ::
               !topic[id].Decoded? || id in late || exists b :: b in batches && id in b.ids
    ensures Core(Boot(now, committed, sink, late, batches, cfg.windowMs), topic, edge, cfg.windowMs)
  {
    var s := Boot(now, committed, sink, late, batches, cfg.windowMs);
    assert forall x :: !Pending(s, x);
    assert forall x, v :: !BufferedAt(s, x, v) && !HeldAt(s, x, v);
    assert forall p :: Position(s, p) == Start(s, p);
    forall x | x in topic && Reached(s, x) ensures Settled(s, topic, x) {
    }
  }

  lemma RestartKeepsCore(s: System, now: int, delivered: set<Row>, topic: Topic, edge: Edge, cfg: Config)
    requires cfg.windowMs > 0 && WellFormed(topic) && Ledger(s, topic, cfg)
    ensures Core(ApplyRestart(s, now, delivered, cfg), topic, edge, cfg.windowMs)
  {
    var sink := s.broker.sink + s.broker.queue * delivered;
    forall id | id in topic && id.partition in s.broker.committed && id.offset < s.broker.committed[id.partition]
      ensures Settled(s, topic, id)
    {
    }
    BootKeepsCore(now, s.broker.committed, sink, s.late, s.batches, topic, edge, cfg);
  }
}
