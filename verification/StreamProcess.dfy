/**
 * The program's processes are runs of the system: what `StreamApp` computes, from start-up through
 * the loop to the final flush, extends any run that has just booted. What is proved of every run
 * therefore holds of the program.
 */
module StreamProcess {
  import opened Prelude
  import opened Aggregation
  import opened StreamSpec
  import opened StreamSystem
  import opened StreamApp
  import opened StreamRuns
  import opened StreamTheorems

  /** The system after one turn of the loop. */
  ghost function TurnOne(s: System, turn: Turn, topic: Topic, cfg: Config): System
    requires cfg.windowMs > 0
  {
    if !s.phase.Running? then s
    else
      var ticked := ApplyTick(s, turn.now, turn.scripts, turn.commit, cfg);
      if !ticked.phase.Running? || turn.message.None? then ticked
      else
        var m := turn.message.value;
        if Id(m.partition, m.offset) !in topic then ticked
        else ApplyPoll(ticked, m.partition, m.offset, topic, cfg.windowMs)
  }

  ghost function TurnAll(s: System, turns: seq<Turn>, topic: Topic, cfg: Config): System
    requires cfg.windowMs > 0
  {
    if turns == [] then s else TurnOne(TurnAll(s, turns[..|turns| - 1], topic, cfg), turns[|turns| - 1], topic, cfg)
  }

  /** The message a turn handles, if any, is the next one of its partition in the topic. */
  ghost predicate Fetches(s: System, turn: Turn, topic: Topic, cfg: Config)
    requires cfg.windowMs > 0
  {
    var ticked := ApplyTick(s, turn.now, turn.scripts, turn.commit, cfg);
    ticked.phase.Running? && turn.message.Some? ==>
      var m := turn.message.value;
      IsNext(ticked, topic, m.partition, m.offset) && topic[Id(m.partition, m.offset)] == m.payload
  }

  /** So it is for every turn of the loop that is reached. */
  ghost predicate TurnsFetch(s: System, turns: seq<Turn>, topic: Topic, cfg: Config)
    requires cfg.windowMs > 0
  {
    forall i {:trigger turns[i]} | 0 <= i < |turns| ::
      var before := TurnAll(s, turns[..i], topic, cfg);
      before.phase.Running? ==> Fetches(before, turns[i], topic, cfg)
  }

  /** The longer run goes on from the shorter within the same process. */
  ghost predicate Continues(states: seq<System>, steps: seq<Step>, more: seq<System>, moreSteps: seq<Step>) {
    && states <= more && steps <= moreSteps
    && forall i | |steps| <= i < |moreSteps| :: !moreSteps[i].Restart?
  }

  lemma ContinuesOn(states: seq<System>, steps: seq<Step>, step: Step, topic: Topic, cfg: Config)
    returns (more: seq<System>, moreSteps: seq<Step>)
    requires cfg.windowMs > 0 && IsRun(states, steps, topic, cfg)
    requires Enabled(states[|steps|], step, topic, cfg) && !step.Restart?
    ensures IsRun(more, moreSteps, topic, cfg) && Continues(states, steps, more, moreSteps)
    ensures more[|moreSteps|] == Apply(states[|steps|], step, topic, cfg)
  {
    var next := Apply(states[|steps|], step, topic, cfg);
    RunThen(states, steps, step, next, topic, cfg);
    more, moreSteps := states + [next], steps + [step];
  }

  lemma TickPhase(s: System, now: int, scripts: Scripts, outcome: CommitOutcome, cfg: Config)
    requires cfg.windowMs > 0 && s.phase.Running?
    ensures !ApplyTick(s, now, scripts, outcome, cfg).phase.Stopped?
  {
    RoundAllPhase(Round(s, false, false), SortedOf(Due(s.app, WindowFloor(now, cfg.windowMs))), scripts, cfg.windowMs);
  }

  /** One turn goes on with at most two steps. */
  lemma TurnContinues(states: seq<System>, steps: seq<Step>, turn: Turn, topic: Topic, cfg: Config)
    returns (more: seq<System>, moreSteps: seq<Step>)
    requires cfg.windowMs > 0 && IsRun(states, steps, topic, cfg) && states[|steps|].phase.Running?
    requires var app := states[|steps|].app; ScriptsCover(app, Due(app, WindowFloor(turn.now, cfg.windowMs)), turn.scripts)
    requires Fetches(states[|steps|], turn, topic, cfg)
    ensures IsRun(more, moreSteps, topic, cfg) && Continues(states, steps, more, moreSteps)
    ensures more[|moreSteps|] == TurnOne(states[|steps|], turn, topic, cfg) && !more[|moreSteps|].phase.Stopped?
  {
    var s := states[|steps|];
    TickPhase(s, turn.now, turn.scripts, turn.commit, cfg);
    more, moreSteps := ContinuesOn(states, steps, Tick(turn.now, turn.scripts, turn.commit), topic, cfg);
    var ticked := more[|moreSteps|];
    if ticked.phase.Running? && turn.message.Some? {
      var m := turn.message.value;
      more, moreSteps := ContinuesOn(more, moreSteps, Poll(m.partition, m.offset), topic, cfg);
    }
  }

  /** What the loop of the program computes. */
  ghost predicate Shows(s: System, st: LoopState) {
    s.app == st.app && s.broker == st.broker && (s.phase.Running? <==> !st.raised) && !s.phase.Stopped?
  }

  lemma TurnShows(s: System, turn: Turn, topic: Topic, cfg: Config)
    requires cfg.windowMs > 0 && s.phase.Running? && Fetches(s, turn, topic, cfg)
    ensures Shows(TurnOne(s, turn, topic, cfg), LoopOne(LoopState(s.app, s.broker, false), turn, cfg))
  {
    TickPhase(s, turn.now, turn.scripts, turn.commit, cfg);
    LoopOneIsTwoSteps(s, turn, topic, cfg);
  }

  /** One turn, taken unless an exception came before. */
  lemma TurnGoesOn(states: seq<System>, steps: seq<Step>, st: LoopState, turn: Turn, topic: Topic, cfg: Config)
    returns (more: seq<System>, moreSteps: seq<Step>)
    requires cfg.windowMs > 0 && IsRun(states, steps, topic, cfg) && Shows(states[|steps|], st)
    requires !st.raised ==> ScriptsCover(st.app, Due(st.app, WindowFloor(turn.now, cfg.windowMs)), turn.scripts)
    requires !st.raised ==> Fetches(states[|steps|], turn, topic, cfg)
    ensures IsRun(more, moreSteps, topic, cfg) && Continues(states, steps, more, moreSteps)
    ensures more[|moreSteps|] == TurnOne(states[|steps|], turn, topic, cfg)
    ensures Shows(more[|moreSteps|], LoopOne(st, turn, cfg))
  {
    more, moreSteps := states, steps;
    if !st.raised {
      TurnShows(states[|steps|], turn, topic, cfg);
      more, moreSteps := TurnContinues(states, steps, turn, topic, cfg);
    }
  }

  lemma ButLast(s: System, turns: seq<Turn>, topic: Topic, cfg: Config)
    requires cfg.windowMs > 0 && turns != []
    requires LoopCovered(s.app, s.broker, turns, cfg) && TurnsFetch(s, turns, topic, cfg)
    ensures LoopCovered(s.app, s.broker, turns[..|turns| - 1], cfg) && TurnsFetch(s, turns[..|turns| - 1], topic, cfg)
  {
    var before := turns[..|turns| - 1];
    assert forall i | 0 <= i < |before| :: before[i] == turns[i] && before[..i] == turns[..i];
  }

  /** The loop over any turns extends the run, and its end shows what the program computes. */
  lemma {:induction false} LoopIsRun(states: seq<System>, steps: seq<Step>, turns: seq<Turn>, topic: Topic, cfg: Config)
    returns (more: seq<System>, moreSteps: seq<Step>)
    requires cfg.windowMs > 0 && IsRun(states, steps, topic, cfg) && states[|steps|].phase.Running?
    requires var s := states[|steps|]; LoopCovered(s.app, s.broker, turns, cfg) && TurnsFetch(s, turns, topic, cfg)
    ensures IsRun(more, moreSteps, topic, cfg) && Continues(states, steps, more, moreSteps)
    ensures var s := states[|steps|];
            && more[|moreSteps|] == TurnAll(s, turns, topic, cfg)
            && Shows(more[|moreSteps|], LoopAll(LoopState(s.app, s.broker, false), turns, cfg))
    decreases |turns|
  {
    more, moreSteps := states, steps;
    if turns != [] {
      var s, n := states[|steps|], |turns| - 1;
      ButLast(s, turns, topic, cfg);
      more, moreSteps := LoopIsRun(states, steps, turns[..n], topic, cfg);
      var st := LoopAll(LoopState(s.app, s.broker, false), turns[..n], cfg);
      assert !st.raised ==> Fetches(TurnAll(s, turns[..n], topic, cfg), turns[n], topic, cfg);
      more, moreSteps := TurnGoesOn(more, moreSteps, st, turns[n], topic, cfg);
    }
  }

  /** Main: a whole process, from any running state of any run, is a run: through all turns up to
      the first exception and then the final flush, it ends in a state with the program's memory and
      broker. */
  lemma ProcessIsRun(states: seq<System>, steps: seq<Step>, turns: seq<Turn>, last: Scripts, lastCommit: CommitOutcome,
                     topic: Topic, cfg: Config)
    returns (more: seq<System>, moreSteps: seq<Step>)
    requires cfg.windowMs > 0 && IsRun(states, steps, topic, cfg) && states[|steps|].phase.Running?
    requires var s := states[|steps|]; TurnsCovered(s.app, s.broker, turns, last, cfg) && TurnsFetch(s, turns, topic, cfg)
    ensures IsRun(more, moreSteps, topic, cfg) && Continues(states, steps, more, moreSteps)
    ensures var st := LoopAll(LoopState(states[|steps|].app, states[|steps|].broker, false), turns, cfg);
            var final := FinalFlush(st.app, st.broker, last, lastCommit, cfg.windowMs);
            && more[|moreSteps|].app == final.app && more[|moreSteps|].broker == final.broker
            && more[|moreSteps|].phase.Stopped?
  {
    more, moreSteps := LoopIsRun(states, steps, turns, topic, cfg);
    ShutdownMatches(more[|moreSteps|], last, lastCommit, cfg);
    more, moreSteps := ContinuesOn(more, moreSteps, Shutdown(last, lastCommit), topic, cfg);
  }

  /** Main: one process of the program: start up, run the loop, flush on the way out. It extends the
      run in whose last state it boots, so whatever offset it leaves committed, every earlier message
      is unusable, late, or delivered. */
  method Process(cfg: Config, now: int, turns: seq<Turn>, last: Scripts, lastCommit: CommitOutcome, broker: Broker,
                 ghost states: seq<System>, ghost steps: seq<Step>, ghost topic: Topic)
    returns (after: Broker, stats: Stats, ghost more: seq<System>, ghost moreSteps: seq<Step>)
    requires Setting(topic, cfg) && IsRun(states, steps, topic, cfg)
    requires var s := states[|steps|];
             s.broker == broker && s == Boot(now, broker.committed, broker.sink, s.late, s.batches, cfg.windowMs)
    requires TurnsCovered(InitialApp(now, cfg.windowMs), broker, turns, last, cfg)
    requires TurnsFetch(states[|steps|], turns, topic, cfg)
    ensures var st := LoopAll(LoopState(InitialApp(now, cfg.windowMs), broker, false), turns, cfg);
            var final := FinalFlush(st.app, st.broker, last, lastCommit, cfg.windowMs);
            after == final.broker && stats == final.app.stats
    ensures IsRun(more, moreSteps, topic, cfg) && Continues(states, steps, more, moreSteps)
    ensures more[|moreSteps|].phase.Stopped? && more[|moreSteps|].broker == after && more[|moreSteps|].app.stats == stats
    ensures forall id | id in topic && id.partition in after.committed && id.offset < after.committed[id.partition] ::
              !topic[id].Decoded? || id in more[|moreSteps|].late || Delivered(more[|moreSteps|], topic, id, cfg.windowMs)
  {
    var app := new DnsStreamApp(cfg, now);
    after := app.Run(turns, last, lastCommit, broker);
    stats := app.stats;
    more, moreSteps := ProcessIsRun(states, steps, turns, last, lastCommit, topic, cfg);
    forall id | id in topic && id.partition in after.committed && id.offset < after.committed[id.partition]
      ensures !topic[id].Decoded? || id in more[|moreSteps|].late || Delivered(more[|moreSteps|], topic, id, cfg.windowMs)
    {
      AtLeastOnce(more, moreSteps, topic, cfg, |moreSteps|, id);
    }
  }
}
