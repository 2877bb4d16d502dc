/**
 * The template renderer's state: named counters, and state pools whose entries are mutable
 * objects updated in place. Sampling for a schema runs the live renderer and then restores it.
 */
module Renderer {

  datatype Value = Nil | Num(n: int) | Text(s: string)

  type Attrs = map<string, Value>

  type PoolData = map<string, Attrs>

  datatype RenderState = RenderState(counters: map<string, int>, pools: map<string, PoolData>)

  /** The stateful helper calls a template can make, and what they answer. */
  datatype Call =
    | Counter(name: string, start: int, step: int)
    | InitPool(pool: string, data: PoolData)
    | Get(pool: string, key: string, field: string, default: Value)
    | Update(pool: string, key: string, field: string, value: Value)

  datatype Reply = Count(n: int) | Got(v: Value) | Empty

  datatype Outcome = Outcome(state: RenderState, reply: Reply)

  function Perform(st: RenderState, c: Call): Outcome {
    match c
    case Counter(name, start, step) =>
      var current := if name in st.counters then st.counters[name] else start;
      Outcome(st.(counters := st.counters[name := current + step]), Count(current))
    case InitPool(pool, data) =>
      Outcome(if pool in st.pools then st else st.(pools := st.pools[pool := data]), Empty)
    case Get(pool, key, field, default) =>
      Outcome(st, Got(
        if pool in st.pools && key in st.pools[pool] && field in st.pools[pool][key]
        then st.pools[pool][key][field] else default))
    case Update(pool, key, field, value) =>
      if pool in st.pools && key in st.pools[pool]
      then Outcome(st.(pools := st.pools[pool := st.pools[pool][key := st.pools[pool][key][field := value]]]), Empty)
      else Outcome(st, Empty)
  }

  datatype Replay = Replay(state: RenderState, replies: seq<Reply>)

  function PerformAll(st: RenderState, calls: seq<Call>): Replay {
    if calls == [] then Replay(st, [])
    else
      var before := PerformAll(st, calls[..|calls| - 1]);
      var last := Perform(before.state, calls[|calls| - 1]);
      Replay(last.state, before.replies + [last.reply])
  }

  lemma OneMoreStep(n: nat, step: int)
    ensures (n + 1) * step == n * step + step
  {
  }

  /** The j-th call (from zero) of one counter returns `start + j * step`. */
  lemma {:induction false} CounterSequence(st: RenderState, name: string, start: int, step: int, calls: seq<Call>, j: nat)
    requires name !in st.counters && j < |calls|
    requires forall i | 0 <= i < |calls| :: calls[i] == Counter(name, start, step)
    ensures |PerformAll(st, calls).replies| == |calls|
    ensures PerformAll(st, calls).replies[j] == Count(start + j * step)
    ensures name in PerformAll(st, calls).state.counters
         && PerformAll(st, calls).state.counters[name] == start + |calls| * step
  {
    var n := |calls| - 1;
    OneMoreStep(n, step);
    if n > 0 {
      CounterSequence(st, name, start, step, calls[..n], if j < n then j else 0);
    } else {
      assert PerformAll(st, calls[..0]) == Replay(st, []);
    }
  }

  // ---- What a call does to later answers ----

  /** Main: after an update, a look-up of the updated attribute answers the new value if its pool and
      key exist; every other look-up, of any pool, key and field, answers what it did, and so does
      every counter. An update of an unknown pool or key changes nothing. */
  lemma UpdateAnswers(st: RenderState, pool: string, key: string, field: string, value: Value,
                      p: string, k: string, f: string, default: Value)
    ensures var next := Perform(st, Update(pool, key, field, value)).state;
            && (pool !in st.pools || key !in st.pools[pool] ==> next == st)
            && next.counters == st.counters
            && Perform(next, Get(p, k, f, default)).reply
                 == if p == pool && k == key && f == field && pool in st.pools && key in st.pools[pool] then Got(value)
                    else Perform(st, Get(p, k, f, default)).reply
  {
  }

  /** Main: creating a pool changes only the answers about that pool, and those only if it is new:
      they are then the attributes of the data, or the default. */
  lemma InitAnswers(st: RenderState, pool: string, data: PoolData, p: string, k: string, f: string, default: Value)
    ensures var next := Perform(st, InitPool(pool, data)).state;
            && next.counters == st.counters
            && Perform(next, Get(p, k, f, default)).reply
                 == if p == pool && pool !in st.pools
                    then Got(if k in data && f in data[k] then data[k][f] else default)
                    else Perform(st, Get(p, k, f, default)).reply
  {
  }

  /** Main: a counter call moves that counter on by its step and changes nothing else. */
  lemma CounterAnswers(st: RenderState, name: string, start: int, step: int, other: string, start': int, step': int)
    ensures var o := Perform(st, Counter(name, start, step));
            && o.state.pools == st.pools
            && Perform(o.state, Counter(other, start', step')).reply
                 == if other == name then Count(o.reply.n + step) else Perform(st, Counter(other, start', step')).reply
  {
  }

  // ---- Pools of mutable entries ----

  /** One pool entry: the inner dictionary that updates write into. */
  class Entry {
    var attrs: Attrs

    constructor (attrs: Attrs)
      ensures this.attrs == attrs
    {
      this.attrs := attrs;
    }
  }

  type Pool = map<string, Entry>

  ghost function DataOf(pool: Pool): PoolData
    reads set k | k in pool :: pool[k]
  {
    map k | k in pool :: pool[k].attrs
  }

  ghost predicate Distinct(pool: Pool) {
    forall k, l | k in pool && l in pool && pool[k] == pool[l] :: k == l
  }

  /** A pool of fresh entries holding the given data. */
  method NewPool(data: PoolData) returns (pool: Pool)
    ensures pool.Keys == data.Keys && Distinct(pool)
    ensures forall k | k in pool :: fresh(pool[k]) && pool[k].attrs == data[k]
  {
    pool := map[];
    var rest := data.Keys;
    while rest != {}
      invariant rest <= data.Keys
      invariant pool.Keys == data.Keys - rest && Distinct(pool)
      invariant forall k | k in pool :: fresh(pool[k]) && pool[k].attrs == data[k]
      decreases |rest|
    {
      var k :| k in rest;
      var entry := new Entry(data[k]);
      pool := pool[k := entry];
      rest := rest - {k};
    }
  }

  /** `copy.deepcopy` of one pool. */
  method CopyPool(pool: Pool) returns (copy: Pool)
    ensures copy.Keys == pool.Keys && Distinct(copy)
    ensures forall k | k in copy :: fresh(copy[k])
    ensures DataOf(copy) == old(DataOf(pool))
  {
    copy := map[];
    var rest := pool.Keys;
    while rest != {}
      invariant rest <= pool.Keys
      invariant copy.Keys == pool.Keys - rest && Distinct(copy)
      invariant forall k | k in copy :: fresh(copy[k]) && copy[k].attrs == old(pool[k].attrs)
      decreases |rest|
    {
      var k :| k in rest;
      assert pool[k].attrs == old(pool[k].attrs);
      var entry := new Entry(pool[k].attrs);
      copy := copy[k := entry];
      rest := rest - {k};
    }
    forall k | k in copy ensures copy[k].attrs == old(DataOf(pool))[k] { }
  }

  type Pools = map<string, Pool>

  /** Different keys, in the same pool or not, never share an entry. */
  ghost predicate NoSharing(pools: Pools) {
    forall p, k, q, l | p in pools && k in pools[p] && q in pools && l in pools[q] && pools[p][k] == pools[q][l] ::
      p == q && k == l
  }

  ghost function Entries(pools: Pools): set<Entry> {
    set p, k | p in pools && k in pools[p] :: pools[p][k]
  }

  ghost function Contents(pools: Pools): map<string, PoolData>
    reads Entries(pools)
  {
    map p | p in pools :: DataOf(pools[p])
  }

  /** `copy.deepcopy` of all pools: equal contents, no entry shared with the original. */
  method DeepCopy(pools: Pools) returns (copy: Pools)
    ensures NoSharing(copy) && fresh(Entries(copy))
    ensures Contents(copy) == old(Contents(pools))
  {
    copy := map[];
    var rest := pools.Keys;
    while rest != {}
      invariant rest <= pools.Keys
      invariant copy.Keys == pools.Keys - rest && NoSharing(copy)
      invariant forall p, k | p in copy && k in copy[p] :: fresh(copy[p][k])
      invariant forall p | p in copy :: DataOf(copy[p]) == old(DataOf(pools[p]))
      decreases |rest|
    {
      var p :| p in rest;
      var one := CopyPool(pools[p]);
      copy := copy[p := one];
      rest := rest - {p};
    }
  }

  lemma PoolAdded(pools: Pools, pool: string, made: Pool)
    ensures Contents(pools[pool := made]) == Contents(pools)[pool := DataOf(made)]
  {
  }

  /** Pools that differ in one attribute only are the pools with that attribute updated. */
  lemma AttrWritten(pools: Pools, before: map<string, PoolData>, pool: string, key: string, field: string, value: Value)
    requires pools.Keys == before.Keys && forall p | p in pools :: pools[p].Keys == before[p].Keys
    requires pool in before && key in before[pool]
    requires forall p, k | p in pools && k in pools[p] ::
               pools[p][k].attrs == if p == pool && k == key then before[p][k][field := value] else before[p][k]
    ensures Contents(pools) == before[pool := before[pool][key := before[pool][key][field := value]]]
  {
    forall p | p in pools
      ensures DataOf(pools[p]) == if p == pool then before[p][key := before[p][key][field := value]] else before[p]
    {
    }
  }

  class TemplateRenderer {
    var counters: map<string, int>
    var pools: Pools

    ghost predicate Valid()
      reads this
    {
      NoSharing(pools)
    }

    ghost function View(): RenderState
      reads this, Entries(pools)
    {
      RenderState(counters, Contents(pools))
    }

    constructor ()
      ensures Valid() && View() == RenderState(map[], map[]) && Entries(pools) == {}
    {
      counters, pools := map[], map[];
    }

    method NextCount(name: string, start: int, step: int) returns (current: int)
      modifies this`counters
      ensures current == if name in old(counters) then old(counters)[name] else start
      ensures counters == old(counters)[name := current + step]
      ensures Outcome(View(), Count(current)) == Perform(old(View()), Counter(name, start, step))
    {
      current := if name in counters then counters[name] else start;
      counters := counters[name := current + step];
    }

    /** Create the pool unless it exists; the data is the template's own literal. */
    method Init(pool: string, data: PoolData)
      requires Valid()
      modifies this`pools
      ensures Valid() && fresh(Entries(pools) - old(Entries(pools)))
      ensures pool in old(pools) ==> pools == old(pools)
      ensures pool !in old(pools) ==>
                && pools.Keys == old(pools).Keys + {pool} && pools[pool].Keys == data.Keys
                && (forall p | p in old(pools) :: pools[p] == old(pools)[p])
                && (forall k | k in data :: fresh(pools[pool][k]) && pools[pool][k].attrs == data[k])
      ensures View() == Perform(old(View()), InitPool(pool, data)).state
    {
      if pool !in pools {
        var made := NewPool(data);
        assert DataOf(made) == data;
        PoolAdded(pools, pool, made);
        pools := pools[pool := made];
      }
    }

    method Lookup(pool: string, key: string, field: string, default: Value) returns (v: Value)
      ensures v == if pool in pools && key in pools[pool] && field in pools[pool][key].attrs
                   then pools[pool][key].attrs[field] else default
      ensures Outcome(View(), Got(v)) == Perform(View(), Get(pool, key, field, default))
    {
      if pool in pools && key in pools[pool] && field in pools[pool][key].attrs {
        v := pools[pool][key].attrs[field];
      } else {
        v := default;
      }
    }

    /** Write one attribute of an entry that exists. */
    method WriteAttr(pool: string, key: string, field: string, value: Value)
      requires Valid() && pool in pools && key in pools[pool]
      modifies Entries(pools)
      ensures forall p, k | p in pools && k in pools[p] ::
                pools[p][k].attrs == if p == pool && k == key then old(pools[p][k].attrs)[field := value]
                                     else old(pools[p][k].attrs)
    {
      var entry := pools[pool][key];
      entry.attrs := entry.attrs[field := value];
    }

    /** Write one attribute in place; unknown pools and keys are ignored. */
    method Assign(pool: string, key: string, field: string, value: Value)
      requires Valid()
      modifies Entries(pools)
      ensures Valid()
      ensures forall p, k | p in pools && k in pools[p] ::
                pools[p][k].attrs == if p == pool && k == key then old(pools[p][k].attrs)[field := value]
                                     else old(pools[p][k].attrs)
      ensures View() == Perform(old(View()), Update(pool, key, field, value)).state
    {
      if pool in pools && key in pools[pool] {
        ghost var before := Contents(pools);
        WriteAttr(pool, key, field, value);
        AttrWritten(pools, before, pool, key, field, value);
      }
    }

    method Do(c: Call) returns (reply: Reply)
      requires Valid()
      modifies this, Entries(pools)
      ensures Valid() && fresh(Entries(pools) - old(Entries(pools)))
      ensures Outcome(View(), reply) == Perform(old(View()), c)
    {
      match c {
        case Counter(name, start, step) =>
          var n := NextCount(name, start, step);
          reply := Count(n);
        case InitPool(pool, data) =>
          Init(pool, data);
          reply := Empty;
        case Get(pool, key, field, default) =>
          var v := Lookup(pool, key, field, default);
          reply := Got(v);
        case Update(pool, key, field, value) =>
          Assign(pool, key, field, value);
          reply := Empty;
      }
    }

    /** One render, as the sequence of helper calls it makes. */
    method Render(calls: seq<Call>) returns (replies: seq<Reply>)
      requires Valid()
      modifies this, Entries(pools)
      ensures Valid() && fresh(Entries(pools) - old(Entries(pools)))
      ensures Replay(View(), replies) == PerformAll(old(View()), calls)
    {
      replies := [];
      for i := 0 to |calls|
        invariant Valid() && fresh(Entries(pools) - old(Entries(pools)))
        invariant Replay(View(), replies) == PerformAll(old(View()), calls[..i])
      {
        assert calls[..i + 1][..i] == calls[..i];
        var reply := Do(calls[i]);
        replies := replies + [reply];
      }
      assert calls[..|calls|] == calls;
    }

    method RenderSamples(samples: seq<seq<Call>>) returns (replies: seq<seq<Reply>>)
      requires Valid()
      modifies this, Entries(pools)
      ensures Valid() && fresh(Entries(pools) - old(Entries(pools)))
      ensures |replies| == |samples|
    {
      replies := [];
      for i := 0 to |samples|
        invariant Valid() && fresh(Entries(pools) - old(Entries(pools)))
        invariant |replies| == i
      {
        var sample := Render(samples[i]);
        replies := replies + [sample];
      }
    }

    /** Render the samples, then put the given copies in place. */
    method SampleAndRestore(samples: seq<seq<Call>>, savedCounters: map<string, int>, savedPools: Pools)
      returns (replies: seq<seq<Reply>>)
      requires Valid() && NoSharing(savedPools) && Entries(savedPools) !! Entries(pools)
      modifies this, Entries(pools)
      ensures Valid() && pools == savedPools
      ensures View() == old(RenderState(savedCounters, Contents(savedPools)))
      ensures |replies| == |samples|
    {
      replies := RenderSamples(samples);
      assert Contents(savedPools) == old(Contents(savedPools));
      counters := savedCounters;
      pools := savedPools;
    }

    /** Sampling: copy, render any number of samples in place, put the copies back. Whatever the
        samples did, the renderer's counters and every pool attribute are what they were. */
    method Sample(samples: seq<seq<Call>>) returns (replies: seq<seq<Reply>>)
      requires Valid()
      modifies this, Entries(pools)
      ensures Valid() && fresh(Entries(pools))
      ensures View() == old(View())
      ensures |replies| == |samples|
    {
      var countersSnapshot := counters;
      var poolsSnapshot := DeepCopy(pools);
      replies := SampleAndRestore(samples, countersSnapshot, poolsSnapshot);
    }

    /** Main: what production renders after sampling is what it would have rendered without. */
    method SampleThenRender(samples: seq<seq<Call>>, production: seq<Call>) returns (replies: seq<Reply>)
      requires Valid()
      modifies this, Entries(pools)
      ensures Valid()
      ensures Replay(View(), replies) == PerformAll(old(View()), production)
    {
      var sampled := Sample(samples);
      replies := Render(production);
    }
  }
}
