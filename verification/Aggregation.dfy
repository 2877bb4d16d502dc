/**
 * The aggregation behind the DNS app: the incremental fold of `update_state`,
 * the aggregate row of `to_record`, and the declarative group-by both must agree with.
 */
module Aggregation {
  import opened Prelude

  /** A field value as the code reads it: `text` is what `str` makes of it, and
      `number` is what the integer (or timestamp) conversion yields, None when that fails. */
  datatype Raw = Raw(text: string, number: Option<int>)

  type Event = map<string, Raw>

  const AVG_FIELD := "latency_ms"
  const EVENT_TYPE := "dns"

  function ToInt(e: Event, field: string): int {
    if field in e then e[field].number.GetOr(0) else 0
  }

  function Text(e: Event, field: string): string {
    if field in e then e[field].text else ""
  }

  function EventTs(e: Event): int { ToInt(e, "ts") }

  /** The composite group key, in the order of GROUP_FIELDS. */
  datatype Group = Group(eventType: string, srcIp: string, qtype: string, rcode: string, protocol: string)

  function GroupOf(e: Event): Group {
    Group(Text(e, "event_type"), Text(e, "src_ip"), Text(e, "qtype"), Text(e, "rcode"), Text(e, "protocol"))
  }

  lemma MulMonotone(a: int, b: int, c: int)
    requires a <= b && c >= 0
    ensures a * c <= b * c
  {
  }

  lemma {:induction false} MultipleIsAligned(q: int, d: int)
    requires d > 0
    ensures (q * d) % d == 0
  {
    var a := (q * d) / d;
    var r := (q * d) % d;
    assert q * d == a * d + r;
    assert (q - a) * d == r;
    if q - a >= 1 {
      MulMonotone(1, q - a, d);
    } else if q - a <= -1 {
      MulMonotone(q - a, -1, d);
    }
  }

  lemma WindowFloorBracket(ts: int, windowMs: int)
    requires windowMs > 0
    ensures ((ts / windowMs) * windowMs) % windowMs == 0
    ensures (ts / windowMs) * windowMs <= ts < (ts / windowMs) * windowMs + windowMs
  {
    var q, r := ts / windowMs, ts % windowMs;
    assert ts == q * windowMs + r && 0 <= r < windowMs;
    MultipleIsAligned(q, windowMs);
  }

  /** A tumbling window start: aligned, at most `ts`, and less than one window before it. */
  function WindowFloor(ts: int, windowMs: int): (start: int)
    requires windowMs > 0
    ensures start % windowMs == 0
    ensures start <= ts < start + windowMs
  {
    WindowFloorBracket(ts, windowMs);
    (ts / windowMs) * windowMs
  }

  /** An aligned window below an aligned cutoff has ended by it. */
  lemma AlignedBelow(start: int, cutoff: int, windowMs: int)
    requires windowMs > 0 && start % windowMs == 0 && cutoff % windowMs == 0
    requires start < cutoff
    ensures start + windowMs <= cutoff
  {
    var a, b := start / windowMs, cutoff / windowMs;
    assert start == a * windowMs && cutoff == b * windowMs;
    if b <= a { MulMonotone(b, a, windowMs); assert false; }
    MulMonotone(a + 1, b, windowMs);
  }

  /** Alignment and the half-open bracket determine the window: no other start has both. */
  lemma WindowFloorUnique(ts: int, windowMs: int, start: int)
    requires windowMs > 0 && start % windowMs == 0
    requires start <= ts < start + windowMs
    ensures start == WindowFloor(ts, windowMs)
  {
    var f := WindowFloor(ts, windowMs);
    if start < f {
      AlignedBelow(start, f, windowMs);
      assert false;
    } else if f < start {
      AlignedBelow(f, start, windowMs);
      assert false;
    }
  }

  // ---- The incremental fold ----

  datatype Agg = Agg(tsFirst: int, tsLast: int, eventCount: nat, latencySum: int,
                     answerCount: int, authorityCount: int, additionalCount: int)

  type Groups = map<Group, Agg>

  function Fresh(ts: int): Agg { Agg(ts, ts, 0, 0, 0, 0, 0) }

  function Bump(agg: Agg, e: Event): Agg {
    var ts := EventTs(e);
    Agg(if agg.eventCount != 0 then Min(agg.tsFirst, ts) else ts,
        Max(agg.tsLast, ts),
        agg.eventCount + 1,
        agg.latencySum + ToInt(e, AVG_FIELD),
        agg.answerCount + ToInt(e, "answer_count"),
        agg.authorityCount + ToInt(e, "authority_count"),
        agg.additionalCount + ToInt(e, "additional_count"))
  }

  function AddToGroups(groups: Groups, e: Event): Groups {
    var k := GroupOf(e);
    groups[k := Bump(if k in groups then groups[k] else Fresh(EventTs(e)), e)]
  }

  function FoldGroups(es: seq<Event>): Groups {
    if es == [] then map[]
    else AddToGroups(FoldGroups(es[..|es| - 1]), es[|es| - 1])
  }

  function UpdateWindows(windows: map<int, Groups>, e: Event, windowMs: int): map<int, Groups>
    requires windowMs > 0
  {
    var w := WindowFloor(EventTs(e), windowMs);
    windows[w := AddToGroups(if w in windows then windows[w] else map[], e)]
  }

  function FoldWindows(es: seq<Event>, windowMs: int): map<int, Groups>
    requires windowMs > 0
  {
    if es == [] then map[]
    else UpdateWindows(FoldWindows(es[..|es| - 1], windowMs), es[|es| - 1], windowMs)
  }

  // ---- The declarative group-by ----

  function Select(es: seq<Event>, k: Group): seq<Event> {
    if es == [] then []
    else Select(es[..|es| - 1], k) + if GroupOf(es[|es| - 1]) == k then [es[|es| - 1]] else []
  }

  function InWindow(es: seq<Event>, w: int, windowMs: int): seq<Event>
    requires windowMs > 0
  {
    if es == [] then []
    else InWindow(es[..|es| - 1], w, windowMs)
         + if WindowFloor(EventTs(es[|es| - 1]), windowMs) == w then [es[|es| - 1]] else []
  }

  function Total(es: seq<Event>, field: string): int {
    if es == [] then 0 else Total(es[..|es| - 1], field) + ToInt(es[|es| - 1], field)
  }

  ghost predicate Earliest(t: int, es: seq<Event>) {
    (exists e :: e in es && EventTs(e) == t) && (forall e | e in es :: t <= EventTs(e))
  }

  ghost predicate Latest(t: int, es: seq<Event>) {
    (exists e :: e in es && EventTs(e) == t) && (forall e | e in es :: EventTs(e) <= t)
  }

  /** `agg` is what SQL would compute for one group: count, sums, min and max over `es`. */
  ghost predicate Summarises(agg: Agg, es: seq<Event>) {
    && agg.eventCount == |es|
    && Earliest(agg.tsFirst, es)
    && Latest(agg.tsLast, es)
    && agg.latencySum == Total(es, AVG_FIELD)
    && agg.answerCount == Total(es, "answer_count")
    && agg.authorityCount == Total(es, "authority_count")
    && agg.additionalCount == Total(es, "additional_count")
  }

  /** `groups` is the group-by of `es`: one entry per group that occurs, each a summary. */
  ghost predicate IsGroupBy(groups: Groups, es: seq<Event>) {
    && (forall k :: k in groups <==> exists e :: e in es && GroupOf(e) == k)
    && (forall k | k in groups :: Summarises(groups[k], Select(es, k)))
  }

  lemma {:induction false} SelectMembers(es: seq<Event>, k: Group)
    ensures forall e :: e in Select(es, k) <==> e in es && GroupOf(e) == k
  {
    if es != [] {
      SelectMembers(es[..|es| - 1], k);
      assert es == es[..|es| - 1] + [es[|es| - 1]];
    }
  }

  lemma {:induction false} SelectNone(es: seq<Event>, k: Group)
    requires forall e | e in es :: GroupOf(e) != k
    ensures Select(es, k) == []
  {
    if es != [] {
      assert es == es[..|es| - 1] + [es[|es| - 1]];
      SelectNone(es[..|es| - 1], k);
    }
  }

  lemma SelectSnoc(es: seq<Event>, e: Event, k: Group)
    ensures Select(es + [e], k) == Select(es, k) + if GroupOf(e) == k then [e] else []
  {
    assert (es + [e])[..|es|] == es;
  }

  lemma TotalSnoc(es: seq<Event>, e: Event, field: string)
    ensures Total(es + [e], field) == Total(es, field) + ToInt(e, field)
  {
    assert (es + [e])[..|es|] == es;
  }

  lemma BumpSummarises(agg: Agg, es: seq<Event>, e: Event)
    requires if es == [] then agg == Fresh(EventTs(e)) else Summarises(agg, es)
    ensures Summarises(Bump(agg, e), es + [e])
  {
    var next := Bump(agg, e);
    TotalSnoc(es, e, AVG_FIELD);
    TotalSnoc(es, e, "answer_count");
    TotalSnoc(es, e, "authority_count");
    TotalSnoc(es, e, "additional_count");
    assert forall x :: x in es + [e] <==> x in es || x == e;
    assert e in es + [e];
    if es != [] {
      var a :| a in es && EventTs(a) == agg.tsFirst;
      var b :| b in es && EventTs(b) == agg.tsLast;
      assert a in es + [e] && b in es + [e];
    }
    assert Earliest(next.tsFirst, es + [e]);
    assert Latest(next.tsLast, es + [e]);
  }

  /** One incremental step turns the group-by of `es` into the group-by of `es + [e]`. */
  lemma AddToGroupsIsGroupBy(groups: Groups, es: seq<Event>, e: Event)
    requires IsGroupBy(groups, es)
    ensures IsGroupBy(AddToGroups(groups, e), es + [e])
  {
    var next, g := AddToGroups(groups, e), GroupOf(e);
    assert forall x :: x in es + [e] <==> x in es || x == e;
    forall k
      ensures k in next <==> exists x :: x in es + [e] && GroupOf(x) == k
    {
      if k in groups { var x :| x in es && GroupOf(x) == k; assert x in es + [e]; }
    }
    forall k | k in next
      ensures Summarises(next[k], Select(es + [e], k))
    {
      SelectSnoc(es, e, k);
      if k == g {
        SelectMembers(es, g);
        if g !in groups { SelectNone(es, g); }
        if g in groups { var x :| x in es && GroupOf(x) == g; assert x in Select(es, g); }
        BumpSummarises(if g in groups then groups[g] else Fresh(EventTs(e)), Select(es, g), e);
      } else {
        assert Select(es + [e], k) == Select(es, k);
      }
    }
  }

  /** Main: the incremental fold computes the declarative group-by, for every event sequence. */
  lemma {:induction false} FoldIsGroupBy(es: seq<Event>)
    ensures IsGroupBy(FoldGroups(es), es)
  {
    if es != [] {
      var n := |es| - 1;
      FoldIsGroupBy(es[..n]);
      AddToGroupsIsGroupBy(FoldGroups(es[..n]), es[..n], es[n]);
      assert es == es[..n] + [es[n]];
    }
  }

  lemma FoldSnoc(es: seq<Event>, e: Event)
    ensures FoldGroups(es + [e]) == AddToGroups(FoldGroups(es), e)
  {
    assert (es + [e])[..|es|] == es;
  }

  // ---- Order does not matter ----

  lemma {:induction false} TotalRemove(es: seq<Event>, i: nat, field: string)
    requires i < |es|
    ensures Total(es, field) == Total(es[..i] + es[i + 1..], field) + ToInt(es[i], field)
  {
    var n := |es| - 1;
    if i == n {
      assert es[..i] + es[i + 1..] == es[..n];
    } else {
      TotalRemove(es[..n], i, field);
      assert es[..n][..i] + es[..n][i + 1..] == es[..i] + es[i + 1..n];
      assert es[..i] + es[i + 1..] == (es[..i] + es[i + 1..n]) + [es[n]];
      TotalSnoc(es[..i] + es[i + 1..n], es[n], field);
    }
  }

  lemma RemoveMultiset(es: seq<Event>, i: nat)
    requires i < |es|
    ensures multiset(es[..i] + es[i + 1..]) == multiset(es) - multiset{es[i]}
  {
    assert es == es[..i] + [es[i]] + es[i + 1..];
  }

  lemma {:induction false} TotalPermutation(es: seq<Event>, fs: seq<Event>, field: string)
    requires multiset(es) == multiset(fs)
    ensures Total(es, field) == Total(fs, field)
  {
    if es == [] {
      assert |fs| == |multiset(fs)|;
    } else {
      var n := |es| - 1;
      assert es[n] in multiset(fs);
      var i :| 0 <= i < |fs| && fs[i] == es[n];
      assert es[..n] == es[..n] + es[n + 1..];
      RemoveMultiset(es, n);
      RemoveMultiset(fs, i);
      TotalPermutation(es[..n], fs[..i] + fs[i + 1..], field);
      TotalRemove(fs, i, field);
    }
  }

  lemma {:induction false} SelectMultiset(es: seq<Event>, k: Group, e: Event)
    ensures multiset(Select(es, k))[e] == if GroupOf(e) == k then multiset(es)[e] else 0
  {
    if es != [] {
      var before, last := es[..|es| - 1], es[|es| - 1];
      SelectMultiset(before, k, e);
      SelectSnoc(before, last, k);
      assert es == before + [last];
      assert multiset(es) == multiset(before) + multiset{last};
    }
  }

  lemma SelectPermutation(es: seq<Event>, fs: seq<Event>, k: Group)
    requires multiset(es) == multiset(fs)
    ensures multiset(Select(es, k)) == multiset(Select(fs, k))
  {
    forall e ensures multiset(Select(es, k))[e] == multiset(Select(fs, k))[e] {
      SelectMultiset(es, k, e);
      SelectMultiset(fs, k, e);
    }
  }

  lemma SummaryUnique(a: Agg, b: Agg, es: seq<Event>, fs: seq<Event>)
    requires multiset(es) == multiset(fs)
    requires Summarises(a, es) && Summarises(b, fs)
    ensures a == b
  {
    assert |es| == |multiset(es)| == |multiset(fs)| == |fs|;
    assert forall e :: e in es <==> e in multiset(es);
    assert forall e :: e in fs <==> e in multiset(fs);
    TotalPermutation(es, fs, AVG_FIELD);
    TotalPermutation(es, fs, "answer_count");
    TotalPermutation(es, fs, "authority_count");
    TotalPermutation(es, fs, "additional_count");
  }

  /** Main: the group-by is determined by the bag of events, so arrival order is irrelevant. */
  lemma GroupByUnique(g: Groups, h: Groups, es: seq<Event>, fs: seq<Event>)
    requires multiset(es) == multiset(fs)
    requires IsGroupBy(g, es) && IsGroupBy(h, fs)
    ensures g == h
  {
    assert forall e :: e in es <==> e in multiset(es);
    assert forall e :: e in fs <==> e in multiset(fs);
    assert g.Keys == h.Keys;
    forall k | k in g ensures g[k] == h[k] {
      SelectPermutation(es, fs, k);
      SummaryUnique(g[k], h[k], Select(es, k), Select(fs, k));
    }
  }

  lemma {:induction false} InWindowMultiset(es: seq<Event>, w: int, windowMs: int, e: Event)
    requires windowMs > 0
    ensures multiset(InWindow(es, w, windowMs))[e]
         == if WindowFloor(EventTs(e), windowMs) == w then multiset(es)[e] else 0
  {
    if es != [] {
      var before, last := es[..|es| - 1], es[|es| - 1];
      InWindowMultiset(before, w, windowMs, e);
      assert es == before + [last];
      assert multiset(es) == multiset(before) + multiset{last};
    }
  }

  lemma InWindowEmpty(es: seq<Event>, w: int, windowMs: int)
    requires windowMs > 0
    requires forall e | e in es :: WindowFloor(EventTs(e), windowMs) != w
    ensures InWindow(es, w, windowMs) == []
  {
    if es != [] {
      assert es[..|es| - 1] + [es[|es| - 1]] == es;
      InWindowEmpty(es[..|es| - 1], w, windowMs);
    }
  }

  /** Main: after folding any sequence, the open windows are those that occur, and each
      holds the group-by of exactly its own events. */
  lemma {:induction false} FoldWindowsIsGroupBy(es: seq<Event>, windowMs: int)
    requires windowMs > 0
    ensures forall w :: w in FoldWindows(es, windowMs)
                   <==> exists e :: e in es && WindowFloor(EventTs(e), windowMs) == w
    ensures forall w | w in FoldWindows(es, windowMs) ::
              IsGroupBy(FoldWindows(es, windowMs)[w], InWindow(es, w, windowMs))
  {
    if es != [] {
      var n := |es| - 1;
      var before, e := es[..n], es[n];
      FoldWindowsIsGroupBy(before, windowMs);
      assert es == before + [e];
      var prev, next := FoldWindows(before, windowMs), FoldWindows(es, windowMs);
      var f := WindowFloor(EventTs(e), windowMs);
      forall w ensures w in next <==> exists x :: x in es && WindowFloor(EventTs(x), windowMs) == w {
        if w in prev {
          var x :| x in before && WindowFloor(EventTs(x), windowMs) == w;
          assert x in es;
        }
        if w == f { assert e in es; }
      }
      forall w | w in next ensures IsGroupBy(next[w], InWindow(es, w, windowMs)) {
        if w == f {
          if f !in prev { InWindowEmpty(before, f, windowMs); }
          AddToGroupsIsGroupBy(if f in prev then prev[f] else map[], InWindow(before, f, windowMs), e);
        } else {
          assert InWindow(es, w, windowMs) == InWindow(before, w, windowMs);
        }
      }
    }
  }

  lemma InWindowPermutation(es: seq<Event>, fs: seq<Event>, w: int, windowMs: int)
    requires windowMs > 0
    requires multiset(es) == multiset(fs)
    ensures multiset(InWindow(es, w, windowMs)) == multiset(InWindow(fs, w, windowMs))
  {
    forall e ensures multiset(InWindow(es, w, windowMs))[e] == multiset(InWindow(fs, w, windowMs))[e] {
      InWindowMultiset(es, w, windowMs, e);
      InWindowMultiset(fs, w, windowMs, e);
    }
  }

  /** Main: folding any permutation of the events gives the same windows. */
  lemma FoldWindowsPermutation(es: seq<Event>, fs: seq<Event>, windowMs: int)
    requires windowMs > 0
    requires multiset(es) == multiset(fs)
    ensures FoldWindows(es, windowMs) == FoldWindows(fs, windowMs)
  {
    FoldWindowsIsGroupBy(es, windowMs);
    FoldWindowsIsGroupBy(fs, windowMs);
    assert forall e :: e in es <==> e in multiset(es);
    assert forall e :: e in fs <==> e in multiset(fs);
    var a, b := FoldWindows(es, windowMs), FoldWindows(fs, windowMs);
    assert a.Keys == b.Keys by {
      forall w ensures w in a <==> w in b { }
    }
    forall w | w in a ensures a[w] == b[w] {
      InWindowPermutation(es, fs, w, windowMs);
      GroupByUnique(a[w], b[w], InWindow(es, w, windowMs), InWindow(fs, w, windowMs));
    }
  }

  // ---- Counting ----

  /** The window's summed `event_count`, as `emit_windows` adds it up before releasing. */
  ghost function CountAll(groups: Groups): nat {
    if groups == map[] then 0
    else
      var k :| k in groups;
      groups[k].eventCount + CountAll(groups - {k})
  }

  lemma {:induction false} CountAllRemove(groups: Groups, k: Group)
    requires k in groups
    ensures CountAll(groups) == groups[k].eventCount + CountAll(groups - {k})
  {
    var j :| j in groups && CountAll(groups) == groups[j].eventCount + CountAll(groups - {j});
    if j != k {
      CountAllRemove(groups - {j}, k);
      CountAllRemove(groups - {k}, j);
      assert groups - {j} - {k} == groups - {k} - {j};
    }
  }

  /** Main: the counts of a window's groups add up to the number of events folded into it. */
  lemma {:induction false} CountAllOfFold(es: seq<Event>)
    ensures CountAll(FoldGroups(es)) == |es|
  {
    if es != [] {
      var n := |es| - 1;
      CountAllOfFold(es[..n]);
      var prev, next, k := FoldGroups(es[..n]), FoldGroups(es), GroupOf(es[n]);
      CountAllRemove(next, k);
      assert next - {k} == prev - {k};
      if k in prev { CountAllRemove(prev, k); }
      else { assert prev - {k} == prev; }
    }
  }

  // ---- Aggregate rows ----

  /** The sink record. The mean latency is kept as the pair (latencySum, eventCount). */
  datatype Record = Record(windowStart: int, windowEnd: int, tsFirst: int, tsLast: int,
                           eventType: string, srcIp: string, qtype: string, rcode: string, protocol: string,
                           eventCount: nat, latencySum: int,
                           answerCount: int, authorityCount: int, additionalCount: int)

  /** A produced message: its group key and its record. */
  datatype Row = Row(group: Group, record: Record)

  function ToRecord(group: Group, agg: Agg, windowStart: int, windowMs: int): Record {
    Record(windowStart, windowStart + windowMs - 1, agg.tsFirst, agg.tsLast,
           EVENT_TYPE, group.srcIp, group.qtype, group.rcode, group.protocol,
           agg.eventCount, agg.latencySum, agg.answerCount, agg.authorityCount, agg.additionalCount)
  }

  function RowOf(group: Group, agg: Agg, windowStart: int, windowMs: int): Row {
    Row(group, ToRecord(group, agg, windowStart, windowMs))
  }

  /** The text of a field that may be missing. */
  ghost predicate HasText(e: Event, field: string, text: string) {
    text == if field in e then e[field].text else ""
  }

  /** Event e carries the five texts of the group. */
  ghost predicate Carries(e: Event, g: Group) {
    && HasText(e, "event_type", g.eventType)
    && HasText(e, "src_ip", g.srcIp)
    && HasText(e, "qtype", g.qtype)
    && HasText(e, "rcode", g.rcode)
    && HasText(e, "protocol", g.protocol)
  }

  /** What a row says of the events of its window, field by field: `own` are those of its group. */
  ghost predicate Reports(x: Row, es: seq<Event>, windowMs: int) {
    var r, own := x.record, Select(es, x.group);
    && (forall e :: e in own <==> e in es && Carries(e, x.group))
    && r.windowEnd == r.windowStart + windowMs - 1
    && r.eventType == "dns" && r.srcIp == x.group.srcIp && r.qtype == x.group.qtype
    && r.rcode == x.group.rcode && r.protocol == x.group.protocol
    && r.eventCount == |own| && Earliest(r.tsFirst, own) && Latest(r.tsLast, own)
    && r.latencySum == Total(own, "latency_ms")
    && r.answerCount == Total(own, "answer_count")
    && r.authorityCount == Total(own, "authority_count")
    && r.additionalCount == Total(own, "additional_count")
  }

  /** Main: the row made for a group of a window's events reports them. */
  lemma RowReports(es: seq<Event>, k: Group, w: int, windowMs: int)
    requires k in FoldGroups(es)
    ensures Reports(RowOf(k, FoldGroups(es)[k], w, windowMs), es, windowMs)
  {
    FoldIsGroupBy(es);
    SelectMembers(es, k);
    assert Summarises(FoldGroups(es)[k], Select(es, k));
    assert forall e :: GroupOf(e) == k <==> Carries(e, k);
  }

  /** Main: a sum adds a field's number once per event, and nothing for a field that is missing or
      that does not convert; so does a timestamp count as zero. */
  lemma {:induction false} TotalOfNumbers(es: seq<Event>, field: string)
    ensures es == [] ==> Total(es, field) == 0
    ensures es != [] ==>
      var e := es[|es| - 1];
      Total(es, field) == Total(es[..|es| - 1], field)
                        + if field in e && e[field].number.Some? then e[field].number.value else 0
    ensures forall e: Event :: EventTs(e) == if "ts" in e && e["ts"].number.Some? then e["ts"].number.value else 0
  {
  }

  /** Main: every row made from events of one window brackets them inside the window. */
  lemma RowWithinWindow(es: seq<Event>, k: Group, w: int, windowMs: int)
    requires windowMs > 0
    requires forall e | e in es :: WindowFloor(EventTs(e), windowMs) == w
    requires k in FoldGroups(es)
    ensures var r := RowOf(k, FoldGroups(es)[k], w, windowMs).record;
            r.windowStart <= r.tsFirst <= r.tsLast <= r.windowEnd && r.eventCount > 0
  {
    FoldIsGroupBy(es);
    SelectMembers(es, k);
    var agg := FoldGroups(es)[k];
    var sel := Select(es, k);
    assert Summarises(agg, sel);
    var a :| a in sel && EventTs(a) == agg.tsFirst;
    var b :| b in sel && EventTs(b) == agg.tsLast;
    assert a in es && b in es;
  }
}
