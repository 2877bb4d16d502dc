/**
 * Logical-type markers: helpers emit `{"__logicaltype_<name>__": value}`, and the renderer
 * unwraps them, recording which field carried which logical type.
 */
module Markers {
  import opened Prelude
  import opened Json

  const PREFIX := "__logicaltype_"
  const SUFFIX := "__"

  type LogicalTypes = map<string, string>

  predicate StartsWith(s: string, p: string) { |p| <= |s| && s[..|p|] == p }

  predicate EndsWith(s: string, p: string) { |p| <= |s| && s[|s| - |p|..] == p }

  predicate IsMarkerKey(key: string) {
    StartsWith(key, PREFIX) && EndsWith(key, SUFFIX) && |key| > |PREFIX| + |SUFFIX|
  }

  function LogicalName(key: string): string
    requires IsMarkerKey(key)
  {
    key[|PREFIX|..|key| - |SUFFIX|]
  }

  function MarkerKey(name: string): string { PREFIX + name + SUFFIX }

  lemma MarkerKeyRoundTrip(name: string)
    requires name != ""
    ensures IsMarkerKey(MarkerKey(name)) && LogicalName(MarkerKey(name)) == name
  {
    var key := MarkerKey(name);
    assert key[..|PREFIX|] == PREFIX;
    assert key[|key| - |SUFFIX|..] == SUFFIX;
    assert key[|PREFIX|..|key| - |SUFFIX|] == name;
  }

  /** Main: a key is a marker's exactly when it is the prefix, a name that is not empty, and the suffix. */
  lemma MarkerKeyIff(key: string)
    ensures IsMarkerKey(key) <==> exists name: string :: name != "" && key == "__logicaltype_" + name + "__"
    ensures IsMarkerKey(key) ==> key == "__logicaltype_" + LogicalName(key) + "__"
  {
    if IsMarkerKey(key) {
      var p, n := |PREFIX|, |key| - |SUFFIX|;
      assert key == key[..p] + key[p..n] + key[n..];
      assert LogicalName(key) != "";
    }
    if name: string :| name != "" && key == "__logicaltype_" + name + "__" {
      assert key == MarkerKey(name);
      MarkerKeyRoundTrip(name);
    }
  }

  predicate IsMarker(j: Json) {
    j.JObject? && |j.fields| == 1 && IsMarkerKey(j.fields[0].name)
  }

  /** Main: a value is a marker exactly when it is an object whose only field has a marker's key. */
  lemma MarkerIff(j: Json)
    ensures IsMarker(j) <==> exists name: string, v: Json ::
                               name != "" && j == JObject([Field("__logicaltype_" + name + "__", v)])
  {
    if IsMarker(j) {
      var f := j.fields[0];
      MarkerKeyIff(f.name);
      assert j == JObject([Field("__logicaltype_" + LogicalName(f.name) + "__", f.value)]);
    }
    if name: string, v: Json :| name != "" && j == JObject([Field("__logicaltype_" + name + "__", v)]) {
      MarkerKeyIff(j.fields[0].name);
    }
  }

  datatype Unwrapped = Unwrapped(json: Json, types: LogicalTypes)

  function Unwrap(j: Json, parent: string, types: LogicalTypes): Unwrapped
    decreases j, 2
  {
    if IsMarker(j) then
      Unwrapped(j.fields[0].value,
                if parent != "" then types[parent := LogicalName(j.fields[0].name)] else types)
    else
      match j
      case JObject(fields) =>
        var r := UnwrapFields(j, |fields|, types);
        Unwrapped(JObject(r.fields), r.types)
      case JList(items) =>
        var r := UnwrapItems(j, |items|, parent, types);
        Unwrapped(JList(r.items), r.types)
      case _ => Unwrapped(j, types)
  }

  datatype UnwrappedFields = UnwrappedFields(fields: seq<Field>, types: LogicalTypes)

  /** The first n fields of an object. */
  function UnwrapFields(j: Json, n: nat, types: LogicalTypes): (r: UnwrappedFields)
    requires j.JObject? && n <= |j.fields|
    ensures |r.fields| == n
    ensures forall i | 0 <= i < n :: r.fields[i].name == j.fields[i].name
    decreases j, 1, n
  {
    if n == 0 then UnwrappedFields([], types)
    else
      var before := UnwrapFields(j, n - 1, types);
      var f := j.fields[n - 1];
      var r := Unwrap(f.value, f.name, before.types);
      UnwrappedFields(before.fields + [Field(f.name, r.json)], r.types)
  }

  datatype UnwrappedItems = UnwrappedItems(items: seq<Json>, types: LogicalTypes)

  /** The first n items of a list; they share the list's own field name. */
  function UnwrapItems(j: Json, n: nat, parent: string, types: LogicalTypes): (r: UnwrappedItems)
    requires j.JList? && n <= |j.items|
    ensures |r.items| == n
    decreases j, 1, n
  {
    if n == 0 then UnwrappedItems([], types)
    else
      var before := UnwrapItems(j, n - 1, parent, types);
      var r := Unwrap(j.items[n - 1], parent, before.types);
      UnwrappedItems(before.items + [r.json], r.types)
  }

  /** The renderer's recursive method: it records logical types as it goes. */
  class MarkerReader {
    var logicalTypes: LogicalTypes

    constructor ()
      ensures logicalTypes == map[]
    {
      logicalTypes := map[];
    }

    method UnwrapMarkers(j: Json, parent: string) returns (out: Json)
      modifies this
      ensures Unwrapped(out, logicalTypes) == Unwrap(j, parent, old(logicalTypes))
      decreases j
    {
      if j.JObject? && |j.fields| == 1 && IsMarkerKey(j.fields[0].name) {
        if parent != "" { logicalTypes := logicalTypes[parent := LogicalName(j.fields[0].name)]; }
        return j.fields[0].value;
      }
      match j {
        case JObject(fields) =>
          var done: seq<Field> := [];
          for i := 0 to |fields|
            invariant UnwrappedFields(done, logicalTypes) == UnwrapFields(j, i, old(logicalTypes))
          {
            var v := UnwrapMarkers(fields[i].value, fields[i].name);
            done := done + [Field(fields[i].name, v)];
          }
          out := JObject(done);
        case JList(items) =>
          var done: seq<Json> := [];
          for i := 0 to |items|
            invariant UnwrappedItems(done, logicalTypes) == UnwrapItems(j, i, parent, old(logicalTypes))
          {
            var v := UnwrapMarkers(items[i], parent);
            done := done + [v];
          }
          out := JList(done);
        case _ => out := j;
      }
    }
  }

  // ---- Round trip ----

  /** A JSON tree in which chosen scalars are to be wrapped by a helper. */
  datatype Tree =
    | Leaf(value: Json, mark: Option<string>)
    | Items(items: seq<Tree>)
    | Record(entries: seq<Entry>)

  datatype Entry = Entry(name: string, tree: Tree)

  ghost predicate WellMarked(t: Tree) {
    match t
    case Leaf(v, mark) => IsScalar(v) && (mark.Some? ==> mark.value != "")
    case Items(items) => forall x | x in items :: WellMarked(x)
    case Record(entries) => forall e | e in entries :: WellMarked(e.tree)
  }

  function Plain(t: Tree): Json {
    match t
    case Leaf(v, _) => v
    case Items(items) => JList(seq(|items|, i requires 0 <= i < |items| => Plain(items[i])))
    case Record(entries) => JObject(seq(|entries|, i requires 0 <= i < |entries| => Field(entries[i].name, Plain(entries[i].tree))))
  }

  function Wrap(t: Tree): Json {
    match t
    case Leaf(v, None) => v
    case Leaf(v, Some(m)) => JObject([Field(MarkerKey(m), v)])
    case Items(items) => JList(seq(|items|, i requires 0 <= i < |items| => Wrap(items[i])))
    case Record(entries) => JObject(seq(|entries|, i requires 0 <= i < |entries| => Field(entries[i].name, Wrap(entries[i].tree))))
  }

  ghost predicate MarkerFree(j: Json) {
    && !IsMarker(j)
    && match j
       case JList(items) => forall x | x in items :: MarkerFree(x)
       case JObject(fields) => forall f | f in fields :: MarkerFree(f.value)
       case _ => true
  }

  /** The marks in visiting order, each with the field name it is met under. */
  datatype Visit = Visit(field: string, logical: string)

  function Visits(t: Tree, parent: string): seq<Visit>
    decreases t, 2
  {
    match t
    case Leaf(_, Some(m)) => if parent != "" then [Visit(parent, m)] else []
    case Leaf(_, None) => []
    case Items(items) => VisitsItems(t, |items|, parent)
    case Record(entries) => VisitsFields(t, |entries|)
  }

  function VisitsItems(t: Tree, n: nat, parent: string): seq<Visit>
    requires t.Items? && n <= |t.items|
    decreases t, 1, n
  {
    if n == 0 then [] else VisitsItems(t, n - 1, parent) + Visits(t.items[n - 1], parent)
  }

  function VisitsFields(t: Tree, n: nat): seq<Visit>
    requires t.Record? && n <= |t.entries|
    decreases t, 1, n
  {
    if n == 0 then [] else VisitsFields(t, n - 1) + Visits(t.entries[n - 1].tree, t.entries[n - 1].name)
  }

  function Recorded(types: LogicalTypes, visits: seq<Visit>): LogicalTypes {
    if visits == [] then types
    else Recorded(types, visits[..|visits| - 1])[visits[|visits| - 1].field := visits[|visits| - 1].logical]
  }

  lemma {:induction false} RecordedAppend(types: LogicalTypes, a: seq<Visit>, b: seq<Visit>)
    ensures Recorded(types, a + b) == Recorded(Recorded(types, a), b)
  {
    if b == [] {
      assert a + b == a;
    } else {
      assert (a + b)[..|a + b| - 1] == a + b[..|b| - 1];
      RecordedAppend(types, a, b[..|b| - 1]);
    }
  }

  /** Main: a field never visited keeps what it had. */
  lemma {:induction false} UnvisitedKeeps(types: LogicalTypes, visits: seq<Visit>, field: string)
    requires forall v | v in visits :: v.field != field
    ensures field in Recorded(types, visits) <==> field in types
    ensures field in types ==> Recorded(types, visits)[field] == types[field]
  {
    if visits != [] {
      assert visits[|visits| - 1] in visits;
      UnvisitedKeeps(types, visits[..|visits| - 1], field);
    }
  }

  /** Main: a field's recorded logical type is the last mark visited under it. */
  lemma {:induction false} LastVisitWins(types: LogicalTypes, visits: seq<Visit>, i: nat)
    requires i < |visits| && forall j | i < j < |visits| :: visits[j].field != visits[i].field
    ensures visits[i].field in Recorded(types, visits)
    ensures Recorded(types, visits)[visits[i].field] == visits[i].logical
  {
    var n := |visits| - 1;
    if i < n {
      LastVisitWins(types, visits[..n], i);
    }
  }

  /** How the i-th item of a list appears wrapped and plain. */
  ghost predicate ItemParts(t: Tree, wrapped: Json, plain: Json, i: nat) {
    && t.Items? && wrapped.JList? && plain.JList? && |wrapped.items| == |plain.items| == |t.items| && i < |t.items|
    && wrapped.items[i] == Wrap(t.items[i]) && plain.items[i] == Plain(t.items[i])
    && WellMarked(t.items[i]) && MarkerFree(Plain(t.items[i]))
  }

  lemma ItemPartsHold(t: Tree, i: nat)
    requires t.Items? && WellMarked(t) && MarkerFree(Plain(t)) && i < |t.items|
    ensures ItemParts(t, Wrap(t), Plain(t), i)
  {
    assert t.items[i] in t.items;
    assert Plain(t).items[i] in Plain(t).items;
  }

  /** How the i-th field of a record appears wrapped and plain. */
  ghost predicate FieldParts(t: Tree, wrapped: Json, plain: Json, i: nat) {
    && t.Record? && wrapped.JObject? && plain.JObject? && |wrapped.fields| == |plain.fields| == |t.entries| && i < |t.entries|
    && wrapped.fields[i] == Field(t.entries[i].name, Wrap(t.entries[i].tree))
    && plain.fields[i] == Field(t.entries[i].name, Plain(t.entries[i].tree))
    && WellMarked(t.entries[i].tree) && MarkerFree(Plain(t.entries[i].tree))
  }

  lemma FieldPartsHold(t: Tree, i: nat)
    requires t.Record? && WellMarked(t) && MarkerFree(Plain(t)) && i < |t.entries|
    ensures FieldParts(t, Wrap(t), Plain(t), i)
  {
    assert t.entries[i] in t.entries;
    assert Plain(t).fields[i] in Plain(t).fields;
  }

  /** Main: wrapping any chosen scalars of a marker-free tree and unwrapping again returns the
      original tree, and records exactly the marks visited under a field name. */
  lemma {:induction false} UnwrapRoundTrip(t: Tree, parent: string, types: LogicalTypes)
    requires WellMarked(t) && MarkerFree(Plain(t))
    ensures Unwrap(Wrap(t), parent, types) == Unwrapped(Plain(t), Recorded(types, Visits(t, parent)))
    decreases t, 2
  {
    match t
    case Leaf(v, None) =>
    case Leaf(v, Some(m)) =>
      MarkerKeyRoundTrip(m);
      assert Recorded(types, []) == types;
      assert [Visit(parent, m)][..0] == [];
    case Items(items) =>
      forall i | 0 <= i < |items| ensures ItemParts(t, Wrap(t), Plain(t), i) { ItemPartsHold(t, i); }
      ItemsRoundTrip(t, Wrap(t), Plain(t), |items|, parent, types);
      assert Plain(t).items[..|items|] == Plain(t).items;
    case Record(entries) =>
      forall i | 0 <= i < |entries| ensures FieldParts(t, Wrap(t), Plain(t), i) { FieldPartsHold(t, i); }
      assert !IsMarker(Plain(t));
      assert !IsMarker(Wrap(t));
      FieldsRoundTrip(t, Wrap(t), Plain(t), |entries|, types);
      assert Plain(t).fields[..|entries|] == Plain(t).fields;
  }

  lemma {:induction false} ItemsRoundTrip(t: Tree, wrapped: Json, plain: Json, n: nat, parent: string, types: LogicalTypes)
    requires t.Items? && wrapped.JList? && plain.JList? && |wrapped.items| == |plain.items| == |t.items|
    requires n <= |t.items| && forall i | 0 <= i < |t.items| :: ItemParts(t, wrapped, plain, i)
    ensures UnwrapItems(wrapped, n, parent, types)
         == UnwrappedItems(plain.items[..n], Recorded(types, VisitsItems(t, n, parent)))
    decreases t, 1, n
  {
    if n > 0 {
      ItemsRoundTrip(t, wrapped, plain, n - 1, parent, types);
      assert ItemParts(t, wrapped, plain, n - 1);
      var x, seen := t.items[n - 1], VisitsItems(t, n - 1, parent);
      UnwrapRoundTrip(x, parent, Recorded(types, seen));
      RecordedAppend(types, seen, Visits(x, parent));
      assert plain.items[..n] == plain.items[..n - 1] + [Plain(x)];
    }
  }

  /** One more field of a record round-trips if its tree does. */
  lemma FieldStep(t: Tree, wrapped: Json, plain: Json, n: nat, types: LogicalTypes)
    requires FieldParts(t, wrapped, plain, n)
    requires var seen := Recorded(types, VisitsFields(t, n));
             var e := t.entries[n];
             && UnwrapFields(wrapped, n, types) == UnwrappedFields(plain.fields[..n], seen)
             && Unwrap(Wrap(e.tree), e.name, seen) == Unwrapped(Plain(e.tree), Recorded(seen, Visits(e.tree, e.name)))
    ensures UnwrapFields(wrapped, n + 1, types)
         == UnwrappedFields(plain.fields[..n + 1], Recorded(types, VisitsFields(t, n + 1)))
  {
    var e, visited := t.entries[n], VisitsFields(t, n);
    RecordedAppend(types, visited, Visits(e.tree, e.name));
  }

  lemma {:induction false} FieldsRoundTrip(t: Tree, wrapped: Json, plain: Json, n: nat, types: LogicalTypes)
    requires t.Record? && wrapped.JObject? && plain.JObject? && |wrapped.fields| == |plain.fields| == |t.entries|
    requires n <= |t.entries| && forall i | 0 <= i < |t.entries| :: FieldParts(t, wrapped, plain, i)
    ensures UnwrapFields(wrapped, n, types)
         == UnwrappedFields(plain.fields[..n], Recorded(types, VisitsFields(t, n)))
    decreases t, 1, n
  {
    if n > 0 {
      FieldsRoundTrip(t, wrapped, plain, n - 1, types);
      assert FieldParts(t, wrapped, plain, n - 1);
      var e, seen := t.entries[n - 1], VisitsFields(t, n - 1);
      UnwrapRoundTrip(e.tree, e.name, Recorded(types, seen));
      FieldStep(t, wrapped, plain, n - 1, types);
    }
  }

  // ---- When unwrapping leaves no marker ----

  /** Whatever a marker wraps is itself free of markers. */
  ghost predicate PayloadsClean(j: Json) {
    if IsMarker(j) then MarkerFree(j.fields[0].value)
    else
      match j
      case JList(items) => forall x | x in items :: PayloadsClean(x)
      case JObject(fields) => forall f | f in fields :: PayloadsClean(f.value)
      case _ => true
  }

  /** Main: a marker's payload is not searched, so the result is free of markers exactly when
      no marker wraps another. */
  lemma {:induction false} UnwrapCleansIffPayloadsClean(j: Json, parent: string, types: LogicalTypes)
    ensures MarkerFree(Unwrap(j, parent, types).json) <==> PayloadsClean(j)
    decreases j, 2
  {
    if !IsMarker(j) {
      match j
      case JObject(fields) =>
        FieldsClean(j, |fields|, types);
        var out := Unwrap(j, parent, types).json;
        assert !IsMarker(out);
        assert MarkerFree(out) <==> forall i | 0 <= i < |fields| :: MarkerFree(out.fields[i].value);
        assert PayloadsClean(j) <==> forall i | 0 <= i < |fields| :: PayloadsClean(fields[i].value);
      case JList(items) =>
        ItemsClean(j, |items|, parent, types);
        var out := Unwrap(j, parent, types).json;
        assert MarkerFree(out) <==> forall i | 0 <= i < |items| :: MarkerFree(out.items[i]);
        assert PayloadsClean(j) <==> forall i | 0 <= i < |items| :: PayloadsClean(items[i]);
      case _ =>
    }
  }

  lemma {:induction false} FieldsClean(j: Json, n: nat, types: LogicalTypes)
    requires j.JObject? && n <= |j.fields|
    ensures forall i | 0 <= i < n ::
              MarkerFree(UnwrapFields(j, n, types).fields[i].value) <==> PayloadsClean(j.fields[i].value)
    decreases j, 1, n
  {
    if n > 0 {
      FieldsClean(j, n - 1, types);
      var before := UnwrapFields(j, n - 1, types);
      UnwrapCleansIffPayloadsClean(j.fields[n - 1].value, j.fields[n - 1].name, before.types);
    }
  }

  lemma {:induction false} ItemsClean(j: Json, n: nat, parent: string, types: LogicalTypes)
    requires j.JList? && n <= |j.items|
    ensures forall i | 0 <= i < n ::
              MarkerFree(UnwrapItems(j, n, parent, types).items[i]) <==> PayloadsClean(j.items[i])
    decreases j, 1, n
  {
    if n > 0 {
      ItemsClean(j, n - 1, parent, types);
      var before := UnwrapItems(j, n - 1, parent, types);
      UnwrapCleansIffPayloadsClean(j.items[n - 1], parent, before.types);
    }
  }

  /** A marker wrapping a marker is the smallest input that keeps one. */
  lemma NestedMarkerSurvives()
    ensures exists j :: !MarkerFree(Unwrap(j, "f", map[]).json)
  {
    MarkerKeyRoundTrip("a");
    var inner := JObject([Field(MarkerKey("a"), JNull)]);
    var outer := JObject([Field(MarkerKey("a"), inner)]);
    assert IsMarker(inner) && IsMarker(outer);
    assert Unwrap(outer, "f", map[]).json == inner;
  }
}
