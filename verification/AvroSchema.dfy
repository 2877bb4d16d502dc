/** Recursive Avro schema inference from a sample record, and what the schema then accepts. */
module AvroSchema {
  import opened Prelude
  import opened Json
  import opened AvroNames

  datatype Schema =
    | Primitive(name: string)
    | Logical(base: string, logical: string)
    | NullableString
    | ArrayOf(element: Schema)
    | RecordOf(recordName: string, fields: seq<SchemaField>)

  datatype SchemaField = SchemaField(name: string, schema: Schema, nullDefault: bool)

  type LogicalTypes = map<string, string>

  /** The Avro primitive under a logical type, if the table knows it. */
  function BaseOf(logical: string, default: string): string {
    if logical == "timestamp-millis" then "long"
    else if logical == "iso-8601-timestamp" then "string"
    else default
  }

  function ScalarSchema(kind: string, fieldName: string, types: LogicalTypes): Schema {
    if fieldName in types then Logical(BaseOf(types[fieldName], kind), types[fieldName]) else Primitive(kind)
  }

  function ElementName(fieldName: string): string {
    if fieldName != "" then fieldName + "_item" else "item"
  }

  function RecordBase(fieldName: string): string {
    if fieldName != "" then Pascal(fieldName) else "Nested"
  }

  datatype Inferred = Inferred(schema: Schema, used: set<string>)

  datatype InferredFields = InferredFields(fields: seq<SchemaField>, used: set<string>)

  function Infer(v: Json, fieldName: string, types: LogicalTypes, used: set<string>): Inferred
    decreases v, 2
  {
    match v
    case JNull => Inferred(NullableString, used)
    case JBool(_) => Inferred(Primitive("boolean"), used)
    case JInt(_) => Inferred(ScalarSchema("long", fieldName, types), used)
    case JFloat(_) => Inferred(Primitive("double"), used)
    case JString(_) => Inferred(ScalarSchema("string", fieldName, types), used)
    case JObject(fields) =>
      var name := Unique(RecordBase(fieldName), used);
      var r := InferFields(v, |fields|, types, used + {name});
      Inferred(RecordOf(name, r.fields), r.used)
    case JList(items) =>
      if items != [] then
        var r := Infer(items[0], ElementName(fieldName), types, used);
        Inferred(ArrayOf(r.schema), r.used)
      else Inferred(ArrayOf(Primitive("string")), used)
  }

  /** The first n fields of an object. */
  function InferFields(v: Json, n: nat, types: LogicalTypes, used: set<string>): (r: InferredFields)
    requires v.JObject? && n <= |v.fields|
    ensures |r.fields| == n
    ensures forall i | 0 <= i < n :: r.fields[i].name == v.fields[i].name
    decreases v, 1, n
  {
    if n == 0 then InferredFields([], used)
    else
      var before := InferFields(v, n - 1, types, used);
      var f := v.fields[n - 1];
      var r := Infer(f.value, f.name, types, before.used);
      InferredFields(before.fields + [SchemaField(f.name, r.schema, r.schema.NullableString?)], r.used)
  }

  /** The whole schema of a sample: its root name is not entered among the used names. */
  function InferRoot(sample: Json, name: string, types: LogicalTypes): Schema
    requires sample.JObject?
  {
    RecordOf(Pascal(name) + "Record", InferFields(sample, |sample.fields|, types, {}).fields)
  }

  /** The inference as written: it shares one set of used names. */
  class SchemaInferrer {
    const types: LogicalTypes
    var used: set<string>

    constructor (types: LogicalTypes)
      ensures this.types == types && used == {}
    {
      this.types := types;
      used := {};
    }

    /** Try the base, then numbered candidates, until one is free. */
    method TakeUnique(base: string) returns (name: string)
      modifies this
      ensures name == Unique(base, old(used)) && name !in old(used)
      ensures used == old(used) + {name}
    {
      name := base;
      var counter := 0;
      while name in used
        invariant used == old(used)
        invariant name == Candidate(base, counter) && Tried(base, used, counter)
        invariant counter <= |used|
        decreases |used| - counter
      {
        counter := counter + 1;
        name := base + Decimal(counter);
        TriedBound(base, used, counter);
      }
      UniqueIsFirst(base, used, counter);
      used := used + {name};
    }

    method InferType(v: Json, fieldName: string) returns (schema: Schema)
      modifies this
      ensures Inferred(schema, used) == Infer(v, fieldName, types, old(used))
      decreases v, 1
    {
      match v {
        case JNull => schema := NullableString;
        case JBool(_) => schema := Primitive("boolean");
        case JInt(_) => schema := ScalarSchema("long", fieldName, types);
        case JFloat(_) => schema := Primitive("double");
        case JString(_) => schema := ScalarSchema("string", fieldName, types);
        case JObject(fields) =>
          var name := TakeUnique(RecordBase(fieldName));
          var inferred := BuildFields(v);
          schema := RecordOf(name, inferred);
        case JList(items) =>
          if |items| > 0 {
            var element := InferType(items[0], ElementName(fieldName));
            schema := ArrayOf(element);
          } else {
            schema := ArrayOf(Primitive("string"));
          }
      }
    }

    method BuildFields(v: Json) returns (fields: seq<SchemaField>)
      requires v.JObject?
      modifies this
      ensures InferredFields(fields, used) == InferFields(v, |v.fields|, types, old(used))
      decreases v, 0
    {
      fields := [];
      for i := 0 to |v.fields|
        invariant InferredFields(fields, used) == InferFields(v, i, types, old(used))
      {
        var f := v.fields[i];
        var schema := InferType(f.value, f.name);
        fields := fields + [SchemaField(f.name, schema, schema.NullableString?)];
      }
    }
  }

  // ---- Names ----

  /** The record names of a schema, outermost first. */
  function Names(s: Schema): seq<string>
    decreases s, 1
  {
    match s
    case ArrayOf(e) => Names(e)
    case RecordOf(name, fields) => [name] + FieldNames(s, |fields|)
    case _ => []
  }

  function FieldNames(s: Schema, n: nat): seq<string>
    requires s.RecordOf? && n <= |s.fields|
    decreases s, 0, n
  {
    if n == 0 then [] else FieldNames(s, n - 1) + Names(s.fields[n - 1].schema)
  }

  function NamesOf(fields: seq<SchemaField>): seq<string> {
    if fields == [] then [] else NamesOf(fields[..|fields| - 1]) + Names(fields[|fields| - 1].schema)
  }

  lemma {:induction false} FieldNamesOf(s: Schema, n: nat)
    requires s.RecordOf? && n <= |s.fields|
    ensures FieldNames(s, n) == NamesOf(s.fields[..n])
  {
    if n > 0 {
      FieldNamesOf(s, n - 1);
      assert s.fields[..n][..n - 1] == s.fields[..n - 1];
    }
  }

  ghost predicate AllDistinct(names: seq<string>) {
    forall i, j | 0 <= i < j < |names| :: names[i] != names[j]
  }

  /** `names` are distinct, new, and exactly what `after` adds to `before`. */
  ghost predicate Adds(names: seq<string>, before: set<string>, after: set<string>) {
    && AllDistinct(names)
    && (forall x | x in names :: x !in before)
    && (forall x :: x in after <==> x in before || x in names)
  }

  lemma AddsAppend(a: seq<string>, b: seq<string>, before: set<string>, mid: set<string>, after: set<string>)
    requires Adds(a, before, mid) && Adds(b, mid, after)
    ensures Adds(a + b, before, after)
  {
    forall i, j | 0 <= i < j < |a + b| ensures (a + b)[i] != (a + b)[j] {
      if i < |a| && j >= |a| { assert a[i] in a && b[j - |a|] in b; }
    }
  }

  /** The names of a record are its own followed by those of its fields. */
  lemma RecordNames(name: string, fields: seq<SchemaField>)
    ensures Names(RecordOf(name, fields)) == [name] + NamesOf(fields)
  {
    var s := RecordOf(name, fields);
    FieldNamesOf(s, |fields|);
    assert fields[..|fields|] == fields;
  }

  /** Main: every nested record gets its own name: names within one inferred schema are pairwise
      distinct, and the set of used names grows by exactly these. */
  lemma {:induction false} NestedNamesAreDistinct(v: Json, fieldName: string, types: LogicalTypes, used: set<string>)
    ensures var r := Infer(v, fieldName, types, used);
            Adds(Names(r.schema), used, r.used)
    decreases v, 2
  {
    match v
    case JObject(fields) =>
      var name := Unique(RecordBase(fieldName), used);
      var r := InferFields(v, |fields|, types, used + {name});
      FieldsNamesAreDistinct(v, |fields|, types, used + {name});
      RecordNames(name, r.fields);
      assert Adds([name], used, used + {name});
      AddsAppend([name], NamesOf(r.fields), used, used + {name}, r.used);
    case JList(items) =>
      if items != [] { NestedNamesAreDistinct(items[0], ElementName(fieldName), types, used); }
    case _ =>
  }

  lemma AddsField(before: InferredFields, r: Inferred, f: SchemaField, used: set<string>)
    requires Adds(NamesOf(before.fields), used, before.used) && Adds(Names(r.schema), before.used, r.used)
    requires f.schema == r.schema
    ensures Adds(NamesOf(before.fields + [f]), used, r.used)
  {
    assert (before.fields + [f])[..|before.fields|] == before.fields;
    AddsAppend(NamesOf(before.fields), Names(r.schema), used, before.used, r.used);
  }

  lemma {:induction false} FieldsNamesAreDistinct(v: Json, n: nat, types: LogicalTypes, used: set<string>)
    requires v.JObject? && n <= |v.fields|
    ensures Adds(NamesOf(InferFields(v, n, types, used).fields), used, InferFields(v, n, types, used).used)
    decreases v, 1, n
  {
    if n > 0 {
      var before := InferFields(v, n - 1, types, used);
      FieldsNamesAreDistinct(v, n - 1, types, used);
      var f := v.fields[n - 1];
      var r := Infer(f.value, f.name, types, before.used);
      NestedNamesAreDistinct(f.value, f.name, types, before.used);
      AddsField(before, r, SchemaField(f.name, r.schema, r.schema.NullableString?), used);
    }
  }

  lemma ConsDistinct(x: string, xs: seq<string>)
    requires AllDistinct(xs)
    ensures AllDistinct([x] + xs) <==> x !in xs
  {
    if x in xs {
      var k :| 0 <= k < |xs| && xs[k] == x;
      assert ([x] + xs)[k + 1] == ([x] + xs)[0];
    }
  }

  /** The base names of the objects inference reaches: in every field, and in the first element of
      every list. */
  function BaseNames(v: Json, fieldName: string): set<string>
    decreases v, 2
  {
    match v
    case JObject(fields) => {if fieldName != "" then Pascal(fieldName) else "Nested"} + FieldBaseNames(v, |fields|)
    case JList(items) =>
      if items != [] then BaseNames(items[0], if fieldName != "" then fieldName + "_item" else "item") else {}
    case _ => {}
  }

  /** Those within the first n fields of an object. */
  function FieldBaseNames(v: Json, n: nat): set<string>
    requires v.JObject? && n <= |v.fields|
    decreases v, 1, n
  {
    if n == 0 then {}
    else FieldBaseNames(v, n - 1) + BaseNames(v.fields[n - 1].value, v.fields[n - 1].name)
  }

  /** A name that ends in no digit is used after inference exactly when it was used before or is
      the base of an object reached. */
  lemma {:induction false} DrawnIff(v: Json, fieldName: string, types: LogicalTypes, used: set<string>, x: string)
    requires !EndsInDigit(x)
    ensures x in Infer(v, fieldName, types, used).used <==> x in used || x in BaseNames(v, fieldName)
    decreases v, 2
  {
    match v
    case JObject(fields) =>
      TakenIff(RecordBase(fieldName), used, x);
      FieldsDrawnIff(v, |fields|, types, used + {Unique(RecordBase(fieldName), used)}, x);
    case JList(items) =>
      if items != [] { DrawnIff(items[0], ElementName(fieldName), types, used, x); }
    case _ =>
  }

  lemma {:induction false} FieldsDrawnIff(v: Json, n: nat, types: LogicalTypes, used: set<string>, x: string)
    requires v.JObject? && n <= |v.fields| && !EndsInDigit(x)
    ensures x in InferFields(v, n, types, used).used
       <==> x in used || x in FieldBaseNames(v, n)
    decreases v, 1, n
  {
    if n > 0 {
      var f := v.fields[n - 1];
      FieldsDrawnIff(v, n - 1, types, used, x);
      DrawnIff(f.value, f.name, types, InferFields(v, n - 1, types, used).used, x);
    }
  }

  /** Main: a whole schema's names are distinct exactly when no object in the sample has the root's
      record name as its base name, which nothing prevents. */
  lemma RootNamesDistinctIff(sample: Json, name: string, types: LogicalTypes)
    requires sample.JObject?
    ensures AllDistinct(Names(InferRoot(sample, name, types)))
       <==> Pascal(name) + "Record" !in FieldBaseNames(sample, |sample.fields|)
  {
    var root, x := InferRoot(sample, name, types), Pascal(name) + "Record";
    assert x[|x| - 1] == 'd';
    FieldsNamesAreDistinct(sample, |sample.fields|, types, {});
    RecordNames(root.recordName, root.fields);
    ConsDistinct(root.recordName, NamesOf(root.fields));
    FieldsDrawnIff(sample, |sample.fields|, types, {}, x);
  }

  /** A field that holds an object clashes with the root when its PascalCase name is the root's. */
  lemma RootNameClashes(name: string, field: string, types: LogicalTypes)
    requires field != "" && Pascal(field) == Pascal(name) + "Record"
    ensures !AllDistinct(Names(InferRoot(JObject([Field(field, JObject([]))]), name, types)))
  {
    var sample := JObject([Field(field, JObject([]))]);
    assert FieldBaseNames(sample, 1) == FieldBaseNames(sample, 0) + BaseNames(JObject([]), field);
    RootNamesDistinctIff(sample, name, types);
  }

  /** Every template name with a non-empty part can clash: a field named after the template with
      `_record` appended, holding an object, draws the root's own record name. */
  lemma EveryTemplateCanClash(name: string, types: LogicalTypes)
    requires JoinCapitalized(Split(name)) != ""
    ensures !AllDistinct(Names(InferRoot(JObject([Field(name + "_" + "record", JObject([]))]), name, types)))
  {
    PascalRecord(name);
    RootNameClashes(name, name + "_" + "record", types);
  }

  // ---- Conformance ----

  const LONG_MIN := -0x8000_0000_0000_0000
  const LONG_MAX := 0x7FFF_FFFF_FFFF_FFFF

  function Lookup(fields: seq<Field>, name: string): Option<Json> {
    if fields == [] then None
    else if fields[0].name == name then Some(fields[0].value)
    else Lookup(fields[1..], name)
  }

  predicate ConformsPrimitive(v: Json, name: string) {
    || (name == "boolean" && v.JBool?)
    || (name == "long" && v.JInt? && LONG_MIN <= v.n <= LONG_MAX)
    || (name == "double" && (v.JFloat? || v.JInt?))
    || (name == "string" && v.JString?)
  }

  /** What an Avro writer accepts for a schema. A field with a null default may be absent. */
  ghost predicate Conforms(v: Json, s: Schema)
    decreases s
  {
    match s
    case Primitive(name) => ConformsPrimitive(v, name)
    case Logical(base, _) => ConformsPrimitive(v, base)
    case NullableString => v.JNull? || v.JString?
    case ArrayOf(element) => v.JList? && forall x | x in v.items :: Conforms(x, element)
    case RecordOf(_, fields) =>
      v.JObject? && forall f | f in fields ::
        var x := Lookup(v.fields, f.name);
        if x.Some? then Conforms(x.value, f.schema) else f.nullDefault
  }

  /** `v` has the shape of the sample: the same kinds throughout, list elements like the
      sample's first, and every sampled field, except that a null may be a string or missing. */
  ghost predicate SameShape(sample: Json, v: Json)
    decreases sample
  {
    match sample
    case JNull => v.JNull? || v.JString?
    case JBool(_) => v.JBool?
    case JInt(_) => v.JInt? && LONG_MIN <= v.n <= LONG_MAX
    case JFloat(_) => v.JFloat? || v.JInt?
    case JString(_) => v.JString?
    case JList(items) =>
      v.JList? && forall x | x in v.items :: if items == [] then x.JString? else SameShape(items[0], x)
    case JObject(fields) =>
      v.JObject? && forall f | f in fields ::
        var x := Lookup(v.fields, f.name);
        if x.Some? then SameShape(f.value, x.value) else f.value.JNull?
  }

  /** The logical types agree with the scalars found under each field name. */
  ghost predicate Consistent(v: Json, fieldName: string, types: LogicalTypes)
    decreases v
  {
    match v
    case JInt(_) => fieldName in types ==> types[fieldName] != "iso-8601-timestamp"
    case JString(_) => fieldName in types ==> types[fieldName] != "timestamp-millis"
    case JList(items) => items != [] ==> Consistent(items[0], ElementName(fieldName), types)
    case JObject(fields) => forall f | f in fields :: Consistent(f.value, f.name, types)
    case _ => true
  }

  ghost predicate FieldAccepts(f: SchemaField, v: Json)
    requires v.JObject?
  {
    var x := Lookup(v.fields, f.name);
    if x.Some? then Conforms(x.value, f.schema) else f.nullDefault
  }

  ghost predicate FieldHasShape(f: Field, v: Json)
    requires v.JObject?
  {
    var x := Lookup(v.fields, f.name);
    if x.Some? then SameShape(f.value, x.value) else f.value.JNull?
  }

  lemma PointwiseIff(inferred: seq<SchemaField>, fields: seq<Field>, v: Json)
    requires v.JObject? && |inferred| == |fields|
    requires forall i | 0 <= i < |fields| :: FieldAccepts(inferred[i], v) <==> FieldHasShape(fields[i], v)
    ensures (forall f | f in inferred :: FieldAccepts(f, v)) <==> (forall f | f in fields :: FieldHasShape(f, v))
  {
    if forall f | f in fields :: FieldHasShape(f, v) {
      forall f | f in inferred ensures FieldAccepts(f, v) {
        var i :| 0 <= i < |inferred| && inferred[i] == f;
        assert fields[i] in fields;
      }
    }
    if forall f | f in inferred :: FieldAccepts(f, v) {
      forall f | f in fields ensures FieldHasShape(f, v) {
        var i :| 0 <= i < |fields| && fields[i] == f;
        assert inferred[i] in inferred;
      }
    }
  }

  lemma {:induction false} InferredField(v: Json, n: nat, types: LogicalTypes, used: set<string>, i: nat)
    requires v.JObject? && i < n <= |v.fields|
    ensures var r := Infer(v.fields[i].value, v.fields[i].name, types, InferFields(v, i, types, used).used);
            InferFields(v, n, types, used).fields[i] == SchemaField(v.fields[i].name, r.schema, r.schema.NullableString?)
  {
    var before := InferFields(v, n - 1, types, used);
    assert InferFields(v, n, types, used).fields[..n - 1] == before.fields;
    if i < n - 1 {
      InferredField(v, n - 1, types, used, i);
      assert InferFields(v, n, types, used).fields[i] == before.fields[i];
    }
  }

  lemma NullableIffNull(v: Json, fieldName: string, types: LogicalTypes, used: set<string>)
    ensures Infer(v, fieldName, types, used).schema.NullableString? <==> v.JNull?
  {
  }

  /** Main: under consistent logical types, the schema inferred from a sample accepts exactly the
      values of the sample's shape, at every depth. */
  lemma {:induction false} SchemaAcceptsExactlyTheShape(sample: Json, fieldName: string, types: LogicalTypes, used: set<string>, v: Json)
    requires Consistent(sample, fieldName, types)
    ensures Conforms(v, Infer(sample, fieldName, types, used).schema) <==> SameShape(sample, v)
    decreases sample
  {
    match sample
    case JList(items) =>
      if v.JList? && items != [] {
        forall x | x in v.items
          ensures Conforms(x, Infer(items[0], ElementName(fieldName), types, used).schema) <==> SameShape(items[0], x)
        {
          SchemaAcceptsExactlyTheShape(items[0], ElementName(fieldName), types, used, x);
        }
      }
    case JObject(fields) =>
      if v.JObject? {
        var name := Unique(RecordBase(fieldName), used);
        var start := used + {name};
        var inferred := InferFields(sample, |fields|, types, start).fields;
        forall i | 0 <= i < |fields|
          ensures FieldAccepts(inferred[i], v) <==> FieldHasShape(fields[i], v)
        {
          InferredField(sample, |fields|, types, start, i);
          var u := InferFields(sample, i, types, start).used;
          assert fields[i] in fields;
          if Lookup(v.fields, fields[i].name).Some? {
            SchemaAcceptsExactlyTheShape(fields[i].value, fields[i].name, types, u, Lookup(v.fields, fields[i].name).value);
          }
          NullableIffNull(fields[i].value, fields[i].name, types, u);
        }
        PointwiseIff(inferred, fields, v);
      }
    case _ =>
  }

  lemma RootFieldAccepts(sample: Json, types: LogicalTypes, v: Json, i: nat)
    requires sample.JObject? && v.JObject? && i < |sample.fields|
    requires Consistent(sample, "", types)
    ensures FieldAccepts(InferFields(sample, |sample.fields|, types, {}).fields[i], v) <==> FieldHasShape(sample.fields[i], v)
  {
    var f := sample.fields[i];
    assert f in sample.fields;
    InferredField(sample, |sample.fields|, types, {}, i);
    var u := InferFields(sample, i, types, {}).used;
    if Lookup(v.fields, f.name).Some? {
      SchemaAcceptsExactlyTheShape(f.value, f.name, types, u, Lookup(v.fields, f.name).value);
    }
    NullableIffNull(f.value, f.name, types, u);
  }

  /** Main: for whole records. */
  lemma RootAcceptsExactlyTheShape(sample: Json, name: string, types: LogicalTypes, v: Json)
    requires sample.JObject? && Consistent(sample, "", types)
    ensures Conforms(v, InferRoot(sample, name, types)) <==> SameShape(sample, v)
  {
    if v.JObject? {
      var inferred := InferRoot(sample, name, types).fields;
      forall i | 0 <= i < |sample.fields|
        ensures FieldAccepts(inferred[i], v) <==> FieldHasShape(sample.fields[i], v)
      {
        RootFieldAccepts(sample, types, v, i);
      }
      PointwiseIff(inferred, sample.fields, v);
    }
  }

  // ---- Does the sample conform to its own schema? ----

  lemma {:induction false} LookupUnique(fields: seq<Field>, i: nat)
    requires i < |fields|
    requires forall j, k | 0 <= j < k < |fields| :: fields[j].name != fields[k].name
    ensures Lookup(fields, fields[i].name) == Some(fields[i].value)
  {
    if i > 0 {
      LookupUnique(fields[1..], i - 1);
      assert fields[1..][i - 1] == fields[i];
    }
  }

  /** A record is rejected as soon as one of its fields is. */
  lemma OneFieldRejects(v: Json, fieldName: string, types: LogicalTypes, used: set<string>, k: nat)
    requires v.JObject? && k < |v.fields| && Lookup(v.fields, v.fields[k].name) == Some(v.fields[k].value)
    requires var start := used + {Unique(RecordBase(fieldName), used)};
             !Conforms(v.fields[k].value,
                       Infer(v.fields[k].value, v.fields[k].name, types, InferFields(v, k, types, start).used).schema)
    ensures !Conforms(v, Infer(v, fieldName, types, used).schema)
  {
    var start := used + {Unique(RecordBase(fieldName), used)};
    var inferred := InferFields(v, |v.fields|, types, start).fields;
    InferredField(v, |v.fields|, types, start, k);
    assert inferred[k] in inferred;
  }

  /** Main: a sample conforms to its own schema exactly when its logical types are consistent and
      it has its own shape, that is, its lists are homogeneous and its integers fit a long. */
  lemma {:induction false} SampleConformsIff(v: Json, fieldName: string, types: LogicalTypes, used: set<string>)
    requires UniqueKeys(v)
    ensures Conforms(v, Infer(v, fieldName, types, used).schema)
       <==> Consistent(v, fieldName, types) && SameShape(v, v)
    decreases v
  {
    if Consistent(v, fieldName, types) {
      SchemaAcceptsExactlyTheShape(v, fieldName, types, used, v);
    } else {
      match v
      case JList(items) =>
        SampleConformsIff(items[0], ElementName(fieldName), types, used);
        assert items[0] in items;
      case JObject(fields) =>
        var k :| 0 <= k < |fields| && !Consistent(fields[k].value, fields[k].name, types);
        var start := used + {Unique(RecordBase(fieldName), used)};
        LookupUnique(fields, k);
        assert fields[k] in fields;
        SampleConformsIff(fields[k].value, fields[k].name, types, InferFields(v, k, types, start).used);
        OneFieldRejects(v, fieldName, types, used, k);
      case _ =>
    }
  }
}
