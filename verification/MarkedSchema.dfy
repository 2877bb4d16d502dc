/**
 * Markers joined with schema inference. The renderer records a mark under the field it is met
 * under; inference looks a scalar up under a name of its own, which for list elements is another
 * one. So a mark inside a list does not reach the schema of the element that carries it.
 */
module MarkedSchema {
  import opened Prelude
  import opened Json
  import opened Markers
  import opened AvroNames
  import opened AvroSchema

  // ---- Where inference goes ----

  /** Into the i-th field of a record, or to the first element of a list. */
  datatype Hop = Into(i: nat) | First

  function TreeAt(t: Tree, path: seq<Hop>): Option<Tree>
    decreases |path|
  {
    if path == [] then Some(t)
    else
      match (t, path[0])
      case (Record(entries), Into(i)) => if i < |entries| then TreeAt(entries[i].tree, path[1..]) else None
      case (Items(items), First) => if items != [] then TreeAt(items[0], path[1..]) else None
      case _ => None
  }

  function SchemaAt(s: Schema, path: seq<Hop>): Option<Schema>
    decreases |path|
  {
    if path == [] then Some(s)
    else
      match (s, path[0])
      case (RecordOf(_, fields), Into(i)) => if i < |fields| then SchemaAt(fields[i].schema, path[1..]) else None
      case (ArrayOf(element), First) => SchemaAt(element, path[1..])
      case _ => None
  }

  /** The name under which the renderer meets what the path leads to. */
  function MetUnder(t: Tree, parent: string, path: seq<Hop>): string
    requires TreeAt(t, path).Some?
    decreases |path|
  {
    if path == [] then parent
    else if path[0].Into? then MetUnder(t.entries[path[0].i].tree, t.entries[path[0].i].name, path[1..])
    else MetUnder(t.items[0], parent, path[1..])
  }

  /** The name under which inference looks it up. */
  function LookedUp(t: Tree, fieldName: string, path: seq<Hop>): string
    requires TreeAt(t, path).Some?
    decreases |path|
  {
    if path == [] then fieldName
    else if path[0].Into? then LookedUp(t.entries[path[0].i].tree, t.entries[path[0].i].name, path[1..])
    else LookedUp(t.items[0], if fieldName != "" then fieldName + "_item" else "item", path[1..])
  }

  lemma {:induction false} LeafIsScalar(t: Tree, path: seq<Hop>)
    requires WellMarked(t) && TreeAt(t, path).Some?
    ensures WellMarked(TreeAt(t, path).value)
    decreases |path|
  {
    if path != [] {
      if path[0].Into? {
        assert t.entries[path[0].i] in t.entries;
        LeafIsScalar(t.entries[path[0].i].tree, path[1..]);
      } else {
        LeafIsScalar(t.items[0], path[1..]);
      }
    }
  }

  /** A leaf's schema is the scalar schema under the name it is looked up by. */
  lemma {:induction false} LeafSchema(t: Tree, fieldName: string, types: map<string, string>, used: set<string>,
                                      path: seq<Hop>)
    requires TreeAt(t, path).Some? && TreeAt(t, path).value.Leaf? && IsScalar(TreeAt(t, path).value.value)
    ensures SchemaAt(Infer(Plain(t), fieldName, types, used).schema, path)
         == Some(Infer(TreeAt(t, path).value.value, LookedUp(t, fieldName, path), types, {}).schema)
    decreases |path|
  {
    if path != [] {
      if path[0].Into? {
        FieldLeafSchema(t, types, used + {Unique(RecordBase(fieldName), used)}, path);
      } else {
        LeafSchema(t.items[0], ElementName(fieldName), types, used, path[1..]);
      }
    }
  }

  lemma {:induction false} FieldLeafSchema(t: Tree, types: map<string, string>, used: set<string>, path: seq<Hop>)
    requires path != [] && path[0].Into?
    requires TreeAt(t, path).Some? && TreeAt(t, path).value.Leaf? && IsScalar(TreeAt(t, path).value.value)
    ensures SchemaAt(InferFields(Plain(t), |t.entries|, types, used).fields[path[0].i].schema, path[1..])
         == Some(Infer(TreeAt(t, path).value.value, LookedUp(t, "", path), types, {}).schema)
    decreases |path|, 0
  {
    var i := path[0].i;
    InferredField(Plain(t), |t.entries|, types, used, i);
    LeafSchema(t.entries[i].tree, t.entries[i].name, types, InferFields(Plain(t), i, types, used).used, path[1..]);
  }

  // ---- Which marks the schema shows ----

  /** The last mark met under the field is this one. */
  ghost predicate LastMark(visits: seq<Visit>, field: string, logical: string) {
    exists i ::
      && 0 <= i < |visits| && visits[i] == Visit(field, logical)
      && forall j | i < j < |visits| :: visits[j].field != field
  }

  lemma {:induction false} LastVisitOf(visits: seq<Visit>, field: string) returns (i: nat)
    requires exists v :: v in visits && v.field == field
    ensures i < |visits| && visits[i].field == field && forall j | i < j < |visits| :: visits[j].field != field
  {
    i := |visits| - 1;
    if visits[i].field != field { i := LastVisitOf(visits[..i], field); }
  }

  /** What unwrapping records is the last mark met under each field. */
  lemma RecordedIff(visits: seq<Visit>, field: string, logical: string)
    ensures var types := Recorded(map[], visits);
            (field in types && types[field] == logical) <==> LastMark(visits, field, logical)
  {
    if exists v :: v in visits && v.field == field {
      var i := LastVisitOf(visits, field);
      LastVisitWins(map[], visits, i);
      assert visits[i] == Visit(field, visits[i].logical);
    } else {
      UnvisitedKeeps(map[], visits, field);
    }
  }

  /** The marks met while sampling: in the renders before the sample's, in its own, in those after. */
  function Met(t: Tree, earlier: seq<Visit>, later: seq<Visit>): seq<Visit> { earlier + Visits(t, "") + later }

  /** The schema that inference gives what the path leads to, when the sample is rendered with its
      marks and unwrapped among other renders, whose marks stay recorded. */
  ghost function InferredAt(t: Tree, name: string, path: seq<Hop>, earlier: seq<Visit>, later: seq<Visit>): Option<Schema>
    requires t.Record?
  {
    var u := Unwrap(Wrap(t), "", Recorded(map[], earlier));
    if u.json.JObject? then SchemaAt(InferRoot(u.json, name, Recorded(u.types, later)), path) else None
  }

  lemma AllRecorded(t: Tree, earlier: seq<Visit>, later: seq<Visit>)
    requires WellMarked(t) && MarkerFree(Plain(t))
    ensures var u := Unwrap(Wrap(t), "", Recorded(map[], earlier));
            u.json == Plain(t) && Recorded(u.types, later) == Recorded(map[], Met(t, earlier, later))
  {
    UnwrapRoundTrip(t, "", Recorded(map[], earlier));
    RecordedAppend(map[], earlier, Visits(t, ""));
    RecordedAppend(map[], earlier + Visits(t, ""), later);
  }

  lemma RootLeafSchema(t: Tree, name: string, types: map<string, string>, path: seq<Hop>, leaf: Tree)
    requires t.Record? && TreeAt(t, path) == Some(leaf) && leaf.Leaf? && IsScalar(leaf.value)
    ensures SchemaAt(InferRoot(Plain(t), name, types), path)
         == Some(Infer(leaf.value, LookedUp(t, "", path), types, {}).schema)
  {
    FieldLeafSchema(t, types, {}, path);
  }

  lemma InferredLeaf(t: Tree, name: string, path: seq<Hop>, earlier: seq<Visit>, later: seq<Visit>, leaf: Tree)
    requires t.Record? && WellMarked(t) && MarkerFree(Plain(t)) && TreeAt(t, path) == Some(leaf) && leaf.Leaf?
    ensures InferredAt(t, name, path, earlier, later)
         == Some(Infer(leaf.value, LookedUp(t, "", path), Recorded(map[], Met(t, earlier, later)), {}).schema)
  {
    AllRecorded(t, earlier, later);
    LeafIsScalar(t, path);
    RootLeafSchema(t, name, Recorded(map[], Met(t, earlier, later)), path, leaf);
  }

  /** Main: a scalar that inference reaches is given a logical type if and only if it is an integer
      or a string and the last mark met in all of sampling under the name it is looked up by is that
      type. */
  lemma LogicalIffLastMark(t: Tree, name: string, path: seq<Hop>, earlier: seq<Visit>, later: seq<Visit>, leaf: Tree,
                           logical: string)
    requires t.Record? && WellMarked(t) && MarkerFree(Plain(t)) && TreeAt(t, path) == Some(leaf) && leaf.Leaf?
    ensures InferredAt(t, name, path, earlier, later).Some?
    ensures var schema := InferredAt(t, name, path, earlier, later).value;
            (schema.Logical? && schema.logical == logical)
            <==> (leaf.value.JInt? || leaf.value.JString?)
                 && LastMark(Met(t, earlier, later), LookedUp(t, "", path), logical)
  {
    InferredLeaf(t, name, path, earlier, later, leaf);
    LeafIsScalar(t, path);
    RecordedIff(Met(t, earlier, later), LookedUp(t, "", path), logical);
  }

  // ---- Marks on fields ----

  lemma {:induction false} ItemVisits(t: Tree, n: nat, parent: string, i: nat, v: Visit)
    requires t.Items? && i < n <= |t.items| && v in Visits(t.items[i], parent)
    ensures v in VisitsItems(t, n, parent)
    decreases n
  {
    if i < n - 1 { ItemVisits(t, n - 1, parent, i, v); }
  }

  lemma {:induction false} FieldVisits(t: Tree, n: nat, i: nat, v: Visit)
    requires t.Record? && i < n <= |t.entries| && v in Visits(t.entries[i].tree, t.entries[i].name)
    ensures v in VisitsFields(t, n)
    decreases n
  {
    if i < n - 1 { FieldVisits(t, n - 1, i, v); }
  }

  /** A marked leaf is met under its name. */
  lemma {:induction false} MarkIsMet(t: Tree, parent: string, path: seq<Hop>, mark: string)
    requires TreeAt(t, path).Some? && TreeAt(t, path).value.Leaf? && TreeAt(t, path).value.mark == Some(mark)
    requires MetUnder(t, parent, path) != ""
    ensures Visit(MetUnder(t, parent, path), mark) in Visits(t, parent)
    decreases |path|
  {
    if path != [] {
      if path[0].Into? {
        MarkIsMet(t.entries[path[0].i].tree, t.entries[path[0].i].name, path[1..], mark);
        FieldVisits(t, |t.entries|, path[0].i, Visit(MetUnder(t, parent, path), mark));
      } else {
        MarkIsMet(t.items[0], parent, path[1..], mark);
        ItemVisits(t, |t.items|, parent, 0, Visit(MetUnder(t, parent, path), mark));
      }
    }
  }

  /** A leaf that is a field's value is looked up by the name it is met under. */
  lemma {:induction false} FieldNamesAgree(t: Tree, a: string, b: string, path: seq<Hop>)
    requires TreeAt(t, path).Some? && path != [] && path[|path| - 1].Into?
    ensures MetUnder(t, a, path) == LookedUp(t, b, path)
    decreases |path|
  {
    if |path| > 1 {
      assert path[1..][|path| - 2] == path[|path| - 1];
      if path[0].Into? {
        FieldNamesAgree(t.entries[path[0].i].tree, t.entries[path[0].i].name, t.entries[path[0].i].name, path[1..]);
      } else {
        FieldNamesAgree(t.items[0], a, ElementName(b), path[1..]);
      }
    }
  }

  /** Main: the mark of an integer or string that is a field's own value reaches its schema, as long
      as no other mark is met under the same name. */
  lemma FieldMarkReaches(t: Tree, name: string, path: seq<Hop>, earlier: seq<Visit>, later: seq<Visit>, v: Json,
                         mark: string)
    requires t.Record? && WellMarked(t) && MarkerFree(Plain(t)) && TreeAt(t, path) == Some(Leaf(v, Some(mark)))
    requires (v.JInt? || v.JString?) && path != [] && path[|path| - 1].Into? && LookedUp(t, "", path) != ""
    requires forall x | x in Met(t, earlier, later) && x.field == LookedUp(t, "", path) :: x.logical == mark
    ensures InferredAt(t, name, path, earlier, later).Some?
    ensures var schema := InferredAt(t, name, path, earlier, later).value; schema.Logical? && schema.logical == mark
  {
    var field := LookedUp(t, "", path);
    FieldNamesAgree(t, "", "", path);
    MarkIsMet(t, "", path, mark);
    assert Visit(field, mark) in Met(t, earlier, later);
    var i := LastVisitOf(Met(t, earlier, later), field);
    assert Met(t, earlier, later)[i] in Met(t, earlier, later);
    assert Met(t, earlier, later)[i] == Visit(field, mark);
    LogicalIffLastMark(t, name, path, earlier, later, Leaf(v, Some(mark)), mark);
  }

  // ---- Marks in lists ----

  /** A list element is looked up by a longer name than the one it is met under. */
  lemma {:induction false} ElementNamesDiffer(t: Tree, a: string, b: string, path: seq<Hop>)
    requires TreeAt(t, path).Some? && path != [] && path[|path| - 1].First? && |a| <= |b|
    ensures |MetUnder(t, a, path)| < |LookedUp(t, b, path)|
    decreases |path|
  {
    if path[0].Into? {
      assert path[1..][|path| - 2] == path[|path| - 1];
      ElementNamesDiffer(t.entries[path[0].i].tree, t.entries[path[0].i].name, t.entries[path[0].i].name, path[1..]);
    } else if |path| > 1 {
      assert path[1..][|path| - 2] == path[|path| - 1];
      ElementNamesDiffer(t.items[0], a, ElementName(b), path[1..]);
    }
  }

  /** Main: a list element is never looked up under the name its mark is recorded by. Unless marks
      are met elsewhere under the element's name, its schema has no logical type. */
  lemma ElementMarkIsLost(t: Tree, name: string, path: seq<Hop>, earlier: seq<Visit>, later: seq<Visit>, leaf: Tree)
    requires t.Record? && WellMarked(t) && MarkerFree(Plain(t)) && TreeAt(t, path) == Some(leaf) && leaf.Leaf?
    requires path != [] && path[|path| - 1].First?
    ensures MetUnder(t, "", path) != LookedUp(t, "", path)
    ensures InferredAt(t, name, path, earlier, later).Some?
    ensures (forall x | x in Met(t, earlier, later) :: x.field != LookedUp(t, "", path)) ==>
              !InferredAt(t, name, path, earlier, later).value.Logical?
  {
    ElementNamesDiffer(t, "", "", path);
    InferredLeaf(t, name, path, earlier, later, leaf);
    LeafIsScalar(t, path);
    if forall x | x in Met(t, earlier, later) :: x.field != LookedUp(t, "", path) {
      UnvisitedKeeps(map[], Met(t, earlier, later), LookedUp(t, "", path));
    }
  }

  /** A record whose only field is a list of one marked scalar. */
  function ListOfOne(field: string, mark: string, v: Json): Tree {
    Record([Entry(field, Items([Leaf(v, Some(mark))]))])
  }

  lemma ListOfOneVisits(field: string, mark: string, v: Json)
    requires field != ""
    ensures Visits(ListOfOne(field, mark, v), "") == [Visit(field, mark)]
  {
    var t, items, leaf := ListOfOne(field, mark, v), Items([Leaf(v, Some(mark))]), Leaf(v, Some(mark));
    assert VisitsItems(items, 1, field) == VisitsItems(items, 0, field) + Visits(leaf, field);
    assert VisitsFields(t, 1) == VisitsFields(t, 0) + Visits(items, field);
  }

  lemma ListOfOneIsPlain(field: string, mark: string, v: Json)
    requires !IsMarkerKey(field) && IsScalar(v) && mark != ""
    ensures var t := ListOfOne(field, mark, v); WellMarked(t) && MarkerFree(Plain(t))
  {
    var t, items := ListOfOne(field, mark, v), Items([Leaf(v, Some(mark))]);
    assert Plain(items).items == [v] && Plain(t).fields == [Field(field, Plain(items))];
  }

  lemma ListOfOneElement(field: string, mark: string, v: Json)
    requires field != ""
    ensures var t, path := ListOfOne(field, mark, v), [Into(0), First];
            TreeAt(t, path) == Some(Leaf(v, Some(mark))) && LookedUp(t, "", path) == field + "_item"
  {
    var path := [Into(0), First];
    assert path[1..] == [First] && path[1..][1..] == [];
  }

  /** Main: so for every field and mark, and every integer or string, a list of that one marked scalar
      is recorded under the field, and the schema of its elements is the plain one. */
  lemma ListMarkIsLost(field: string, mark: string, v: Json, name: string)
    requires field != "" && !IsMarkerKey(field) && mark != "" && (v.JInt? || v.JString?)
    ensures var t := ListOfOne(field, mark, v);
            && Unwrap(Wrap(t), "", map[]).types == map[field := mark]
            && InferredAt(t, name, [Into(0), First], [], []) == Some(Primitive(if v.JInt? then "long" else "string"))
  {
    var t, visits := ListOfOne(field, mark, v), [Visit(field, mark)];
    ListOfOneIsPlain(field, mark, v);
    ListOfOneVisits(field, mark, v);
    ListOfOneElement(field, mark, v);
    UnwrapRoundTrip(t, "", map[]);
    assert visits[..0] == [] && Met(t, [], []) == visits;
    assert |field + "_item"| != |field|;
    InferredLeaf(t, name, [Into(0), First], [], [], Leaf(v, Some(mark)));
  }
}
