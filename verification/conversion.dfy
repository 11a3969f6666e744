/**
 * What one conversion run computes, as functions of its inputs and of the
 * converter's state when the run starts (identifier table, next uuid, random
 * draws taken so far). Each function follows the loop it specifies one record
 * at a time, so a loop's invariant is the function applied to the prefix seen,
 * and the `...Step` lemmas say what one more record does.
 */
module Conversion {
  import opened Wrappers
  import opened OrderedMaps
  import opened HumeTypes
  import opened SchemaModel

  type ClassMap = OrderedMap<string, HumeClass>
  type RelMap = OrderedMap<string, Relationship>
  type Groups = OrderedMap<string, seq<Attribute>>

  // ---- populate_schema: classes ----

  /**
   * The (name, class) pairs the class comprehension evaluates: node `i` gets
   * uuid `base + i` and the position of draws `draw + 2i` and `draw + 2i + 1`.
   */
  function ClassEntries(nodes: seq<NodeRec>, base: Uuid, rand: nat -> int, draw: nat): (kvs: seq<(string, HumeClass)>)
    ensures |kvs| == |nodes|
    decreases |nodes|
  {
    if nodes == [] then []
    else
      var n := |nodes| - 1;
      ClassEntries(nodes[..n], base, rand, draw)
        + [(nodes[n].name, ClassOf(nodes[n], base + n, CanvasPositionAt(rand, draw + 2 * n)))]
  }

  /** The class map: one class per node record, keyed by name, later records overwriting earlier ones. */
  function Classes(nodes: seq<NodeRec>, base: Uuid, rand: nat -> int, draw: nat): (m: ClassMap)
    ensures m.Valid()
  {
    PutAll(Empty(), ClassEntries(nodes, base, rand, draw))
  }

  /** The identifier table after the node records: node `i` records uuid `base + i` under its id. */
  function UuidTable(table: map<int, Uuid>, nodes: seq<NodeRec>, base: Uuid): (t: map<int, Uuid>)
    decreases |nodes|
  {
    if nodes == [] then table
    else
      var n := |nodes| - 1;
      UuidTable(table, nodes[..n], base)[nodes[n].id := base + n]
  }

  /** Making the class of one more node record and storing it under its name extends the class map by that record. */
  lemma ClassesStep(nodes: seq<NodeRec>, base: Uuid, rand: nat -> int, draw: nat, i: nat, classes: ClassMap,
                    u: Uuid, d: nat, next: ClassMap)
    requires i < |nodes| && u == base + i && d == draw + 2 * i
    requires classes == Classes(nodes[..i], base, rand, draw)
    requires next == classes.Put(nodes[i].name, ClassOf(nodes[i], u, CanvasPositionAt(rand, d)))
    ensures next == Classes(nodes[..i + 1], base, rand, draw)
  {
    assert nodes[..i + 1][..i] == nodes[..i];
    var c := ClassOf(nodes[i], u, CanvasPositionAt(rand, d));
    var prev := ClassEntries(nodes[..i], base, rand, draw);
    assert ClassEntries(nodes[..i + 1], base, rand, draw) == prev + [(nodes[i].name, c)];
    PutAllStep(Empty(), prev, nodes[i].name, c);
  }

  /** One more node record records one more identifier: the table over the longer prefix maps that record's id to its uuid. */
  lemma UuidTableStep(table: map<int, Uuid>, nodes: seq<NodeRec>, base: Uuid, i: nat)
    requires i < |nodes|
    ensures UuidTable(table, nodes[..i + 1], base) == UuidTable(table, nodes[..i], base)[nodes[i].id := base + i]
  {
    assert nodes[..i + 1][..i] == nodes[..i];
  }

  // ---- populate_schema: relationships ----

  /** One relationship record added to the map under its type, or the error that aborts. */
  function RelStep(m: RelMap, rel: RelRec, table: map<int, Uuid>, uuid: Uuid): (r: Result<RelMap, ConversionError>)
    requires m.Valid()
    ensures r.Ok? ==> r.value.Valid()
  {
    match RelOf(rel, table, uuid)
    case Err(e) => Err(e)
    case Ok(relationship) => Ok(m.Put(rel.relType, relationship))
  }

  /**
   * The relationship map: relationship `j` gets uuid `base + j` and is stored
   * under its type; the first record with an unknown endpoint aborts.
   */
  function Relationships(rels: seq<RelRec>, table: map<int, Uuid>, base: Uuid): (r: Result<RelMap, ConversionError>)
    ensures r.Ok? ==> r.value.Valid()
    decreases |rels|
  {
    if rels == [] then Ok(Empty())
    else
      var n := |rels| - 1;
      match Relationships(rels[..n], table, base)
      case Err(e) => Err(e)
      case Ok(m) => RelStep(m, rels[n], table, base + n)
  }

  /** After a prefix that succeeded, one more record is one more step: `next`, made from `rels[j]` with uuid `base + j`, is the map over `rels[..j + 1]`. */
  lemma RelationshipsExtend(rels: seq<RelRec>, table: map<int, Uuid>, base: Uuid, j: nat, m: RelMap,
                            uuid: Uuid, next: Result<RelMap, ConversionError>)
    requires j < |rels|
    requires Relationships(rels[..j], table, base) == Ok(m)
    requires uuid == base + j && next == RelStep(m, rels[j], table, uuid)
    ensures Relationships(rels[..j + 1], table, base) == next
  {
    assert rels[..j + 1][..j] == rels[..j];
  }

  /** Once a prefix of the relationship records fails, the whole list fails with the same error. */
  lemma {:induction false} RelationshipsAbortFinal(rels: seq<RelRec>, table: map<int, Uuid>, base: Uuid, k: nat)
    requires k <= |rels|
    requires Relationships(rels[..k], table, base).Err?
    ensures Relationships(rels, table, base) == Relationships(rels[..k], table, base)
  {
    if k < |rels| {
      var n := |rels| - 1;
      assert rels[..n][..k] == rels[..k];
      RelationshipsAbortFinal(rels[..n], table, base, k);
    } else {
      assert rels[..k] == rels;
    }
  }

  /** The uuid handed to the first relationship: the node records took the `|nodes|` uuids from `base` on. */
  function FirstRelUuid(nodes: seq<NodeRec>, base: Uuid): (u: Uuid) {
    base + |nodes|
  }

  /** The classes and relationships: all classes are made before the first relationship. */
  function Populate(nodes: seq<NodeRec>, rels: seq<RelRec>, table: map<int, Uuid>, base: Uuid, rand: nat -> int, draw: nat)
    : (r: Result<(ClassMap, RelMap), ConversionError>)
    ensures r.Ok? ==> r.value.0 == Classes(nodes, base, rand, draw) && r.value.1.Valid()
  {
    match Relationships(rels, UuidTable(table, nodes, base), FirstRelUuid(nodes, base))
    case Err(e) => Err(e)
    case Ok(rm) => Ok((Classes(nodes, base, rand, draw), rm))
  }

  // ---- collect_attributes: grouping ----

  /** The attributes grouped under `name` so far; a label not seen yet reads as `[]`, the `setdefault` default. */
  function Group(groups: Groups, name: string): (g: seq<Attribute>)
    ensures name in groups.entries ==> g == groups.entries[name]
    ensures name !in groups.entries ==> g == []
  {
    if name in groups.entries then groups.entries[name] else []
  }

  /** `groups.setdefault(name, []).append(a)`. */
  function Append(groups: Groups, name: string, a: Attribute): (g: Groups)
    requires groups.Valid()
    ensures g.Valid()
  {
    groups.Put(name, Group(groups, name) + [a])
  }

  /** One property record: skipped unless it names one label; kept with no type, it aborts. */
  function GroupStep(groups: Groups, p: PropRec): (r: Result<Groups, ConversionError>)
    requires groups.Valid()
    ensures r.Ok? ==> r.value.Valid()
  {
    if !SingleLabel(p) then Ok(groups)
    else if |p.propertyTypes| == 0 then Err(NoPropertyType(p.nodeType))
    else Ok(Append(groups, p.nodeLabels[0], AttributeOf(p)))
  }

  /**
   * The warnings one property record logs: a record that aborts raises before
   * logging anything, a skipped one logs that it was skipped, and a kept one
   * logs what mapping its type reports.
   */
  function StepWarnings(p: PropRec): (ws: seq<Warning>)
    ensures Aborts(p) ==> ws == []
    ensures !SingleLabel(p) ==> ws == [MultipleLabels(p.nodeType, p.nodeLabels)]
    ensures SingleLabel(p) && |p.propertyTypes| > 0 ==> ws == TypeWarnings(p)
    ensures |ws| <= 2
  {
    if Aborts(p) then [] else RecordWarnings(p)
  }

  /** The first loop: the attribute groups per label, in the order labels are first seen. */
  function AttributeGroups(props: seq<PropRec>): (r: Result<Groups, ConversionError>)
    ensures r.Ok? ==> r.value.Valid()
    decreases |props|
  {
    if props == [] then Ok(Empty())
    else
      var n := |props| - 1;
      match AttributeGroups(props[..n])
      case Err(e) => Err(e)
      case Ok(g) => GroupStep(g, props[n])
  }

  /** The warnings the first loop logs, up to the record that aborts it if there is one. */
  function Warnings(props: seq<PropRec>): (ws: seq<Warning>)
    ensures |ws| <= 2 * |props|
    decreases |props|
  {
    if props == [] then []
    else
      var n := |props| - 1;
      if AttributeGroups(props[..n]).Err? then Warnings(props[..n])
      else Warnings(props[..n]) + StepWarnings(props[n])
  }

  /** One more property record after a prefix that has not aborted is one more group step. */
  lemma GroupingStep(props: seq<PropRec>, i: nat, groups: Groups)
    requires i < |props|
    requires AttributeGroups(props[..i]) == Ok(groups)
    ensures AttributeGroups(props[..i + 1]) == GroupStep(groups, props[i])
  {
    assert props[..i + 1][..i] == props[..i];
  }

  /** One more property record after a prefix that has not aborted adds its warnings to any log. */
  lemma WarningsStep(props: seq<PropRec>, i: nat, log: seq<Warning>)
    requires i < |props|
    requires AttributeGroups(props[..i]).Ok?
    ensures log + Warnings(props[..i + 1]) == (log + Warnings(props[..i])) + StepWarnings(props[i])
  {
    assert props[..i + 1][..i] == props[..i];
  }

  /** Once a prefix of the property records aborts grouping, the whole list aborts the same way. */
  lemma {:induction false} GroupingAbortFinal(props: seq<PropRec>, k: nat)
    requires k <= |props|
    requires AttributeGroups(props[..k]).Err?
    ensures AttributeGroups(props) == AttributeGroups(props[..k])
  {
    if k < |props| {
      var n := |props| - 1;
      assert props[..n][..k] == props[..k];
      GroupingAbortFinal(props[..n], k);
    } else {
      assert props[..k] == props;
    }
  }

  /** Once a prefix of the property records aborts grouping, the records after it log nothing. */
  lemma {:induction false} WarningsAbortFinal(props: seq<PropRec>, k: nat)
    requires k <= |props|
    requires AttributeGroups(props[..k]).Err?
    ensures Warnings(props) == Warnings(props[..k])
  {
    if k < |props| {
      var n := |props| - 1;
      assert props[..n][..k] == props[..k];
      GroupingAbortFinal(props[..n], k);
      assert Warnings(props) == Warnings(props[..n]);
      WarningsAbortFinal(props[..n], k);
    } else {
      assert props[..k] == props;
    }
  }

  // ---- collect_attributes: attaching ----

  /** `classes[name]['attributes'] = list(attributes)`, a KeyError when there is no such class. */
  function AttachStep(classes: ClassMap, name: string, attributes: seq<Attribute>): (r: Result<ClassMap, ConversionError>)
    requires classes.Valid()
    ensures r.Ok? ==> r.value.Valid() && r.value.keys == classes.keys
  {
    if name !in classes.entries then Err(UnknownLabel(name))
    else Ok(classes.Put(name, classes.entries[name].(attributes := Some(attributes))))
  }

  /** The second loop over the group keys `keys`: each group is assigned as its class's attributes. */
  function AttachAll(classes: ClassMap, groups: Groups, keys: seq<string>): (r: Result<ClassMap, ConversionError>)
    requires classes.Valid()
    requires forall i | 0 <= i < |keys| :: keys[i] in groups.entries
    ensures r.Ok? ==> r.value.Valid() && r.value.keys == classes.keys
    decreases |keys|
  {
    if keys == [] then Ok(classes)
    else
      var n := |keys| - 1;
      match AttachAll(classes, groups, keys[..n])
      case Err(e) => Err(e)
      case Ok(c) => AttachStep(c, keys[n], groups.entries[keys[n]])
  }

  lemma AttachStepLemma(classes: ClassMap, groups: Groups, keys: seq<string>, j: nat, c: ClassMap)
    requires classes.Valid()
    requires forall i | 0 <= i < |keys| :: keys[i] in groups.entries
    requires j < |keys|
    requires AttachAll(classes, groups, keys[..j]) == Ok(c)
    ensures c.Valid()
    ensures AttachAll(classes, groups, keys[..j + 1]) == AttachStep(c, keys[j], groups.entries[keys[j]])
  {
    assert keys[..j + 1][..j] == keys[..j];
  }

  /** Once attaching a prefix of the group keys fails, attaching them all fails the same way. */
  lemma {:induction false} AttachAbortFinal(classes: ClassMap, groups: Groups, keys: seq<string>, k: nat)
    requires classes.Valid()
    requires forall i | 0 <= i < |keys| :: keys[i] in groups.entries
    requires k <= |keys|
    requires AttachAll(classes, groups, keys[..k]).Err?
    ensures AttachAll(classes, groups, keys) == AttachAll(classes, groups, keys[..k])
  {
    if k < |keys| {
      var n := |keys| - 1;
      assert keys[..n][..k] == keys[..k];
      AttachAbortFinal(classes, groups, keys[..n], k);
    } else {
      assert keys[..k] == keys;
    }
  }

  /** Attribute collection: group, then attach every group in the order its label was first seen. */
  function Collect(classes: ClassMap, props: seq<PropRec>): (r: Result<ClassMap, ConversionError>)
    requires classes.Valid()
    ensures r.Ok? ==> r.value.Valid() && r.value.keys == classes.keys
  {
    match AttributeGroups(props)
    case Err(e) => Err(e)
    case Ok(g) => AttachAll(classes, g, g.keys)
  }

  // ---- the document ----

  /** The schema document: the two maps' values in insertion order. */
  function Assemble(classes: ClassMap, rels: RelMap): (s: Schema)
    requires classes.Valid() && rels.Valid()
    ensures |s.classes| == |classes.keys| && |s.relationships| == |rels.keys|
    ensures forall i :: 0 <= i < |classes.keys| ==> s.classes[i] == classes.entries[classes.keys[i]]
    ensures forall j :: 0 <= j < |rels.keys| ==> s.relationships[j] == rels.entries[rels.keys[j]]
  {
    Schema(classes.Values(), rels.Values())
  }

  /**
   * A whole run: populate, collect attributes, assemble; any failure aborts
   * with no document. An unknown relationship endpoint is reported whatever
   * the property records hold, since they are read only afterwards, and the
   * document has one class per key of the class map.
   */
  function Convert(nodes: seq<NodeRec>, rels: seq<RelRec>, props: seq<PropRec>,
                   table: map<int, Uuid>, base: Uuid, rand: nat -> int, draw: nat)
    : (r: Result<Schema, ConversionError>)
  {
    match Populate(nodes, rels, table, base, rand, draw)
    case Err(e) => Err(e)
    case Ok((classes, relationships)) =>
      match Collect(classes, props)
      case Err(e) => Err(e)
      case Ok(withAttributes) => Ok(Assemble(withAttributes, relationships))
  }
}
