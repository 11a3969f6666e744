/**
 * What one whole run guarantees about the schema document: when it is
 * produced at all, which classes and relationships it lists, in which order,
 * with which attributes, positions and identifiers.
 */
module DocumentProperties {
  import opened Wrappers
  import opened OrderedMaps
  import opened SchemaModel
  import opened Conversion
  import opened ClassProperties
  import opened RelationshipProperties
  import opened AttributeProperties

  /** The labels of the document's classes, in order. */
  function ClassLabels(s: Schema): (ls: seq<string>)
    ensures |ls| == |s.classes| && forall i :: 0 <= i < |s.classes| ==> ls[i] == s.classes[i].name
  {
    seq(|s.classes|, i requires 0 <= i < |s.classes| => s.classes[i].name)
  }

  /** The types of the document's relationships, in order. */
  function RelationshipTypes(s: Schema): (ts: seq<string>)
    ensures |ts| == |s.relationships| && forall j :: 0 <= j < |s.relationships| ==> ts[j] == s.relationships[j].relType
  {
    seq(|s.relationships|, j requires 0 <= j < |s.relationships| => s.relationships[j].relType)
  }

  /** The class a run stores for a node record once attributes are attached. */
  function FinalClass(node: NodeRec, uuid: Uuid, pos: Position, props: seq<PropRec>): (c: HumeClass)
    ensures c.name == node.name && c.uuid == uuid && c.canvasPosition == pos
    ensures c.attributes.Some? <==> Named(props, node.name)
  {
    ClassOf(node, uuid, pos).(attributes := if Named(props, node.name) then Some(AttrsFor(props, node.name)) else None)
  }

  /** The class a run stores under label `k`: the final class of the last node record with that label. */
  function LastClassFor(nodes: seq<NodeRec>, props: seq<PropRec>, base: Uuid, rand: nat -> int, draw: nat, k: string): (c: HumeClass)
    requires k in Names(nodes)
  {
    var n := LastIndex(Names(nodes), k);
    FinalClass(nodes[n], base + n, CanvasPositionAt(rand, draw + 2 * n), props)
  }

  /** Every label some property record names alone is the label of a node record. */
  ghost predicate OwnersKnown(nodes: seq<NodeRec>, props: seq<PropRec>) {
    forall l | Named(props, l) :: l in Names(nodes)
  }

  // ---- when a run produces a document ----

  /** A run succeeds exactly when populating and collecting both succeed. */
  lemma ConvertOkParts(nodes: seq<NodeRec>, rels: seq<RelRec>, props: seq<PropRec>,
                       table: map<int, Uuid>, base: Uuid, rand: nat -> int, draw: nat)
    ensures Convert(nodes, rels, props, table, base, rand, draw).Ok?
        <==> Relationships(rels, UuidTable(table, nodes, base), FirstRelUuid(nodes, base)).Ok?
             && Collect(Classes(nodes, base, rand, draw), props).Ok?
  {
  }

  /** Collecting attributes on the run's classes succeeds exactly when the records are well typed and name only node labels. */
  lemma CollectOnClassesSucceeds(nodes: seq<NodeRec>, props: seq<PropRec>, base: Uuid, rand: nat -> int, draw: nat)
    ensures Collect(Classes(nodes, base, rand, draw), props).Ok?
        <==> WellTyped(props) && OwnersKnown(nodes, props)
  {
    ClassKeys(nodes, base, rand, draw);
    CollectSucceeds(Classes(nodes, base, rand, draw), props);
  }

  /** A run produces a document exactly when every relationship endpoint, every property type and every attribute owner is known. */
  lemma ConvertSucceeds(nodes: seq<NodeRec>, rels: seq<RelRec>, props: seq<PropRec>,
                        table: map<int, Uuid>, base: Uuid, rand: nat -> int, draw: nat)
    ensures Convert(nodes, rels, props, table, base, rand, draw).Ok?
        <==> && AllResolve(rels, UuidTable(table, nodes, base))
             && WellTyped(props)
             && OwnersKnown(nodes, props)
  {
    var uuids := UuidTable(table, nodes, base);
    calc {
      Convert(nodes, rels, props, table, base, rand, draw).Ok?;
    == { ConvertOkParts(nodes, rels, props, table, base, rand, draw); }
      Relationships(rels, uuids, FirstRelUuid(nodes, base)).Ok? && Collect(Classes(nodes, base, rand, draw), props).Ok?;
    == { RelationshipsOk(rels, uuids, FirstRelUuid(nodes, base)); }
      AllResolve(rels, uuids) && Collect(Classes(nodes, base, rand, draw), props).Ok?;
    == { CollectOnClassesSucceeds(nodes, props, base, rand, draw); }
      AllResolve(rels, uuids) && WellTyped(props) && OwnersKnown(nodes, props);
    }
  }

  /** An unknown relationship endpoint is the run's error whatever the property records hold: they are read only afterwards. */
  lemma RelationshipErrorFirst(nodes: seq<NodeRec>, rels: seq<RelRec>, props: seq<PropRec>,
                               table: map<int, Uuid>, base: Uuid, rand: nat -> int, draw: nat)
    requires Relationships(rels, UuidTable(table, nodes, base), FirstRelUuid(nodes, base)).Err?
    ensures Convert(nodes, rels, props, table, base, rand, draw)
         == Err(Relationships(rels, UuidTable(table, nodes, base), FirstRelUuid(nodes, base)).error)
  {
  }

  /** When the relationships are made, a failing attribute collection is the run's error: the exception leaves the constructor. */
  lemma CollectErrorSecond(nodes: seq<NodeRec>, rels: seq<RelRec>, props: seq<PropRec>,
                           table: map<int, Uuid>, base: Uuid, rand: nat -> int, draw: nat)
    requires Relationships(rels, UuidTable(table, nodes, base), FirstRelUuid(nodes, base)).Ok?
    requires Collect(Classes(nodes, base, rand, draw), props).Err?
    ensures Convert(nodes, rels, props, table, base, rand, draw)
         == Err(Collect(Classes(nodes, base, rand, draw), props).error)
  {
  }

  /** In a fresh run, a relationship record resolves exactly when both its endpoints are among the node records. */
  lemma FreshRunResolves(nodes: seq<NodeRec>, rel: RelRec, base: Uuid)
    ensures Resolves(rel, UuidTable(map[], nodes, base)) <==> rel.from.id in Ids(nodes) && rel.to.id in Ids(nodes)
  {
    UuidTableKeys(map[], nodes, base);
  }

  // ---- what the document holds ----

  /** The maps a successful run assembles its document from: the collected classes and the relationships. */
  lemma ConvertParts(nodes: seq<NodeRec>, rels: seq<RelRec>, props: seq<PropRec>,
                     table: map<int, Uuid>, base: Uuid, rand: nat -> int, draw: nat, s: Schema)
    returns (collected: ClassMap, rm: RelMap)
    requires Convert(nodes, rels, props, table, base, rand, draw) == Ok(s)
    ensures Relationships(rels, UuidTable(table, nodes, base), FirstRelUuid(nodes, base)) == Ok(rm)
    ensures Collect(Classes(nodes, base, rand, draw), props) == Ok(collected)
    ensures collected.Valid() && rm.Valid() && s == Assemble(collected, rm)
  {
    collected := Collect(Classes(nodes, base, rand, draw), props).value;
    rm := Relationships(rels, UuidTable(table, nodes, base), FirstRelUuid(nodes, base)).value;
  }

  /** Attaching attributes to the class made from the last node record with label `k` gives the run's class for `k`. */
  lemma AttachedClass(nodes: seq<NodeRec>, props: seq<PropRec>, base: Uuid, rand: nat -> int, draw: nat,
                      classes: ClassMap, collected: ClassMap, k: string, n: nat)
    requires classes.Valid()
    requires Collect(classes, props) == Ok(collected)
    requires k in classes.entries
    requires k in Names(nodes) && n == LastIndex(Names(nodes), k) && nodes[n].name == k
    requires classes.entries[k] == ClassOf(nodes[n], base + n, CanvasPositionAt(rand, draw + 2 * n))
    ensures k in collected.entries && collected.entries[k].name == k
    ensures collected.entries[k] == LastClassFor(nodes, props, base, rand, draw, k)
  {
    CollectedEntry(classes, props, collected, k);
  }

  /**
   * After attribute collection, the class under each label is the class made
   * for the last node record with that label, carrying the attributes of the
   * records naming that label alone, or none if no record does.
   */
  lemma CollectedClass(nodes: seq<NodeRec>, props: seq<PropRec>, base: Uuid, rand: nat -> int, draw: nat,
                       collected: ClassMap, k: string)
    requires Collect(Classes(nodes, base, rand, draw), props) == Ok(collected)
    requires k in collected.entries
    ensures k in Names(nodes) && collected.entries[k].name == k
    ensures collected.entries[k] == LastClassFor(nodes, props, base, rand, draw, k)
  {
    var classes := Classes(nodes, base, rand, draw);
    assert k in collected.keys && collected.keys == classes.keys;
    ClassKeys(nodes, base, rand, draw);
    var n := LastIndex(Names(nodes), k);
    ClassFor(nodes, base, rand, draw, k, n);
    AttachedClass(nodes, props, base, rand, draw, classes, collected, k, n);
  }

  /** Position `i` of an assembled document holds the class under the `i`-th key. */
  lemma AssembledAt(collected: ClassMap, rm: RelMap, s: Schema, i: nat, c: HumeClass)
    requires collected.Valid() && rm.Valid() && s == Assemble(collected, rm)
    requires i < |collected.keys| && collected.entries[collected.keys[i]] == c
    ensures i < |s.classes| && s.classes[i] == c
  {
  }

  /** Position `i` of a document assembled from the collected classes holds the final class of the last record with its label. */
  lemma AssembledClass(nodes: seq<NodeRec>, props: seq<PropRec>, base: Uuid, rand: nat -> int, draw: nat,
                       collected: ClassMap, rm: RelMap, s: Schema, i: nat)
    requires Collect(Classes(nodes, base, rand, draw), props) == Ok(collected)
    requires rm.Valid() && s == Assemble(collected, rm)
    requires i < |s.classes|
    ensures s.classes[i].name in Names(nodes)
    ensures s.classes[i] == LastClassFor(nodes, props, base, rand, draw, s.classes[i].name)
  {
    var k := collected.keys[i];
    CollectedClass(nodes, props, base, rand, draw, collected, k);
    AssembledAt(collected, rm, s, i, LastClassFor(nodes, props, base, rand, draw, k));
    assert s.classes[i].name == k;
  }

  /**
   * Every class in the document is the class made for the last node record
   * with its label, carrying the attributes of the records naming that label
   * alone, or none if no record does.
   */
  lemma DocumentClassAt(nodes: seq<NodeRec>, rels: seq<RelRec>, props: seq<PropRec>,
                        table: map<int, Uuid>, base: Uuid, rand: nat -> int, draw: nat, s: Schema, i: nat)
    requires Convert(nodes, rels, props, table, base, rand, draw) == Ok(s)
    requires i < |s.classes|
    ensures s.classes[i].name in Names(nodes)
    ensures s.classes[i] == LastClassFor(nodes, props, base, rand, draw, s.classes[i].name)
  {
    var collected, rm := ConvertParts(nodes, rels, props, table, base, rand, draw, s);
    AssembledClass(nodes, props, base, rand, draw, collected, rm, s, i);
  }

  // ---- the classes of the document ----

  /** The final class under a label has the last record's uuid and a position inside the canvas. */
  lemma LastClassShape(nodes: seq<NodeRec>, props: seq<PropRec>, base: Uuid, rand: nat -> int, draw: nat, k: string, c: HumeClass)
    requires k in Names(nodes) && c == LastClassFor(nodes, props, base, rand, draw, k)
    ensures c.name == k && c.uuid == base + LastIndex(Names(nodes), k)
    ensures InCanvas(c.canvasPosition) && base <= c.uuid < base + |nodes|
    ensures c.attributes.Some? <==> Named(props, k)
    ensures c.attributes.Some? ==> c.attributes.value == AttrsFor(props, k)
  {
  }

  /** A run's classes are listed under their own labels, each label once, in the order of first appearance among the node records. */
  lemma CollectedLabels(nodes: seq<NodeRec>, props: seq<PropRec>, base: Uuid, rand: nat -> int, draw: nat, collected: ClassMap)
    requires Collect(Classes(nodes, base, rand, draw), props) == Ok(collected)
    ensures forall k | k in collected.entries :: collected.entries[k].name == k
    ensures forall k :: k in collected.keys <==> k in Names(nodes)
    ensures FirstSeenOrder(collected.keys, Names(nodes))
    ensures |collected.keys| == |set k | k in Names(nodes)|
  {
    forall k | k in collected.entries ensures collected.entries[k].name == k {
      CollectedClass(nodes, props, base, rand, draw, collected, k);
    }
    ClassKeys(nodes, base, rand, draw);
  }

  /** The labels of an assembled document are the keys, when every class sits under its own label. */
  lemma AssembledLabels(collected: ClassMap, rm: RelMap, s: Schema)
    requires collected.Valid() && rm.Valid() && s == Assemble(collected, rm)
    requires forall k | k in collected.entries :: collected.entries[k].name == k
    ensures ClassLabels(s) == collected.keys
  {
  }

  /**
   * The document lists one class per distinct node label, every node label
   * has one, and they come in the order in which each label first appears.
   */
  lemma DocumentClasses(nodes: seq<NodeRec>, rels: seq<RelRec>, props: seq<PropRec>,
                        table: map<int, Uuid>, base: Uuid, rand: nat -> int, draw: nat, s: Schema)
    requires Convert(nodes, rels, props, table, base, rand, draw) == Ok(s)
    ensures Distinct(ClassLabels(s))
    ensures forall k :: k in ClassLabels(s) <==> k in Names(nodes)
    ensures FirstSeenOrder(ClassLabels(s), Names(nodes))
    ensures |s.classes| == |set k | k in Names(nodes)|
  {
    var collected, rm := ConvertParts(nodes, rels, props, table, base, rand, draw, s);
    CollectedLabels(nodes, props, base, rand, draw, collected);
    AssembledLabels(collected, rm, s);
  }

  /** Every class of the document lies inside the canvas, carries a uuid of this run, and has attributes exactly when a record names its label alone. */
  lemma DocumentClassShape(nodes: seq<NodeRec>, rels: seq<RelRec>, props: seq<PropRec>,
                           table: map<int, Uuid>, base: Uuid, rand: nat -> int, draw: nat, s: Schema, i: nat)
    requires Convert(nodes, rels, props, table, base, rand, draw) == Ok(s)
    requires i < |s.classes|
    ensures InCanvas(s.classes[i].canvasPosition) && base <= s.classes[i].uuid < base + |nodes|
    ensures s.classes[i].attributes.Some? <==> Named(props, s.classes[i].name)
    ensures s.classes[i].attributes.Some? ==> s.classes[i].attributes.value == AttrsFor(props, s.classes[i].name)
  {
    DocumentClassAt(nodes, rels, props, table, base, rand, draw, s, i);
    LastClassShape(nodes, props, base, rand, draw, s.classes[i].name, s.classes[i]);
  }

  /** Final classes under different labels have different uuids. */
  lemma LastClassUuids(nodes: seq<NodeRec>, props: seq<PropRec>, base: Uuid, rand: nat -> int, draw: nat,
                       k1: string, k2: string, c1: HumeClass, c2: HumeClass)
    requires k1 in Names(nodes) && c1 == LastClassFor(nodes, props, base, rand, draw, k1)
    requires k2 in Names(nodes) && c2 == LastClassFor(nodes, props, base, rand, draw, k2)
    requires k1 != k2
    ensures c1.uuid != c2.uuid
  {
    LastClassShape(nodes, props, base, rand, draw, k1, c1);
    LastClassShape(nodes, props, base, rand, draw, k2, c2);
  }

  /** No two classes of the document share a uuid. */
  lemma DocumentClassUuids(nodes: seq<NodeRec>, rels: seq<RelRec>, props: seq<PropRec>,
                           table: map<int, Uuid>, base: Uuid, rand: nat -> int, draw: nat, s: Schema, i1: nat, i2: nat)
    requires Convert(nodes, rels, props, table, base, rand, draw) == Ok(s)
    requires i1 < |s.classes| && i2 < |s.classes| && i1 != i2
    ensures s.classes[i1].uuid != s.classes[i2].uuid
  {
    DocumentClasses(nodes, rels, props, table, base, rand, draw, s);
    DocumentClassAt(nodes, rels, props, table, base, rand, draw, s, i1);
    DocumentClassAt(nodes, rels, props, table, base, rand, draw, s, i2);
    DistinctAt(ClassLabels(s), i1, i2);
    LastClassUuids(nodes, props, base, rand, draw, s.classes[i1].name, s.classes[i2].name, s.classes[i1], s.classes[i2]);
  }

  /** Two positions of a sequence without repetitions hold different elements. */
  lemma DistinctAt<T>(xs: seq<T>, a: nat, b: nat)
    requires Distinct(xs) && a < |xs| && b < |xs| && a != b
    ensures xs[a] != xs[b]
  {
    if b < a {
      assert xs[b] != xs[a];
    }
  }

  // ---- the relationships of the document ----

  /** The relationship stored under a type sits under its own type and is the one made for the last record of that type. */
  lemma StoredRelationship(rels: seq<RelRec>, table: map<int, Uuid>, base: Uuid, m: RelMap, t: string)
    requires Relationships(rels, table, base) == Ok(m)
    requires t in m.entries
    ensures t in Types(rels) && m.entries[t].relType == t
    ensures LastRelFor(rels, table, base, t) == Ok(m.entries[t])
  {
    RelationshipKeys(rels, table, base, m);
    RelationshipFor(rels, table, base, m, t);
  }

  /** Position `j` of an assembled document holds the relationship under the `j`-th key. */
  lemma AssembledRelAt(collected: ClassMap, rm: RelMap, s: Schema, j: nat, r: Relationship)
    requires collected.Valid() && rm.Valid() && s == Assemble(collected, rm)
    requires j < |rm.keys| && rm.entries[rm.keys[j]] == r
    ensures j < |s.relationships| && s.relationships[j] == r
  {
  }

  /** Position `j` of a document assembled from the relationship map holds the relationship of the last record with its type. */
  lemma AssembledRelationship(nodes: seq<NodeRec>, rels: seq<RelRec>, table: map<int, Uuid>, base: Uuid,
                              collected: ClassMap, rm: RelMap, s: Schema, j: nat)
    requires Relationships(rels, UuidTable(table, nodes, base), FirstRelUuid(nodes, base)) == Ok(rm)
    requires collected.Valid() && s == Assemble(collected, rm)
    requires j < |s.relationships|
    ensures s.relationships[j].relType in Types(rels)
    ensures LastRelFor(rels, UuidTable(table, nodes, base), FirstRelUuid(nodes, base), s.relationships[j].relType) == Ok(s.relationships[j])
  {
    var t := rm.keys[j];
    StoredRelationship(rels, UuidTable(table, nodes, base), FirstRelUuid(nodes, base), rm, t);
    AssembledRelAt(collected, rm, s, j, rm.entries[t]);
    assert s.relationships[j].relType == t;
  }

  /**
   * Every relationship in the document is the one made for the last
   * relationship record with its type, whose uuid is handed out after the
   * classes' and whose endpoints are looked up in the identifier table.
   */
  lemma DocumentRelationshipAt(nodes: seq<NodeRec>, rels: seq<RelRec>, props: seq<PropRec>,
                               table: map<int, Uuid>, base: Uuid, rand: nat -> int, draw: nat, s: Schema, j: nat)
    requires Convert(nodes, rels, props, table, base, rand, draw) == Ok(s)
    requires j < |s.relationships|
    ensures s.relationships[j].relType in Types(rels)
    ensures LastRelFor(rels, UuidTable(table, nodes, base), FirstRelUuid(nodes, base), s.relationships[j].relType) == Ok(s.relationships[j])
  {
    var collected, rm := ConvertParts(nodes, rels, props, table, base, rand, draw, s);
    AssembledRelationship(nodes, rels, table, base, collected, rm, s, j);
  }

  /** The relationship map lists each type once, in the order of first appearance, under its own type. */
  lemma StoredTypes(rels: seq<RelRec>, table: map<int, Uuid>, base: Uuid, m: RelMap)
    requires Relationships(rels, table, base) == Ok(m)
    ensures forall t | t in m.entries :: m.entries[t].relType == t
    ensures forall t :: t in m.keys <==> t in Types(rels)
    ensures FirstSeenOrder(m.keys, Types(rels))
    ensures |m.keys| == |set t | t in Types(rels)|
  {
    forall t | t in m.entries ensures m.entries[t].relType == t {
      StoredRelationship(rels, table, base, m, t);
    }
    RelationshipKeys(rels, table, base, m);
  }

  /** The types of an assembled document are the keys, when every relationship sits under its own type. */
  lemma AssembledTypes(collected: ClassMap, rm: RelMap, s: Schema)
    requires collected.Valid() && rm.Valid() && s == Assemble(collected, rm)
    requires forall t | t in rm.entries :: rm.entries[t].relType == t
    ensures RelationshipTypes(s) == rm.keys
  {
  }

  /** The types of a document assembled from the relationship map are those of the records, each once, in the order first seen. */
  lemma RunTypes(nodes: seq<NodeRec>, rels: seq<RelRec>, table: map<int, Uuid>, base: Uuid,
                 collected: ClassMap, rm: RelMap, s: Schema)
    requires Relationships(rels, UuidTable(table, nodes, base), FirstRelUuid(nodes, base)) == Ok(rm)
    requires collected.Valid() && s == Assemble(collected, rm)
    ensures RelationshipTypes(s) == rm.keys
    ensures forall t :: t in rm.keys <==> t in Types(rels)
    ensures FirstSeenOrder(rm.keys, Types(rels))
    ensures |rm.keys| == |set t | t in Types(rels)|
  {
    StoredTypes(rels, UuidTable(table, nodes, base), FirstRelUuid(nodes, base), rm);
    AssembledTypes(collected, rm, s);
  }

  /** The document lists one relationship per distinct relationship type, in the order in which each type first appears. */
  lemma DocumentRelationships(nodes: seq<NodeRec>, rels: seq<RelRec>, props: seq<PropRec>,
                              table: map<int, Uuid>, base: Uuid, rand: nat -> int, draw: nat, s: Schema)
    requires Convert(nodes, rels, props, table, base, rand, draw) == Ok(s)
    ensures Distinct(RelationshipTypes(s))
    ensures forall t :: t in RelationshipTypes(s) <==> t in Types(rels)
    ensures FirstSeenOrder(RelationshipTypes(s), Types(rels))
    ensures |s.relationships| == |set t | t in Types(rels)|
  {
    var collected, rm := ConvertParts(nodes, rels, props, table, base, rand, draw, s);
    RunTypes(nodes, rels, table, base, collected, rm, s);
  }

  /** The relationship of the last record of a type has that record's uuid, from the block after the classes'. */
  lemma LastRelShape(rels: seq<RelRec>, table: map<int, Uuid>, base: Uuid, t: string, r: Relationship)
    requires t in Types(rels) && LastRelFor(rels, table, base, t) == Ok(r)
    ensures r.uuid == base + LastIndex(Types(rels), t) && base <= r.uuid < base + |rels|
  {
  }

  /** Every relationship of the document carries a uuid handed out after those of the classes. */
  lemma DocumentRelationshipShape(nodes: seq<NodeRec>, rels: seq<RelRec>, props: seq<PropRec>,
                                  table: map<int, Uuid>, base: Uuid, rand: nat -> int, draw: nat, s: Schema, j: nat)
    requires Convert(nodes, rels, props, table, base, rand, draw) == Ok(s)
    requires j < |s.relationships|
    ensures base + |nodes| <= s.relationships[j].uuid < base + |nodes| + |rels|
  {
    DocumentRelationshipAt(nodes, rels, props, table, base, rand, draw, s, j);
    LastRelShape(rels, UuidTable(table, nodes, base), FirstRelUuid(nodes, base), s.relationships[j].relType, s.relationships[j]);
  }

  /** No two relationships of the document share a uuid, and none shares one with a class. */
  lemma DocumentUuidsApart(nodes: seq<NodeRec>, rels: seq<RelRec>, props: seq<PropRec>,
                           table: map<int, Uuid>, base: Uuid, rand: nat -> int, draw: nat, s: Schema, i: nat, j1: nat, j2: nat)
    requires Convert(nodes, rels, props, table, base, rand, draw) == Ok(s)
    requires i < |s.classes| && j1 < |s.relationships| && j2 < |s.relationships|
    ensures s.classes[i].uuid != s.relationships[j1].uuid
    ensures j1 != j2 ==> s.relationships[j1].uuid != s.relationships[j2].uuid
  {
    DocumentClassShape(nodes, rels, props, table, base, rand, draw, s, i);
    DocumentRelationshipShape(nodes, rels, props, table, base, rand, draw, s, j1);
    if j1 != j2 {
      DocumentRelationships(nodes, rels, props, table, base, rand, draw, s);
      DocumentRelationshipAt(nodes, rels, props, table, base, rand, draw, s, j1);
      DocumentRelationshipAt(nodes, rels, props, table, base, rand, draw, s, j2);
      DistinctAt(RelationshipTypes(s), j1, j2);
      var table' := UuidTable(table, nodes, base);
      LastRelShape(rels, table', FirstRelUuid(nodes, base), s.relationships[j1].relType, s.relationships[j1]);
      LastRelShape(rels, table', FirstRelUuid(nodes, base), s.relationships[j2].relType, s.relationships[j2]);
    }
  }

  // ---- references from relationships to classes ----

  /** The last element equal to the one at position `n` of a sequence without repetitions is that one. */
  lemma DistinctLast<T>(xs: seq<T>, n: nat)
    requires Distinct(xs) && n < |xs|
    ensures LastIndex(xs, xs[n]) == n
  {
    var r := LastIndex(xs, xs[n]);
    if r != n {
      DistinctAt(xs, r, n);
    }
  }

  /** When node labels do not repeat, the document has a class for every node record, carrying that record's uuid. */
  lemma ClassWithUuid(nodes: seq<NodeRec>, rels: seq<RelRec>, props: seq<PropRec>,
                      table: map<int, Uuid>, base: Uuid, rand: nat -> int, draw: nat, s: Schema, n: nat)
    returns (i: nat)
    requires Convert(nodes, rels, props, table, base, rand, draw) == Ok(s)
    requires Distinct(Names(nodes)) && n < |nodes|
    ensures i < |s.classes| && s.classes[i].name == nodes[n].name && s.classes[i].uuid == base + n
  {
    DocumentClasses(nodes, rels, props, table, base, rand, draw, s);
    var k := nodes[n].name;
    assert Names(nodes)[n] == k;
    i := FirstIndex(ClassLabels(s), k);
    DocumentClassAt(nodes, rels, props, table, base, rand, draw, s, i);
    LastClassShape(nodes, props, base, rand, draw, k, s.classes[i]);
    DistinctLast(Names(nodes), n);
  }

  /** In a fresh run, the uuid recorded for a node id is that of some node record with that id. */
  lemma FreshUuidOwner(nodes: seq<NodeRec>, base: Uuid, id: int) returns (n: nat)
    requires id in UuidTable(map[], nodes, base)
    ensures n < |nodes| && nodes[n].id == id && UuidTable(map[], nodes, base)[id] == base + n
  {
    UuidTableKeys(map[], nodes, base);
    UuidTableFrom(map[], nodes, base, id);
    n :| 0 <= n < |nodes| && nodes[n].id == id && UuidTable(map[], nodes, base)[id] == base + n
         && forall j :: n < j < |nodes| ==> nodes[j].id != id;
  }

  /** The relationship of the last record of a type points at the uuids recorded for that record's endpoints. */
  lemma LastRelEndpoints(rels: seq<RelRec>, table: map<int, Uuid>, relBase: Uuid, t: string, r: Relationship)
    returns (from: int, to: int)
    requires t in Types(rels) && LastRelFor(rels, table, relBase, t) == Ok(r)
    ensures from == rels[LastIndex(Types(rels), t)].from.id && to == rels[LastIndex(Types(rels), t)].to.id
    ensures from in table && to in table && r.start == table[from] && r.endId == table[to]
  {
    var last := LastIndex(Types(rels), t);
    from, to := rels[last].from.id, rels[last].to.id;
  }

  /**
   * In a fresh run whose node labels do not repeat, both ends of every
   * relationship in the document are uuids of classes in the document.
   */
  lemma DocumentReferences(nodes: seq<NodeRec>, rels: seq<RelRec>, props: seq<PropRec>,
                           base: Uuid, rand: nat -> int, draw: nat, s: Schema, j: nat)
    requires Convert(nodes, rels, props, map[], base, rand, draw) == Ok(s)
    requires Distinct(Names(nodes)) && j < |s.relationships|
    ensures exists i :: 0 <= i < |s.classes| && s.classes[i].uuid == s.relationships[j].start
    ensures exists i :: 0 <= i < |s.classes| && s.classes[i].uuid == s.relationships[j].endId
  {
    DocumentRelationshipAt(nodes, rels, props, map[], base, rand, draw, s, j);
    var from, to := LastRelEndpoints(rels, UuidTable(map[], nodes, base), FirstRelUuid(nodes, base),
                                     s.relationships[j].relType, s.relationships[j]);
    var n1 := FreshUuidOwner(nodes, base, from);
    var i1 := ClassWithUuid(nodes, rels, props, map[], base, rand, draw, s, n1);
    var n2 := FreshUuidOwner(nodes, base, to);
    var i2 := ClassWithUuid(nodes, rels, props, map[], base, rand, draw, s, n2);
  }

  // ---- a repeated label leaves a reference dangling ----

  /** Two node records with the same label `A`, ids 1 and 2. */
  const RepeatedLabel := [NodeRec(1, "A"), NodeRec(2, "A")]

  /** One relationship record from the first of them to the second. */
  const FirstToSecond := [RelRec("R", NodeRec(1, "A"), NodeRec(2, "A"))]

  /** A fresh run on those records succeeds. */
  lemma RepeatedLabelConverts(base: Uuid, rand: nat -> int, draw: nat)
    ensures Convert(RepeatedLabel, FirstToSecond, [], map[], base, rand, draw).Ok?
  {
    UuidTableLast(map[], RepeatedLabel, base, 0);
    UuidTableLast(map[], RepeatedLabel, base, 1);
    assert AllResolve(FirstToSecond, UuidTable(map[], RepeatedLabel, base));
    ConvertSucceeds(RepeatedLabel, FirstToSecond, [], map[], base, rand, draw);
  }

  /** Every class of that document carries the second record's uuid. */
  lemma RepeatedLabelClass(base: Uuid, rand: nat -> int, draw: nat, s: Schema, i: nat)
    requires Convert(RepeatedLabel, FirstToSecond, [], map[], base, rand, draw) == Ok(s)
    requires i < |s.classes|
    ensures s.classes[i].uuid == base + 1
  {
    DocumentClassAt(RepeatedLabel, FirstToSecond, [], map[], base, rand, draw, s, i);
    LastClassShape(RepeatedLabel, [], base, rand, draw, s.classes[i].name, s.classes[i]);
    var ns := Names(RepeatedLabel);
    assert ns[1] == "A" && s.classes[i].name == "A";
  }

  /** That document has a relationship, and it starts at the first record's uuid. */
  lemma RepeatedLabelRelationship(base: Uuid, rand: nat -> int, draw: nat, s: Schema)
    requires Convert(RepeatedLabel, FirstToSecond, [], map[], base, rand, draw) == Ok(s)
    ensures |s.relationships| > 0 && s.relationships[0].start == base
  {
    var collected, rm := ConvertParts(RepeatedLabel, FirstToSecond, [], map[], base, rand, draw, s);
    RepeatedLabelStored(base, rm);
  }

  /**
   * The same, one level down: the relationship map's first entry starts at the first record's uuid.
   * It specialises `LastRelEndpoints` to this example, kept apart so the whole-run lemma stays small.
   */
  lemma RepeatedLabelStored(base: Uuid, m: RelMap)
    requires Relationships(FirstToSecond, UuidTable(map[], RepeatedLabel, base), FirstRelUuid(RepeatedLabel, base)) == Ok(m)
    ensures |m.keys| > 0 && m.keys[0] in m.entries && m.entries[m.keys[0]].start == base
  {
    var uuids, relBase := UuidTable(map[], RepeatedLabel, base), FirstRelUuid(RepeatedLabel, base);
    StoredTypes(FirstToSecond, uuids, relBase, m);
    assert Types(FirstToSecond)[0] == "R";
    var t := m.keys[0];
    RelationshipFor(FirstToSecond, uuids, relBase, m, t);
    var from, to := LastRelEndpoints(FirstToSecond, uuids, relBase, t, m.entries[t]);
    UuidTableLast(map[], RepeatedLabel, base, 0);
  }

  /**
   * With a repeated label a reference can dangle: the only class carries the
   * second record's uuid, while the relationship starts at the first's.
   */
  lemma DanglingUnderRepeatedLabel(base: Uuid, rand: nat -> int, draw: nat, s: Schema)
    requires Convert(RepeatedLabel, FirstToSecond, [], map[], base, rand, draw) == Ok(s)
    ensures |s.relationships| > 0
    ensures forall i | 0 <= i < |s.classes| :: s.classes[i].uuid != s.relationships[0].start
  {
    RepeatedLabelRelationship(base, rand, draw, s);
    forall i | 0 <= i < |s.classes| ensures s.classes[i].uuid != s.relationships[0].start {
      RepeatedLabelClass(base, rand, draw, s, i);
    }
  }
}
