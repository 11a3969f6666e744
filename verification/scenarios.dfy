/**
 * Four small runs worked through: a class with one attribute, a self-loop,
 * a property record naming two labels, and a source type the table does not
 * list. Each run is fresh (empty identifier table) and may start from any
 * uuid and any point of the random source.
 */
module Scenarios {
  import opened Wrappers
  import opened OrderedMaps
  import opened HumeTypes
  import opened SchemaModel
  import opened Conversion
  import opened ClassProperties
  import opened RelationshipProperties
  import opened AttributeProperties
  import opened DocumentProperties

  const Person := NodeRec(1, "Person")
  const Company := NodeRec(2, "Company")

  /** `age` on `Person`, observed as `Long`. */
  const Age := PropRec(":`Person`", ["Person"], "age", ["Long"])

  /** `name` observed on nodes carrying both `Person` and `Company`. */
  const SharedName := PropRec(":`Person`:`Company`", ["Person", "Company"], "name", ["String"])

  /** `origin` on `Person`, observed with a type the table does not list. */
  const Origin := PropRec(":`Person`", ["Person"], "origin", ["Alien"])

  /** `KNOWS` from `Person` to `Person`. */
  const Knows := RelRec("KNOWS", Person, Person)

  // ---- shared steps ----

  /** A one-record property list whose record names `Person` alone is well typed and names only `Person`. */
  lemma OnlyPerson(p: PropRec)
    requires p.nodeLabels == ["Person"] && |p.propertyTypes| > 0
    ensures WellTyped([p]) && OwnersKnown([Person], [p])
    ensures Named([p], "Person") && AttrsFor([p], "Person") == [AttributeOf(p)]
  {
    assert [p][..0] == [];
    forall l | Named([p], l) ensures l in Names([Person]) {
      assert Names([Person])[0] == "Person";
    }
    assert SingleLabel([p][0]);
  }

  /** A sequence without repetitions whose elements all come from `[x]`, and which holds `x`, is `[x]`. */
  lemma SoleElement<T>(xs: seq<T>, x: T)
    requires Distinct(xs) && x in xs
    requires forall y :: y in xs ==> y in [x]
    ensures xs == [x]
  {
    DistinctCard(xs);
    assert (set y | y in xs) == {x};
    assert xs[0] in xs;
  }

  /** When every element of a non-empty sequence is `x`, the sequence holds only `x`, last at its end. */
  lemma AllEqual<T>(xs: seq<T>, x: T)
    requires |xs| > 0 && forall i | 0 <= i < |xs| :: xs[i] == x
    ensures x in xs && (forall y :: y in xs ==> y in [x]) && LastIndex(xs, x) == |xs| - 1
  {
    assert xs[|xs| - 1] == x;
  }

  /** A run whose node records all carry one label `k` lists exactly one class, labelled `k`, with the last record's uuid. */
  lemma SoleClass(nodes: seq<NodeRec>, rels: seq<RelRec>, props: seq<PropRec>, table: map<int, Uuid>,
                  base: Uuid, rand: nat -> int, draw: nat, s: Schema, k: string)
    requires Convert(nodes, rels, props, table, base, rand, draw) == Ok(s)
    requires |nodes| > 0 && forall i | 0 <= i < |nodes| :: nodes[i].name == k
    ensures |s.classes| == 1 && s.classes[0].name == k
    ensures s.classes[0].uuid == base + |nodes| - 1
  {
    AllEqual(Names(nodes), k);
    DocumentClasses(nodes, rels, props, table, base, rand, draw, s);
    SoleElement(ClassLabels(s), k);
    DocumentClassAt(nodes, rels, props, table, base, rand, draw, s, 0);
    LastClassShape(nodes, props, base, rand, draw, k, s.classes[0]);
  }

  /** A run whose only node record is `Person` lists exactly one class, labelled `Person`, with the run's first uuid. */
  lemma OnlyPersonClass(rels: seq<RelRec>, props: seq<PropRec>, base: Uuid, rand: nat -> int, draw: nat, s: Schema)
    requires Convert([Person], rels, props, map[], base, rand, draw) == Ok(s)
    ensures |s.classes| == 1 && s.classes[0].name == "Person" && s.classes[0].uuid == base
  {
    SoleClass([Person], rels, props, map[], base, rand, draw, s, "Person");
  }

  // ---- A: one class with one attribute ----

  /** Scenario A produces a document. */
  lemma ScenarioAConverts(base: Uuid, rand: nat -> int, draw: nat)
    ensures Convert([Person], [], [Age], map[], base, rand, draw).Ok?
  {
    OnlyPerson(Age);
    ConvertSucceeds([Person], [], [Age], map[], base, rand, draw);
  }

  /** Scenario A: one class `Person` whose only attribute is `age` of type NUMBER, and no relationships. */
  lemma ScenarioA(base: Uuid, rand: nat -> int, draw: nat, s: Schema)
    requires Convert([Person], [], [Age], map[], base, rand, draw) == Ok(s)
    ensures |s.classes| == 1 && s.classes[0].name == "Person"
    ensures s.classes[0].attributes == Some([Attribute("age", NUMBER)])
    ensures s.relationships == []
  {
    OnlyPersonClass([], [Age], base, rand, draw, s);
    OnlyPerson(Age);
    DocumentClassShape([Person], [], [Age], map[], base, rand, draw, s, 0);
    DocumentRelationships([Person], [], [Age], map[], base, rand, draw, s);
    assert Types([]) == [];
  }

  // ---- B: a self-loop ----

  /** Scenario B produces a document. */
  lemma ScenarioBConverts(base: Uuid, rand: nat -> int, draw: nat)
    ensures Convert([Person], [Knows], [], map[], base, rand, draw).Ok?
  {
    UuidTableLast(map[], [Person], base, 0);
    assert AllResolve([Knows], UuidTable(map[], [Person], base));
    assert OwnersKnown([Person], []);
    ConvertSucceeds([Person], [Knows], [], map[], base, rand, draw);
  }

  /** A run whose relationship records all carry one type `t` lists exactly one relationship, the one made for the last of them. */
  lemma SoleRelationship(nodes: seq<NodeRec>, rels: seq<RelRec>, props: seq<PropRec>, table: map<int, Uuid>,
                         base: Uuid, rand: nat -> int, draw: nat, s: Schema, t: string)
    requires Convert(nodes, rels, props, table, base, rand, draw) == Ok(s)
    requires |rels| > 0 && forall j | 0 <= j < |rels| :: rels[j].relType == t
    ensures |s.relationships| == 1 && s.relationships[0].relType == t
    ensures LastRelFor(rels, UuidTable(table, nodes, base), FirstRelUuid(nodes, base), t) == Ok(s.relationships[0])
  {
    var collected, rm := ConvertParts(nodes, rels, props, table, base, rand, draw, s);
    SoleStoredRelationship(rels, UuidTable(table, nodes, base), FirstRelUuid(nodes, base), rm, t);
  }

  /**
   * The same, one level down: the relationship map of such records holds the one type, under its last record.
   * It specialises `StoredTypes` and `RelationshipFor` to a single type, kept apart so the whole-run lemma stays small.
   */
  lemma SoleStoredRelationship(rels: seq<RelRec>, table: map<int, Uuid>, base: Uuid, m: RelMap, t: string)
    requires Relationships(rels, table, base) == Ok(m)
    requires |rels| > 0 && forall j | 0 <= j < |rels| :: rels[j].relType == t
    ensures m.keys == [t] && t in m.entries && m.entries[t].relType == t
    ensures LastRelFor(rels, table, base, t) == Ok(m.entries[t])
  {
    AllEqual(Types(rels), t);
    StoredTypes(rels, table, base, m);
    SoleElement(m.keys, t);
    RelationshipFor(rels, table, base, m, t);
  }

  /** Resolving `KNOWS` against a fresh run over `Person` gives a relationship from the run's first uuid to itself. */
  lemma KnowsResolved(base: Uuid, t: string, r: Relationship)
    requires t in Types([Knows])
    requires LastRelFor([Knows], UuidTable(map[], [Person], base), FirstRelUuid([Person], base), t) == Ok(r)
    ensures r.relType == "KNOWS" && r.startLabel == "Person" && r.endLabel == "Person"
    ensures r.start == r.endId == base
  {
    UuidTableLast(map[], [Person], base, 0);
    assert LastIndex(Types([Knows]), t) == 0;
  }

  /** The only relationship of scenario B: `KNOWS` from the run's first uuid to itself. */
  lemma KnowsRelationship(base: Uuid, rand: nat -> int, draw: nat, s: Schema)
    requires Convert([Person], [Knows], [], map[], base, rand, draw) == Ok(s)
    ensures |s.relationships| == 1
    ensures s.relationships[0].relType == "KNOWS"
    ensures s.relationships[0].startLabel == "Person" && s.relationships[0].endLabel == "Person"
    ensures s.relationships[0].start == s.relationships[0].endId == base
  {
    SoleRelationship([Person], [Knows], [], map[], base, rand, draw, s, "KNOWS");
    KnowsResolved(base, "KNOWS", s.relationships[0]);
  }

  /** Scenario B: the `KNOWS` relationship runs from the `Person` class to itself. */
  lemma ScenarioB(base: Uuid, rand: nat -> int, draw: nat, s: Schema)
    requires Convert([Person], [Knows], [], map[], base, rand, draw) == Ok(s)
    ensures |s.classes| == 1 && |s.relationships| == 1
    ensures s.relationships[0].relType == "KNOWS"
    ensures s.relationships[0].startLabel == "Person" && s.relationships[0].endLabel == "Person"
    ensures s.relationships[0].start == s.relationships[0].endId == s.classes[0].uuid
  {
    OnlyPersonClass([Knows], [], base, rand, draw, s);
    KnowsRelationship(base, rand, draw, s);
  }

  // ---- C: a record naming two labels ----

  /** Scenario C produces a document. */
  lemma ScenarioCConverts(base: Uuid, rand: nat -> int, draw: nat)
    ensures Convert([Person, Company], [], [SharedName], map[], base, rand, draw).Ok?
  {
    assert [SharedName][..0] == [];
    assert WellTyped([SharedName]);
    assert OwnersKnown([Person, Company], [SharedName]);
    ConvertSucceeds([Person, Company], [], [SharedName], map[], base, rand, draw);
  }

  /** Scenario C: neither class gets attributes, and the record is skipped with one warning. */
  lemma ScenarioC(base: Uuid, rand: nat -> int, draw: nat, s: Schema, i: nat)
    requires Convert([Person, Company], [], [SharedName], map[], base, rand, draw) == Ok(s)
    requires i < |s.classes|
    ensures s.classes[i].attributes == None
  {
    DocumentClassShape([Person, Company], [], [SharedName], map[], base, rand, draw, s, i);
    assert !Named([SharedName], s.classes[i].name);
  }

  /** Scenario C's diagnostic: the record is skipped with a warning naming both labels. */
  lemma ScenarioCWarnings()
    ensures Warnings([SharedName]) == [MultipleLabels(":`Person`:`Company`", ["Person", "Company"])]
  {
    assert [SharedName][..0] == [];
  }

  // ---- D: a source type the table does not list ----

  /** Scenario D produces a document. */
  lemma ScenarioDConverts(base: Uuid, rand: nat -> int, draw: nat)
    ensures Convert([Person], [], [Origin], map[], base, rand, draw).Ok?
  {
    OnlyPerson(Origin);
    ConvertSucceeds([Person], [], [Origin], map[], base, rand, draw);
  }

  /** Scenario D: the attribute falls back to STRING, with a warning naming the unlisted type. */
  lemma ScenarioD(base: Uuid, rand: nat -> int, draw: nat, s: Schema)
    requires Convert([Person], [], [Origin], map[], base, rand, draw) == Ok(s)
    ensures |s.classes| == 1 && s.classes[0].attributes == Some([Attribute("origin", STRING)])
  {
    OnlyPersonClass([], [Origin], base, rand, draw, s);
    OnlyPerson(Origin);
    DocumentClassShape([Person], [], [Origin], map[], base, rand, draw, s, 0);
  }

  /** Scenario D's diagnostic: one warning naming the unlisted type. */
  lemma ScenarioDWarnings()
    ensures Warnings([Origin]) == [UnsupportedType(":`Person`", "Alien")]
  {
    assert [Origin][..0] == [];
    assert "Alien" !in TypesMapping;
  }
}
