/**
 * The introspection records the converter reads, the schema document it
 * produces, and the single objects it builds from one record.
 */
module SchemaModel {
  import opened Wrappers
  import opened HumeTypes

  /** A synthetic identifier; a fresh counter value stands for a random uuid. */
  type Uuid = nat

  // ---- input: the two introspection results ----

  /** A node of the schema visualisation: its source-local identity and its label. */
  datatype NodeRec = NodeRec(id: int, name: string)

  /** A relationship of the schema visualisation: its type and its two endpoint nodes, start first. */
  datatype RelRec = RelRec(relType: string, from: NodeRec, to: NodeRec)

  /** One row of the node-type property listing. */
  datatype PropRec = PropRec(nodeType: string, nodeLabels: seq<string>, propertyName: string, propertyTypes: seq<string>)

  // ---- output: the schema document ----

  datatype Position = Position(x: int, y: int)

  /** JSON `{label, type}`; `label` is a reserved word here, so the field is `name`. */
  datatype Attribute = Attribute(name: string, attrType: HumeType)

  /**
   * A class (JSON `label`, `canvasPosition`, `icon`, `color`, `uuid` and, once
   * set, `attributes`); `attributes` is None until some property record names it.
   */
  datatype HumeClass = HumeClass(
    name: string,
    canvasPosition: Position,
    icon: string,
    color: string,
    uuid: Uuid,
    attributes: Option<seq<Attribute>>)

  /** A relationship (JSON `uuid`, `start`, `startLabel`, `endLabel`, `endId`, `label`). */
  datatype Relationship = Relationship(
    uuid: Uuid,
    start: Uuid,
    startLabel: string,
    endLabel: string,
    endId: Uuid,
    relType: string)

  datatype Schema = Schema(classes: seq<HumeClass>, relationships: seq<Relationship>)

  // ---- failures and diagnostics ----

  /** The exceptions that abort a conversion. */
  datatype ConversionError =
    | UnknownNode(id: int)            // KeyError on the identifier table
    | UnknownLabel(name: string)      // KeyError on the class map
    | NoPropertyType(nodeType: string) // IndexError on an empty type list

  /** The warnings logged while collecting attributes. */
  datatype Warning =
    | MultipleLabels(nodeType: string, labels: seq<string>)
    | MultipleTypes(nodeType: string, propertyTypes: seq<string>)
    | UnsupportedType(nodeType: string, propertyType: string)

  // ---- decorative constants ----

  const ClassIcon := "mdi-circle-outline"
  const ClassColor := "#aaa"

  /** The box every class is placed in. */
  predicate InCanvas(p: Position) {
    100 <= p.x <= 1200 && 50 <= p.y <= 800
  }

  /**
   * `random.randint(lo, hi)` when the random source yields `rand(draw)` for
   * this draw: some value between the two bounds, both included.
   */
  function RandIntAt(rand: nat -> int, draw: nat, lo: int, hi: int): (r: int)
    requires lo <= hi
    ensures lo <= r <= hi
  {
    lo + rand(draw) % (hi - lo + 1)
  }

  /** The canvas position drawn with draws `draw` (x) and `draw + 1` (y). */
  function CanvasPositionAt(rand: nat -> int, draw: nat): (p: Position)
    ensures InCanvas(p)
  {
    Position(RandIntAt(rand, draw, 100, 1200), RandIntAt(rand, draw + 1, 50, 800))
  }

  // ---- single objects ----

  /** The class made from one node record: its label, the given uuid and position, and no attributes. */
  function ClassOf(node: NodeRec, uuid: Uuid, pos: Position): (c: HumeClass)
    ensures c.name == node.name && c.uuid == uuid && c.attributes == None
    ensures c.canvasPosition == pos && c.icon == ClassIcon && c.color == ClassColor
  {
    HumeClass(node.name, pos, ClassIcon, ClassColor, uuid, None)
  }

  /** Both endpoints of `rel` have an identifier in `table`. */
  predicate Resolves(rel: RelRec, table: map<int, Uuid>) {
    rel.from.id in table && rel.to.id in table
  }

  /**
   * The relationship made from one record: it fails on the first endpoint
   * (start before end) that `table` does not know, and otherwise points at the
   * identifiers `table` gives the endpoints and copies their names and the type.
   */
  function RelOf(rel: RelRec, table: map<int, Uuid>, uuid: Uuid): (r: Result<Relationship, ConversionError>)
    ensures r.Ok? <==> Resolves(rel, table)
    ensures r.Ok? ==> r.value.uuid == uuid && r.value.relType == rel.relType
    ensures r.Ok? ==> r.value.start == table[rel.from.id] && r.value.endId == table[rel.to.id]
    ensures r.Ok? ==> r.value.startLabel == rel.from.name && r.value.endLabel == rel.to.name
    ensures r.Ok? && rel.from.id == rel.to.id ==> r.value.start == r.value.endId
    ensures r.Err? ==> r.error == UnknownNode(if rel.from.id !in table then rel.from.id else rel.to.id)
  {
    if rel.from.id !in table then Err(UnknownNode(rel.from.id))
    else if rel.to.id !in table then Err(UnknownNode(rel.to.id))
    else Ok(Relationship(uuid, table[rel.from.id], rel.from.name, rel.to.name, table[rel.to.id], rel.relType))
  }

  /** The record names exactly one label, so it is not skipped. */
  predicate SingleLabel(p: PropRec) {
    |p.nodeLabels| == 1
  }

  /** The record makes attribute collection fail: it is kept, but has no type to look up. */
  predicate Aborts(p: PropRec) {
    SingleLabel(p) && |p.propertyTypes| == 0
  }

  /** The attribute one kept record contributes: its property name and the type of its first source type. */
  function AttributeOf(p: PropRec): (a: Attribute)
    requires |p.propertyTypes| > 0
    ensures a.name == p.propertyName
    ensures a.attrType == ToHumeType(p.propertyTypes)
    ensures a.attrType == STRING <==> p.propertyTypes[0] !in {"Long", "Double", "Date", "Boolean"}
  {
    Attribute(p.propertyName, ToHumeType(p.propertyTypes))
  }

  /** The warnings logged while mapping one record's type: ambiguity first, then an unknown type. */
  function TypeWarnings(p: PropRec): (ws: seq<Warning>)
    requires |p.propertyTypes| > 0
    ensures MultipleTypes(p.nodeType, p.propertyTypes) in ws <==> |p.propertyTypes| > 1
    ensures UnsupportedType(p.nodeType, p.propertyTypes[0]) in ws <==> p.propertyTypes[0] !in TypesMapping
    ensures forall w | w in ws :: w == MultipleTypes(p.nodeType, p.propertyTypes) || w == UnsupportedType(p.nodeType, p.propertyTypes[0])
    ensures |ws| == (if |p.propertyTypes| > 1 then 1 else 0) + (if p.propertyTypes[0] !in TypesMapping then 1 else 0)
    ensures |ws| <= 2
    ensures |ws| == 2 ==> ws[0] == MultipleTypes(p.nodeType, p.propertyTypes)
  {
    (if |p.propertyTypes| > 1 then [MultipleTypes(p.nodeType, p.propertyTypes)] else [])
    + (if p.propertyTypes[0] !in TypesMapping then [UnsupportedType(p.nodeType, p.propertyTypes[0])] else [])
  }

  /** The warnings logged for one record that does not abort: skipped records get one, kept ones their type warnings. */
  function RecordWarnings(p: PropRec): (ws: seq<Warning>)
    requires !Aborts(p)
    ensures !SingleLabel(p) ==> ws == [MultipleLabels(p.nodeType, p.nodeLabels)]
    ensures SingleLabel(p) ==> ws == TypeWarnings(p)
  {
    if SingleLabel(p) then TypeWarnings(p) else [MultipleLabels(p.nodeType, p.nodeLabels)]
  }
}
