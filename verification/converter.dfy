/**
 * The converter object: its identifier table, the uuid and random-draw
 * sources it consumes, and the log it writes, updated in place by the
 * steps of one run.
 */
module Converters {
  import opened Wrappers
  import opened OrderedMaps
  import opened HumeTypes
  import opened SchemaModel
  import opened Conversion

  class Converter {
    /** The values the random source yields, draw by draw. */
    const rand: nat -> int
    /** How many random values have been drawn. */
    var draws: nat
    /** The next uuid to hand out; every uuid is handed out once. */
    var nextUuid: Uuid
    /** Source node id -> uuid of the class made for it. */
    var classUuid: map<int, Uuid>
    /** The warnings logged so far. */
    var warnings: seq<Warning>

    /** A converter before its run: no identifiers handed out, nothing drawn or logged. */
    constructor (rand: nat -> int)
      ensures this.rand == rand
      ensures draws == 0 && nextUuid == 0 && classUuid == map[] && warnings == []
    {
      this.rand := rand;
      draws, nextUuid := 0, 0;
      classUuid, warnings := map[], [];
    }

    /** A uuid different from every one handed out before. */
    method NewUuid() returns (u: Uuid)
      modifies this`nextUuid
      ensures u == old(nextUuid) && nextUuid == u + 1
    {
      u := nextUuid;
      nextUuid := nextUuid + 1;
    }

    /** `random.randint(lo, hi)`. */
    method RandInt(lo: int, hi: int) returns (r: int)
      requires lo <= hi
      modifies this`draws
      ensures lo <= r <= hi
      ensures r == RandIntAt(rand, old(draws), lo, hi) && draws == old(draws) + 1
    {
      r := RandIntAt(rand, draws, lo, hi);
      draws := draws + 1;
    }

    /** A random position inside the canvas box, x drawn before y. */
    method RandomCanvasPosition() returns (p: Position)
      modifies this`draws
      ensures InCanvas(p)
      ensures p == CanvasPositionAt(rand, old(draws)) && draws == old(draws) + 2
    {
      var x := RandInt(100, 1200);
      var y := RandInt(50, 800);
      p := Position(x, y);
    }

    /** The class for one node record, its fresh uuid recorded in the table under the node's id. */
    method MakeClass(node: NodeRec) returns (c: HumeClass)
      modifies this`nextUuid, this`draws, this`classUuid
      ensures c == ClassOf(node, old(nextUuid), CanvasPositionAt(rand, old(draws)))
      ensures InCanvas(c.canvasPosition) && c.uuid == old(nextUuid)
      ensures classUuid == old(classUuid)[node.id := c.uuid]
      ensures nextUuid == old(nextUuid) + 1 && draws == old(draws) + 2
    {
      var u := NewUuid();
      classUuid := classUuid[node.id := u];
      var pos := RandomCanvasPosition();
      c := HumeClass(node.name, pos, ClassIcon, ClassColor, u, None);
    }

    /**
     * The relationship for one record, its endpoints resolved through the
     * table; a uuid is taken before the lookups, so even a failure consumes one.
     */
    method MakeRel(rel: RelRec) returns (r: Result<Relationship, ConversionError>)
      modifies this`nextUuid
      ensures r == RelOf(rel, classUuid, old(nextUuid))
      ensures nextUuid == old(nextUuid) + 1
    {
      var u := NewUuid();
      if rel.from.id !in classUuid {
        return Err(UnknownNode(rel.from.id));
      }
      var start := classUuid[rel.from.id];
      if rel.to.id !in classUuid {
        return Err(UnknownNode(rel.to.id));
      }
      var endId := classUuid[rel.to.id];
      r := Ok(Relationship(u, start, rel.from.name, rel.to.name, endId, rel.relType));
    }

    /**
     * One step of the class comprehension: node `i` gets its class, stored
     * under its label, and its uuid, recorded under its id; the class map and
     * the table then cover one more record.
     */
    method AddClass(nodes: seq<NodeRec>, i: nat, classes: ClassMap, ghost table0: map<int, Uuid>, ghost base: Uuid, ghost draw0: nat)
      returns (next: ClassMap)
      requires i < |nodes| && nextUuid == base + i && draws == draw0 + 2 * i
      requires classes == Classes(nodes[..i], base, rand, draw0)
      requires classUuid == UuidTable(table0, nodes[..i], base)
      modifies this`nextUuid, this`draws, this`classUuid
      ensures next == Classes(nodes[..i + 1], base, rand, draw0)
      ensures classUuid == UuidTable(table0, nodes[..i + 1], base)
      ensures nextUuid == base + i + 1 && draws == draw0 + 2 * (i + 1)
    {
      ghost var u, d := nextUuid, draws;
      UuidTableStep(table0, nodes, base, i);
      var c := MakeClass(nodes[i]);
      next := classes.Put(nodes[i].name, c);
      ClassesStep(nodes, base, rand, draw0, i, classes, u, d, next);
    }

    /** `{node["name"]: self._make_class(node) for node in nodes}`. */
    method MakeClasses(nodes: seq<NodeRec>) returns (classes: ClassMap)
      modifies this`nextUuid, this`draws, this`classUuid
      ensures classes == Classes(nodes, old(nextUuid), rand, old(draws))
      ensures classUuid == UuidTable(old(classUuid), nodes, old(nextUuid))
      ensures nextUuid == old(nextUuid) + |nodes| && draws == old(draws) + 2 * |nodes|
    {
      ghost var table0, base, draw0 := classUuid, nextUuid, draws;
      classes := Empty();
      var i := 0;
      while i < |nodes|
        invariant 0 <= i <= |nodes|
        invariant classes == Classes(nodes[..i], base, rand, draw0)
        invariant classUuid == UuidTable(table0, nodes[..i], base)
        invariant nextUuid == base + i && draws == draw0 + 2 * i
      {
        classes := AddClass(nodes, i, classes, table0, base, draw0);
        i := i + 1;
      }
      assert nodes[..i] == nodes;
    }

    /** One step of the relationship comprehension: make the relationship and store it under its type. */
    method AddRel(relationships: RelMap, rel: RelRec) returns (r: Result<RelMap, ConversionError>)
      requires relationships.Valid()
      modifies this`nextUuid
      ensures r == RelStep(relationships, rel, classUuid, old(nextUuid))
      ensures nextUuid == old(nextUuid) + 1
    {
      var made := MakeRel(rel);
      if made.Err? {
        return Err(made.error);
      }
      r := Ok(relationships.Put(rel.relType, made.value));
    }

    /** `{rel.type: self._make_rel(rel) for rel in rels}`; the first failing record aborts it. */
    method MakeRels(rels: seq<RelRec>) returns (r: Result<RelMap, ConversionError>)
      modifies this`nextUuid
      ensures r == Relationships(rels, classUuid, old(nextUuid))
      ensures old(nextUuid) <= nextUuid <= old(nextUuid) + |rels|
      ensures r.Ok? ==> nextUuid == old(nextUuid) + |rels|
    {
      ghost var table, base := classUuid, nextUuid;
      r := Ok(Empty());
      var j := 0;
      while j < |rels| && r.Ok?
        invariant 0 <= j <= |rels|
        invariant r == Relationships(rels[..j], table, base)
        invariant classUuid == table && nextUuid == base + j
      {
        var m := r.value;
        ghost var u := nextUuid;
        r := AddRel(m, rels[j]);
        RelationshipsExtend(rels, classUuid, base, j, m, u, r);
        j := j + 1;
      }
      if r.Err? {
        RelationshipsAbortFinal(rels, table, base, j);
      } else {
        assert rels[..j] == rels;
      }
    }

    /** The class map and the relationship map of the schema visualisation result, classes first. */
    method PopulateSchema(nodes: seq<NodeRec>, rels: seq<RelRec>)
      returns (r: Result<(ClassMap, RelMap), ConversionError>)
      modifies this`nextUuid, this`draws, this`classUuid
      ensures r == Populate(nodes, rels, old(classUuid), old(nextUuid), rand, old(draws))
      ensures classUuid == UuidTable(old(classUuid), nodes, old(nextUuid))
      ensures draws == old(draws) + 2 * |nodes|
      ensures old(nextUuid) + |nodes| <= nextUuid <= old(nextUuid) + |nodes| + |rels|
      ensures r.Ok? ==> nextUuid == old(nextUuid) + |nodes| + |rels|
    {
      var classes := MakeClasses(nodes);
      var relationships := MakeRels(rels);
      if relationships.Err? {
        return Err(relationships.error);
      }
      r := Ok((classes, relationships.value));
    }

    /**
     * One pass of the first attribute loop: a record naming one label has its
     * type mapped (logging that mapping's warnings) and its attribute appended
     * to that label's group; any other record is skipped with a warning.
     */
    method AddProperty(groups: Groups, p: PropRec) returns (r: Result<Groups, ConversionError>)
      requires groups.Valid()
      modifies this`warnings
      ensures r == GroupStep(groups, p)
      ensures warnings == old(warnings) + StepWarnings(p)
    {
      if |p.nodeLabels| == 1 {
        var owner := p.nodeLabels[0];
        if |p.propertyTypes| == 0 {
          return Err(NoPropertyType(p.nodeType));
        }
        warnings := warnings + TypeWarnings(p);
        var humeType := ToHumeType(p.propertyTypes);
        r := Ok(Append(groups, owner, Attribute(p.propertyName, humeType)));
      } else {
        warnings := warnings + [MultipleLabels(p.nodeType, p.nodeLabels)];
        r := Ok(groups);
      }
    }

    /** The first loop of attribute collection: the groups per label, and the warnings it logs. */
    method GroupAttributes(props: seq<PropRec>) returns (r: Result<Groups, ConversionError>)
      modifies this`warnings
      ensures r == AttributeGroups(props)
      ensures warnings == old(warnings) + Warnings(props)
    {
      var groups: Groups := Empty();
      var i := 0;
      while i < |props|
        invariant 0 <= i <= |props|
        invariant AttributeGroups(props[..i]) == Ok(groups)
        invariant warnings == old(warnings) + Warnings(props[..i])
      {
        GroupingStep(props, i, groups);
        WarningsStep(props, i, old(warnings));
        var next := AddProperty(groups, props[i]);
        if next.Err? {
          GroupingAbortFinal(props, i + 1);
          WarningsAbortFinal(props, i + 1);
          return next;
        }
        groups := next.value;
        i := i + 1;
      }
      assert props[..i] == props;
      r := Ok(groups);
    }

    /** The second loop of attribute collection: each group becomes its class's attributes. */
    method AttachGroups(classes: ClassMap, groups: Groups) returns (r: Result<ClassMap, ConversionError>)
      requires classes.Valid() && groups.Valid()
      ensures r == AttachAll(classes, groups, groups.keys)
    {
      var result := classes;
      var j := 0;
      while j < |groups.keys|
        invariant 0 <= j <= |groups.keys|
        invariant AttachAll(classes, groups, groups.keys[..j]) == Ok(result)
      {
        var key := groups.keys[j];
        AttachStepLemma(classes, groups, groups.keys, j, result);
        if key !in result.entries {
          AttachAbortFinal(classes, groups, groups.keys, j + 1);
          return Err(UnknownLabel(key));
        }
        result := result.Put(key, result.entries[key].(attributes := Some(groups.entries[key])));
        assert AttachAll(classes, groups, groups.keys[..j + 1]) == Ok(result);
        j := j + 1;
      }
      assert groups.keys[..j] == groups.keys;
      r := Ok(result);
    }

    /** Attach attributes to the classes from the property listing. */
    method CollectAttributes(classes: ClassMap, props: seq<PropRec>) returns (r: Result<ClassMap, ConversionError>)
      requires classes.Valid()
      modifies this`warnings
      ensures r == Collect(classes, props)
      ensures warnings == old(warnings) + Warnings(props)
    {
      var groups := GroupAttributes(props);
      if groups.Err? {
        return Err(groups.error);
      }
      r := AttachGroups(classes, groups.value);
    }

    /** One conversion run over the two introspection results, as the converter's initialisation performs it. */
    method Convert(nodes: seq<NodeRec>, rels: seq<RelRec>, props: seq<PropRec>) returns (r: Result<Schema, ConversionError>)
      modifies this`nextUuid, this`draws, this`classUuid, this`warnings
      ensures r == Conversion.Convert(nodes, rels, props, old(classUuid), old(nextUuid), rand, old(draws))
      ensures classUuid == UuidTable(old(classUuid), nodes, old(nextUuid)) && draws == old(draws) + 2 * |nodes|
      ensures warnings == old(warnings)
        + if Populate(nodes, rels, old(classUuid), old(nextUuid), rand, old(draws)).Ok? then Warnings(props) else []
      ensures old(nextUuid) + |nodes| <= nextUuid <= old(nextUuid) + |nodes| + |rels|
      ensures r.Ok? ==> nextUuid == old(nextUuid) + |nodes| + |rels|
    {
      var populated := PopulateSchema(nodes, rels);
      if populated.Err? {
        return Err(populated.error);
      }
      var (classes, relationships) := populated.value;
      var collected := CollectAttributes(classes, props);
      if collected.Err? {
        return Err(collected.error);
      }
      r := Ok(Schema(collected.value.Values(), relationships.Values()));
    }
  }
}
