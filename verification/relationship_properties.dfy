/**
 * What the relationship comprehension of `populate_schema` guarantees: it
 * succeeds exactly when every record's endpoints are known, fails on the
 * first record that has one that is not, and otherwise holds one
 * relationship per distinct type, the last record of a type giving it.
 */
module RelationshipProperties {
  import opened Wrappers
  import opened OrderedMaps
  import opened SchemaModel
  import opened Conversion

  /** The relationship types of the records, in order. */
  function Types(rels: seq<RelRec>): (ts: seq<string>)
    ensures |ts| == |rels|
    ensures forall j :: 0 <= j < |rels| ==> ts[j] == rels[j].relType
  {
    seq(|rels|, j requires 0 <= j < |rels| => rels[j].relType)
  }

  /** Every relationship record has both endpoints in the table. */
  predicate AllResolve(rels: seq<RelRec>, table: map<int, Uuid>) {
    forall j | 0 <= j < |rels| :: Resolves(rels[j], table)
  }

  /** The (type, relationship) pairs the comprehension stores when every record resolves. */
  function RelEntries(rels: seq<RelRec>, table: map<int, Uuid>, base: Uuid): (kvs: seq<(string, Relationship)>)
    requires AllResolve(rels, table)
    ensures |kvs| == |rels|
    ensures forall j :: 0 <= j < |rels| ==> kvs[j] == (rels[j].relType, RelOf(rels[j], table, base + j).value)
  {
    seq(|rels|, j requires 0 <= j < |rels| => (rels[j].relType, RelOf(rels[j], table, base + j).value))
  }

  /** All records resolve exactly when all but the last do and the last does; their pairs are then the prefix's plus one. */
  lemma RelEntriesStep(rels: seq<RelRec>, table: map<int, Uuid>, base: Uuid)
    requires rels != []
    ensures AllResolve(rels, table) <==> AllResolve(rels[..|rels| - 1], table) && Resolves(rels[|rels| - 1], table)
    ensures AllResolve(rels, table) ==>
      var n := |rels| - 1;
      RelEntries(rels, table, base) == RelEntries(rels[..n], table, base) + [(rels[n].relType, RelOf(rels[n], table, base + n).value)]
  {
    var n := |rels| - 1;
    if AllResolve(rels[..n], table) && Resolves(rels[n], table) {
      forall j | 0 <= j < |rels| ensures Resolves(rels[j], table) {
        if j < n { assert rels[..n][j] == rels[j]; }
      }
    }
  }

  /** The comprehension succeeds exactly when every record resolves, and then stores one pair per record. */
  lemma {:induction false} RelationshipsOk(rels: seq<RelRec>, table: map<int, Uuid>, base: Uuid)
    ensures Relationships(rels, table, base).Ok? <==> AllResolve(rels, table)
    ensures Relationships(rels, table, base).Ok? ==>
      Relationships(rels, table, base).value == PutAll(Empty(), RelEntries(rels, table, base))
  {
    if rels != [] {
      var n := |rels| - 1;
      RelationshipsOk(rels[..n], table, base);
      RelEntriesStep(rels, table, base);
      if Relationships(rels[..n], table, base).Ok? && Resolves(rels[n], table) {
        var kvs := RelEntries(rels[..n], table, base);
        var relationship := RelOf(rels[n], table, base + n).value;
        PutAllStep(Empty(), kvs, rels[n].relType, relationship);
      }
    }
  }

  /** The first record with an unknown endpoint aborts the comprehension with that endpoint's id, start checked first. */
  lemma RelationshipsFirstError(rels: seq<RelRec>, table: map<int, Uuid>, base: Uuid, j: nat)
    requires j < |rels| && !Resolves(rels[j], table)
    requires forall i :: 0 <= i < j ==> Resolves(rels[i], table)
    ensures Relationships(rels, table, base)
         == Err(UnknownNode(if rels[j].from.id !in table then rels[j].from.id else rels[j].to.id))
  {
    assert AllResolve(rels[..j], table) by {
      forall i | 0 <= i < j ensures Resolves(rels[..j][i], table) {
        assert rels[..j][i] == rels[i];
      }
    }
    RelationshipsOk(rels[..j], table, base);
    var m := Relationships(rels[..j], table, base).value;
    RelationshipsExtend(rels, table, base, j, m, base + j, RelStep(m, rels[j], table, base + j));
    RelationshipsAbortFinal(rels, table, base, j + 1);
  }

  /**
   * The relationship map has one key per distinct relationship type, in the
   * order the types first occur among the records.
   */
  lemma RelationshipKeys(rels: seq<RelRec>, table: map<int, Uuid>, base: Uuid, m: RelMap)
    requires Relationships(rels, table, base) == Ok(m)
    ensures forall t :: t in m.entries <==> t in Types(rels)
    ensures FirstSeenOrder(m.keys, Types(rels))
    ensures |m.keys| == |set t | t in Types(rels)|
  {
    RelationshipsOk(rels, table, base);
    var kvs := RelEntries(rels, table, base);
    assert KeysOf(kvs) == Types(rels);
    PutAllKeys(Empty(), kvs);
    PutAllFirstSeenOrder(kvs);
    PutAllCount(kvs);
  }

  /**
   * Last write wins: the last record of a type gives the relationship stored
   * under it, with that record's uuid, its endpoints' identifiers and names,
   * and its type.
   */
  lemma RelationshipLastWins(rels: seq<RelRec>, table: map<int, Uuid>, base: Uuid, m: RelMap, j: nat)
    requires Relationships(rels, table, base) == Ok(m)
    requires j < |rels|
    requires forall i :: j < i < |rels| ==> rels[i].relType != rels[j].relType
    ensures rels[j].relType in m.entries && Resolves(rels[j], table)
    ensures RelOf(rels[j], table, base + j) == Ok(m.entries[rels[j].relType])
    ensures m.entries[rels[j].relType]
         == Relationship(base + j, table[rels[j].from.id], rels[j].from.name, rels[j].to.name,
                         table[rels[j].to.id], rels[j].relType)
  {
    RelationshipsOk(rels, table, base);
    var kvs := RelEntries(rels, table, base);
    PutAllLastWins(Empty(), kvs, j);
  }

  /** The relationship a run stores under type `t`: the one made for the last relationship record of that type. */
  function LastRelFor(rels: seq<RelRec>, table: map<int, Uuid>, base: Uuid, t: string): (made: Result<Relationship, ConversionError>)
    requires t in Types(rels)
  {
    var r := LastIndex(Types(rels), t);
    RelOf(rels[r], table, base + r)
  }

  /** The relationship stored under a type is the one made for the last record of that type, and carries that type. */
  lemma RelationshipFor(rels: seq<RelRec>, table: map<int, Uuid>, base: Uuid, m: RelMap, t: string)
    requires Relationships(rels, table, base) == Ok(m)
    requires t in Types(rels)
    ensures t in m.entries && m.entries[t].relType == t
    ensures LastRelFor(rels, table, base, t) == Ok(m.entries[t])
  {
    var r := LastIndex(Types(rels), t);
    assert LastRelFor(rels, table, base, t) == RelOf(rels[r], table, base + r);
    assert rels[r].relType == Types(rels)[r] == t;
    forall i | r < i < |rels| ensures rels[i].relType != t {
      assert rels[i].relType == Types(rels)[i];
    }
    RelationshipLastWins(rels, table, base, m, r);
  }

  /** Every stored relationship was made from some record of its type, with that record's uuid. */
  lemma RelationshipOrigin(rels: seq<RelRec>, table: map<int, Uuid>, base: Uuid, m: RelMap, t: string)
    requires Relationships(rels, table, base) == Ok(m)
    requires t in m.entries
    ensures exists j :: (0 <= j < |rels| && rels[j].relType == t && Resolves(rels[j], table)
      && m.entries[t] == RelOf(rels[j], table, base + j).value)
  {
    RelationshipsOk(rels, table, base);
    var kvs := RelEntries(rels, table, base);
    PutAllValueFrom(Empty(), kvs, t);
    var j :| 0 <= j < |kvs| && kvs[j] == (t, m.entries[t]);
    assert rels[j].relType == t && Resolves(rels[j], table);
  }
}
