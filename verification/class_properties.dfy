/**
 * What the class comprehension of `populate_schema` guarantees: one class per
 * distinct node label, labels in the order first seen, the last record with a
 * label giving its class, every position inside the canvas, every uuid
 * different; and what the identifier table holds afterwards.
 */
module ClassProperties {
  import opened OrderedMaps
  import opened SchemaModel
  import opened Conversion

  /** The labels of the node records, in order. */
  function Names(nodes: seq<NodeRec>): (ns: seq<string>)
    ensures |ns| == |nodes|
    ensures forall i :: 0 <= i < |nodes| ==> ns[i] == nodes[i].name
  {
    seq(|nodes|, i requires 0 <= i < |nodes| => nodes[i].name)
  }

  /** The source ids of the node records, in order. */
  function Ids(nodes: seq<NodeRec>): (ids: seq<int>)
    ensures |ids| == |nodes|
    ensures forall i :: 0 <= i < |nodes| ==> ids[i] == nodes[i].id
  {
    seq(|nodes|, i requires 0 <= i < |nodes| => nodes[i].id)
  }

  /** The pair the comprehension evaluates for node `i`. */
  lemma {:induction false} ClassEntriesAt(nodes: seq<NodeRec>, base: Uuid, rand: nat -> int, draw: nat, i: nat)
    requires i < |nodes|
    ensures ClassEntries(nodes, base, rand, draw)[i]
         == (nodes[i].name, ClassOf(nodes[i], base + i, CanvasPositionAt(rand, draw + 2 * i)))
  {
    var n := |nodes| - 1;
    if i < n {
      ClassEntriesAt(nodes[..n], base, rand, draw, i);
    }
  }

  /** The keys the comprehension writes are the node labels, in record order. */
  lemma ClassEntryKeys(nodes: seq<NodeRec>, base: Uuid, rand: nat -> int, draw: nat)
    ensures KeysOf(ClassEntries(nodes, base, rand, draw)) == Names(nodes)
  {
    forall i | 0 <= i < |nodes|
      ensures KeysOf(ClassEntries(nodes, base, rand, draw))[i] == Names(nodes)[i]
    {
      ClassEntriesAt(nodes, base, rand, draw, i);
    }
  }

  /**
   * The class map has exactly one key per distinct node label, listed in the
   * order the labels first occur among the records.
   */
  lemma ClassKeys(nodes: seq<NodeRec>, base: Uuid, rand: nat -> int, draw: nat)
    ensures forall k :: k in Classes(nodes, base, rand, draw).entries <==> k in Names(nodes)
    ensures FirstSeenOrder(Classes(nodes, base, rand, draw).keys, Names(nodes))
    ensures |Classes(nodes, base, rand, draw).keys| == |set k | k in Names(nodes)|
  {
    var kvs := ClassEntries(nodes, base, rand, draw);
    ClassEntryKeys(nodes, base, rand, draw);
    PutAllKeys(Empty(), kvs);
    PutAllFirstSeenOrder(kvs);
    PutAllCount(kvs);
  }

  /** Last write wins: the last record with a label gives the class stored under it. */
  lemma ClassLastWins(nodes: seq<NodeRec>, base: Uuid, rand: nat -> int, draw: nat, i: nat)
    requires i < |nodes|
    requires forall j :: i < j < |nodes| ==> nodes[j].name != nodes[i].name
    ensures nodes[i].name in Classes(nodes, base, rand, draw).entries
    ensures Classes(nodes, base, rand, draw).entries[nodes[i].name]
         == ClassOf(nodes[i], base + i, CanvasPositionAt(rand, draw + 2 * i))
  {
    var kvs := ClassEntries(nodes, base, rand, draw);
    ClassEntriesAt(nodes, base, rand, draw, i);
    forall j | i < j < |kvs| ensures kvs[j].0 != kvs[i].0 {
      ClassEntriesAt(nodes, base, rand, draw, j);
    }
    PutAllLastWins(Empty(), kvs, i);
  }

  /** The class stored under a node label is the one made for the last record with that label. */
  lemma ClassFor(nodes: seq<NodeRec>, base: Uuid, rand: nat -> int, draw: nat, k: string, n: nat)
    requires k in Names(nodes) && n == LastIndex(Names(nodes), k)
    ensures k in Classes(nodes, base, rand, draw).entries
    ensures nodes[n].name == k
    ensures Classes(nodes, base, rand, draw).entries[k] == ClassOf(nodes[n], base + n, CanvasPositionAt(rand, draw + 2 * n))
  {
    assert nodes[n].name == Names(nodes)[n] == k;
    ClassLastWins(nodes, base, rand, draw, n);
  }

  /** Every class in the map was made from some node record with its label. */
  lemma ClassOrigin(nodes: seq<NodeRec>, base: Uuid, rand: nat -> int, draw: nat, k: string)
    requires k in Classes(nodes, base, rand, draw).entries
    ensures exists i :: (0 <= i < |nodes| && nodes[i].name == k
      && Classes(nodes, base, rand, draw).entries[k] == ClassOf(nodes[i], base + i, CanvasPositionAt(rand, draw + 2 * i)))
  {
    var kvs := ClassEntries(nodes, base, rand, draw);
    PutAllValueFrom(Empty(), kvs, k);
    var i :| 0 <= i < |kvs| && kvs[i] == (k, Classes(nodes, base, rand, draw).entries[k]);
    ClassEntriesAt(nodes, base, rand, draw, i);
  }

  /**
   * Each class is stored under its own label, has no attributes yet, lies
   * inside the canvas, and carries one of the uuids the run handed out.
   */
  lemma ClassShape(nodes: seq<NodeRec>, base: Uuid, rand: nat -> int, draw: nat)
    ensures forall k | k in Classes(nodes, base, rand, draw).entries ::
      && Classes(nodes, base, rand, draw).entries[k].name == k
      && Classes(nodes, base, rand, draw).entries[k].attributes.None?
      && InCanvas(Classes(nodes, base, rand, draw).entries[k].canvasPosition)
      && base <= Classes(nodes, base, rand, draw).entries[k].uuid < base + |nodes|
  {
    forall k | k in Classes(nodes, base, rand, draw).entries
      ensures Classes(nodes, base, rand, draw).entries[k].name == k
      ensures Classes(nodes, base, rand, draw).entries[k].attributes.None?
      ensures InCanvas(Classes(nodes, base, rand, draw).entries[k].canvasPosition)
      ensures base <= Classes(nodes, base, rand, draw).entries[k].uuid < base + |nodes|
    {
      ClassOrigin(nodes, base, rand, draw, k);
    }
  }

  /** No two classes share a uuid. */
  lemma ClassUuidsDistinct(nodes: seq<NodeRec>, base: Uuid, rand: nat -> int, draw: nat, k1: string, k2: string)
    requires k1 in Classes(nodes, base, rand, draw).entries && k2 in Classes(nodes, base, rand, draw).entries
    requires k1 != k2
    ensures Classes(nodes, base, rand, draw).entries[k1].uuid != Classes(nodes, base, rand, draw).entries[k2].uuid
  {
    ClassOrigin(nodes, base, rand, draw, k1);
    ClassOrigin(nodes, base, rand, draw, k2);
  }

  // ---- the identifier table ----

  /** The table afterwards knows the ids it knew before and the id of every node record, nothing else. */
  lemma {:induction false} UuidTableKeys(table: map<int, Uuid>, nodes: seq<NodeRec>, base: Uuid)
    ensures forall id :: id in UuidTable(table, nodes, base) <==> id in table || id in Ids(nodes)
  {
    if nodes != [] {
      var n := |nodes| - 1;
      UuidTableKeys(table, nodes[..n], base);
      assert Ids(nodes) == Ids(nodes[..n]) + [nodes[n].id];
    }
  }

  /** The id of a node record maps to the uuid of the last record with that id. */
  lemma {:induction false} UuidTableLast(table: map<int, Uuid>, nodes: seq<NodeRec>, base: Uuid, i: nat)
    requires i < |nodes|
    requires forall j :: i < j < |nodes| ==> nodes[j].id != nodes[i].id
    ensures nodes[i].id in UuidTable(table, nodes, base)
    ensures UuidTable(table, nodes, base)[nodes[i].id] == base + i
  {
    var n := |nodes| - 1;
    if i < n {
      UuidTableLast(table, nodes[..n], base, i);
    }
  }

  /** An id no node record has keeps its old uuid. */
  lemma {:induction false} UuidTableUntouched(table: map<int, Uuid>, nodes: seq<NodeRec>, base: Uuid, id: int)
    requires id in table && id !in Ids(nodes)
    ensures id in UuidTable(table, nodes, base) && UuidTable(table, nodes, base)[id] == table[id]
  {
    if nodes != [] {
      var n := |nodes| - 1;
      assert Ids(nodes) == Ids(nodes[..n]) + [nodes[n].id];
      UuidTableUntouched(table, nodes[..n], base, id);
    }
  }

  /** The uuid recorded for a node id is the one handed to the last node record with that id. */
  lemma {:induction false} UuidTableFrom(table: map<int, Uuid>, nodes: seq<NodeRec>, base: Uuid, id: int)
    requires id in Ids(nodes)
    ensures id in UuidTable(table, nodes, base)
    ensures exists i :: (0 <= i < |nodes| && nodes[i].id == id && UuidTable(table, nodes, base)[id] == base + i
      && forall j :: i < j < |nodes| ==> nodes[j].id != id)
  {
    var n := |nodes| - 1;
    if nodes[n].id == id {
      UuidTableLast(table, nodes, base, n);
    } else {
      assert Ids(nodes) == Ids(nodes[..n]) + [nodes[n].id];
      UuidTableFrom(table, nodes[..n], base, id);
      var i :| 0 <= i < n && nodes[..n][i].id == id && UuidTable(table, nodes[..n], base)[id] == base + i
            && forall j :: i < j < n ==> nodes[..n][j].id != id;
      assert nodes[i].id == id && UuidTable(table, nodes, base)[id] == base + i;
    }
  }

  /**
   * A record that is the last with both its label and its id: the uuid the
   * table records for its id is the uuid of the class stored under its label.
   */
  lemma ClassUuidRecorded(table: map<int, Uuid>, nodes: seq<NodeRec>, base: Uuid, rand: nat -> int, draw: nat, i: nat)
    requires i < |nodes|
    requires forall j :: i < j < |nodes| ==> nodes[j].name != nodes[i].name && nodes[j].id != nodes[i].id
    ensures nodes[i].id in UuidTable(table, nodes, base) && nodes[i].name in Classes(nodes, base, rand, draw).entries
    ensures UuidTable(table, nodes, base)[nodes[i].id] == Classes(nodes, base, rand, draw).entries[nodes[i].name].uuid
  {
    UuidTableLast(table, nodes, base, i);
    ClassLastWins(nodes, base, rand, draw, i);
  }
}
