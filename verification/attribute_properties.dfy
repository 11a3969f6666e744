/**
 * What `collect_attributes` guarantees: grouping succeeds exactly when no
 * kept record lacks a type; each label's group is the attributes of the
 * single-label records naming it, in arrival order; attaching succeeds exactly
 * when every grouped label is a class, assigns each group to its class and
 * leaves every other class without attributes.
 */
module AttributeProperties {
  import opened Wrappers
  import opened OrderedMaps
  import opened HumeTypes
  import opened SchemaModel
  import opened Conversion

  /** Record `p` is kept and owned by label `l`. */
  predicate Contributes(p: PropRec, l: string) {
    SingleLabel(p) && p.nodeLabels[0] == l && |p.propertyTypes| > 0
  }

  /** Some record names `l` as its only label. */
  predicate Named(props: seq<PropRec>, l: string) {
    exists i :: 0 <= i < |props| && SingleLabel(props[i]) && props[i].nodeLabels[0] == l
  }

  /** No kept record lacks a type. */
  predicate WellTyped(props: seq<PropRec>) {
    forall i | 0 <= i < |props| :: !Aborts(props[i])
  }

  /** Reference definition: the attributes of the records owned by `l`, in arrival order. */
  function AttrsFor(props: seq<PropRec>, l: string): (attrs: seq<Attribute>)
    decreases |props|
  {
    if props == [] then []
    else
      var n := |props| - 1;
      AttrsFor(props[..n], l) + (if Contributes(props[n], l) then [AttributeOf(props[n])] else [])
  }

  /** Reference definition: the labels named by kept records, each once, in the order first named. */
  function LabelsSeen(props: seq<PropRec>): (labels: seq<string>)
    decreases |props|
  {
    if props == [] then []
    else
      var n := |props| - 1;
      var seen := LabelsSeen(props[..n]);
      if SingleLabel(props[n]) && props[n].nodeLabels[0] !in seen then seen + [props[n].nodeLabels[0]] else seen
  }

  /**
   * One record that does not abort adds its own attribute, once, to the group
   * of its only label and nothing to any other group; a record naming several
   * labels adds nothing.
   */
  lemma GroupStepContributes(groups: Groups, p: PropRec, l: string)
    requires groups.Valid() && GroupStep(groups, p).Ok?
    ensures Group(GroupStep(groups, p).value, l) == Group(groups, l) + if Contributes(p, l) then [AttributeOf(p)] else []
  {
  }

  /** A label is listed exactly when some record names it alone. */
  lemma {:induction false} LabelsSeenNamed(props: seq<PropRec>, l: string)
    ensures l in LabelsSeen(props) <==> Named(props, l)
  {
    if props != [] {
      var n := |props| - 1;
      LabelsSeenNamed(props[..n], l);
      if Named(props[..n], l) {
        var i :| 0 <= i < n && SingleLabel(props[..n][i]) && props[..n][i].nodeLabels[0] == l;
        assert props[i] == props[..n][i];
      }
      if Named(props, l) && !(SingleLabel(props[n]) && props[n].nodeLabels[0] == l) {
        var i :| 0 <= i < |props| && SingleLabel(props[i]) && props[i].nodeLabels[0] == l;
        assert props[..n][i] == props[i];
      }
    }
  }

  /** Well-typedness of a list is that of all but its last record plus the last record's. */
  lemma WellTypedStep(props: seq<PropRec>)
    requires props != []
    ensures WellTyped(props) <==> WellTyped(props[..|props| - 1]) && !Aborts(props[|props| - 1])
  {
    var n := |props| - 1;
    if WellTyped(props[..n]) && !Aborts(props[n]) {
      forall i | 0 <= i < |props| ensures !Aborts(props[i]) {
        if i < n { assert props[..n][i] == props[i]; }
      }
    }
  }

  /**
   * Grouping succeeds exactly when the list is well typed; the groups are
   * then keyed by the labels in the order first named, and each holds the
   * attributes of its label's records in arrival order.
   */
  lemma {:induction false} GroupsOk(props: seq<PropRec>)
    ensures AttributeGroups(props).Ok? <==> WellTyped(props)
    ensures AttributeGroups(props).Ok? ==> AttributeGroups(props).value.keys == LabelsSeen(props)
    ensures AttributeGroups(props).Ok? ==> forall l :: Group(AttributeGroups(props).value, l) == AttrsFor(props, l)
  {
    if props != [] {
      var n := |props| - 1;
      GroupsOk(props[..n]);
      WellTypedStep(props);
      if AttributeGroups(props[..n]).Ok? && !Aborts(props[n]) {
        var g := AttributeGroups(props[..n]).value;
        if SingleLabel(props[n]) {
          var owner := props[n].nodeLabels[0];
          assert owner in g.entries <==> owner in LabelsSeen(props[..n]);
        }
        forall l ensures Group(AttributeGroups(props).value, l) == AttrsFor(props, l) {
          assert Group(g, l) == AttrsFor(props[..n], l);
        }
      }
    }
  }

  /** Grouping records none of which aborts succeeds. */
  lemma GroupsSucceed(props: seq<PropRec>)
    requires WellTyped(props)
    ensures AttributeGroups(props).Ok?
  {
    GroupsOk(props);
  }

  /** The first kept record without a type aborts grouping, naming its node type. */
  lemma GroupsFirstError(props: seq<PropRec>, j: nat)
    requires j < |props| && Aborts(props[j])
    requires WellTyped(props[..j])
    ensures AttributeGroups(props) == Err(NoPropertyType(props[j].nodeType))
  {
    GroupsOk(props[..j]);
    GroupingStep(props, j, AttributeGroups(props[..j]).value);
    GroupingAbortFinal(props, j + 1);
  }

  /** A warning of the whole log is one of the records before the last, or one the last record logs. */
  lemma WarningsSplit(props: seq<PropRec>, w: Warning)
    requires w in Warnings(props)
    ensures props != []
    ensures w in Warnings(props[..|props| - 1]) || w in StepWarnings(props[|props| - 1])
  {
  }

  /** What the records before the last log stays in the log. */
  lemma WarningsKeep(props: seq<PropRec>, w: Warning)
    requires props != [] && w in Warnings(props[..|props| - 1])
    ensures w in Warnings(props)
  {
    var n := |props| - 1;
    if AttributeGroups(props[..n]).Err? {
      assert Warnings(props) == Warnings(props[..n]);
    } else {
      assert Warnings(props) == Warnings(props[..n]) + StepWarnings(props[n]);
    }
  }

  /** When the records before the last do not abort, the last record's warnings are logged. */
  lemma WarningsLast(props: seq<PropRec>, w: Warning)
    requires props != [] && AttributeGroups(props[..|props| - 1]).Ok?
    requires w in StepWarnings(props[|props| - 1])
    ensures w in Warnings(props)
  {
  }

  /** Every warning the first loop logs was logged for one of the records. */
  lemma {:induction false} WarningsFromRecords(props: seq<PropRec>, w: Warning) returns (i: nat)
    requires w in Warnings(props)
    ensures i < |props| && w in StepWarnings(props[i])
    decreases |props|
  {
    WarningsSplit(props, w);
    var n := |props| - 1;
    var prefix := props[..n];
    if w in Warnings(prefix) {
      i := WarningsFromRecords(prefix, w);
      assert prefix[i] == props[i];
    } else {
      i := n;
    }
  }

  /** Every record the first loop reaches, no earlier record having aborted it, has all its warnings logged. */
  lemma {:induction false} RecordWarningsLogged(props: seq<PropRec>, i: nat, w: Warning)
    requires i < |props| && WellTyped(props[..i])
    requires w in StepWarnings(props[i])
    ensures w in Warnings(props)
    decreases |props|
  {
    var n := |props| - 1;
    var prefix := props[..n];
    if i == n {
      assert prefix == props[..i];
      GroupsSucceed(prefix);
      WarningsLast(props, w);
    } else {
      assert prefix[..i] == props[..i] && prefix[i] == props[i];
      RecordWarningsLogged(prefix, i, w);
      WarningsKeep(props, w);
    }
  }

  /** Attaching succeeds exactly when every key is a class. */
  lemma {:induction false} AttachAllSucceeds(classes: ClassMap, groups: Groups, keys: seq<string>)
    requires classes.Valid()
    requires forall i | 0 <= i < |keys| :: keys[i] in groups.entries
    ensures AttachAll(classes, groups, keys).Ok? <==> forall i | 0 <= i < |keys| :: keys[i] in classes.entries
  {
    if keys != [] {
      var n := |keys| - 1;
      var prefix := keys[..n];
      AttachAllSucceeds(classes, groups, prefix);
      if AttachAll(classes, groups, prefix).Ok? {
        if keys[n] in classes.entries {
          forall i | 0 <= i < |keys| ensures keys[i] in classes.entries {
            if i < n {
              assert prefix[i] == keys[i] && prefix[i] in classes.entries;
            }
          }
        }
        var c := AttachAll(classes, groups, prefix).value;
        AttachAllResult(classes, groups, prefix, c);
        assert AttachAll(classes, groups, keys) == AttachStep(c, keys[n], groups.entries[keys[n]]);
      } else {
        var i :| 0 <= i < n && prefix[i] !in classes.entries;
        assert keys[i] !in classes.entries;
      }
    }
  }

  /**
   * A successful attach keeps the classes and their order, gives each keyed
   * class its group as attributes and leaves every other class as it was.
   */
  lemma {:induction false} AttachAllResult(classes: ClassMap, groups: Groups, keys: seq<string>, r: ClassMap)
    requires classes.Valid()
    requires forall i | 0 <= i < |keys| :: keys[i] in groups.entries
    requires AttachAll(classes, groups, keys) == Ok(r)
    ensures r.keys == classes.keys
    ensures forall k :: k in r.entries <==> k in classes.entries
    ensures forall k | k in classes.entries ::
      r.entries[k] == if k in keys then classes.entries[k].(attributes := Some(groups.entries[k])) else classes.entries[k]
  {
    if keys != [] {
      var n := |keys| - 1;
      var prefix := keys[..n];
      forall i | 0 <= i < |prefix| ensures prefix[i] in groups.entries {
        assert prefix[i] == keys[i];
      }
      var c := AttachAll(classes, groups, prefix).value;
      AttachAllResult(classes, groups, prefix, c);
      var last := keys[n];
      assert r == c.Put(last, c.entries[last].(attributes := Some(groups.entries[last])));
      forall k | k in classes.entries
        ensures r.entries[k] == if k in keys then classes.entries[k].(attributes := Some(groups.entries[k])) else classes.entries[k]
      {
        assert k in keys <==> k in prefix || k == last;
      }
    }
  }

  /** The first key that is not a class aborts attaching, naming that key. */
  lemma AttachFirstError(classes: ClassMap, groups: Groups, keys: seq<string>, j: nat)
    requires classes.Valid()
    requires forall i | 0 <= i < |keys| :: keys[i] in groups.entries
    requires j < |keys| && keys[j] !in classes.entries
    requires forall i :: 0 <= i < j ==> keys[i] in classes.entries
    ensures AttachAll(classes, groups, keys) == Err(UnknownLabel(keys[j]))
  {
    var prefix := keys[..j];
    forall i | 0 <= i < |prefix| ensures prefix[i] in groups.entries && prefix[i] in classes.entries {
      assert prefix[i] == keys[i];
    }
    AttachAllSucceeds(classes, groups, prefix);
    var c := AttachAll(classes, groups, prefix).value;
    AttachStepLemma(classes, groups, keys, j, c);
    assert keys[j] !in c.entries;
    AttachAbortFinal(classes, groups, keys, j + 1);
  }

  /** Attribute collection succeeds exactly when the records are well typed and every label named alone is a class. */
  lemma CollectSucceeds(classes: ClassMap, props: seq<PropRec>)
    requires classes.Valid()
    ensures Collect(classes, props).Ok? <==> WellTyped(props) && forall l | Named(props, l) :: l in classes.entries
  {
    GroupsOk(props);
    if WellTyped(props) {
      var g := AttributeGroups(props).value;
      AttachAllSucceeds(classes, g, g.keys);
      forall l ensures l in g.keys <==> Named(props, l) {
        LabelsSeenNamed(props, l);
      }
      if !forall l | Named(props, l) :: l in classes.entries {
        var l :| Named(props, l) && l !in classes.entries;
        var i :| 0 <= i < |g.keys| && g.keys[i] == l;
      }
    }
  }

  /**
   * A successful collection keeps the classes and their order; each class
   * named alone by some record gets the attributes of its records in arrival
   * order, and every other class is left as it was.
   */
  lemma CollectOk(classes: ClassMap, props: seq<PropRec>, r: ClassMap)
    requires classes.Valid()
    requires Collect(classes, props) == Ok(r)
    ensures r.keys == classes.keys
    ensures forall k :: k in r.entries <==> k in classes.entries
    ensures forall k | k in classes.entries ::
      r.entries[k] == if Named(props, k) then classes.entries[k].(attributes := Some(AttrsFor(props, k))) else classes.entries[k]
  {
    GroupsOk(props);
    var g := AttributeGroups(props).value;
    AttachAllResult(classes, g, g.keys, r);
    forall k ensures k in g.keys <==> Named(props, k) {
      LabelsSeenNamed(props, k);
    }
    forall k | k in g.keys ensures g.entries[k] == AttrsFor(props, k) {
      assert Group(g, k) == AttrsFor(props, k);
    }
  }

  /**
   * After a successful collection, one class: named ones get their records' attributes, others are as they were.
   * This is `CollectOk` at the single key `k`, stated apart so that callers need not instantiate its quantifiers.
   */
  lemma CollectedEntry(classes: ClassMap, props: seq<PropRec>, r: ClassMap, k: string)
    requires classes.Valid()
    requires Collect(classes, props) == Ok(r)
    requires k in classes.entries
    ensures k in r.entries
    ensures r.entries[k] == if Named(props, k) then classes.entries[k].(attributes := Some(AttrsFor(props, k))) else classes.entries[k]
  {
    CollectOk(classes, props, r);
  }

  /** With well-typed records, the first label in order of naming that is not a class aborts collection. */
  lemma CollectFirstError(classes: ClassMap, props: seq<PropRec>, j: nat)
    requires classes.Valid() && WellTyped(props)
    requires j < |LabelsSeen(props)| && LabelsSeen(props)[j] !in classes.entries
    requires forall i :: 0 <= i < j ==> LabelsSeen(props)[i] in classes.entries
    ensures Collect(classes, props) == Err(UnknownLabel(LabelsSeen(props)[j]))
  {
    GroupsOk(props);
    var g := AttributeGroups(props).value;
    AttachFirstError(classes, g, g.keys, j);
  }
}
