# hume-schema-gen in Dafny

This is a model of the converter in `import.py`, class `Converter`. The
converter reads two introspection results from a Neo4j database:

- the schema visualisation, a list of node records and relationship records;
- the node-type property listing, a list of property records.

It builds a Hume schema document from them. The document has the fields
`classes` and `relationships`. A run has five steps:

1. Make one class per node record, keyed by the node's label. Each class gets
   a fresh uuid, and its node id is recorded in an id-to-uuid table.
2. Make one relationship per relationship record, keyed by its type. Both
   endpoints are resolved through that table.
3. Group the attributes of the property records that name exactly one label.
   Each attribute's type is mapped through the fixed Cypher-to-Hume type
   table.
4. Assign each group as the `attributes` of its class.
5. List the values of both dictionaries in insertion order.

The model is arranged as follows:

- `wrappers.dfy` holds `Option` and `Result`.
- `ordered_maps.dfy` models a Python `dict`: insertion-ordered keys, where
  assignment overwrites a value but keeps the key's place. It also proves
  what a dict comprehension evaluates to.
- `hume_types.dfy` holds the type table and `_to_hume_type`.
- `schema_model.dfy` holds the input records, the document's shape, the
  errors, the warnings, and the class, relationship and attribute made from
  one record.
- `conversion.dfy` holds the specification functions of a run, defined on
  prefixes of the input so that each loop can be proved against them.
- `converter.dfy` holds the class `Converter`. Its fields are the uuid
  source, the random source, the id-to-uuid table and the warning log. Its
  methods are the loops of `populate_schema` and `collect_attributes`, each
  proved equal to a specification function.
- `class_properties.dfy`, `relationship_properties.dfy`,
  `attribute_properties.dfy` and `document_properties.dfy` prove what the
  converter promises about each part, and about the whole document.
- `scenarios.dfy` works through four small runs.

How the model stands in for the outside world:

- A uuid is a natural number taken from a counter. Every `uuid.uuid4()` call
  takes the next one, so uuids never repeat within a run.
- The random source is a function from draw number to integer.
  `random.randint(lo, hi)` maps draw `d` into `[lo, hi]`.
- The three exceptions that abort a run become `Err` values:
  - a `KeyError` on the id table becomes `UnknownNode`;
  - a `KeyError` on the class dictionary becomes `UnknownLabel`;
  - an `IndexError` on an empty property-type list becomes `NoPropertyType`.

Details of the code that the model keeps:

- A class made from a node record has no `attributes` key at all, rather
  than an empty list. The model writes `None` for it.
- Attributes are grouped per label first. Each group is then assigned to its
  class in one step, in the order its label was first seen.
- A property record naming a label that is not a class raises `KeyError`,
  but only after every record has been grouped. The first such label, in
  the order first seen, is the one reported.
- A relationship endpoint missing from the id table raises `KeyError` at the
  start node first. The uuid for that relationship has already been drawn
  by then.
- Property types are not assumed to be non-empty. A kept record with an
  empty list aborts the run. A record with several labels is skipped before
  its types are looked at.

One consequence of the code is worth stating. Two node records may share a
label. Both get a uuid, but only the later one survives in the class
dictionary. A relationship from the earlier record still points at the
earlier record's uuid, so it references no class of the document.
`DocumentProperties.DanglingUnderRepeatedLabel` proves this on a two-record
example. When labels do not repeat, `DocumentProperties.DocumentReferences`
proves that every relationship endpoint is a class of the document.

## Model

| member | source | states |
|---|---|---|
| HumeTypes.ToHumeType | import.py:100-109 | The target type is decided by the first source type: NUMBER exactly for `Long`, DOUBLE for `Double`, DATE for `Date`, BOOLEAN for `Boolean`. Every other source type gives STRING. |
| HumeTypes.FirstTypeDecides | import.py:103-109 | Two type lists with the same first element map to the same target type. Later types never matter. |
| HumeTypes.MappingTable | import.py:19-20 | The table has exactly seven source types, and each row maps as listed. A type not in the table falls back to STRING. |
| SchemaModel.RandIntAt | import.py:114 | `randint(lo, hi)` yields a value with `lo <= r <= hi`. |
| SchemaModel.CanvasPositionAt | import.py:111-114 | Every drawn canvas position lies in the box x in [100, 1200], y in [50, 800]. |
| SchemaModel.ClassOf | import.py:83-87 | A class carries the node's label, the given uuid and the given position, the fixed icon and color, and no attributes. |
| SchemaModel.RelOf | import.py:89-98 | Making a relationship succeeds exactly when both endpoints have a recorded uuid. It then carries the fresh uuid, the type, both endpoint uuids and both labels, and a self-loop starts and ends at the same uuid. Otherwise it fails with the id of the start node if that one is unknown, else the id of the end node. |
| SchemaModel.AttributeOf | import.py:69-72 | A kept record's attribute has the record's property name, and its type is `ToHumeType` of the record's types. Its type is STRING exactly when the first source type is none of the four mapped non-string types. |
| SchemaModel.TypeWarnings | import.py:105-108 | A "multiple property types" warning is logged exactly when there are several types. An "unsupported type" warning is logged exactly when the first type is not in the table. Each is logged at most once and nothing else is logged, so the count is the number of these two conditions that hold. When both are logged, the "multiple property types" one comes first. |
| SchemaModel.RecordWarnings | import.py:68-74 | A record not naming exactly one label logs a single "multiple labels" warning. A record naming one label logs exactly its type warnings. |
| OrderedMaps.DistinctCard | import.py:50-51 | A sequence without repetitions has as many elements as its set. This is used to count dictionary keys. |
| OrderedMaps.OrderedMap.Put | import.py:50 | `d[k] = v` keeps the dictionary well formed and sets the value. A new key goes last, and an existing key keeps its place. |
| OrderedMaps.OrderedMap.Values | import.py:41-42 | `list(d.values())` has one value per key, position `i` holding the value of the `i`-th key. |
| OrderedMaps.Empty | import.py:60 | `{}` has no keys and no entries. |
| OrderedMaps.KeysOf | import.py:50-51 | The keys of the pairs a comprehension evaluates, in order. |
| OrderedMaps.FirstIndex | import.py:50-51 | The first position of an element: it holds the element, and no earlier position does. |
| OrderedMaps.LastIndex | import.py:50-51 | The last position of an element: it holds the element, and no later position does. |
| OrderedMaps.PutAll | import.py:50-51 | A dict comprehension, as one assignment per pair from left to right, gives a well-formed dictionary. |
| OrderedMaps.PutAllStep | import.py:50-51 | One more pair is one more assignment. |
| OrderedMaps.PutAllKeys | import.py:50-51 | The resulting keys are the old keys plus the pairs' keys, and nothing else. Old keys stay in place. |
| OrderedMaps.PutAllListed | import.py:50-51 | Starting from `{}`, a key is present exactly when some pair has it. |
| OrderedMaps.PutAllCount | import.py:50-51 | Starting from `{}`, there is one key per distinct key among the pairs. |
| OrderedMaps.PutAllLastWins | import.py:50-51 | A pair that no later pair overrides gives its key's final value. |
| OrderedMaps.PutAllUntouched | import.py:50-51 | A key no pair mentions keeps its value. |
| OrderedMaps.PutAllValueFrom | import.py:50-51 | Every new value was written by some pair with that key. |
| OrderedMaps.FirstIndexPrefix | import.py:50-51 | An element found in a prefix is first found at the same place in the whole sequence. |
| OrderedMaps.FirstSeenOrderExtend | import.py:50-51 | Extending the sequence by one element keeps first-seen order, whether or not that element was already listed. |
| OrderedMaps.PutAllFirstSeenOrder | import.py:50-51 | Starting from `{}`, the keys come out in the order in which each first appears among the pairs. |
| Conversion.ClassEntries | import.py:50 | The class comprehension evaluates one pair per node record. |
| Conversion.Classes | import.py:50 | The class dictionary is well formed. |
| Conversion.ClassesStep | import.py:50 | Storing the next node's class, with the next uuid and the next two draws, under its label extends the class dictionary by that record. |
| Conversion.UuidTableStep | import.py:81-82 | The id table over one more record is the previous table with that record's id mapped to its uuid. |
| Conversion.RelStep | import.py:51 | One relationship stored under its type keeps the dictionary well formed. |
| Conversion.Relationships | import.py:51 | A successful relationship comprehension gives a well-formed dictionary. |
| Conversion.RelationshipsExtend | import.py:51 | After a prefix that succeeded, one more record is one more relationship step, with the next uuid. |
| Conversion.RelationshipsAbortFinal | import.py:51 | Once a prefix of the relationship records fails, the whole comprehension fails with the same error. |
| Conversion.Populate | import.py:44-52 | On success, the class dictionary is the one built from all node records, and the relationship dictionary is well formed. |
| Conversion.Append | import.py:71-72 | `setdefault(label, []).append(a)` keeps the groups well formed. |
| Conversion.Group | import.py:71 | The group of a label is its stored list, or the empty list `setdefault` starts it with when the label has none. |
| Conversion.GroupStep | import.py:62-74 | One property record keeps the groups well formed. |
| Conversion.StepWarnings | import.py:68-74 | One record logs nothing when it aborts, a single "multiple labels" warning when it does not name exactly one label, and its type warnings otherwise. It logs at most two warnings. |
| Conversion.AttributeGroups | import.py:60-74 | The first loop's groups are well formed. |
| Conversion.Warnings | import.py:62-74 | The first loop logs at most two warnings per record. |
| Conversion.GroupingStep | import.py:62-74 | After a prefix that has not aborted, one more record is one more group step. |
| Conversion.WarningsStep | import.py:62-74 | After a prefix that has not aborted, one more record appends that record's warnings to the log. |
| Conversion.GroupingAbortFinal | import.py:62-74 | Once a prefix aborts the grouping, the whole loop aborts with the same error. |
| Conversion.WarningsAbortFinal | import.py:62-74 | Once a prefix aborts the grouping, no later record logs anything. |
| Conversion.AttachStep | import.py:77 | Assigning a class's attributes keeps the dictionary's keys and their order. |
| Conversion.AttachAll | import.py:76-77 | Attaching every group keeps the class keys and their order. |
| Conversion.AttachStepLemma | import.py:76-77 | After a prefix of the group keys succeeded, the next key is one more assignment. |
| Conversion.AttachAbortFinal | import.py:76-77 | Once attaching a prefix of the keys fails, attaching all of them fails with the same error. |
| Conversion.Collect | import.py:54-77 | Attribute collection keeps the class keys and their order. |
| Conversion.Assemble | import.py:41-42 | The document lists the class values and the relationship values, each in key order, one per key. |
| Converters.Converter.constructor | import.py:32 | A new converter has an empty id table, no uuids handed out, nothing drawn and nothing logged. |
| Converters.Converter.NewUuid | import.py:81 | Each uuid is the next one never handed out. |
| Converters.Converter.RandInt | import.py:114 | `random.randint(lo, hi)` returns a value in `[lo, hi]` and uses one draw. |
| Converters.Converter.RandomCanvasPosition | import.py:111-114 | The position lies inside the box. It uses two draws, x before y. |
| Converters.Converter.MakeClass | import.py:79-87 | The class carries a fresh uuid, the node's label and a position in the box. The uuid is recorded under the node's id, drawn before the position. |
| Converters.Converter.AddClass | import.py:50 | One loop step extends the class dictionary and the id table by one node record, with the next uuid and the next two draws. |
| Converters.Converter.MakeRel | import.py:89-98 | Returns the relationship for the record with the next uuid, or the KeyError of an unknown endpoint. It takes one uuid either way. |
| Converters.Converter.MakeClasses | import.py:50 | The comprehension loop yields exactly `Classes` of the node records. The id table records every node's uuid, and one uuid and two draws are used per node. |
| Converters.Converter.AddRel | import.py:51 | One loop step yields `RelStep` with the next uuid. |
| Converters.Converter.MakeRels | import.py:51 | The comprehension loop yields exactly `Relationships` of the records, and a successful run uses one uuid per record. |
| Converters.Converter.PopulateSchema | import.py:44-52 | Returns exactly `Populate`: all classes first, then the relationships, resolved against the id table the classes filled. |
| Converters.Converter.AddProperty | import.py:62-74 | One record yields `GroupStep`, appending its attribute to its label's group, and appends that record's warnings. |
| Converters.Converter.GroupAttributes | import.py:60-74 | The first loop yields exactly `AttributeGroups` and logs exactly `Warnings` of the records. |
| Converters.Converter.AttachGroups | import.py:76-77 | The second loop yields exactly `AttachAll` over the group keys in insertion order. |
| Converters.Converter.CollectAttributes | import.py:54-77 | Attribute collection yields exactly `Collect` and logs the grouping warnings. |
| Converters.Converter.Convert | import.py:32-42 | A run yields exactly `Conversion.Convert`. The id table is filled, and the warnings are logged only when populating succeeded. One uuid is taken per node record, at most one per relationship record, and exactly one per relationship record when the run succeeds. |
| ClassProperties.Names | import.py:50 | The node labels, in record order. |
| ClassProperties.Ids | import.py:82 | The node ids, in record order. |
| ClassProperties.ClassEntriesAt | import.py:50 | Node `i` contributes its label with the class holding uuid `base + i` and drawn position `2i`. |
| ClassProperties.ClassEntryKeys | import.py:50 | The comprehension's keys are the node labels, in record order. |
| ClassProperties.ClassKeys | import.py:50 | There is one class per distinct label, in the order labels first appear. |
| ClassProperties.ClassLastWins | import.py:50 | The last record with a label gives the class stored under it. |
| ClassProperties.ClassFor | import.py:50 | The class under label `k` is the class made from the last record labelled `k`, with that record's uuid and position. |
| ClassProperties.ClassOrigin | import.py:50 | Every stored class was made from some node record with its label. |
| ClassProperties.ClassShape | import.py:79-87 | Every stored class carries its own label, no attributes, a position in the box and a uuid of this run. |
| ClassProperties.ClassUuidsDistinct | import.py:81 | Classes under different labels have different uuids. |
| ClassProperties.UuidTableKeys | import.py:82 | The table knows the ids it knew before plus every node id, and nothing else. |
| ClassProperties.UuidTableLast | import.py:82 | A node id maps to the uuid of the last record with that id. |
| ClassProperties.UuidTableUntouched | import.py:82 | An id no record has keeps its old uuid. |
| ClassProperties.UuidTableFrom | import.py:82 | A recorded id maps to the uuid of some record with that id. |
| ClassProperties.ClassUuidRecorded | import.py:81-82 | When a record's label and id are not repeated later, the table maps its id to the uuid of the class stored under its label. |
| RelationshipProperties.Types | import.py:51 | The relationship types, in record order. |
| RelationshipProperties.RelEntries | import.py:51 | When every record resolves, record `j` contributes its type with the relationship made with uuid `base + j`. |
| RelationshipProperties.RelEntriesStep | import.py:51 | All records resolve exactly when the prefix does and the last record does. The pairs are then the prefix's pairs plus one. |
| RelationshipProperties.RelationshipsOk | import.py:51 | The comprehension succeeds exactly when every record resolves, and it is then the dictionary of those pairs. |
| RelationshipProperties.RelationshipsFirstError | import.py:89-98 | The first record with an unknown endpoint aborts the run with that endpoint's id, start checked first. |
| RelationshipProperties.RelationshipKeys | import.py:51 | There is one relationship per distinct type, in the order types first appear. |
| RelationshipProperties.RelationshipLastWins | import.py:51 | The last record of a type gives the relationship stored under it. |
| RelationshipProperties.RelationshipFor | import.py:51 | The relationship under type `t` carries type `t` and is the one made for the last record of type `t`. |
| RelationshipProperties.RelationshipOrigin | import.py:51 | Every stored relationship was made from some record of its type, with that record's uuid. |
| AttributeProperties.GroupStepContributes | import.py:68-72 | One record adds its attribute to the group of label `l` exactly when it names `l` alone. Every other group is unchanged. |
| AttributeProperties.LabelsSeenNamed | import.py:62-72 | A label gets a group exactly when some record names it alone. |
| AttributeProperties.WellTypedStep | import.py:68-70 | A list is free of aborting records exactly when its prefix is and its last record is. |
| AttributeProperties.GroupsOk | import.py:60-74 | Grouping succeeds exactly when no kept record lacks a type. The groups' keys are then the labels named alone, in first-seen order. Each group is the attributes of the records naming that label alone, in arrival order. |
| AttributeProperties.GroupsSucceed | import.py:62-74 | Grouping records free of aborting records succeeds. |
| AttributeProperties.GroupsFirstError | import.py:104 | The first kept record with no property type aborts the run with the IndexError of line 104. The model tags that error with the record's node type. |
| AttributeProperties.WarningsSplit | import.py:62-74 | A logged warning was logged by the records before the last one, or by the last one. |
| AttributeProperties.WarningsKeep | import.py:62-74 | A warning logged by the records before the last is still in the whole log. |
| AttributeProperties.WarningsLast | import.py:62-74 | When the records before the last do not abort, the last record's warnings are in the log. |
| AttributeProperties.WarningsFromRecords | import.py:62-74 | Every logged warning is one that some single record logs. |
| AttributeProperties.RecordWarningsLogged | import.py:62-74 | When no earlier record aborts, every warning a record logs is in the log. |
| AttributeProperties.AttachAllSucceeds | import.py:76-77 | Attaching succeeds exactly when every group key is a class. |
| AttributeProperties.AttachAllResult | import.py:76-77 | After attaching, the class keys are unchanged. A class with a group has exactly that group as its attributes, and every other class is untouched. |
| AttributeProperties.AttachFirstError | import.py:76-77 | The first group key that is not a class aborts with a KeyError naming it. |
| AttributeProperties.CollectSucceeds | import.py:54-77 | Collection succeeds exactly when no kept record lacks a type and every label named alone is a class. |
| AttributeProperties.CollectOk | import.py:54-77 | After collection, the class keys are unchanged. Each class named alone by some record gets those records' attributes in arrival order, and every other class is as it was. |
| AttributeProperties.CollectedEntry | import.py:54-77 | After collection, the class under `k` has attributes exactly when a record names `k` alone, and they are those records' attributes. Otherwise the class is as it was. |
| AttributeProperties.CollectFirstError | import.py:76-77 | With well-typed records, the first label in first-seen order that is not a class aborts with a KeyError naming it. |
| DocumentProperties.ClassLabels | import.py:41 | The labels of the document's classes, in order. |
| DocumentProperties.RelationshipTypes | import.py:42 | The types of the document's relationships, in order. |
| DocumentProperties.FinalClass | import.py:76-87 | A run's final class for a node keeps its label, uuid and position. It has attributes exactly when some record names its label alone. |
| DocumentProperties.ConvertOkParts | import.py:35-42 | A run produces a document exactly when the relationships and the attribute collection both succeed. |
| DocumentProperties.CollectOnClassesSucceeds | import.py:39 | Collection on a run's classes succeeds exactly when no kept record lacks a type and every label named alone is a node label. |
| DocumentProperties.ConvertSucceeds | import.py:35-42 | A run produces a document exactly when every relationship endpoint is known, no kept property record lacks a type, and every label named alone is a node label. |
| DocumentProperties.RelationshipErrorFirst | import.py:35-39 | When making the relationships fails, the run fails with that error, whatever the property records hold. |
| DocumentProperties.CollectErrorSecond | import.py:35-39 | When the relationships are made but attribute collection fails, the run fails with collection's error. |
| DocumentProperties.FreshRunResolves | import.py:94-97 | In a run from an empty table, a relationship resolves exactly when both endpoint ids are node ids. |
| DocumentProperties.ConvertParts | import.py:35-42 | A document is assembled from the collected classes and the relationship dictionary. |
| DocumentProperties.AttachedClass | import.py:76-77 | Attaching attributes to the last record's class under `k` gives the run's final class for `k`. |
| DocumentProperties.CollectedClass | import.py:39 | Every collected class sits under its own label and is the final class of the last node record with that label. |
| DocumentProperties.AssembledAt | import.py:41 | Position `i` of the document's classes holds the class under the `i`-th key. |
| DocumentProperties.AssembledClass | import.py:41 | Each document class is the final class of the last node record with its label. |
| DocumentProperties.DocumentClassAt | import.py:22-42 | The same holds for the document of a whole run. |
| DocumentProperties.LastClassShape | import.py:79-87 | The final class under `k` has the last record's uuid and a position in the box. Its attributes are present exactly when a record names `k` alone, and are then those records' attributes. |
| DocumentProperties.CollectedLabels | import.py:35-39 | Collected classes sit under their own labels, one per distinct node label, in the order labels first appear. |
| DocumentProperties.AssembledLabels | import.py:41 | The document's class labels are the dictionary's keys, in order. |
| DocumentProperties.DocumentClasses | import.py:22-42 | A document has one class per distinct node label, no label twice, in the order labels first appear. |
| DocumentProperties.DocumentClassShape | import.py:22-42 | Every document class lies in the box and carries a uuid of this run. It has attributes exactly when a record names its label alone, and they are then those records' attributes in arrival order. |
| DocumentProperties.LastClassUuids | import.py:81 | Final classes under different labels have different uuids. |
| DocumentProperties.DocumentClassUuids | import.py:22-42 | No two document classes share a uuid. |
| DocumentProperties.StoredRelationship | import.py:51 | A stored relationship sits under its own type and is the last record's relationship. |
| DocumentProperties.AssembledRelAt | import.py:42 | Position `j` of the document's relationships holds the relationship under the `j`-th key. |
| DocumentProperties.AssembledRelationship | import.py:42-51 | Each document relationship is the one made for the last record of its type. |
| DocumentProperties.DocumentRelationshipAt | import.py:22-42 | The same holds for the document of a whole run. |
| DocumentProperties.StoredTypes | import.py:51 | The relationship dictionary lists each type once, in first-seen order, under its own type. |
| DocumentProperties.AssembledTypes | import.py:42 | The document's relationship types are the dictionary's keys, in order. |
| DocumentProperties.RunTypes | import.py:42-51 | The document's relationship types are the record types, each once, in first-seen order. |
| DocumentProperties.DocumentRelationships | import.py:22-42 | A document has one relationship per distinct type, no type twice, in the order types first appear. |
| DocumentProperties.LastRelShape | import.py:93 | The last record's relationship has that record's uuid, from the block the relationships draw from. |
| DocumentProperties.DocumentRelationshipShape | import.py:50-51 | Relationship uuids come after all class uuids of the run. |
| DocumentProperties.DocumentUuidsApart | import.py:81-93 | No two relationships share a uuid, and no relationship shares one with a class. |
| DocumentProperties.ClassWithUuid | import.py:50 | When labels do not repeat, every node record has a document class carrying its label and its uuid. |
| DocumentProperties.FreshUuidOwner | import.py:82 | In a run from an empty table, a recorded uuid belongs to some node record with that id. |
| DocumentProperties.LastRelEndpoints | import.py:94-97 | The relationship under type `t` starts at the uuid recorded for the start node id of the last record of type `t`, and ends at the uuid recorded for that record's end node id. |
| DocumentProperties.DocumentReferences | import.py:22-42 | In a run from an empty table with no repeated label, both endpoints of every relationship are uuids of document classes. |
| DocumentProperties.RepeatedLabelConverts | import.py:50-51 | Two node records with one label, joined by one relationship, produce a document. |
| DocumentProperties.RepeatedLabelClass | import.py:50 | In that document, the class carries the second record's uuid. |
| DocumentProperties.RepeatedLabelRelationship | import.py:94 | In that document, the relationship starts at the first record's uuid. |
| DocumentProperties.RepeatedLabelStored | import.py:94 | In that run, the relationship dictionary's first entry starts at the first record's uuid. |
| DocumentProperties.DanglingUnderRepeatedLabel | import.py:50-51 | In that document, the relationship's start is the uuid of no class. |
| Scenarios.OnlyPerson | import.py:62-72 | A lone record naming `Person` alone is well typed and gives `Person` exactly its attribute. |
| Scenarios.SoleClass | import.py:50 | If every node record has label `k`, the document has exactly one class, labelled `k`, carrying the last record's uuid. |
| Scenarios.OnlyPersonClass | import.py:50 | A run over the single node `Person` has exactly one class, `Person`, with the run's first uuid. |
| Scenarios.ScenarioAConverts | import.py:22-42 | `Person` with property `age: Long` produces a document. |
| Scenarios.ScenarioA | import.py:22-42 | That document has one class `Person` with the single attribute `age` of type NUMBER, and no relationships. |
| Scenarios.ScenarioBConverts | import.py:22-42 | `Person` with a `KNOWS` self-loop produces a document. |
| Scenarios.SoleRelationship | import.py:51 | If every relationship record has type `t`, the document has exactly one relationship, of type `t`: the one made for the last record. |
| Scenarios.SoleStoredRelationship | import.py:51 | If every relationship record has type `t`, the relationship dictionary has the single key `t`, holding the relationship made for the last record. |
| Scenarios.KnowsResolved | import.py:89-98 | The `KNOWS` relationship in a fresh run over `Person` goes from `Person` to `Person`. It starts and ends at the run's first uuid. |
| Scenarios.KnowsRelationship | import.py:89-98 | The only relationship of that document is `KNOWS`, from the `Person` class's uuid to itself. |
| Scenarios.ScenarioB | import.py:22-42 | The self-loop's start and end are both the uuid of the single `Person` class. |
| Scenarios.ScenarioCConverts | import.py:22-42 | A property record naming both `Person` and `Company` does not stop the run. |
| Scenarios.ScenarioC | import.py:68-74 | That record gives no class any attributes. |
| Scenarios.ScenarioCWarnings | import.py:74 | That record logs one "multiple labels" warning naming both labels. |
| Scenarios.ScenarioDConverts | import.py:22-42 | A property observed with a type the table does not list does not stop the run. |
| Scenarios.ScenarioD | import.py:107-109 | That attribute falls back to STRING. |
| Scenarios.ScenarioDWarnings | import.py:107-108 | That record logs one "unsupported type" warning naming the type. |

## Left out

- The database connection is not modelled. This covers the connection constants (`import.py:10-12`), the driver and session (28-29) and both queries (48-49, 57-58). The two query results are parameters of a run.
- Logging is not modelled: neither its configuration (23-24) nor the info lines (27, 36). The three warnings (74, 106, 108) are recorded as `Warning` values with their data, not as formatted text.
- `uuid.uuid4()` is a counter, so a uuid's textual form is not modelled. Uniqueness within a run holds by construction rather than with high probability.
- `random.randint` draws from a given function of the draw number, so the distribution of positions is not modelled. Only their bounds and the order of the draws are.
- The converter does not keep the document as a field. `Converters.Converter.Convert` returns it.
- The module's command-line entry point and the JSON dump to `schema-generated.json` (117-120) are not modelled. The JSON field names `label`/`type` appear as `name`, `relType` and `attrType`.
- The error values carry data the Python exceptions do not. `NoPropertyType` names the record's node type, while the `IndexError` of `import.py:104` says only that the list index is out of range. `UnknownNode` and `UnknownLabel` carry the missing key, as the `KeyError` does.
- Dictionaries that a failing run has already mutated are not modelled. A `KeyError` or `IndexError` leaves `__init__`, so no document exists. The model returns the error instead.
- `Converters.Converter.MakeRels`: when a record fails, it states only that the uuid counter advanced by at most one per record, not exactly how far. Nothing after the failure observes the counter.
- `Converters.Converter.PopulateSchema`: the same weaker bound on the uuid counter applies when relationship making fails.
