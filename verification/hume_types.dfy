/** The target data types and the fixed table that maps source property types onto them. */
module HumeTypes {

  /** The closed enumeration of attribute types the target schema format accepts. */
  datatype HumeType = STRING | NUMBER | DOUBLE | DATE | BOOLEAN

  /** Source property type -> target type; every other source type falls back to STRING. */
  const TypesMapping: map<string, HumeType> :=
    map["String" := STRING, "Long" := NUMBER, "Double" := DOUBLE, "StringArray" := STRING,
        "Date" := DATE, "Point" := STRING, "Boolean" := BOOLEAN]

  /**
   * The target type of a property: only the first reported source type is
   * looked up, and one missing from the table becomes STRING. Each non-STRING
   * target comes from exactly one source type.
   */
  function ToHumeType(propertyTypes: seq<string>): (t: HumeType)
    requires |propertyTypes| > 0
    ensures t == NUMBER <==> propertyTypes[0] == "Long"
    ensures t == DOUBLE <==> propertyTypes[0] == "Double"
    ensures t == DATE <==> propertyTypes[0] == "Date"
    ensures t == BOOLEAN <==> propertyTypes[0] == "Boolean"
    ensures t == STRING <==> propertyTypes[0] !in {"Long", "Double", "Date", "Boolean"}
  {
    var first := propertyTypes[0];
    if first in TypesMapping then TypesMapping[first] else STRING
  }

  /** Types reported after the first one never change the result. */
  lemma FirstTypeDecides(a: seq<string>, b: seq<string>)
    requires |a| > 0 && |b| > 0 && a[0] == b[0]
    ensures ToHumeType(a) == ToHumeType(b)
  {
  }

  /** The table row by row, and the fallback for a source type it does not list. */
  lemma MappingTable(rest: seq<string>)
    ensures TypesMapping.Keys == {"String", "Long", "Double", "StringArray", "Date", "Point", "Boolean"}
    ensures ToHumeType(["String"] + rest) == STRING
    ensures ToHumeType(["Long"] + rest) == NUMBER
    ensures ToHumeType(["Double"] + rest) == DOUBLE
    ensures ToHumeType(["StringArray"] + rest) == STRING
    ensures ToHumeType(["Date"] + rest) == DATE
    ensures ToHumeType(["Point"] + rest) == STRING
    ensures ToHumeType(["Boolean"] + rest) == BOOLEAN
    ensures forall t :: t !in TypesMapping ==> ToHumeType([t] + rest) == STRING
  {
  }
}
