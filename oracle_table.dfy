/**
 * `OracleTable`: an owner (schema) and a table name, either of which may be
 * Java `null`.
 */
module OracleTables {
  import opened Wrappers
  import opened JavaStrings

  /** `None` stands for a Java `null` field. */
  datatype OracleTable = OracleTable(schema: Option<string>, name: Option<string>)

  /** `new OracleTable()`: both fields left null. */
  function Unnamed(): (t: OracleTable)
    ensures t.schema.None? && t.name.None?
  {
    OracleTable(None, None)
  }

  /** `new OracleTable(schema, name)`. */
  function Qualified(schema: string, name: string): (t: OracleTable)
    ensures t.schema == Some(schema) && t.name == Some(name)
  {
    OracleTable(Some(schema), Some(name))
  }

  /** `new OracleTable(name)`: the schema is left null. */
  function Named(name: string): (t: OracleTable)
    ensures t.schema.None? && t.name == Some(name)
  {
    OracleTable(None, Some(name))
  }

  /** What string concatenation prints for a possibly-null string. */
  function Text(s: Option<string>): string {
    if s.Some? then s.value else "null"
  }

  /** A schema that `toString` leaves out: null or empty. */
  predicate NoSchema(t: OracleTable) {
    t.schema.None? || t.schema.value == ""
  }

  /**
   * `toString`: the name alone when the schema is null or empty, otherwise
   * `schema.name`.
   */
  function ToString(t: OracleTable): (r: string)
    ensures NoSchema(t) ==> r == Text(t.name)
    ensures !NoSchema(t) ==> r == t.schema.value + "." + Text(t.name)
  {
    (if NoSchema(t) then "" else t.schema.value + ".") + Text(t.name)
  }

  /**
   * A schema without a dot is delimited by the first dot of the text, so
   * the qualified form names its schema unambiguously.
   */
  lemma ToStringNamesSchema(t: OracleTable)
    requires !NoSchema(t) && '.' !in t.schema.value
    ensures IndexOf(ToString(t), '.') == |t.schema.value|
    ensures ToString(t)[..|t.schema.value|] == t.schema.value
  {
    var s := t.schema.value;
    var r := ToString(t);
    assert r == s + ("." + Text(t.name));
    assert r[..|s|] == s;
    assert r[|s|] == '.';
  }
}
