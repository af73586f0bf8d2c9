/**
 * The field-tree data model: a field of the builder, its optional default
 * value, and the JSON-like result object both serialisers produce.
 */
module Types {

  datatype Option<+T> = None | Some(value: T)

  /** A JavaScript number is a double; the model keeps integers only. */
  datatype DefaultValue =
    | Str(s: string)
    | Num(n: int)
    | Bool(b: bool)
    | Strs(ss: seq<string>)
    | Nums(ns: seq<int>)
    | Null
    | Undefined   // also stands for an absent `defaultValue`

  /** An optional array of child fields: absent (`undefined`) or present, possibly empty. */
  datatype Children = Absent | Present(items: seq<SchemaField>) {
    /** The list read as `children || []`. */
    function OrEmpty(): seq<SchemaField> {
      if Present? then items else []
    }
  }

  /**
   * One field of the builder. `kind` holds the source's `type` property (a
   * Dafny keyword); it is a string because values outside the five tags reach
   * both the validator and the default-value mapping. A field carries two
   * independent optional child lists, `nested` and `fields`.
   */
  datatype SchemaField = SchemaField(
    id: string,
    name: string,
    kind: string,
    defaultValue: DefaultValue,
    nested: Children,
    fields: Children)

  /**
   * A JSON result: a default value at a leaf, or an object whose own members
   * are held in insertion order ("__proto__" is never made one, which JavaScript
   * does only after the prototype chain has lost its setter). JavaScript
   * enumerates array-index keys before the others; that order is not modelled.
   */
  datatype Json = Value(v: DefaultValue) | Object(members: seq<Member>)
  datatype Member = Member(key: string, value: Json)

  /** The five type tags a field's `type` may take. */
  predicate IsTypeTag(t: string) {
    t == "string" || t == "number" || t == "boolean" || t == "array" || t == "nested"
  }

  type TypeTag = t: string | IsTypeTag(t) witness "string"

  /**
   * The whitespace characters that `trim()` removes, restricted to a fixed
   * set: space, tab, line feed, vertical tab, form feed, carriage return and
   * no-break space.
   */
  predicate IsSpace(c: char) {
    c == ' ' || c == '\t' || c == '\n' || c == '\U{000B}' || c == '\U{000C}' || c == '\r' || c == '\U{00A0}'
  }

  /** True when `s.trim()` is the empty string, i.e. `!s.trim()` holds. */
  predicate Blank(s: string) {
    forall i :: 0 <= i < |s| ==> IsSpace(s[i])
  }

  /** The kind of JavaScript value a default is, as its type tag would name it. */
  function KindOf(v: DefaultValue): string {
    match v
    case Str(_) => "string"
    case Num(_) => "number"
    case Bool(_) => "boolean"
    case Strs(_) => "array"
    case Nums(_) => "array"
    case Null => "null"
    case Undefined => "undefined"
  }
}
