/**
 * The pure helpers of the builder component: the default value for a type
 * tag, the construction of a fresh field, and the two serialisers that turn a
 * list of fields into a JSON object.
 *
 * Each serialiser has a specification function over the list (a left fold,
 * defined on prefixes so that a loop over the list can be checked against it)
 * and a method with the source's loop that is proved to compute it.
 */
module Builder {
  import opened Types
  import opened JsObject

  /** The default value a freshly typed field starts with. */
  function GetDefaultValueForType(t: string): (r: DefaultValue)
    ensures IsTypeTag(t) && t != "nested" ==> KindOf(r) == t
    ensures IsTypeTag(t) && t != "nested" ==> r in {Str("default_value"), Num(0), Bool(false), Strs([])}
    ensures r == Undefined <==> t == "nested"
    ensures !IsTypeTag(t) ==> r == Str("")
  {
    match t
    case "string" => Str("default_value")
    case "number" => Num(0)
    case "boolean" => Bool(false)
    case "array" => Strs([])   // `[]` is both a string[] and a number[]
    case "nested" => Undefined
    case _ => Str("")
  }

  /**
   * A fresh field of the given type. `id` and `nameId` are the two values the
   * source draws from its id generator.
   */
  function CreateNewField(id: string, nameId: string, kind: TypeTag := "string"): (f: SchemaField)
    ensures f.id == id && f.kind == kind
    ensures |f.name| >= 6 && f.name[..6] == "field_" && f.name[6..] == nameId
    ensures !Blank(f.name)
    ensures f.defaultValue == GetDefaultValueForType(kind)
    ensures f.nested.Present? <==> kind == "nested"
    ensures f.nested.OrEmpty() == []
    ensures f.defaultValue == Undefined <==> f.nested.Present?
    ensures f.fields == Absent
  {
    var name := "field_" + nameId;
    assert !IsSpace(name[0]);
    SchemaField(id, name, kind, GetDefaultValueForType(kind),
                if kind == "nested" then Present([]) else Absent, Absent)
  }

  /**
   * The names of the fields whose trimmed name is non-empty, other than
   * `"__proto__"`, which the model never makes an own key.
   */
  function NonBlankNames(fs: seq<SchemaField>): set<string> {
    set f | f in fs && !Blank(f.name) && f.name != ProtoKey :: f.name
  }

  /** The names of all fields, blank or not, other than `"__proto__"`. */
  function Names(fs: seq<SchemaField>): set<string> {
    set f | f in fs && f.name != ProtoKey :: f.name
  }

  /** The index of the last field named `k`, if some field has that name. */
  function LastNamed(fs: seq<SchemaField>, k: string): (r: Option<nat>)
    ensures r.None? <==> forall i :: 0 <= i < |fs| ==> fs[i].name != k
    ensures r.Some? ==> r.value < |fs| && fs[r.value].name == k &&
                        forall j :: r.value < j < |fs| ==> fs[j].name != k
  {
    if fs == [] then None
    else if fs[|fs| - 1].name == k then Some(|fs| - 1)
    else LastNamed(fs[..|fs| - 1], k)
  }

  // ---------------------------------------------------------------------
  // Instance document (`generateJsonFromFormData`)
  // ---------------------------------------------------------------------

  /**
   * The members of the instance document for `fs`: blank-named fields are
   * skipped, and each other field writes its value under its name.
   */
  function InstanceMembers(fs: seq<SchemaField>): (r: seq<Member>)
    ensures DistinctKeys(r)
    ensures Keys(r) == NonBlankNames(fs)
  {
    if fs == [] then []
    else
      var init, f := fs[..|fs| - 1], fs[|fs| - 1];
      assert fs == init + [f];
      var acc := InstanceMembers(init);
      if Blank(f.name) then acc
      else
        PutDistinct(acc, f.name, InstanceValue(f));
        Put(acc, f.name, InstanceValue(f))
  }

  /**
   * A field's value in the instance document: the recursion on `nested` for a
   * nested field whose `nested` list is present, its default value otherwise.
   */
  function InstanceValue(f: SchemaField): (r: Json)
    ensures r.Object? <==> f.kind == "nested" && f.nested.Present?
    ensures r.Value? ==> r.v == f.defaultValue
  {
    match f.nested
    case Present(kids) =>
      if f.kind == "nested" then Object(InstanceMembers(kids)) else Value(f.defaultValue)
    case Absent => Value(f.defaultValue)
  }

  method GenerateJsonFromFormData(fields: seq<SchemaField>) returns (r: Json)
    ensures r == Object(InstanceMembers(fields))
  {
    if |fields| == 0 {
      return Object([]);
    }
    var result: seq<Member> := [];
    var i := 0;
    while i < |fields|
      invariant 0 <= i <= |fields|
      invariant result == InstanceMembers(fields[..i])
    {
      var field := fields[i];
      assert fields[..i + 1][..i] == fields[..i];
      if !Blank(field.name) {
        if field.kind == "nested" && field.nested.Present? {
          var sub := GenerateJsonFromFormData(field.nested.items);
          result := Put(result, field.name, sub);
        } else {
          result := Put(result, field.name, Value(field.defaultValue));
        }
      }
      i := i + 1;
    }
    assert fields[..i] == fields;
    r := Object(result);
  }

  // ---------------------------------------------------------------------
  // Schema document (`getJsonSchemaFromFields`)
  // ---------------------------------------------------------------------

  /**
   * The members of the schema document for `fs`: every field, blank-named or
   * not, writes its value under its name.
   */
  function SchemaMembers(fs: seq<SchemaField>): (r: seq<Member>)
    ensures DistinctKeys(r)
    ensures Keys(r) == Names(fs)
  {
    if fs == [] then []
    else
      var init, f := fs[..|fs| - 1], fs[|fs| - 1];
      assert fs == init + [f];
      var acc := SchemaMembers(init);
      PutDistinct(acc, f.name, SchemaValue(f));
      Put(acc, f.name, SchemaValue(f))
  }

  /**
   * A field's value in the schema document: the recursion on `fields` (or on
   * an empty list when it is absent) for a nested field, its type tag
   * otherwise.
   */
  function SchemaValue(f: SchemaField): (r: Json)
    ensures r.Object? <==> f.kind == "nested"
    ensures r.Value? ==> r.v == Str(f.kind)
    ensures f.kind == "nested" && f.fields.Absent? ==> r == Object([])
  {
    if f.kind == "nested" then
      match f.fields
      case Present(kids) => Object(SchemaMembers(kids))
      case Absent => Object([])   // the recursion on `[]` yields `{}`
    else Value(Str(f.kind))
  }

  method GetJsonSchemaFromFields(fields: seq<SchemaField>) returns (r: Json)
    ensures r == Object(SchemaMembers(fields))
  {
    var result: seq<Member> := [];
    var i := 0;
    while i < |fields|
      invariant 0 <= i <= |fields|
      invariant result == SchemaMembers(fields[..i])
    {
      var field := fields[i];
      assert fields[..i + 1][..i] == fields[..i];
      if field.kind == "nested" {
        var sub: Json;
        match field.fields {
          case Present(kids) => sub := GetJsonSchemaFromFields(kids);
          case Absent => sub := GetJsonSchemaFromFields([]);
        }
        result := Put(result, field.name, sub);
      } else {
        result := Put(result, field.name, Value(Str(field.kind)));
      }
      i := i + 1;
    }
    assert fields[..i] == fields;
    r := Object(result);
  }

  // ---------------------------------------------------------------------
  // Properties of the two documents
  // ---------------------------------------------------------------------

  /**
   * Reading own key `k` of the instance document: nothing for a blank key,
   * for `"__proto__"` or for a name no field has, otherwise the value of the
   * LAST field named `k`.
   */
  lemma {:induction false} InstanceGet(fs: seq<SchemaField>, k: string)
    ensures Get(InstanceMembers(fs), k) ==
            if Blank(k) || k == ProtoKey then None
            else match LastNamed(fs, k)
                 case None => None
                 case Some(i) => Some(InstanceValue(fs[i]))
  {
    if Blank(k) || k == ProtoKey || fs == [] {
      assert k !in NonBlankNames(fs);
    } else {
      var init, f := fs[..|fs| - 1], fs[|fs| - 1];
      InstanceGet(init, k);
      var acc := InstanceMembers(init);
      if f.name == k {
        assert InstanceMembers(fs) == Put(acc, k, InstanceValue(f));
        assert LastNamed(fs, k) == Some(|fs| - 1);
      } else {
        assert LastNamed(fs, k) == LastNamed(init, k);
        assert Get(InstanceMembers(fs), k) == Get(acc, k);
        if LastNamed(init, k).Some? {
          assert init[LastNamed(init, k).value] == fs[LastNamed(init, k).value];
        }
      }
    }
  }

  /**
   * Reading own key `k` of the schema document: nothing for `"__proto__"` or
   * for a name no field has, otherwise the value of the LAST field named `k`,
   * blank names included.
   */
  lemma {:induction false} SchemaGet(fs: seq<SchemaField>, k: string)
    ensures Get(SchemaMembers(fs), k) ==
            if k == ProtoKey then None
            else match LastNamed(fs, k)
                 case None => None
                 case Some(i) => Some(SchemaValue(fs[i]))
  {
    if fs != [] {
      var init, f := fs[..|fs| - 1], fs[|fs| - 1];
      SchemaGet(init, k);
      var acc := SchemaMembers(init);
      assert SchemaMembers(fs) == Put(acc, f.name, SchemaValue(f));
      if f.name == k {
        assert LastNamed(fs, k) == Some(|fs| - 1);
      } else {
        assert LastNamed(fs, k) == LastNamed(init, k);
        assert Get(SchemaMembers(fs), k) == Get(acc, k);
        if LastNamed(init, k).Some? {
          assert init[LastNamed(init, k).value] == fs[LastNamed(init, k).value];
        }
      }
    }
  }

  /**
   * When no field name is blank, both documents list the same keys in the
   * same order (the order in which each name first occurs).
   */
  lemma {:induction false} SameKeyOrder(fs: seq<SchemaField>)
    requires forall i :: 0 <= i < |fs| ==> !Blank(fs[i].name)
    ensures KeySeq(InstanceMembers(fs)) == KeySeq(SchemaMembers(fs))
  {
    if fs != [] {
      var init, f := fs[..|fs| - 1], fs[|fs| - 1];
      SameKeyOrder(init);
      assert NonBlankNames(init) == Names(init);
      PutKeySeq(InstanceMembers(init), f.name, InstanceValue(f));
      PutKeySeq(SchemaMembers(init), f.name, SchemaValue(f));
    }
  }

  /** The parts of a field the instance document reads. */
  predicate SameInstanceParts(f: SchemaField, g: SchemaField) {
    f.name == g.name && f.kind == g.kind && f.defaultValue == g.defaultValue && f.nested == g.nested
  }

  /** The parts of a field the schema document reads. */
  predicate SameSchemaParts(f: SchemaField, g: SchemaField) {
    f.name == g.name && f.kind == g.kind && f.fields == g.fields
  }

  /**
   * The instance document depends only on names, type tags, default values
   * and `nested` lists: ids and `fields` lists play no part.
   */
  lemma {:induction false} InstanceIgnoresFields(fs: seq<SchemaField>, gs: seq<SchemaField>)
    requires |fs| == |gs|
    requires forall i :: 0 <= i < |fs| ==> SameInstanceParts(fs[i], gs[i])
    ensures InstanceMembers(fs) == InstanceMembers(gs)
  {
    if fs != [] {
      var n := |fs| - 1;
      assert forall i :: 0 <= i < n ==> SameInstanceParts(fs[..n][i], gs[..n][i]);
      InstanceIgnoresFields(fs[..n], gs[..n]);
      assert InstanceValue(fs[n]) == InstanceValue(gs[n]);
    }
  }

  /**
   * The schema document depends only on names, type tags and `fields` lists:
   * ids, default values and `nested` lists play no part.
   */
  lemma {:induction false} SchemaIgnoresNested(fs: seq<SchemaField>, gs: seq<SchemaField>)
    requires |fs| == |gs|
    requires forall i :: 0 <= i < |fs| ==> SameSchemaParts(fs[i], gs[i])
    ensures SchemaMembers(fs) == SchemaMembers(gs)
  {
    if fs != [] {
      var n := |fs| - 1;
      assert forall i :: 0 <= i < n ==> SameSchemaParts(fs[..n][i], gs[..n][i]);
      SchemaIgnoresNested(fs[..n], gs[..n]);
      assert SchemaValue(fs[n]) == SchemaValue(gs[n]);
    }
  }
}
