/**
 * Concrete trees as the builder produces them, and the two documents they
 * serialise to.
 */
module Scenarios {
  import opened Types
  import opened JsObject
  import opened Builder
  import opened Form

  /**
   * A row added with "Add Field" and retyped to "nested" keeps the default
   * value it was created with and has no `nested` list: the instance document
   * shows that stale default, the schema document an empty object.
   */
  lemma RetypeKeepsStaleDefault(id: string, nameId: string)
    ensures var g := ApplyEdit(CreateNewField(id, nameId), SetType("nested"));
            g.kind == "nested" &&
            InstanceValue(g) == Value(Str("default_value")) &&
            SchemaValue(g) == Object([])
  {
  }

  /**
   * An "age" number field (as the form starts with) and a "profile" row
   * retyped from "string" to "nested", with one child "active" added through
   * the row's "Add Field" button and retyped from "string" to "boolean". Both
   * retyped rows keep the default they were created with.
   */
  function ProfileTree(): seq<SchemaField> {
    var active := SchemaField("c", "active", "boolean", Str("default_value"), Absent, Absent);
    [ SchemaField("a", "age", "number", Num(0), Absent, Absent),
      SchemaField("b", "profile", "nested", Str("default_value"), Absent, Present([active])) ]
  }

  /** The schema document nests the child under "profile". */
  lemma ProfileSchema()
    ensures SchemaMembers(ProfileTree()) ==
            [ Member("age", Value(Str("number"))),
              Member("profile", Object([Member("active", Value(Str("boolean")))])) ]
  {
    var fs := ProfileTree();
    var kids := fs[1].fields.items;
    assert fs[..1][..0] == [] && fs[..2][..1] == fs[..1] && fs[..2] == fs && kids[..1][..0] == [] && kids[..1] == kids;
    var inner := [Member("active", Value(Str("boolean")))];
    assert SchemaMembers(kids) == inner;
    assert SchemaValue(fs[1]) == Object(inner);
    var outer := [Member("age", Value(Str("number")))];
    assert SchemaMembers(fs[..1]) == outer;
    assert SchemaMembers(fs) == Put(outer, "profile", Object(inner));
  }

  /**
   * The instance document does not see the child: "profile" has no `nested`
   * list, so it shows its stale default value.
   */
  lemma ProfileInstance()
    ensures InstanceMembers(ProfileTree()) ==
            [ Member("age", Value(Num(0))),
              Member("profile", Value(Str("default_value"))) ]
  {
    var fs := ProfileTree();
    assert fs[..1][..0] == [] && fs[..2][..1] == fs[..1] && fs[..2] == fs;
    assert !Blank(fs[0].name) by { assert !IsSpace(fs[0].name[0]); }
    assert !Blank(fs[1].name) by { assert !IsSpace(fs[1].name[0]); }
    var outer := [Member("age", Value(Num(0)))];
    assert InstanceMembers(fs[..1]) == outer;
    assert InstanceValue(fs[1]) == Value(Str("default_value"));
    assert InstanceMembers(fs) == Put(outer, "profile", Value(Str("default_value")));
  }

  /** Two root fields both named "x", a "string" one and then a "number" one. */
  function DuplicateTree(): seq<SchemaField> {
    [ SchemaField("a", "x", "string", Str("default_value"), Absent, Absent),
      SchemaField("b", "x", "number", Num(0), Absent, Absent) ]
  }

  /** In the schema document the later "x" wins. */
  lemma DuplicateSchema()
    ensures SchemaMembers(DuplicateTree()) == [Member("x", Value(Str("number")))]
  {
    var fs := DuplicateTree();
    assert fs[..1][..0] == [] && fs[..2][..1] == fs[..1] && fs[..2] == fs;
    var s1 := [Member("x", Value(Str("string")))];
    assert SchemaMembers(fs[..1]) == s1;
    assert SchemaMembers(fs) == Put(s1, "x", Value(Str("number")));
  }

  /** In the instance document the later "x" wins. */
  lemma DuplicateInstance()
    ensures InstanceMembers(DuplicateTree()) == [Member("x", Value(Num(0)))]
  {
    var fs := DuplicateTree();
    assert fs[..1][..0] == [] && fs[..2][..1] == fs[..1] && fs[..2] == fs;
    assert !Blank("x") by { assert !IsSpace("x"[0]); }
    var i1 := [Member("x", Value(Str("default_value")))];
    assert InstanceMembers(fs[..1]) == i1;
    assert InstanceMembers(fs) == Put(i1, "x", Value(Num(0)));
  }

  /** A whitespace-only name is skipped by the instance document but kept by the schema document. */
  lemma BlankNameDocuments()
    ensures var fs := [SchemaField("a", " ", "string", Str("default_value"), Absent, Absent)];
            SchemaMembers(fs) == [Member(" ", Value(Str("string")))] &&
            InstanceMembers(fs) == []
  {
    var fs := [SchemaField("a", " ", "string", Str("default_value"), Absent, Absent)];
    assert fs[..0] == [];
    assert Blank(fs[0].name);
  }
}
