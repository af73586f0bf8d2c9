/**
 * The form validator: a recursive well-formedness predicate on fields, and
 * its lifting to the form's root list.
 */
module Schemas {
  import opened Types
  import opened Builder
  import opened Form

  /** The most entries a present `nested` list may hold. */
  const MaxNested := 4

  /**
   * A field passes when its name is non-empty (untrimmed), its type is one of
   * the five tags, and its `nested` list, when present, has at most four
   * entries that pass in turn. The default value and the `fields` list are not
   * examined.
   */
  predicate ValidField(f: SchemaField)
    ensures ValidField(f) ==> f.name != "" && IsTypeTag(f.kind)
    ensures |f.nested.OrEmpty()| > MaxNested ==> !ValidField(f)
    ensures f.nested.Absent? ==> (ValidField(f) <==> f.name != "" && IsTypeTag(f.kind))
  {
    |f.name| >= 1 &&
    IsTypeTag(f.kind) &&
    match f.nested
    case Absent => true
    case Present(kids) => |kids| <= MaxNested && forall i :: 0 <= i < |kids| ==> ValidField(kids[i])
  }

  /** The form passes when every root field passes. */
  predicate ValidForm(fields: seq<SchemaField>)
    ensures ValidForm(fields) <==> forall i :: 0 <= i < |fields| ==> ValidField(fields[i])
    ensures fields == [] ==> ValidForm(fields)
  {
    forall f :: f in fields ==> ValidField(f)
  }

  /** The checks the validator makes on one field, apart from its children. */
  predicate LocalOk(f: SchemaField) {
    |f.name| >= 1 && IsTypeTag(f.kind) && |f.nested.OrEmpty()| <= MaxNested
  }

  /** A field and every field reachable from it through `nested` lists, in preorder. */
  function NestedNodes(f: SchemaField): seq<SchemaField> {
    match f.nested
    case Absent => [f]
    case Present(kids) => [f] + NestedNodesOf(kids)
  }

  function NestedNodesOf(fs: seq<SchemaField>): seq<SchemaField> {
    if fs == [] then [] else NestedNodes(fs[0]) + NestedNodesOf(fs[1..])
  }

  /**
   * The recursive validator accepts a field exactly when every field
   * reachable from it through `nested` lists passes the local checks.
   */
  lemma {:induction false} ValidFieldLocal(f: SchemaField)
    ensures ValidField(f) <==> forall g :: g in NestedNodes(f) ==> LocalOk(g)
    decreases f, 1
  {
    match f.nested
    case Absent =>
      assert NestedNodes(f) == [f];
      assert ValidField(f) <==> LocalOk(f);
    case Present(kids) =>
      ValidFormLocal(kids);
      assert ValidField(f) <==> LocalOk(f) && ValidForm(kids);
      assert forall g :: g in NestedNodes(f) <==> g == f || g in NestedNodesOf(kids);
  }

  /**
   * A list passes (as the root list of the form does) exactly when every
   * field reachable from its entries through `nested` lists passes the local
   * checks; the empty list passes.
   */
  lemma {:induction false} ValidFormLocal(fs: seq<SchemaField>)
    ensures ValidForm(fs) <==> forall g :: g in NestedNodesOf(fs) ==> LocalOk(g)
    decreases fs, 0
  {
    if fs != [] {
      ValidFieldLocal(fs[0]);
      ValidFormLocal(fs[1..]);
      assert ValidForm(fs) <==> ValidField(fs[0]) && ValidForm(fs[1..]) by {
        assert forall i :: 0 < i < |fs| ==> fs[i] == fs[1..][i - 1];
      }
    }
  }

  /** A fresh field passes, whatever its type and ids. */
  lemma NewFieldValid(id: string, nameId: string, kind: TypeTag)
    ensures ValidField(CreateNewField(id, nameId, kind))
  {
  }

  /** The validator reads neither the default value nor the `fields` list. */
  lemma ValidIgnoresFields(f: SchemaField, g: SchemaField)
    requires f.name == g.name && f.kind == g.kind && f.nested == g.nested
    ensures ValidField(f) <==> ValidField(g)
  {
  }

  /**
   * Every row below the root, and every child list the user grows or
   * shrinks, sits in a `fields` list: such edits never change whether the form
   * passes, however many children a row ends up with.
   */
  lemma ChildEditsInvisibleToValidator(fs: seq<SchemaField>, path: seq<nat>, e: Edit)
    requires ValidPath(fs, path) && EditApplies(At(fs, path), e)
    requires |path| >= 2 || e.AppendChild? || e.RemoveChild?
    ensures ValidForm(ApplyAt(fs, path, e)) <==> ValidForm(fs)
  {
    var gs := ApplyAt(fs, path, e);
    ValidIgnoresFields(fs[path[0]], gs[path[0]]);
  }

  /** Appending a fresh field keeps a passing form passing; no bound on the root list is checked. */
  lemma AddFieldKeepsValid(fields: seq<SchemaField>, id: string, nameId: string)
    requires ValidForm(fields)
    ensures ValidForm(fields + [CreateNewField(id, nameId)])
  {
    NewFieldValid(id, nameId, "string");
  }

  /**
   * Editing a root row keeps a passing form passing, except for renaming it
   * to the empty string, which makes it fail.
   */
  lemma RootEditValidity(fs: seq<SchemaField>, index: nat, e: Edit)
    requires ValidForm(fs) && index < |fs| && EditApplies(fs[index], e)
    ensures ValidForm(ApplyAt(fs, [index], e)) <==> !(e.SetName? && e.name == "")
  {
    var gs := ApplyAt(fs, [index], e);
    if e.SetName? && e.name == "" {
      assert !ValidField(gs[index]);
    } else {
      assert ValidField(gs[index]);
    }
  }

  /** A name of spaces passes the validator, yet the instance document skips it. */
  lemma BlankNameValidButSkipped(f: SchemaField)
    requires ValidField(f)
    ensures ValidField(f.(name := " "))
    ensures InstanceMembers([f.(name := " ")]) == []
  {
    var g := f.(name := " ");
    assert Blank(g.name);
    assert InstanceMembers([g]) == InstanceMembers([g][..0]);
  }
}
