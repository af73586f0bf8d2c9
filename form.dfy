/**
 * The form state the builder edits: the root list of fields, held by the
 * form library and changed in place by the rows of the builder. A row is
 * addressed by a path of indices, `fields.i.fields.j...`: the root index, then
 * an index into each ancestor's `fields` list.
 */
module Form {
  import opened Types
  import opened Builder

  /** The type tags the type dropdown of a row offers ("array" is not among them). */
  predicate IsSelectOption(t: string) {
    t == "string" || t == "number" || t == "boolean" || t == "nested"
  }

  /** One user action on a row. */
  datatype Edit =
    | SetName(name: string)          // the name input
    | SetType(kind: string)          // the type dropdown
    | AppendChild(child: SchemaField) // the row's "Add Field" button (generalised: the button appends a fresh "string" field)
    | RemoveChild(index: nat)        // a child row's delete button

  /** The child rows of a field: its `fields` list, an absent list reading as empty. */
  function Kids(f: SchemaField): seq<SchemaField> {
    f.fields.OrEmpty()
  }

  /**
   * The edit is one the row offers: the dropdown's options, and child
   * controls only on a row whose type is "nested" (the only rows that render
   * their children and their "Add Field" button).
   */
  predicate EditApplies(f: SchemaField, e: Edit) {
    match e
    case SetName(_) => true
    case SetType(t) => IsSelectOption(t)
    case AppendChild(_) => f.kind == "nested"
    case RemoveChild(i) => f.kind == "nested" && i < |Kids(f)|
  }

  /**
   * The effect of an edit on the row's own field. Retyping writes `type`
   * alone; appending and removing work on the `fields` list.
   */
  function ApplyEdit(f: SchemaField, e: Edit): (g: SchemaField)
    requires EditApplies(f, e)
    ensures g.id == f.id
    ensures e.SetName? ==> g.name == e.name && g == f.(name := e.name)
    ensures e.SetType? ==> g.kind == e.kind && g == f.(kind := e.kind)
    ensures e.AppendChild? ==> g == f.(fields := g.fields) && g.fields.Present? &&
                               Kids(g) == Kids(f) + [e.child]
    ensures e.RemoveChild? ==> g == f.(fields := g.fields) && g.fields.Present? &&
                               |Kids(g)| == |Kids(f)| - 1 &&
                               Kids(g) == Kids(f)[..e.index] + Kids(f)[e.index + 1..]
  {
    match e
    case SetName(name) => f.(name := name)
    case SetType(kind) => f.(kind := kind)
    case AppendChild(child) => f.(fields := Present(Kids(f) + [child]))
    case RemoveChild(i) => f.(fields := Present(Kids(f)[..i] + Kids(f)[i + 1..]))
  }

  /**
   * `path` names a rendered row of the tree rooted at `fs`: every row on the
   * way down to it has type "nested", since only such rows render children.
   */
  predicate ValidPath(fs: seq<SchemaField>, path: seq<nat>)
    decreases path
  {
    |path| > 0 && path[0] < |fs| &&
    (|path| == 1 || (fs[path[0]].kind == "nested" && ValidPath(Kids(fs[path[0]]), path[1..])))
  }

  /** The field of the row at `path`. */
  function At(fs: seq<SchemaField>, path: seq<nat>): SchemaField
    requires ValidPath(fs, path)
    decreases path
  {
    if |path| == 1 then fs[path[0]] else At(Kids(fs[path[0]]), path[1..])
  }

  /** The tree after applying `e` to the row at `path`. */
  function ApplyAt(fs: seq<SchemaField>, path: seq<nat>, e: Edit): (r: seq<SchemaField>)
    requires ValidPath(fs, path) && EditApplies(At(fs, path), e)
    ensures |r| == |fs|
    ensures forall i :: 0 <= i < |fs| && i != path[0] ==> r[i] == fs[i]
    decreases path
  {
    var f := fs[path[0]];
    if |path| == 1 then fs[path[0] := ApplyEdit(f, e)]
    else fs[path[0] := f.(fields := Present(ApplyAt(Kids(f), path[1..], e)))]
  }

  /** Neither path is a prefix of the other: they name rows in disjoint subtrees. */
  predicate Apart(p: seq<nat>, q: seq<nat>) {
    exists i :: 0 <= i < |p| && i < |q| && p[i] != q[i]
  }

  /** After an edit the row at `path` holds the edited field. */
  lemma {:induction false} AtApplyAt(fs: seq<SchemaField>, path: seq<nat>, e: Edit)
    requires ValidPath(fs, path) && EditApplies(At(fs, path), e)
    ensures ValidPath(ApplyAt(fs, path, e), path)
    ensures At(ApplyAt(fs, path, e), path) == ApplyEdit(At(fs, path), e)
  {
    if |path| > 1 {
      AtApplyAt(Kids(fs[path[0]]), path[1..], e);
    }
  }

  /**
   * An edit leaves every row whose path is neither a prefix nor an extension
   * of the edited path as it was, and still rendered.
   */
  lemma {:induction false} ApplyAtFrame(fs: seq<SchemaField>, path: seq<nat>, e: Edit, other: seq<nat>)
    requires ValidPath(fs, path) && EditApplies(At(fs, path), e)
    requires ValidPath(fs, other) && Apart(path, other)
    ensures ValidPath(ApplyAt(fs, path, e), other)
    ensures At(ApplyAt(fs, path, e), other) == At(fs, other)
  {
    if path[0] == other[0] {
      var i :| 0 <= i < |path| && i < |other| && path[i] != other[i];
      assert i > 0;
      assert path[1..][i - 1] != other[1..][i - 1];
      ApplyAtFrame(Kids(fs[path[0]]), path[1..], e, other[1..]);
    }
  }

  /**
   * An edit leaves every ancestor of the edited row in place: the ancestor is
   * still rendered, keeps its id, name, type, default value and `nested` list,
   * and its child list keeps its length (only the child on the way down is
   * replaced).
   */
  lemma {:induction false} AncestorFrame(fs: seq<SchemaField>, path: seq<nat>, e: Edit, q: seq<nat>)
    requires ValidPath(fs, path) && EditApplies(At(fs, path), e)
    requires 0 < |q| < |path| && q == path[..|q|] && ValidPath(fs, q)
    ensures ValidPath(ApplyAt(fs, path, e), q)
    ensures At(ApplyAt(fs, path, e), q) == At(fs, q).(fields := At(ApplyAt(fs, path, e), q).fields)
    ensures |Kids(At(ApplyAt(fs, path, e), q))| == |Kids(At(fs, q))|
  {
    if |q| > 1 {
      assert q[1..] == path[1..][..|q| - 1];
      AncestorFrame(Kids(fs[path[0]]), path[1..], e, q[1..]);
    }
  }

  /**
   * A row's "Add Field" button grows that row's child list by exactly one
   * entry, keeps the earlier entries, and checks no bound: it succeeds however
   * many children the row already has.
   */
  lemma {:induction false} AppendChildUnbounded(fs: seq<SchemaField>, path: seq<nat>, child: SchemaField)
    requires ValidPath(fs, path) && At(fs, path).kind == "nested"
    ensures var r := ApplyAt(fs, path, AppendChild(child));
            ValidPath(r, path) &&
            |Kids(At(r, path))| == |Kids(At(fs, path))| + 1 &&
            Kids(At(r, path))[..|Kids(At(fs, path))|] == Kids(At(fs, path)) &&
            Kids(At(r, path))[|Kids(At(fs, path))|] == child
  {
    AtApplyAt(fs, path, AppendChild(child));
  }

  /**
   * Child rows live in `fields` lists, which the instance document never
   * reads: renaming, retyping, adding or removing a row below the root, and
   * adding or removing a child of a root row, leave the instance document
   * unchanged.
   */
  lemma ChildEditsInvisibleToInstance(fs: seq<SchemaField>, path: seq<nat>, e: Edit)
    requires ValidPath(fs, path) && EditApplies(At(fs, path), e)
    requires |path| >= 2 || e.AppendChild? || e.RemoveChild?
    ensures InstanceMembers(ApplyAt(fs, path, e)) == InstanceMembers(fs)
  {
    var gs := ApplyAt(fs, path, e);
    assert SameInstanceParts(fs[path[0]], gs[path[0]]);
    InstanceIgnoresFields(fs, gs);
  }

  /**
   * The form's state. The builder starts with a "string" field and a
   * "number" field; `ids` stands in for the four values drawn from the id
   * generator.
   */
  class BuilderForm {
    var fields: seq<SchemaField>

    constructor (ids: seq<string>)
      requires |ids| == 4
      ensures fields == [CreateNewField(ids[0], ids[1], "string"), CreateNewField(ids[2], ids[3], "number")]
    {
      fields := [CreateNewField(ids[0], ids[1], "string"), CreateNewField(ids[2], ids[3], "number")];
    }

    /** The "Add Field" button of the builder: append a fresh "string" field, with no bound. */
    method AddField(id: string, nameId: string)
      modifies this
      ensures fields == old(fields) + [CreateNewField(id, nameId)]
    {
      fields := fields + [CreateNewField(id, nameId)];
    }

    /** A root row's delete button: drop that row and its subtree. */
    method Remove(index: nat)
      requires index < |fields|
      modifies this
      ensures fields == old(fields)[..index] + old(fields)[index + 1..]
    {
      fields := fields[..index] + fields[index + 1..];
    }

    /** A user action on the row at `path`. */
    method Update(path: seq<nat>, e: Edit)
      requires ValidPath(fields, path) && EditApplies(At(fields, path), e)
      modifies this
      ensures fields == ApplyAt(old(fields), path, e)
      ensures ValidPath(fields, path) && At(fields, path) == ApplyEdit(old(At(fields, path)), e)
    {
      AtApplyAt(fields, path, e);
      fields := ApplyAt(fields, path, e);
    }

    /** The preview pane: the schema document of the current fields. */
    method Preview() returns (r: Json)
      ensures r == Object(SchemaMembers(fields))
    {
      r := GetJsonSchemaFromFields(fields);
    }
  }
}
