# JSON schema builder: field tree and serialisers

A Dafny model of the core of a JSON schema builder. The user edits a tree of
named, typed fields. The builder's preview and clipboard copy show the
*schema document* derived from it: each field name mapped to its type tag,
and nested fields mapped to nested objects. The component also defines a
serialiser for an *instance document*, which maps each field name to its
default value, but nothing in the component calls it; it is modelled as
written. A recursive validator checks the form.

Modules, one per source concern:

- `Types` (`types.dfy`): `SchemaField`, its optional default value
  (`DefaultValue`), its two optional child lists (`Children`, used for both
  `nested` and `fields`), and the result object (`Json`, `Member`). The
  source's `type` property is a Dafny keyword and is named `kind`. It is held
  as a string, because the validator and the default-value mapping both
  handle strings outside the five tags.
- `JsObject` (`jsobject.dfy`): the plain-object semantics the serialisers
  rely on. Members are kept in insertion order. `result[k] = v` replaces the
  value of an existing own key in place and adds a new key after all others.
  Assigning `"__proto__"` adds no own member in the model; JavaScript's one
  exception to that is listed under "Left out".
- `Builder` (`builder.dfy`): `getDefaultValueForType`, `createNewField`, and
  both serialisers. Each serialiser is a specification function over the
  field list (a fold over prefixes) plus a method with the source's loop,
  proved to compute it.
- `Form` (`form.dfy`): the form state as a class whose `fields` list the
  builder's buttons and inputs replace in place. A row is addressed by a path
  of indices (`fields.i.fields.j…`). Edits: rename, retype, append child,
  remove child, plus add and remove at the root.
- `Schemas` (`schemas.dfy`): the validator as a recursive predicate, with
  an independent characterisation.
- `Scenarios` (`scenarios.dfy`): concrete trees and the documents they
  produce.

Behaviour kept as the code has it:

- The schema serialiser has no blank-name filter. A field named `""` or
  `" "` yields that key.
- Retyping writes `type` alone. The default value and both child lists
  stay, so a row retyped to "nested" shows its stale default in the
  instance document.
- Appending a child checks no bound. The bound of four exists only in the
  validator.
- The two serialisers read different child lists. The instance serialiser
  and the validator read `nested`; the schema serialiser and the rows read
  `fields`. Children added through the rows therefore never reach the
  instance document or the validator.

## Model

| member | source | states |
|---|---|---|
| `Builder.GetDefaultValueForType` | components/JsonSchemaBuilder.tsx:27-42 | total over strings. The default of each non-nested tag is the one value of that kind among "default_value", 0, false and `[]`. It is `undefined` exactly for "nested", and `""` for any string outside the five tags |
| `Builder.CreateNewField` | components/JsonSchemaBuilder.tsx:44-50 | a fresh field keeps the given id and type, defaulting to "string". Its name is "field_" plus the generated id, so it is never blank. Its default is the type's default. `nested` is present (and empty) exactly for "nested", which is also exactly when the default is `undefined`. `fields` is absent |
| `Builder.InstanceMembers` | components/JsonSchemaBuilder.tsx:52-68 | the instance document has distinct keys. Its keys are exactly the names of the fields whose trimmed name is non-empty, other than `"__proto__"`. So blank-named fields are absent, and the empty list gives `{}` |
| `Builder.InstanceValue` | components/JsonSchemaBuilder.tsx:60-64 | a field's instance value is an object exactly when its type is "nested" and its `nested` list is present. Otherwise it is the field's default value |
| `Builder.InstanceGet` | components/JsonSchemaBuilder.tsx:57-65 | reading own key k gives nothing for a blank k, for `"__proto__"` or for an unused name. Otherwise it gives the value of the last field named k: the recursion on `nested` for a "nested" field whose `nested` is present, else its default value |
| `Builder.GenerateJsonFromFormData` | components/JsonSchemaBuilder.tsx:52-68 | the loop (with its early return for an empty list) computes exactly the instance document |
| `Builder.SchemaMembers` | components/JsonSchemaBuilder.tsx:209-221 | the schema document has distinct keys. Its keys are exactly the names of all fields other than `"__proto__"`, blank names included |
| `Builder.SchemaValue` | components/JsonSchemaBuilder.tsx:213-217 | a field's schema value is an object exactly when its type is "nested", and `{}` when its `fields` list is absent. Otherwise it is the type tag itself |
| `Builder.SchemaGet` | components/JsonSchemaBuilder.tsx:212-218 | reading own key k gives nothing for `"__proto__"` or for an unused name. Otherwise it gives the value of the last field named k: the recursion on `fields` (`{}` when absent) for a "nested" field, else its type tag |
| `Builder.GetJsonSchemaFromFields` | components/JsonSchemaBuilder.tsx:209-221 | the loop computes exactly the schema document |
| `Builder.SameKeyOrder` | components/JsonSchemaBuilder.tsx:52-68 | when no field name is blank, the instance and schema documents list the same keys in the same order |
| `Builder.InstanceIgnoresFields` | components/JsonSchemaBuilder.tsx:60-64 | the instance document depends only on names, types, defaults and `nested` lists. Ids and `fields` lists play no part |
| `Builder.SchemaIgnoresNested` | components/JsonSchemaBuilder.tsx:212-218 | the schema document depends only on names, types and `fields` lists. Ids, defaults and `nested` lists play no part |
| `JsObject.Get` | components/types.ts:4-6 | a key reads as present exactly when it is among the object's keys, and it then reads its stored member |
| `JsObject.KeysOfKeySeq` | components/types.ts:4-6 | the set of own keys is exactly the set of entries of the insertion-ordered key sequence |
| `JsObject.Put` | components/JsonSchemaBuilder.tsx:61-63 | after `o[k] = v` with k other than `"__proto__"`, the keys are the old keys plus k, k reads v, and every other key reads as before. Assigning `"__proto__"` leaves the own members unchanged |
| `JsObject.PutDistinct` | components/JsonSchemaBuilder.tsx:214-216 | assignment keeps an object's keys distinct |
| `JsObject.PutKeySeq` | components/JsonSchemaBuilder.tsx:214-216 | in insertion order, assigning an existing key or `"__proto__"` keeps the key sequence. A new key is added last |
| `Form.ApplyEdit` | components/JsonSchemaBuilder.tsx:115-181 | renaming writes only `name`. Retyping writes only `type`, keeping default and children. Appending a child grows `fields` by that child at the end. Removing drops exactly the indexed child. Id and the other parts are unchanged. Child edits apply only to "nested" rows, the only rows that render child controls |
| `Form.ApplyAt` | components/JsonSchemaBuilder.tsx:87-97 | an edit at a path keeps the root list's length and every root entry other than the path's first |
| `Form.AtApplyAt` | components/JsonSchemaBuilder.tsx:87-97 | after an edit, the path still names a row, and that row holds the edited field |
| `Form.AncestorFrame` | components/JsonSchemaBuilder.tsx:87-97 | an edit leaves every ancestor of the edited row rendered, with its id, name, type, default and `nested` list unchanged and its child list of the same length |
| `Form.ApplyAtFrame` | components/JsonSchemaBuilder.tsx:163-171 | an edit leaves unchanged, and still rendered, every row whose path is neither a prefix nor an extension of the edited path |
| `Form.AppendChildUnbounded` | components/JsonSchemaBuilder.tsx:161-181 | on a "nested" row, "Add Field" grows the child list by exactly one and keeps earlier children. It checks no bound |
| `Form.ChildEditsInvisibleToInstance` | components/JsonSchemaBuilder.tsx:90-97 | edits below the root, and appending or removing children of a root row, leave the instance document unchanged |
| `Form.BuilderForm.constructor` | components/JsonSchemaBuilder.tsx:189-195 | the form starts with a fresh "string" field followed by a fresh "number" field |
| `Form.BuilderForm.AddField` | components/JsonSchemaBuilder.tsx:223-225 | appends one fresh "string" field to the root list, with no bound |
| `Form.BuilderForm.Remove` | components/JsonSchemaBuilder.tsx:136-146 | drops exactly the indexed root row and its subtree |
| `Form.BuilderForm.Update` | components/JsonSchemaBuilder.tsx:114-181 | for a path whose every row above the target is "nested" and an edit that applies there, the tree becomes the edited tree, and the addressed row holds the edited field |
| `Form.BuilderForm.Preview` | components/JsonSchemaBuilder.tsx:298-305 | the preview is exactly the schema document of the current fields |
| `Schemas.ValidFieldLocal` | components/schemas.ts:4-17 | a field passes exactly when every field reachable through `nested` has a non-empty (untrimmed) name, one of the five tags, and at most four `nested` entries |
| `Schemas.ValidFormLocal` | components/schemas.ts:19-21 | a root list passes exactly when every field reachable from it through `nested` passes those checks. The empty list passes |
| `Schemas.ValidField` | components/schemas.ts:4-17 | a passing field has a non-empty name (no trimming) and one of the five tags. More than four `nested` entries always fail. A field without `nested` passes exactly on name and tag, whatever its default value |
| `Schemas.ValidForm` | components/schemas.ts:19-21 | the form passes exactly when every root field passes. The empty list passes |
| `Schemas.NewFieldValid` | components/schemas.ts:4-17 | every fresh field passes, whatever its type |
| `Schemas.ValidIgnoresFields` | components/schemas.ts:5-16 | validity does not depend on the default value, the id or the `fields` list |
| `Schemas.ChildEditsInvisibleToValidator` | components/schemas.ts:10-15 | edits below the root, and appending or removing children of a root row, never change whether the form passes, however many children result |
| `Schemas.AddFieldKeepsValid` | components/JsonSchemaBuilder.tsx:223-225 | appending a fresh field keeps a passing form passing |
| `Schemas.RootEditValidity` | components/schemas.ts:7-8 | editing a root row of a passing form keeps it passing, except renaming it to the empty string |
| `Schemas.BlankNameValidButSkipped` | components/schemas.ts:7 | a name of spaces passes the validator, and the instance document skips it |
| `Scenarios.RetypeKeepsStaleDefault` | components/JsonSchemaBuilder.tsx:117-133 | a fresh row retyped to "nested" shows "default_value" in the instance document and `{}` in the schema document |
| `Scenarios.ProfileSchema` | components/JsonSchemaBuilder.tsx:209-221 | age/profile/active tree: the schema is `{"age":"number","profile":{"active":"boolean"}}` |
| `Scenarios.ProfileInstance` | components/JsonSchemaBuilder.tsx:52-68 | for the same tree, the instance is `{"age":0,"profile":"default_value"}` |
| `Scenarios.DuplicateSchema` | components/JsonSchemaBuilder.tsx:212-218 | for two siblings named x, a "string" one then a "number" one, the schema is `{"x":"number"}`: the later one wins |
| `Scenarios.DuplicateInstance` | components/JsonSchemaBuilder.tsx:57-65 | for the same siblings, the instance is `{"x":0}`: the later default wins |
| `Scenarios.BlankNameDocuments` | components/JsonSchemaBuilder.tsx:58 | a whitespace-only name is absent from the instance document and present in the schema document |

## Left out

- Rendering: the JSX of the rows and the builder, `depthColor` styling, and the delete-button display conditions. They are presentation.
- The form library (`useForm`, `watch`, `register`, `Controller`, `useFieldArray`, `zodResolver`). Only the net effect on the field lists is modelled, as list replacement.
- `generateId` (`lib/utils`) is not part of this model. Generated ids are parameters.
- Clipboard writes, toasts and `JSON.stringify` text formatting are I/O. `JSON.stringify` would drop members whose value is `undefined`; the model keeps them in the object.
- The validator's error messages. Only the boolean predicate is modelled.
- `trim()` is modelled with a fixed whitespace set (space, tab, line feed, vertical tab, form feed, carriage return, no-break space), not the full Unicode set.
- JavaScript numbers are doubles. The model uses integers, and only `0` is ever produced.
- `[]` as a default is both a `string[]` and a `number[]`. The model writes it as an empty list of strings.
- `generateJsonFromFormData` accepting `null`/`undefined` (`!fields`) and names being `undefined` (`?.`) are not modelled. Lists and names are always present here.
- Form.BuilderForm.Remove: requires an index in range. The rows only call it with their own index, and the form library's behaviour for other indexes is not modelled.
- JsObject.PutKeySeq: states insertion order, which is the order of the model's members. JavaScript enumerates array-index keys (such as `"0"` or `"12"`) first, in ascending numeric order, and only then the other keys in insertion order. That enumeration order, and hence the order in which the preview prints such keys, is not modelled.
- JsObject.Put: assigning `"__proto__"` is modelled as adding no own member. The prototype change it makes when the value is an object or `null` is not modelled. Once `null` (or an object whose prototype chain ends without `Object.prototype`) has been assigned to `"__proto__"`, the setter is gone, and a later `"__proto__"` assignment adds an own member in JavaScript. The model never adds one.
- Builder.InstanceMembers: only the instance document can meet that case, and only when some field named `"__proto__"` in the tree has the default `Null`. For two such fields, a `Null` one then a `Num(0)` one, JavaScript gives `{"__proto__":0}` while the model gives `{}`. No field the builder creates has a `Null` default. The same applies to Builder.InstanceGet. The schema document only assigns type tags and objects whose chains end in `Object.prototype`, so it is not affected.
- Form.ApplyEdit: retyping is limited to the dropdown's four options ("array" is not offered).
