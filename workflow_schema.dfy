/**
 * The form schemas for creating and duplicating a workflow
 * (`createWorkflowShema`, `duplicateWorkflowSchema`), as parsers from a JSON
 * value to the record they accept.
 *
 * An object schema accepts only a plain object (not `null`, not an array),
 * reads the keys it declares and drops every other key. An optional field
 * accepts `undefined`, that is, a missing key, but not `null`. String
 * lengths are counted in UTF-16 code units, as `length` counts them.
 */
module WorkflowSchema {
  import opened Common
  import opened Json
  import opened Strings

  const MaxNameLength: nat := 50
  const MaxDescriptionLength: nat := 80

  /** What the create form yields. */
  datatype CreateWorkflow = CreateWorkflow(name: string, description: Option<string>)

  /** What the duplicate form yields: the create form's fields and the workflow to copy. */
  datatype DuplicateWorkflow = DuplicateWorkflow(name: string, description: Option<string>, workflowId: string)

  /** `z.string().min(1).max(50)` on the value. */
  predicate NameAccepted(v: Value) {
    v.JStr? && 1 <= Utf16Length(v.s) <= MaxNameLength
  }

  /** `z.string().max(80).optional()` on the value. */
  predicate DescriptionAccepted(v: Value) {
    v == JUndefined || (v.JStr? && Utf16Length(v.s) <= MaxDescriptionLength)
  }

  /** The record conditions: a name of 1 to 50 code units and, when there is one, a description of at most 80. */
  predicate ValidCreate(w: CreateWorkflow) {
    1 <= Utf16Length(w.name) <= MaxNameLength
    && (w.description.Some? ==> Utf16Length(w.description.value) <= MaxDescriptionLength)
  }

  /** `createWorkflowShema.safeParse(v)`: the parsed record, or `None` when validation fails. */
  function ParseCreate(v: Value): (r: Option<CreateWorkflow>)
    ensures r.Some? ==> ValidCreate(r.value)
  {
    if !v.JObj? then None
    else
      var name := Get(v, "name");
      var description := Get(v, "description");
      if !NameAccepted(name) || !DescriptionAccepted(description) then None
      else Some(CreateWorkflow(name.s, if description.JStr? then Some(description.s) else None))
  }

  /** `duplicateWorkflowSchema.safeParse(v)`. */
  function ParseDuplicate(v: Value): Option<DuplicateWorkflow> {
    match ParseCreate(v)
    case None => None
    case Some(w) =>
      var id := Get(v, "workflowId");
      if id.JStr? then Some(DuplicateWorkflow(w.name, w.description, id.s)) else None
  }

  /** The object a form with these fields submits. */
  function CreateFields(w: CreateWorkflow): Fields {
    [("name", JStr(w.name))] + (if w.description.Some? then [("description", JStr(w.description.value))] else [])
  }

  /**
   * A value is accepted exactly when it is an object whose name is a string
   * of 1 to 50 code units and whose description is missing or a string of
   * at most 80; nothing else is checked. The record holds those values.
   */
  lemma ParseCreateAccepts(v: Value)
    ensures ParseCreate(v).Some? <==>
      v.JObj? && NameAccepted(Get(v, "name")) && DescriptionAccepted(Get(v, "description"))
    ensures ParseCreate(v).Some? ==>
      var w := ParseCreate(v).value;
      && Get(v, "name") == JStr(w.name)
      && Get(v, "description") == (if w.description.Some? then JStr(w.description.value) else JUndefined)
  {
  }

  /** Every valid record survives the trip through the form's object and back. */
  lemma CreateRoundTrip(w: CreateWorkflow)
    requires ValidCreate(w)
    ensures ParseCreate(JObj(CreateFields(w))) == Some(w)
  {
    var fields := CreateFields(w);
    assert Lookup(fields, "name") == JStr(w.name);
    if w.description.Some? {
      assert Lookup(fields[1..], "description") == JStr(w.description.value);
    } else {
      assert fields[1..] == [];
    }
  }

  /** Setting any other key changes nothing: unknown keys are dropped. */
  lemma OtherKeysIgnored(fields: Fields, k: string, x: Value)
    requires k != "name" && k != "description"
    ensures ParseCreate(JObj(Put(fields, k, x))) == ParseCreate(JObj(fields))
  {
    LookupPut(fields, k, x, "name");
    LookupPut(fields, k, x, "description");
  }

  /**
   * The duplicate schema is the create schema extended with a required
   * string `workflowId`: it accepts exactly what both accept, with the same
   * name and description.
   */
  lemma DuplicateExtendsCreate(v: Value)
    ensures ParseDuplicate(v).Some? <==> ParseCreate(v).Some? && Get(v, "workflowId").JStr?
    ensures ParseDuplicate(v).Some? ==>
      var d := ParseDuplicate(v).value;
      && ParseCreate(v) == Some(CreateWorkflow(d.name, d.description))
      && JStr(d.workflowId) == Get(v, "workflowId")
  {
  }

  /**
   * The bounds count code units, not characters: a name of 26 characters
   * outside the Basic Multilingual Plane is 52 units long and is refused,
   * while 25 of them are accepted.
   */
  lemma AstralNameBounds(name: string)
    requires forall i :: 0 <= i < |name| ==> IsAstral(name[i])
    ensures |name| == 26 ==> ParseCreate(JObj([("name", JStr(name))])) == None
    ensures 1 <= |name| <= 25 ==> ParseCreate(JObj([("name", JStr(name))])) == Some(CreateWorkflow(name, None))
  {
    Utf16AllAstral(name);
  }
}
