/**
 * Schema paths of lilac/data/dataset_utils.py: whether a schema contains a
 * path, and the schema of a map function's output nested along a path.
 */
module Schemas {
  import opened Wrappers
  import opened Paths

  /**
   * A schema field: named children (`fields`), the element field of a
   * repeated value (`repeated_field`), and the field's data type. The other
   * attributes of lilac's Field are not part of this model.
   */
  datatype Field = Field(fields: Option<map<string, Field>>, repeatedField: Option<Field>, dtype: Option<string>)

  /** A top-level Schema: a field that has only named children. */
  function SchemaOf(fields: map<string, Field>): Field
  {
    Field(Some(fields), None, None)
  }

  /** The field reached by following `path` from `f`, if every step exists. */
  function Lookup(f: Field, path: Path): Option<Field>
    decreases |path|
  {
    if path == [] then Some(f)
    else if path[0] == PathWildcard then
      match f.repeatedField
      case None => None
      case Some(element) => Lookup(element, path[1..])
    else
      if f.fields.None? || path[0] !in f.fields.value then None
      else Lookup(f.fields.value[path[0]], path[1..])
  }

  lemma LookupStep(f: Field, path: Path, i: nat)
    requires i < |path|
    ensures Lookup(f, path[i..]) ==
      if path[i] == PathWildcard then
        (if f.repeatedField.None? then None else Lookup(f.repeatedField.value, path[i + 1..]))
      else
        (if f.fields.None? || path[i] !in f.fields.value then None
         else Lookup(f.fields.value[path[i]], path[i + 1..]))
  {
  }

  /** `schema_contains_path`: walks the schema one path segment at a time. */
  method SchemaContainsPath(schema: Field, path: Path) returns (contains: bool)
    ensures contains <==> Lookup(schema, path).Some?
  {
    var current := schema;
    for i := 0 to |path|
      invariant Lookup(schema, path) == Lookup(current, path[i..])
    {
      LookupStep(current, path, i);
      var part := path[i];
      if part == PathWildcard {
        if current.repeatedField.None? {
          return false;
        }
        current := current.repeatedField.value;
      } else {
        if current.fields.None? || part !in current.fields.value {
          return false;
        }
        current := current.fields.value[part];
      }
    }
    assert path[|path|..] == [];
    contains := true;
  }

  /**
   * The field that nests `inner` along `path`: each wildcard becomes a
   * repeated field and each key a field with that single child.
   */
  function Nest(inner: Field, path: Path): Field
    decreases |path|
  {
    if path == [] then inner
    else if path[0] == PathWildcard then Field(None, Some(Nest(inner, path[1..])), None)
    else Field(Some(map[path[0] := Nest(inner, path[1..])]), None, None)
  }

  lemma NestStep(inner: Field, path: Path, i: nat)
    requires i < |path|
    ensures Nest(inner, path[i..]) ==
      if path[i] == PathWildcard then Field(None, Some(Nest(inner, path[i + 1..])), None)
      else Field(Some(map[path[i] := Nest(inner, path[i + 1..])]), None, None)
  {
  }

  /** The output schema exists exactly when the nested field has non-empty named children. */
  function OutputSchema(mapSchema: Field, outputPath: Path): Result<Field>
  {
    var nested := Nest(mapSchema, outputPath);
    if nested.fields.Some? && |nested.fields.value| > 0 then Ok(SchemaOf(nested.fields.value))
    else Err(AssertionError)
  }

  /**
   * `create_json_map_output_schema`: wraps the map schema from the last
   * path segment to the first, then asserts that the result has fields.
   */
  method CreateJsonMapOutputSchema(mapSchema: Field, outputPath: Path) returns (r: Result<Field>)
    ensures r == OutputSchema(mapSchema, outputPath)
    ensures r.Ok? <==>
      if outputPath == [] then mapSchema.fields.Some? && |mapSchema.fields.value| > 0
      else outputPath[0] != PathWildcard
    ensures r.Err? ==> r.error == AssertionError
    ensures r.Ok? ==> r.value.repeatedField.None? && r.value.dtype.None?
    ensures r.Ok? ==> Lookup(r.value, outputPath).Some?
    ensures r.Ok? && outputPath != [] ==> Lookup(r.value, outputPath) == Some(mapSchema)
  {
    var jsonSchema := mapSchema;
    var i := |outputPath|;
    while i > 0
      invariant 0 <= i <= |outputPath|
      invariant jsonSchema == Nest(mapSchema, outputPath[i..])
    {
      i := i - 1;
      NestStep(mapSchema, outputPath, i);
      if outputPath[i] == PathWildcard {
        jsonSchema := Field(None, Some(jsonSchema), None);
      } else {
        jsonSchema := Field(Some(map[outputPath[i] := jsonSchema]), None, None);
      }
    }
    assert outputPath[0..] == outputPath;
    if jsonSchema.fields.None? || |jsonSchema.fields.value| == 0 {
      return Err(AssertionError);
    }
    r := Ok(SchemaOf(jsonSchema.fields.value));
    if outputPath != [] {
      LookupNest(mapSchema, outputPath);
      assert Lookup(r.value, outputPath) == Lookup(jsonSchema, outputPath);
    }
  }

  /** Following a path through the field nested along it finds the inner field again. */
  lemma {:induction false} LookupNest(inner: Field, path: Path)
    ensures Lookup(Nest(inner, path), path) == Some(inner)
    decreases |path|
  {
    if path != [] {
      LookupNest(inner, path[1..]);
    }
  }

  /**
   * The round trip of the two operations: the output schema of a map
   * function, built along an output path that does not start with a
   * wildcard, contains that path.
   */
  lemma OutputSchemaContainsPath(mapSchema: Field, outputPath: Path)
    requires outputPath != [] && outputPath[0] != PathWildcard
    ensures OutputSchema(mapSchema, outputPath).Ok?
    ensures Lookup(OutputSchema(mapSchema, outputPath).value, outputPath) == Some(mapSchema)
  {
    LookupNest(mapSchema, outputPath);
  }

  /**
   * Along the path, the nested field is built one level per segment: at
   * depth j a repeated field with no children (wildcard) or a field whose
   * only child is the segment (key).
   */
  lemma {:induction false} NestShape(inner: Field, path: Path, j: nat)
    requires j < |path|
    ensures Lookup(Nest(inner, path), path[..j]).Some?
    ensures var f := Lookup(Nest(inner, path), path[..j]).value;
      && f.dtype.None?
      && (path[j] == PathWildcard ==> f.fields.None? && f.repeatedField.Some?)
      && (path[j] != PathWildcard ==> f.repeatedField.None? && f.fields.Some? && f.fields.value.Keys == {path[j]})
    decreases j
  {
    if j > 0 {
      assert path[..j][0] == path[0];
      assert path[..j][1..] == path[1..][..j - 1];
      NestShape(inner, path[1..], j - 1);
    }
  }
}
