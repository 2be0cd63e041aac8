/** Schema introspection for the keyword fan-out search over `File` documents.

    The repository asks reflection for the declared field names of `File` and of
    its one embedded record type `Meta`, and for the simple name of `Meta`. Here
    those three answers are the parameters: a `Schema` value holding the names in
    the order reflection reports them. From them the module derives the process-wide field list
    `FIELDS`: the searchable top-level names followed by the dotted names of the
    embedded record's fields. */
module FieldDiscovery {

  /** What reflection reports: `File`'s declared field names, `Meta`'s simple
      class name and `Meta`'s declared field names, each in the order reflection
      reports them (which the JDK does not fix). */
  datatype Schema = Schema(fileFields: seq<string>, metaName: string, metaFields: seq<string>)

  /** The identifier field of `File`; it is never searched. */
  const ID: string := "id"

  /** Separator between the embedded record's name and one of its fields. */
  const SEPARATOR: char := '.'

  function LowerChar(c: char): char {
    if 'A' <= c <= 'Z' then (c as int + 32) as char else c
  }

  /** ASCII lower-casing, standing in for `String.toLowerCase`. */
  function Lower(s: string): (r: string)
    ensures |r| == |s|
  {
    seq(|s|, i requires 0 <= i < |s| => LowerChar(s[i]))
  }

  predicate IsId(name: string) {
    ID == name
  }

  /** The name under which `File` declares its embedded `Meta` field. */
  function FileEmbeddedClassName(metaName: string): string {
    Lower(metaName)
  }

  predicate IsFileEmbeddedClassName(name: string, metaName: string) {
    FileEmbeddedClassName(metaName) == name
  }

  /** The filter of `getFileFields`: neither the id nor the embedded record itself. */
  predicate Searchable(name: string, metaName: string) {
    !IsId(name) && !IsFileEmbeddedClassName(name, metaName)
  }

  /** `getFileFields`: the declared top-level names that pass the filter, in order. */
  function FileFields(declared: seq<string>, metaName: string): (r: seq<string>)
    ensures |r| <= |declared|
    ensures forall f :: f in r ==> f in declared && Searchable(f, metaName)
  {
    if declared == [] then []
    else if Searchable(declared[0], metaName) then [declared[0]] + FileFields(declared[1..], metaName)
    else FileFields(declared[1..], metaName)
  }

  /** `String.format("%s.%s", className, field)`. */
  function Qualified(className: string, field: string): string {
    className + [SEPARATOR] + field
  }

  /** `getFileEmbeddedFields`: every declared `Meta` field under the dotted,
      lower-cased class-name prefix, in the order reflection reports them. */
  function FileEmbeddedFields(metaName: string, metaFields: seq<string>): (r: seq<string>)
    ensures |r| == |metaFields|
    ensures forall i :: 0 <= i < |r| ==> r[i] == Lower(metaName) + "." + metaFields[i]
  {
    if metaFields == [] then []
    else [Qualified(FileEmbeddedClassName(metaName), metaFields[0])] + FileEmbeddedFields(metaName, metaFields[1..])
  }

  /** `FIELDS`: the top-level searchable names followed by the embedded ones. */
  function AllFields(schema: Schema): (r: seq<string>)
    ensures |r| == |FileFields(schema.fileFields, schema.metaName)| + |schema.metaFields|
    ensures ID !in r
    ensures FileEmbeddedClassName(schema.metaName) !in r
  {
    var top := FileFields(schema.fileFields, schema.metaName);
    var embedded := FileEmbeddedFields(schema.metaName, schema.metaFields);
    EmbeddedFieldsExcluded(schema.metaName, schema.metaFields);
    top + embedded
  }

  /** The static initializer's target: the shared list that `FIELDS` names. */
  class FieldList {
    var items: seq<string>

    constructor ()
      ensures items == []
    {
      items := [];
    }

    /** `List.addAll`: append every name, in order. */
    method AddAll(names: seq<string>)
      modifies this
      ensures items == old(items) + names
    {
      items := items + names;
    }
  }

  /** The static initializer: a fresh list filled by two `addAll` calls. */
  method InitFields(schema: Schema) returns (fields: FieldList)
    ensures fresh(fields)
    ensures fields.items == AllFields(schema)
    ensures fields.items[..|FileFields(schema.fileFields, schema.metaName)|] == FileFields(schema.fileFields, schema.metaName)
    ensures fields.items[|FileFields(schema.fileFields, schema.metaName)|..] == FileEmbeddedFields(schema.metaName, schema.metaFields)
  {
    fields := new FieldList();
    fields.AddAll(FileFields(schema.fileFields, schema.metaName));
    fields.AddAll(FileEmbeddedFields(schema.metaName, schema.metaFields));
  }

  // ---------------------------------------------------------------------------
  // Properties of the top-level list

  /** `a` is `b` with some elements dropped, the rest in their original order. */
  ghost predicate IsSubsequence<T>(a: seq<T>, b: seq<T>)
    decreases |b|
  {
    if a == [] then true
    else if b == [] then false
    else (a[0] == b[0] && IsSubsequence(a[1..], b[1..])) || IsSubsequence(a, b[1..])
  }

  /** The top-level list keeps the order in which reflection reports `File`'s fields. */
  lemma {:induction false} FileFieldsSubsequence(declared: seq<string>, metaName: string)
    ensures IsSubsequence(FileFields(declared, metaName), declared)
  {
    if declared != [] {
      FileFieldsSubsequence(declared[1..], metaName);
    }
  }

  /** Exact multiplicities: a searchable name occurs as often as it is declared,
      an excluded one never. In particular every declared name other than the
      id and the embedded class name is kept. */
  lemma {:induction false} FileFieldsCount(declared: seq<string>, metaName: string, f: string)
    ensures multiset(FileFields(declared, metaName))[f] ==
            if Searchable(f, metaName) then multiset(declared)[f] else 0
  {
    if declared != [] {
      FileFieldsCount(declared[1..], metaName, f);
      assert declared == [declared[0]] + declared[1..];
    }
  }

  /** Membership in both directions. */
  lemma FileFieldsMembership(declared: seq<string>, metaName: string, f: string)
    ensures f in FileFields(declared, metaName) <==> f in declared && f != ID && f != Lower(metaName)
  {
    FileFieldsCount(declared, metaName, f);
  }

  // ---------------------------------------------------------------------------
  // Properties of the embedded list

  lemma QualifiedHasSeparator(className: string, field: string)
    ensures Qualified(className, field)[|className|] == SEPARATOR
    ensures |Qualified(className, field)| == |className| + 1 + |field|
    ensures Qualified(className, field) != ID
    ensures Qualified(className, field) != className
  {
    var q := Qualified(className, field);
    if |q| == |ID| {
      assert ID[|className|] != SEPARATOR;
    }
  }

  /** No embedded name collides with the id or with the embedded class name. */
  lemma EmbeddedFieldsExcluded(metaName: string, metaFields: seq<string>)
    ensures ID !in FileEmbeddedFields(metaName, metaFields)
    ensures FileEmbeddedClassName(metaName) !in FileEmbeddedFields(metaName, metaFields)
  {
    var embedded := FileEmbeddedFields(metaName, metaFields);
    forall k | 0 <= k < |embedded|
      ensures embedded[k] != ID && embedded[k] != FileEmbeddedClassName(metaName)
    {
      QualifiedHasSeparator(FileEmbeddedClassName(metaName), metaFields[k]);
    }
  }

  /** Removes the embedded prefix again: the inverse of `FileEmbeddedFields`. */
  function StripPrefix(className: string, names: seq<string>): (r: seq<string>)
    requires forall n :: n in names ==> |className| + 1 <= |n|
    ensures |r| == |names|
  {
    if names == [] then [] else [names[0][|className| + 1..]] + StripPrefix(className, names[1..])
  }

  /** Stripping the prefix from the embedded names gives back `Meta`'s fields. */
  lemma {:induction false} EmbeddedFieldsRoundTrip(metaName: string, metaFields: seq<string>)
    ensures forall n :: n in FileEmbeddedFields(metaName, metaFields) ==> |Lower(metaName)| + 1 <= |n|
    ensures StripPrefix(Lower(metaName), FileEmbeddedFields(metaName, metaFields)) == metaFields
  {
    if metaFields != [] {
      EmbeddedFieldsRoundTrip(metaName, metaFields[1..]);
      var c := Lower(metaName);
      assert Qualified(c, metaFields[0])[|c| + 1..] == metaFields[0];
    }
  }

  // ---------------------------------------------------------------------------
  // Distinctness of FIELDS

  ghost predicate Distinct<T>(s: seq<T>) {
    forall i, j :: 0 <= i < j < |s| ==> s[i] != s[j]
  }

  lemma {:induction false} FileFieldsDistinct(declared: seq<string>, metaName: string)
    requires Distinct(declared)
    ensures Distinct(FileFields(declared, metaName))
  {
    if declared != [] {
      assert Distinct(declared[1..]) by {
        forall i, j | 0 <= i < j < |declared[1..]| ensures declared[1..][i] != declared[1..][j] {
          assert declared[1..][i] == declared[i + 1] && declared[1..][j] == declared[j + 1];
        }
      }
      FileFieldsDistinct(declared[1..], metaName);
      assert declared[0] !in declared[1..] by {
        forall k | 0 <= k < |declared[1..]| ensures declared[1..][k] != declared[0] {
          assert declared[1..][k] == declared[k + 1];
        }
      }
    }
  }

  lemma EmbeddedFieldsDistinct(metaName: string, metaFields: seq<string>)
    requires Distinct(metaFields)
    ensures Distinct(FileEmbeddedFields(metaName, metaFields))
  {
    var r := FileEmbeddedFields(metaName, metaFields);
    var c := Lower(metaName);
    forall i, j | 0 <= i < j < |r| ensures r[i] != r[j] {
      assert r[i][|c| + 1..] == metaFields[i];
      assert r[j][|c| + 1..] == metaFields[j];
    }
  }

  /** When reflection reports each class's field names once and top-level names
      carry no dot (both hold for Java field names), every name in `FIELDS` is
      different, so the fan-out sends each field exactly one query. */
  lemma AllFieldsDistinct(schema: Schema)
    requires Distinct(schema.fileFields) && Distinct(schema.metaFields)
    requires forall f :: f in schema.fileFields ==> SEPARATOR !in f
    ensures Distinct(AllFields(schema))
  {
    var top := FileFields(schema.fileFields, schema.metaName);
    var embedded := FileEmbeddedFields(schema.metaName, schema.metaFields);
    FileFieldsDistinct(schema.fileFields, schema.metaName);
    EmbeddedFieldsDistinct(schema.metaName, schema.metaFields);
    var r := AllFields(schema);
    assert r == top + embedded;
    forall i, j | 0 <= i < |top| && 0 <= j < |embedded| ensures top[i] != embedded[j] {
      var c := FileEmbeddedClassName(schema.metaName);
      QualifiedHasSeparator(c, schema.metaFields[j]);
      assert embedded[j][|c|] == SEPARATOR;
      assert top[i] in schema.fileFields;
    }
    forall i, j | 0 <= i < j < |r| ensures r[i] != r[j] {
      if j < |top| {
      } else if i >= |top| {
        assert r[i] == embedded[i - |top|] && r[j] == embedded[j - |top|];
      } else {
        assert r[j] == embedded[j - |top|];
      }
    }
  }

  /** The worked example: `File` declares `id, x, y, meta`, `Meta` declares `a, b`. */
  lemma AllFieldsExample()
    ensures AllFields(Schema(["id", "x", "y", "meta"], "Meta", ["a", "b"])) == ["x", "y", "meta.a", "meta.b"]
  {
    var lower := Lower("Meta");
    assert lower[0] == 'm' && lower[1..] == "eta";
    assert lower == "meta";
    var top := FileFields(["id", "x", "y", "meta"], "Meta");
    assert top == ["x", "y"];
    var embedded := FileEmbeddedFields("Meta", ["a", "b"]);
    assert embedded[0] == "meta" + "." + "a" == "meta.a";
    assert embedded[1] == "meta" + "." + "b" == "meta.b";
    assert embedded == ["meta.a", "meta.b"];
  }
}
