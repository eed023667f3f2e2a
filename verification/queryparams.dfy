/** The `Query` struct a list request binds to, and the set of request
    parameter names reserved by it (`omitParams`, filled by `init` in crud.go). */
module QueryParams {
  import opened GoInts

  /** The bound query string of a list request. */
  datatype Query = Query(
    sort: string,
    omit: seq<string>,
    select: seq<string>,
    page: Int64,
    size: Int64)

  /** A struct field as reflection sees it: its Go name and its `form` and
      `json` tag values (the empty string when a tag is absent). */
  datatype StructField = StructField(name: string, formTag: string, jsonTag: string)

  /** The fields of `Query`, in declaration order, with their tags. */
  const QueryFields: seq<StructField> := [
    StructField("Sort", "sort", "sort,omitempty"),
    StructField("Omit", "omit", "omit,omitempty"),
    StructField("Select", "select", "select,omitempty"),
    StructField("Page", "page", "page,omitempty"),
    StructField("Size", "size", "size,omitempty")
  ]

  /** The fields of the `Result` envelope that follow the embedded `Query`. */
  const EnvelopeFields: seq<StructField> := [
    StructField("Count", "count", "count"),
    StructField("Total", "total", "total"),
    StructField("Result", "result", "result")
  ]

  /** `strings.Split(s, ",")[0]`: everything before the first comma. */
  function FirstSegment(s: string): (r: string)
    ensures r <= s
    ensures ',' !in r
    ensures r == s || s[|r|] == ','
  {
    if s == [] || s[0] == ',' then [] else [s[0]] + FirstSegment(s[1..])
  }

  /** The parameter name a field reserves: its form tag, or failing that the
      name part of its json tag. */
  function TagKey(f: StructField): (r: string)
    ensures f.formTag != "" ==> r == f.formTag
    ensures f.formTag == "" ==> r <= f.jsonTag && ',' !in r && (r == f.jsonTag || f.jsonTag[|r|] == ',')
  {
    if f.formTag != "" then f.formTag else FirstSegment(f.jsonTag)
  }

  /** The names reserved by a struct's fields. */
  function ReservedOf(fields: seq<StructField>): (r: set<string>)
    ensures |fields| > 0 ==> TagKey(fields[|fields| - 1]) in r
    decreases |fields|
  {
    if fields == [] then {} else ReservedOf(fields[..|fields| - 1]) + {TagKey(fields[|fields| - 1])}
  }

  /** The loop in `init`: visits the fields in order and marks each one's tag
      key; the result is exactly the set of tag keys of the fields. */
  method ScanTags(fields: seq<StructField>) returns (reserved: set<string>)
    ensures reserved == ReservedOf(fields)
  {
    reserved := {};
    var i := 0;
    while i < |fields|
      invariant 0 <= i <= |fields|
      invariant reserved == ReservedOf(fields[..i])
    {
      assert fields[..i + 1][..i] == fields[..i];
      var tag := fields[i].formTag;
      if tag == "" {
        tag := FirstSegment(fields[i].jsonTag);
      }
      reserved := reserved + {tag};
      i := i + 1;
    }
    assert fields[..i] == fields;
  }

  /** A name is reserved exactly when some field has it as its tag key. */
  lemma {:induction false} ReservedOfMembers(fields: seq<StructField>, k: string)
    ensures k in ReservedOf(fields) <==> exists i :: 0 <= i < |fields| && TagKey(fields[i]) == k
    decreases |fields|
  {
    if fields != [] {
      var init := fields[..|fields| - 1];
      ReservedOfMembers(init, k);
      if k in ReservedOf(init) {
        var i :| 0 <= i < |init| && TagKey(init[i]) == k;
        assert TagKey(fields[i]) == k;
      }
      if exists i :: 0 <= i < |fields| && TagKey(fields[i]) == k {
        var i :| 0 <= i < |fields| && TagKey(fields[i]) == k;
        if i < |init| {
          assert TagKey(init[i]) == k;
        }
      }
    }
  }

  /** `omitParams`: only `Query` is scanned. */
  const ReservedParams: set<string> := ReservedOf(QueryFields)

  /** The reserved names are exactly the five form tags of `Query`; the
      envelope's own names count, total and result are not reserved. */
  lemma ReservedParamsExact()
    ensures ReservedParams == {"sort", "omit", "select", "page", "size"}
    ensures "count" !in ReservedParams && "total" !in ReservedParams && "result" !in ReservedParams
  {
    var fs := QueryFields;
    assert ReservedOf(fs[..1]) == {"sort"} by {
      assert fs[..1][..0] == [];
      assert TagKey(fs[0]) == "sort";
    }
    assert ReservedOf(fs[..2]) == {"sort", "omit"} by {
      assert fs[..2][..1] == fs[..1];
      assert TagKey(fs[1]) == "omit";
    }
    assert ReservedOf(fs[..3]) == {"sort", "omit", "select"} by {
      assert fs[..3][..2] == fs[..2];
      assert TagKey(fs[2]) == "select";
    }
    assert ReservedOf(fs[..4]) == {"sort", "omit", "select", "page"} by {
      assert fs[..4][..3] == fs[..3];
      assert TagKey(fs[3]) == "page";
    }
    assert ReservedOf(fs) == {"sort", "omit", "select", "page", "size"} by {
      assert fs[..4] == fs[..5][..4] && fs[..5] == fs;
      assert TagKey(fs[4]) == "size";
    }
  }

  /** Were the envelope's fields scanned as well, "count" would be reserved
      and a model field named count could never be filtered on; `init`
      scans `Query` alone. */
  lemma EnvelopeNamesWouldBeReserved()
    ensures "count" in ReservedOf(QueryFields + EnvelopeFields)
    ensures "count" !in ReservedOf(QueryFields)
  {
    ReservedParamsExact();
    var fs := QueryFields + EnvelopeFields;
    assert TagKey(fs[5]) == "count";
    ReservedOfMembers(fs, "count");
  }

  /** A json tag `name,options` without a form tag reserves `name`. */
  lemma {:induction false} JsonTagFallback(field: string, name: string, options: string)
    requires ',' !in name
    ensures TagKey(StructField(field, "", name + "," + options)) == name
  {
    FirstSegmentOfTag(name, options);
  }

  lemma {:induction false} FirstSegmentOfTag(name: string, options: string)
    requires ',' !in name
    ensures FirstSegment(name + "," + options) == name
    decreases |name|
  {
    if name != [] {
      assert (name + "," + options)[1..] == name[1..] + "," + options;
      FirstSegmentOfTag(name[1..], options);
    }
  }
}
