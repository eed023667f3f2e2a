/** The decision logic of `Gets` (crud.go): which columns to select, how to
    page, and which request parameters become `LIKE` filters. The gorm query
    builder is represented by the `Plan` it would be given. */
module Translator {
  import opened Wrappers
  import opened GoInts
  import opened QueryParams

  /** What the handlers need of a model's schema: the storage (column) names
      of its fields, in order, and `resolves`, standing for gorm's
      `scope.FieldByName`, which accepts a field's Go name, its column name
      and names that convert to a column name. */
  datatype Schema = Schema(columns: seq<string>, resolves: string -> bool)

  /** Every column name resolves, as `FieldByName` matches on `DBName`. */
  predicate ValidSchema(s: Schema) {
    forall i :: 0 <= i < |s.columns| ==> s.resolves(s.columns[i])
  }

  /** The raw request parameters: every name with all its values. */
  type Form = map<string, seq<string>>

  function Elems(xs: seq<string>): (r: set<string>)
    ensures forall x :: x in r <==> x in xs
    ensures r == {} <==> xs == []
  {
    if xs == [] then {} else assert xs[0] in xs; set x | x in xs
  }

  // ---------------------------------------------------------------- projection

  /** The `selected` map of `Gets` once the select and omit loops have run. */
  function SelectedNames(q: Query, columns: seq<string>): (r: set<string>)
    ensures forall n :: n in r <==> Wanted(q, columns, n)
  {
    var chosen := Elems(q.select);
    if |q.omit| > 0 then
      (if chosen == {} then Elems(columns) else chosen) - Elems(q.omit)
    else chosen
  }

  /** The column list handed to `db.Select`, or None when no projection is
      applied (all columns are returned). Names that do not resolve are dropped
      after the decision, so Some({}) is possible. */
  function Projection(q: Query, s: Schema): (r: Option<set<string>>)
    ensures r.None? ==> forall n :: !Wanted(q, s.columns, n)
    ensures r.Some? ==> forall n :: n in r.value <==> Wanted(q, s.columns, n) && s.resolves(n)
  {
    var selected := SelectedNames(q, s.columns);
    if selected != {} then Some(set n | n in selected && s.resolves(n)) else None
  }

  /** Independent statement of which names the request asks for: never an
      omitted name; a selected name; or, when nothing is selected but something
      is omitted, any column. */
  predicate Wanted(q: Query, columns: seq<string>, n: string) {
    n !in q.omit && (n in q.select || (q.select == [] && q.omit != [] && n in columns))
  }

  /** The projection applies exactly when some name is wanted, and then holds
      exactly the wanted names that resolve. */
  lemma ProjectionMeaning(q: Query, s: Schema)
    ensures Projection(q, s).None? <==> forall n :: !Wanted(q, s.columns, n)
    ensures Projection(q, s).Some? ==>
      forall n :: n in Projection(q, s).value <==> Wanted(q, s.columns, n) && s.resolves(n)
  {
    var selected := SelectedNames(q, s.columns);
    assert forall n :: n in selected <==> Wanted(q, s.columns, n);
    if selected != {} {
      var n :| n in selected;
      assert Wanted(q, s.columns, n);
    }
  }

  /** An omitted name is never projected, and only resolvable names are. */
  lemma ProjectionExcludesOmitted(q: Query, s: Schema, n: string)
    requires Projection(q, s).Some? && n in Projection(q, s).value
    ensures n !in q.omit && s.resolves(n)
  {
  }

  /** `select=[a]&omit=[a]` empties the selection, so no projection is
      applied and every column comes back. */
  lemma SelectThenOmitSameName(q: Query, s: Schema, a: string)
    requires q.select == [a] && q.omit == [a]
    ensures Projection(q, s) == None
  {
  }

  /** With columns a, b, c and only `omit=[b]`, the projection is {a, c}. */
  lemma OmitOnlyExample(q: Query, s: Schema)
    requires s.columns == ["a", "b", "c"] && ValidSchema(s)
    requires q.select == [] && q.omit == ["b"]
    ensures Projection(q, s) == Some({"a", "c"})
  {
    assert s.resolves(s.columns[0]) && s.resolves(s.columns[2]);
    var selected := SelectedNames(q, s.columns);
    assert Elems(s.columns) == {"a", "b", "c"};
    assert Elems(q.omit) == {"b"};
    assert selected == {"a", "c"};
    assert (set n | n in selected && s.resolves(n)) == {"a", "c"};
  }

  /** Without select and omit the query is not projected. */
  lemma NoSelectNoOmit(q: Query, s: Schema)
    requires q.select == [] && q.omit == []
    ensures Projection(q, s) == None
  {
  }

  // ---------------------------------------------------------------- paging

  /** `Limit` and `Offset` as handed to gorm (None: not called). */
  datatype Paging = Paging(limit: Option<Int64>, offset: Option<Int64>)

  /** The size/page rule of `Gets`; the offset is Go `int` arithmetic. */
  function Paginate(q: Query): (p: Paging)
    ensures p.limit.Some? <==> q.size > 0
    ensures p.limit.Some? ==> p.limit.value == q.size
    ensures p.offset.Some? <==> q.size > 0 && q.page > 0
    ensures p.offset.Some? ==> (p.offset.value - (q.page - 1) * q.size) % TwoTo64 == 0
    ensures p.offset.Some? && (q.page - 1) * q.size <= MaxInt64 ==> p.offset.value == (q.page - 1) * q.size
  {
    if q.size > 0 then
      Paging(Some(q.size), if q.page > 0 then Some(Wrap64((q.page - 1) * q.size)) else None)
    else Paging(None, None)
  }

  /** The offset is (page-1)*size when that product fits in an `int`. */
  lemma PaginateOffset(q: Query)
    requires q.size > 0 && q.page > 0 && (q.page - 1) * q.size <= MaxInt64
    ensures Paginate(q) == Paging(Some(q.size), Some((q.page - 1) * q.size))
  {
    assert 0 <= (q.page - 1) * q.size;
  }

  /** page=2, size=10 reads ten rows from offset 10. */
  lemma SecondPageOfTen(q: Query)
    requires q.page == 2 && q.size == 10
    ensures Paginate(q) == Paging(Some(10), Some(10))
  {
  }

  /** For a huge page number the Go product wraps: page 2^62+1 of size 4
      asks for offset 0, the first page. */
  lemma OffsetWraps(q: Query)
    requires q.page == 0x4000_0000_0000_0001 && q.size == 4
    ensures Paginate(q).offset == Some(0)
  {
  }

  /** The rows a store returns for LIMIT/OFFSET (values kept non-negative). */
  function Window<T>(rows: seq<T>, p: Paging): (w: seq<T>)
    requires p.limit.Some? ==> p.limit.value >= 0
    requires p.offset.Some? ==> p.offset.value >= 0
    ensures p.limit.Some? ==> |w| <= p.limit.value
    ensures p.limit.None? && p.offset.None? ==> w == rows
  {
    var start := if p.offset.Some? then Min(p.offset.value, |rows|) else 0;
    var end := if p.limit.Some? then Min(start + p.limit.value, |rows|) else |rows|;
    rows[start..end]
  }

  function Min(a: int, b: int): int {
    if a < b then a else b
  }

  /** A query for page `page` of `size` rows and nothing else. */
  function PageQuery(page: Int64, size: Int64): Query {
    Query("", [], [], page, size)
  }

  /** A non-positive size returns every row, whatever the page. */
  lemma SizeDisablesPaging<T>(rows: seq<T>, q: Query)
    requires q.size <= 0
    ensures Window(rows, Paginate(q)) == rows
  {
  }

  /** A non-positive page is the first page. */
  lemma PageZeroIsFirstPage<T>(rows: seq<T>, page: Int64, size: Int64)
    requires page <= 0 && size > 0
    ensures Window(rows, Paginate(PageQuery(page, size))) == Window(rows, Paginate(PageQuery(1, size)))
  {
  }

  /** Page `page` holds rows (page-1)*size up to page*size, cut at the end. */
  lemma PageContents<T>(rows: seq<T>, page: Int64, size: Int64)
    requires page > 0 && size > 0 && page * size <= MaxInt64
    ensures (PagesShrink(size, page);
             Window(rows, Paginate(PageQuery(page, size)))
             == rows[Min((page - 1) * size, |rows|)..Min(page * size, |rows|)])
  {
    PagesShrink(size, page);
    var lo := (page - 1) * size;
    PaginateOffset(PageQuery(page, size));
    WindowAt(rows, size, lo);
  }

  /** The window for a limit and an offset, free of page arithmetic. */
  lemma WindowAt<T>(rows: seq<T>, limit: Int64, offset: Int64)
    requires limit >= 0 && offset >= 0
    ensures Window(rows, Paging(Some(limit), Some(offset)))
         == rows[Min(offset, |rows|)..Min(offset + limit, |rows|)]
  {
  }

  /** Pages 1..n read in order. */
  function Pages<T>(rows: seq<T>, size: Int64, n: nat): seq<T>
    requires size > 0 && n * size <= MaxInt64
  {
    if n == 0 then []
    else
      PagesShrink(size, n);
      Pages(rows, size, n - 1) + Window(rows, Paginate(PageQuery(n, size)))
  }

  lemma PagesShrink(size: Int64, n: nat)
    requires size > 0 && n > 0 && n * size <= MaxInt64
    ensures (n - 1) * size == n * size - size
    ensures 0 <= (n - 1) * size <= MaxInt64 && n <= MaxInt64
  {
  }

  /** Reading pages 1..n in order yields the first n*size rows exactly once:
      consecutive pages neither overlap nor leave gaps. */
  lemma {:induction false} PagesTile<T>(rows: seq<T>, size: Int64, n: nat)
    requires size > 0 && n * size <= MaxInt64
    ensures Pages(rows, size, n) == rows[..Min(n * size, |rows|)]
    decreases n
  {
    if n > 0 {
      PagesShrink(size, n);
      PagesTile(rows, size, n - 1);
      PageContents(rows, n, size);
      var a := Min((n - 1) * size, |rows|);
      var b := Min(n * size, |rows|);
      assert rows[..a] + rows[a..b] == rows[..b];
    }
  }

  // ---------------------------------------------------------------- filters

  /** The `LIKE` argument built from a value: `%v%`, the value unescaped. */
  function LikePattern(v: string): (p: string)
    ensures |p| == |v| + 2 && p[0] == '%' && p[|p| - 1] == '%' && p[1..|p| - 1] == v
  {
    "%" + v + "%"
  }

  /** Whether request parameter `k` yields a filter. */
  predicate Filtered(form: Form, s: Schema, k: string) {
    k in form && k !in ReservedParams && s.resolves(k) && |form[k]| > 0
  }

  /** A parameter filters exactly when it is sent with a value, names a field
      and is none of the five `Query` parameters. */
  lemma FilteredMeaning(form: Form, s: Schema, k: string)
    ensures Filtered(form, s, k) <==> k in form && |form[k]| > 0 && s.resolves(k)
                                      && k !in {"sort", "omit", "select", "page", "size"}
  {
    ReservedParamsExact();
  }

  /** Reference definition of the filters: column name to LIKE pattern. */
  function Filters(form: Form, s: Schema): (r: map<string, string>)
    ensures forall k :: k in r <==> Filtered(form, s, k)
    ensures forall k :: k in r ==> k in form && |form[k]| > 0 && r[k] == "%" + form[k][0] + "%"
  {
    map k | k in form && Filtered(form, s, k) :: LikePattern(form[k][0])
  }

  /** The loop over `ctx.Request.Form`, visiting the names in `order` (any
      enumeration of the form's names, as Go's map range is unordered): the
      filters built are exactly one `k LIKE %v%` per name that is not reserved,
      resolves and has a value, with `v` its first value. */
  method BuildFilters(form: Form, order: seq<string>, s: Schema) returns (likes: map<string, string>)
    requires forall k :: k in form <==> k in order
    ensures forall k :: k in likes ==> Filtered(form, s, k) && likes[k] == LikePattern(form[k][0])
    ensures forall k :: Filtered(form, s, k) ==> k in likes
    ensures likes == Filters(form, s)
  {
    likes := map[];
    var i := 0;
    while i < |order|
      invariant 0 <= i <= |order|
      invariant forall k :: k in likes ==> Filtered(form, s, k) && likes[k] == LikePattern(form[k][0])
      invariant forall k :: Filtered(form, s, k) && k in order[..i] ==> k in likes
    {
      var key := order[i];
      assert key in form;
      var values := form[key];
      if key !in ReservedParams {
        if s.resolves(key) && |values| > 0 {
          likes := likes[key := LikePattern(values[0])];
        }
      }
      assert order[..i + 1] == order[..i] + [key];
      i := i + 1;
    }
    assert order[..i] == order;
    var expected := Filters(form, s);
    assert likes.Keys == expected.Keys;
    assert forall k :: k in likes ==> likes[k] == expected[k];
  }

  /** Reserved names never filter, even when the schema has such a field. */
  lemma ReservedNeverFilters(form: Form, s: Schema, k: string)
    requires k in ReservedParams
    ensures k !in Filters(form, s)
  {
  }

  /** Only the first value of a repeated parameter matters. */
  lemma OnlyFirstValueUsed(form: Form, form': Form, s: Schema)
    requires form.Keys == form'.Keys
    requires forall k :: k in form ==> (|form[k]| > 0 <==> |form'[k]| > 0)
    requires forall k :: k in form && |form[k]| > 0 ==> form[k][0] == form'[k][0]
    ensures Filters(form, s) == Filters(form', s)
  {
  }

  /** A parameter naming no field is ignored. */
  lemma UnknownParameterIgnored(form: Form, s: Schema, k: string, vs: seq<string>)
    requires k !in form && !s.resolves(k)
    ensures Filters(form[k := vs], s) == Filters(form, s)
  {
  }

  // ---------------------------------------------------------------- plan

  /** Everything `Gets` tells gorm before `Find`. */
  datatype Plan = Plan(
    columns: Option<set<string>>,
    order: Option<string>,
    paging: Paging,
    likes: map<string, string>)

  /** The translation of a bound query and its raw form. */
  function Translate(q: Query, form: Form, s: Schema): (p: Plan)
    ensures p.order.Some? <==> q.sort != ""
    ensures p.order.Some? ==> p.order.value == q.sort
  {
    Plan(Projection(q, s), if q.sort != "" then Some(q.sort) else None, Paginate(q), Filters(form, s))
  }
}
