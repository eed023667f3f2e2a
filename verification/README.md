# gcrud request translation and write sequencing, in Dafny

gcrud derives a CRUD HTTP surface (get, list, create, update, delete, one record or a batch) for any gorm model.
This project models the decisions its handlers in `crud.go` make. The web framework (gin) and the ORM (gorm) are
treated as collaborators whose outcomes are inputs:

- **Reserved parameters** (`QueryParams`). The `Query` struct has the fields sort, omit, select, page and size.
  `init` builds `omitParams` from the form tags of those fields, falling back to the name part of a field's json tag.
- **Query translation** (`Translator`). `Gets` turns a bound `Query` and the raw form into a `Plan`. The plan holds
  the projection handed to `Select`, the sort handed to `Order` when it is non-empty, and `Limit`/`Offset`. It also
  holds one `key LIKE %v%` filter per parameter that is not reserved, resolves to a field and has a value. Only the
  first value `v` is used. The column in the filter is the parameter name exactly as sent, not the resolved column
  name. The schema is a list of column names plus `resolves`, which stands for gorm's
  `FieldByName`.
- **Reads** (`Reads`). `getID` parses the id with `strconv.Atoi` and converts it with Go's `uint`. `Get` treats
  record-not-found as no record and no error. `Gets` builds the envelope: the query is echoed, `Count` is the number
  of rows returned, and `Total` is the whole-table count taken before the request shapes the query.
- **Writes** (`Writes`). The store is an abstract state and each gorm statement is a function that returns a new
  state or an error.
  - `Posts` is a method. It opens one transaction, creates the items in order and stops at the first failure. Any
    error rolls the transaction back; otherwise it commits, and a failed commit becomes the error. It returns the
    transaction trace.
  - `Puts` issues its updates outside its transaction, so the updates before a failure stay applied.
  - Empty batches (`Posts`, `Puts`, `Deletes`) return without touching the store.
- **Mount names** (`Routes`). The name is normalised to `"/" + strings.TrimLeft(name, "/")`.

Go's 64-bit `int` is modelled as `GoInts.Int64`. The pagination product `(page-1)*size` wraps as Go's does
(`Wrap64`), and `uint(i)` of a negative id wraps too (`ToUint64`).

`crud.go` differs in these ways from what a generic CRUD layer might do:
- Only `Query` is scanned for reserved names, so count, total and result are not reserved.
- A repeated parameter yields a `LIKE` on its first value, never an `IN` predicate.
- `Puts` is not atomic, and `Deletes` is a single statement with no transaction.
- `Total` is counted before filters are applied.
- `crud.go` has no hook dispatch, so none is modelled.

## Model

| member | source | states |
|---|---|---|
| GoInts.Atoi | crud.go:58 | Accepts exactly an optional sign followed by decimal digits whose value fits in 64 bits, and returns that value. Anything else is a parse error naming the input. |
| GoInts.AtoiRoundTrip | crud.go:58 | Parsing the decimal spelling of any 64-bit integer gives that integer back. |
| GoInts.FormatNatRoundTrip | crud.go:58 | The digit value of the canonical decimal spelling of n is n. |
| GoInts.AtoiRejects | crud.go:58 | The empty string, a lone sign, a trailing non-digit and a leading blank are refused. |
| GoInts.AtoiRejectsOutOfRange | crud.go:58 | A well-formed decimal outside the 64-bit range is a parse error. |
| GoInts.AtoiAcceptsSignAndZeros | crud.go:58 | "+7" and "007" parse to 7, and "-0" parses to 0. |
| GoInts.Wrap64 | crud.go:138 | Go int arithmetic keeps the 64-bit value congruent modulo 2^64, and leaves in-range values unchanged. |
| GoInts.ToUint64 | crud.go:63 | uint(i) keeps the value modulo 2^64 and leaves non-negative values unchanged. |
| QueryParams.FirstSegment | crud.go:40 | The part of a tag before its first comma: a prefix with no comma, followed in the tag by a comma or by nothing. |
| QueryParams.TagKey | crud.go:37-41 | A non-empty form tag is the reserved name. Otherwise the name is the part of the json tag before its first comma: a prefix with no comma, followed by a comma or by nothing. |
| QueryParams.ReservedOf | crud.go:32-44 | Definition of the reserved set of a list of fields; it always holds the last field's tag key. Characterised by QueryParams.ReservedOfMembers. |
| QueryParams.ScanTags | crud.go:34-44 | The init loop, visiting the fields in order, marks exactly the tag keys of all the fields. |
| QueryParams.ReservedOfMembers | crud.go:34-44 | A name is reserved exactly when some field of the struct has it as its tag key. |
| QueryParams.ReservedParamsExact | crud.go:15-44 | The reserved set is exactly {sort, omit, select, page, size}. count, total and result are not in it. |
| QueryParams.EnvelopeNamesWouldBeReserved | crud.go:15-44 | Scanning the `Result` envelope's fields too would reserve count; scanning only `Query` does not. |
| QueryParams.JsonTagFallback | crud.go:38-41 | A field without a form tag reserves the name before the comma of its json tag. |
| QueryParams.FirstSegmentOfTag | crud.go:40 | Splitting "name,options" at the first comma yields name. |
| Translator.Elems | crud.go:102-104 | The set of names in a list: membership agrees with the list, and the set is empty iff the list is. |
| Translator.SelectedNames | crud.go:100-116 | After the select and omit loops, a name is selected exactly when it is wanted: not omitted, and either selected, or a column while nothing is selected and something is omitted. |
| Translator.Projection | crud.go:118-127 | When a projection is applied it holds exactly the wanted names that resolve. When none is applied, no name is wanted. |
| Translator.ProjectionMeaning | crud.go:100-127 | No projection is applied iff no name is wanted. Otherwise the projection is exactly the wanted names that resolve. A name is wanted when it is not omitted and either selected, or a column while nothing is selected and something is omitted. |
| Translator.ProjectionExcludesOmitted | crud.go:113-125 | A projected name is never an omitted one and always resolves. |
| Translator.SelectThenOmitSameName | crud.go:101-119 | select=[a] with omit=[a] applies no projection, so all columns are returned. |
| Translator.OmitOnlyExample | crud.go:107-116 | With columns a, b, c and only omit=[b], the projection is {a, c}. |
| Translator.NoSelectNoOmit | crud.go:118-127 | Without select and omit no projection is applied. |
| Translator.Paginate | crud.go:134-140 | A limit is applied iff size > 0, and it is size. An offset is applied iff size > 0 and page > 0. It is congruent to (page-1)*size modulo 2^64, and equal to it when the product fits in an int. |
| Translator.PaginateOffset | crud.go:135-139 | When (page-1)*size fits in an int, the limit is size and the offset is (page-1)*size. |
| Translator.SecondPageOfTen | crud.go:134-140 | page=2, size=10 gives limit 10 and offset 10. |
| Translator.OffsetWraps | crud.go:138 | Page 2^62+1 of size 4 wraps to offset 0. |
| Translator.Window | crud.go:134-140 | A limit bounds the number of rows returned. With neither limit nor offset every row is returned. |
| Translator.SizeDisablesPaging | crud.go:135 | size <= 0 returns every row, whatever the page. |
| Translator.PageZeroIsFirstPage | crud.go:137 | With size > 0, a page <= 0 returns the same rows as page 1. |
| Translator.WindowAt | crud.go:134-140 | With a limit and an offset, the rows returned are those from the offset up to offset+limit, cut at the end of the rows. |
| Translator.PageContents | crud.go:134-140 | Page p of size n holds rows (p-1)*n up to p*n, cut at the end of the rows. |
| Translator.PagesTile | crud.go:134-140 | Pages 1..k read in order are exactly the first k*size rows: no overlap and no gap. |
| Translator.LikePattern | crud.go:148 | The LIKE argument is the value wrapped in one '%' on each side, unescaped. |
| Translator.FilteredMeaning | crud.go:142-147 | A parameter filters exactly when it is sent with a value, resolves to a field, and is none of sort, omit, select, page and size. |
| Translator.Filters | crud.go:142-150 | Reference definition of the filters. Its keys are exactly the parameters that filter, and each maps to its first value wrapped in one '%' on each side. |
| Translator.BuildFilters | crud.go:142-150 | For any iteration order of the form, a parameter yields a filter iff it is not reserved, resolves and has a value. The filter's pattern is built from its first value. |
| Translator.ReservedNeverFilters | crud.go:143-145 | A reserved name never yields a filter, even when the schema has a field of that name. |
| Translator.OnlyFirstValueUsed | crud.go:148 | Forms that agree on names and first values yield the same filters. |
| Translator.UnknownParameterIgnored | crud.go:147 | Adding a parameter that resolves to no field leaves the filters unchanged. |
| Translator.Translate | crud.go:130-132 | The sort is forwarded iff it is non-empty, and then unchanged. |
| Reads.GetID | crud.go:56-64 | Fails iff Atoi fails, with the parse error. Otherwise returns the parsed value modulo 2^64, which is the value itself when it is non-negative. |
| Reads.GetIDRoundTrip | crud.go:56-64 | The decimal spelling of any id up to MaxInt64 is read back as that id. |
| Reads.NegativeIDWraps | crud.go:63 | "-1" is accepted and addresses id 2^64-1. |
| Reads.Get | crud.go:67-83 | A parse error is returned as is. A found record is returned. Record-not-found gives no record and no error. Any other lookup error is returned. |
| Reads.GetParsesBeforeLookup | crud.go:67-71 | A malformed id fails with its parse error whatever the store would answer. |
| Reads.Gets | crud.go:86-162 | A binding error and then a count error are returned first. Otherwise the rows found for the translated plan come back in an envelope that echoes the query, with count equal to the rows returned and total equal to the table size. |
| Reads.TotalIgnoresRequest | crud.go:93-161 | Two list requests over the same table report the same total, the table size, whatever their filters, projection and paging. |
| Writes.ApplyAll | crud.go:198-202 | Applying items left to right succeeds on at most all items, and reports no failure iff every item was applied. |
| Writes.ApplyAllFailsAtHead | crud.go:198-201 | When the first item fails, nothing is applied and that failure is reported. |
| Writes.ApplyAllUnfold | crud.go:198-202 | When the first item succeeds, its output heads the outputs, and the run continues on the rest from the new state. |
| Writes.ApplyAllStopsAtFirstFailure | crud.go:198-201 | When items 0..k-1 succeed and item k fails, the run reports exactly the outputs of the first k items, the state they reached, and item k's failure. |
| Writes.ApplyAllAppend | crud.go:198-202 | A run over xs + ys is the run over xs followed by the run over ys from the state xs reached, when xs succeeded. |
| Writes.TraceOf | crud.go:189-201 | Begin, the first n applications, and then Commit or Rollback form a well-formed transaction trace. |
| Writes.Posts | crud.go:179-205 | A binding error is returned untouched. An empty batch gives nil records, no error and no transaction. Otherwise: Begin, the items in order up to the first failure, then Rollback on failure or Commit. Any error (including a failed commit) leaves the store unchanged. Full success stores every item. On a commit failure the records are still returned. |
| Writes.Post | crud.go:165-176 | A binding or create error is returned with the store unchanged. Otherwise the created record is returned and stored. |
| Writes.Puts | crud.go:227-253 | A binding error is returned untouched. An empty batch is a no-op. Otherwise the store keeps every update before the first failure. The error is that failure, or else the commit's. |
| Writes.UpdateStep | crud.go:246-249 | One update step succeeds iff the update does. On success it moves to the updated state and keeps the value. On failure it passes on the update's error. |
| Writes.PutsNotAtomic | crud.go:246-249 | With updates [1, -1] the second fails yet the first stays applied. |
| Writes.Put | crud.go:208-224 | The id is parsed before binding, and binding happens before the update. Any error leaves the store unchanged. |
| Writes.Delete | crud.go:256-271 | The id is parsed before the delete. Any error leaves the store unchanged. |
| Writes.Deletes | crud.go:274-293 | A binding error is returned untouched. An empty id list is a no-op. Otherwise one delete of all the ids runs. |
| Writes.EmptyPutsSkipsStore | crud.go:233-235 | An empty update batch succeeds without consulting the store or the commit. |
| Writes.EmptyDeletesSkipsStore | crud.go:280-282 | An empty id list succeeds without consulting the store. |
| Routes.TrimLeftSlashes | crud.go:304 | The input is a run of slashes followed by the result, and the result does not start with a slash. |
| Routes.MountName | crud.go:304 | Begins with exactly one '/'. The name is a run of slashes followed by the rest of the result. |
| Routes.TrimSlashesPrefix | crud.go:304 | Trimming k extra leading slashes off a name gives the same result as trimming the name. |
| Routes.MountNameIdempotent | crud.go:304 | Normalising twice equals normalising once. |
| Routes.LeadingSlashesIgnored | crud.go:304 | Names that differ only in leading slashes mount at the same path. |
| Routes.MountNameExamples | crud.go:304 | "people" and "//people" mount at "/people", and "" mounts at "/". |

## Left out

- Request binding by gin (`ctx.Bind`, `ctx.Param`, `ctx.Request.Form`), `doReturn` and the HTTP status mapping are framework I/O. The bound values, or the binding error, are inputs.
- The route registration in `Mount` (crud.go:354-371) is router wiring with no logic beyond the name.
- Reflection (`getType`, `reflect.New`, `SliceOf`) and gorm's query building and execution are left out. Each statement is an input function over an abstract store state, and `FieldByName` is the uninterpreted `Schema.resolves`.
- The order of the column list handed to `Select` comes from Go map iteration and is nondeterministic, so the projection is a set.
- The `sort` token is forwarded to `Order` without validation. Only "forwarded iff non-empty" is modelled.
- How the database evaluates `LIKE` is not modelled. The value is not escaped, so '%' and '_' in it act as wildcards.
- The dialect's quoting of the selected column names (`scope.Quote`) is not modelled.
- gorm's reaction to `Select` with an empty column list is not modelled. That list arises when no selected name resolves, and the model yields `Some({})`.
- A failure of `db.Begin()` is not modelled separately. In `Posts` gorm reports it through the first `tx.Create`, so the model folds it into that statement's outcome. In `Puts` the updates run on `db`, so the failure surfaces only at `Commit`, which the model's `commitError` covers.
- The model assumes a 64-bit target, where Go's `int` is 64 bits. On a 32-bit target `int` is 32 bits: `Atoi`'s range, the wrap of the paging product and `uint` of an id would then work modulo 2^32. `GoInts.Int64`, `Wrap64` and `ToUint64` do not cover that case.
- The error returned by `Rollback` is ignored by the code and not modelled.
- A failed commit is modelled as persisting nothing.
- Translator.Window: covers non-negative limits and offsets only. The store's treatment of a negative (wrapped) offset is outside the model.
- GoInts.Atoi: does not distinguish Go's syntax errors from range errors. Both are `ParseError(input)`, because the handlers only pass the error on.
- Hook dispatch is not implemented in `crud.go` and is not modelled. The test file's hook methods are never invoked.
- crud_test.go is an HTTP harness with no value assertions and is not modelled.
