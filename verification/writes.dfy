/** The write handlers of crud.go. The store is an abstract state `S`; each
    gorm statement is a collaborator function from a state to a new state or
    an error. A transaction works on a private copy of the state: commit
    publishes the copy, rollback (and a failed commit) discards it. */
module Writes {
  import opened Wrappers
  import opened GoInts
  import opened Reads

  /** The outcome of a write handler: its result and the store afterwards. */
  datatype Written<S, T> = Written(result: Result<T, Error>, store: S)

  /** The transaction calls a batch handler makes, in order. */
  datatype Event = Begin | Apply(index: nat) | Commit | Rollback

  /** A transaction trace: empty (no transaction opened) or Begin, item
      applications in input order, then exactly one of Commit and Rollback. */
  predicate Transaction(log: seq<Event>) {
    log != [] ==>
      && |log| >= 2
      && log[0] == Begin
      && (log[|log| - 1] == Commit || log[|log| - 1] == Rollback)
      && forall i :: 0 < i < |log| - 1 ==> log[i] == Apply(i - 1)
  }

  /** Apply(0), ..., Apply(n-1). */
  function Attempts(n: nat): (log: seq<Event>)
    ensures |log| == n
    ensures forall i :: 0 <= i < n ==> log[i] == Apply(i)
  {
    if n == 0 then [] else Attempts(n - 1) + [Apply(n - 1)]
  }

  /** Begin, the first n applications and a closing event form a trace. */
  lemma TraceOf(n: nat, last: Event)
    requires last == Commit || last == Rollback
    ensures Transaction([Begin] + Attempts(n) + [last])
  {
    var log := [Begin] + Attempts(n) + [last];
    assert forall i :: 0 < i < |log| - 1 ==> log[i] == Attempts(n)[i - 1];
  }

  /** Where a run of statements over a sequence stopped: the state reached,
      the outputs of the statements that succeeded, and the first failure. */
  datatype Applied<S, Y> = Applied(state: S, done: seq<Y>, failure: Option<Error>)

  /** Reference semantics of the per-item loops: apply `step` to the items
      from left to right and stop at the first failure. */
  function ApplyAll<S, X, Y>(s: S, items: seq<X>, step: (S, X) -> Result<(S, Y), Error>): (a: Applied<S, Y>)
    ensures |a.done| <= |items|
    ensures a.failure.None? <==> |a.done| == |items|
    decreases |items|
  {
    if items == [] then Applied(s, [], None)
    else
      match step(s, items[0])
      case Failure(e) => Applied(s, [], Some(e))
      case Success(next) =>
        var rest := ApplyAll(next.0, items[1..], step);
        Applied(rest.state, [next.1] + rest.done, rest.failure)
  }

  /** A run that fails on its first item applies nothing. */
  lemma {:induction false} ApplyAllFailsAtHead<S, X, Y>(
    s: S, items: seq<X>, step: (S, X) -> Result<(S, Y), Error>, e: Error)
    requires |items| > 0 && step(s, items[0]) == Failure(e)
    ensures ApplyAll(s, items, step) == Applied(s, [], Some(e))
  {
  }

  /** A run fails exactly at the first item whose step fails: when items
      0..k-1 all succeed and item k fails, the run ends in the state the
      first k items reached, with their outputs and item k's failure; the
      items after k are never applied. */
  lemma ApplyAllStopsAtFirstFailure<S, X, Y>(
    s: S, items: seq<X>, step: (S, X) -> Result<(S, Y), Error>, k: nat, e: Error)
    requires k < |items|
    requires ApplyAll(s, items[..k], step).failure.None?
    requires step(ApplyAll(s, items[..k], step).state, items[k]) == Failure(e)
    ensures var a := ApplyAll(s, items[..k], step);
            ApplyAll(s, items, step) == Applied(a.state, a.done, Some(e))
  {
    var a := ApplyAll(s, items[..k], step);
    assert items == items[..k] + items[k..];
    ApplyAllAppend(s, items[..k], items[k..], step);
    ApplyAllFailsAtHead(a.state, items[k..], step, e);
    assert a.done + [] == a.done;
  }

  /** Splitting a run: running `items` is running a prefix, then the rest
      from where the prefix left off, when the prefix succeeded. */
  lemma {:induction false} ApplyAllAppend<S, X, Y>(
    s: S, xs: seq<X>, ys: seq<X>, step: (S, X) -> Result<(S, Y), Error>)
    requires ApplyAll(s, xs, step).failure.None?
    ensures var a := ApplyAll(s, xs, step);
            var b := ApplyAll(a.state, ys, step);
            ApplyAll(s, xs + ys, step) == Applied(b.state, a.done + b.done, b.failure)
    decreases |xs|
  {
    if xs != [] {
      var zs := xs + ys;
      assert zs[0] == xs[0];
      assert zs[1..] == xs[1..] + ys;
      var r := step(s, xs[0]);
      assert r.Success?;
      var next := r.value;
      ApplyAllUnfold(s, xs, step, next);
      ApplyAllUnfold(s, zs, step, next);
      ApplyAllAppend(next.0, xs[1..], ys, step);
      var a := ApplyAll(next.0, xs[1..], step);
      var b := ApplyAll(a.state, ys, step);
      assert [next.1] + (a.done + b.done) == ([next.1] + a.done) + b.done;
    } else {
      assert xs + ys == ys;
    }
  }

  /** One step of a run whose first item succeeds. */
  lemma ApplyAllUnfold<S, X, Y>(s: S, items: seq<X>, step: (S, X) -> Result<(S, Y), Error>, next: (S, Y))
    requires |items| > 0 && step(s, items[0]) == Success(next)
    ensures var rest := ApplyAll(next.0, items[1..], step);
            ApplyAll(s, items, step) == Applied(rest.state, [next.1] + rest.done, rest.failure)
  {
  }

  /** `Posts`: bind a batch; an empty batch returns at once (nil records, no
      error, no transaction). Otherwise open a transaction, create the items
      in order and stop at the first failure; on failure roll back, else
      commit, a failed commit becoming the error while the records (already
      assigned by `Create`) are still returned. Nothing of a batch persists
      unless the whole batch is committed. */
  method Posts<S, R>(
    db: S,
    bound: Result<seq<R>, Error>,
    create: (S, R) -> Result<(S, R), Error>,
    commitError: Option<Error>
  ) returns (records: Option<seq<R>>, err: Option<Error>, db': S, log: seq<Event>)
    ensures Transaction(log)
    ensures err.Some? ==> db' == db
    ensures bound.Failure? ==> records == None && err == Some(bound.error) && log == []
    ensures bound.Success? && bound.value == [] ==> records == None && err == None && db' == db && log == []
    ensures bound.Success? && bound.value != [] ==>
      var a := ApplyAll(db, bound.value, create);
      && (a.failure.Some? ==>
            records == None && err == a.failure
            && log == [Begin] + Attempts(|a.done| + 1) + [Rollback])
      && (a.failure.None? ==>
            records == Some(a.done) && err == commitError
            && log == [Begin] + Attempts(|bound.value|) + [Commit]
            && (commitError.None? ==> db' == a.state))
  {
    if bound.Failure? {
      return None, Some(bound.error), db, [];
    }
    var items := bound.value;
    if |items| == 0 {
      return None, None, db, [];
    }
    log := [Begin];
    var tx := db;
    var done: seq<R> := [];
    var i := 0;
    while i < |items|
      invariant 0 <= i <= |items|
      invariant |done| == i
      invariant log == [Begin] + Attempts(i)
      invariant var rest := ApplyAll(tx, items[i..], create);
                ApplyAll(db, items, create) == Applied(rest.state, done + rest.done, rest.failure)
    {
      assert items[i..][0] == items[i] && items[i..][1..] == items[i + 1..];
      match create(tx, items[i]) {
        case Failure(e) =>
          ApplyAllFailsAtHead(tx, items[i..], create, e);
          assert done + [] == done;
          assert ApplyAll(db, items, create) == Applied(tx, done, Some(e));
          assert Attempts(i + 1) == Attempts(i) + [Apply(i)];
          assert log + [Apply(i), Rollback] == [Begin] + Attempts(i + 1) + [Rollback];
          TraceOf(i + 1, Rollback);
          log := log + [Apply(i), Rollback];
          return None, Some(e), db, log;
        case Success(next) =>
          ApplyAllUnfold(tx, items[i..], create, next);
          ghost var rest := ApplyAll(next.0, items[i + 1..], create);
          assert done + ([next.1] + rest.done) == (done + [next.1]) + rest.done;
          tx := next.0;
          done := done + [next.1];
          assert Attempts(i + 1) == Attempts(i) + [Apply(i)];
          log := log + [Apply(i)];
          i := i + 1;
      }
    }
    assert items[i..] == [];
    assert done + [] == done;
    assert ApplyAll(db, items, create) == Applied(tx, done, None);
    log := log + [Commit];
    TraceOf(i, Commit);
    if commitError.Some? {
      return Some(done), commitError, db, log;
    }
    return Some(done), None, tx, log;
  }

  /** `Post`: bind one record, then create it; nothing is stored on error. */
  function Post<S, R>(db: S, bound: Result<R, Error>, create: (S, R) -> Result<(S, R), Error>): (w: Written<S, R>)
    ensures w.result.Failure? ==> w.store == db
    ensures bound.Failure? ==> w.result == Failure(bound.error)
    ensures bound.Success? ==>
      match create(db, bound.value)
      case Failure(e) => w.result == Failure(e)
      case Success(next) => w == Written(Success(next.1), next.0)
  {
    match bound
    case Failure(e) => Written(Failure(e), db)
    case Success(v) =>
      match create(db, v)
      case Failure(e) => Written(Failure(e), db)
      case Success(next) => Written(Success(next.1), next.0)
  }

  /** One update issued on the handle outside any transaction. */
  function UpdateStep<S(!new), V(!new)>(update: (S, V) -> Result<S, Error>): (r: (S, V) -> Result<(S, V), Error>)
    ensures forall st: S, v: V :: r(st, v).Success? <==> update(st, v).Success?
    ensures forall st: S, v: V :: update(st, v).Success? ==> r(st, v).value == (update(st, v).value, v)
    ensures forall st: S, v: V :: update(st, v).Failure? ==> r(st, v).error == update(st, v).error
  {
    (s: S, v: V) =>
      match update(s, v)
      case Failure(e) => Failure(e)
      case Success(s') => Success((s', v))
  }

  /** `Puts`: bind a batch of value maps; an empty batch returns at once.
      Otherwise a transaction is opened but each update is issued on the
      plain handle, so it persists at once: the store keeps every update
      before the first failure, and the error is that failure or, when all
      updates succeed, the commit's. */
  function Puts<S(!new), V(!new)>(
    db: S,
    bound: Result<seq<V>, Error>,
    update: (S, V) -> Result<S, Error>,
    commitError: Option<Error>
  ): (w: Written<S, ()>)
    ensures bound.Failure? ==> w == Written(Failure(bound.error), db)
    ensures bound.Success? && bound.value == [] ==> w == Written(Success(()), db)
    ensures bound.Success? && bound.value != [] ==>
      var a := ApplyAll(db, bound.value, UpdateStep(update));
      && w.store == a.state
      && (a.failure.Some? ==> w.result == Failure(a.failure.value))
      && (a.failure.None? && commitError.Some? ==> w.result == Failure(commitError.value))
      && (a.failure.None? && commitError.None? ==> w.result == Success(()))
  {
    match bound
    case Failure(e) => Written(Failure(e), db)
    case Success(values) =>
      if values == [] then Written(Success(()), db)
      else
        var a := ApplyAll(db, values, UpdateStep(update));
        if a.failure.Some? then Written(Failure(a.failure.value), a.state)
        else if commitError.Some? then Written(Failure(commitError.value), a.state)
        else Written(Success(()), a.state)
  }

  /** Adds each value to an integer store; negative values fail. */
  function AddOrFail(s: int, v: int): Result<int, Error> {
    if v < 0 then Failure(StoreError("negative")) else Success(s + v)
  }

  /** `Puts` is not atomic: with updates [1, -1] on store 0 the second fails,
      yet the first stays applied. */
  lemma PutsNotAtomic()
    ensures Puts(0, Success([1, -1]), AddOrFail, None).result.Failure?
    ensures Puts(0, Success([1, -1]), AddOrFail, None).store == 1
  {
    var step := UpdateStep(AddOrFail);
    assert AddOrFail(0, 1) == Success(1);
    assert AddOrFail(1, -1) == Failure(StoreError("negative"));
    assert step(0, 1) == Success((1, 1));
    assert step(1, -1) == Failure(StoreError("negative"));
    assert [1, -1][1..] == [-1];
    assert ApplyAll(1, [-1], step) == Applied(1, [], Some(StoreError("negative")));
  }

  /** `Put`: parse the id, bind the value map, update the addressed record. */
  function Put<S, V>(db: S, param: string, bound: Result<V, Error>, update: (S, Uint64, V) -> Result<S, Error>): (w: Written<S, ()>)
    ensures w.result.Failure? ==> w.store == db
    ensures GetID(param).Failure? ==> w.result == Failure(ParseError(param))
    ensures GetID(param).Success? && bound.Failure? ==> w.result == Failure(bound.error)
    ensures GetID(param).Success? && bound.Success? ==>
      match update(db, GetID(param).value, bound.value)
      case Failure(e) => w.result == Failure(e)
      case Success(s') => w == Written(Success(()), s')
  {
    match GetID(param)
    case Failure(e) => Written(Failure(e), db)
    case Success(id) =>
      match bound
      case Failure(e) => Written(Failure(e), db)
      case Success(v) =>
        match update(db, id, v)
        case Failure(e) => Written(Failure(e), db)
        case Success(s') => Written(Success(()), s')
  }

  /** `Delete`: parse the id, delete the addressed record. */
  function Delete<S>(db: S, param: string, deleteID: (S, Uint64) -> Result<S, Error>): (w: Written<S, ()>)
    ensures w.result.Failure? ==> w.store == db
    ensures GetID(param).Failure? ==> w.result == Failure(ParseError(param))
    ensures GetID(param).Success? ==>
      match deleteID(db, GetID(param).value)
      case Failure(e) => w.result == Failure(e)
      case Success(s') => w == Written(Success(()), s')
  {
    match GetID(param)
    case Failure(e) => Written(Failure(e), db)
    case Success(id) =>
      match deleteID(db, id)
      case Failure(e) => Written(Failure(e), db)
      case Success(s') => Written(Success(()), s')
  }

  /** `Deletes`: bind a list of ids; an empty list returns at once, else one
      `id IN (...)` statement deletes them all. */
  function Deletes<S>(db: S, bound: Result<seq<Uint64>, Error>, deleteIn: (S, seq<Uint64>) -> Result<S, Error>): (w: Written<S, ()>)
    ensures w.result.Failure? ==> w.store == db
    ensures bound.Failure? ==> w.result == Failure(bound.error)
    ensures bound.Success? && bound.value == [] ==> w == Written(Success(()), db)
    ensures bound.Success? && bound.value != [] ==>
      match deleteIn(db, bound.value)
      case Failure(e) => w.result == Failure(e)
      case Success(s') => w == Written(Success(()), s')
  {
    match bound
    case Failure(e) => Written(Failure(e), db)
    case Success(ids) =>
      if ids == [] then Written(Success(()), db)
      else
        match deleteIn(db, ids)
        case Failure(e) => Written(Failure(e), db)
        case Success(s') => Written(Success(()), s')
  }

  /** An empty batch of updates never reaches the store: the outcome is the
      same whatever the updates and the commit would have done. */
  lemma EmptyPutsSkipsStore<S(!new), V(!new)>(
    db: S,
    update: (S, V) -> Result<S, Error>, update': (S, V) -> Result<S, Error>,
    commitError: Option<Error>, commitError': Option<Error>)
    ensures Puts(db, Success([]), update, commitError) == Puts(db, Success([]), update', commitError')
    ensures Puts(db, Success([]), update, commitError) == Written(Success(()), db)
  {
  }

  /** An empty list of ids never reaches the store. */
  lemma EmptyDeletesSkipsStore<S>(
    db: S, deleteIn: (S, seq<Uint64>) -> Result<S, Error>, deleteIn': (S, seq<Uint64>) -> Result<S, Error>)
    ensures Deletes(db, Success([]), deleteIn) == Deletes(db, Success([]), deleteIn')
    ensures Deletes(db, Success([]), deleteIn) == Written(Success(()), db)
  {
  }
}
