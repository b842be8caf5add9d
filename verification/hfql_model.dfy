/**
 * The HFQL execution cursor (LocalSearchHfqlExecutionResult) as functions over its
 * state: a forward-only reader over a paged search result that fetches fixed-size
 * windows, drops resources the WHERE predicate rejects, counts accepted resources
 * against an optional limit, and projects each accepted resource into a row of
 * SELECT values. Failures become a synthetic error row that ends the cursor.
 */
module HfqlModel {
  import opened Wrappers
  import opened JavaStrings

  /** A resource the search returns; only its identity matters to the cursor. */
  type Resource(==)

  type Positive = n: int | n > 0 witness 1

  /** HfqlExecutor.BATCH_SIZE; HfqlExecutor is not part of this model, so only its positivity is used. */
  const BATCH_SIZE: Positive

  /** IHfqlExecutionResult.ROW_OFFSET_ERROR: the offset of a synthetic error row. */
  const ROW_OFFSET_ERROR: int := -1

  /** The message of the exception getNextRow throws when there is no row. */
  const NO_MORE_RESULTS: string := "No more results"

  /** An exception: only its message (possibly null) is used. */
  datatype Fault = Fault(message: Option<string>)

  /**
   * The IBundleProvider behind the search: its opaque id, the resources it holds,
   * and the window starts at which getResources throws.
   */
  datatype SearchProvider = SearchProvider(uuid: string, resources: seq<Resource>, failures: map<int, Option<string>>)

  function Min(a: int, b: int): int { if a < b then a else b }
  function Max(a: int, b: int): int { if a < b then b else a }

  /** The resources at offsets [from, to) that exist. */
  function Slice(p: SearchProvider, from: nat, to: nat): (r: seq<Resource>)
    ensures |r| == Max(0, Min(to, |p.resources|) - from)
    ensures forall i :: 0 <= i < |r| ==> r[i] == p.resources[from + i]
  {
    if from < Min(to, |p.resources|) then p.resources[from..Min(to, |p.resources|)] else []
  }

  /** IBundleProvider.getResources(from, to). */
  function GetResources(p: SearchProvider, from: nat, to: nat): (r: Result<seq<Resource>, Fault>)
    ensures from !in p.failures ==> r == Success(Slice(p, from, to))
    ensures from in p.failures ==> r == Failure(Fault(p.failures[from]))
  {
    if from in p.failures then Failure(Fault(p.failures[from])) else Success(Slice(p, from, to))
  }

  /** What one path expression evaluates to, element by element. */
  datatype PathValue =
    | IdValue(idPart: Option<string>)   // an IIdType
    | Encodable(encoded: string)        // any other element, with the string the JSON parser encodes it to
    | NullValue                         // a null element

  /** HfqlStatement.SelectClause: a FHIRPath clause and its column alias. */
  datatype SelectClause = SelectClause(clause: string, alias: string)

  /** A result row: its offset in the search result (or ROW_OFFSET_ERROR) and its values. */
  datatype Row = Row(searchRowNumber: int, values: seq<Option<string>>)

  /**
   * The fixed inputs of one execution: the provider, the SELECT clauses, the path
   * evaluator, the WHERE predicate, the limit and the starting offset.
   */
  datatype Query = Query(
    provider: SearchProvider,
    selectClauses: seq<SelectClause>,
    evaluate: (Resource, string) -> Result<seq<PathValue>, Fault>,
    wherePredicate: Resource -> Result<bool, Fault>,
    limit: Option<int>,
    initialOffset: nat)

  /**
   * The cursor's fields. windows, accepted and emitted are bookkeeping of the model,
   * not fields of the Java class: the window starts requested so far, the offsets
   * of the resources the predicate accepted, and the offsets of the data rows
   * returned.
   */
  datatype Cursor = Cursor(
    totalRowsFetched: int,
    nextSearchResultRow: int,
    nextBatchRow: int,
    nextBatch: Option<seq<Resource>>,
    nextResource: Option<Resource>,
    exhausted: bool,
    nextResourceSearchRow: int,
    errorRow: Option<Row>,
    windows: seq<int>,
    accepted: seq<int>,
    emitted: seq<int>)

  /** The state the constructor leaves. */
  function Initial(q: Query): (c: Cursor)
    ensures c.nextSearchResultRow == q.initialOffset && c.totalRowsFetched == 0
    ensures c.nextBatch.None? && c.nextResource.None? && !c.exhausted && c.errorRow.None?
  {
    Cursor(0, q.initialOffset, 0, None, None, false, 0, None, [], [], [])
  }

  /** The fields the fetch loop needs to be usable. */
  predicate Indexable(c: Cursor)
  {
    c.nextSearchResultRow >= 0 && c.nextBatchRow >= 0
  }

  /** The state after one pass of the fetch loop, and the exception it threw, if any. */
  datatype Outcome = Outcome(cursor: Cursor, fault: Option<Fault>)

  /** Fetch the next window when there is no batch; getResources may throw. */
  function FetchBatch(q: Query, c: Cursor): (r: Result<Cursor, Fault>)
    requires Indexable(c)
    ensures r.Success? ==> r.value.nextBatch.Some? && Indexable(r.value)
    ensures r.Success? ==> r.value.nextSearchResultRow >= c.nextSearchResultRow
  {
    if c.nextBatch.Some? then Success(c)
    else
      var from := c.nextSearchResultRow;
      match GetResources(q.provider, from, from + BATCH_SIZE)
      case Failure(f) => Failure(f)
      case Success(batch) =>
        Success(c.(nextBatch := Some(batch), nextBatchRow := 0, nextSearchResultRow := from + BATCH_SIZE,
                   windows := c.windows + [from]))
  }

  /**
   * An empty batch ends the search, a batch with entries left makes its next entry
   * pending at offset (window start + batch row), and a used-up batch is dropped.
   */
  function Pick(c: Cursor): (r: Cursor)
    requires Indexable(c) && c.nextBatch.Some?
    ensures Indexable(r) && r.nextSearchResultRow == c.nextSearchResultRow
  {
    var batch := c.nextBatch.value;
    if batch == [] then c.(exhausted := true)
    else if |batch| > c.nextBatchRow then
      c.(nextResource := Some(batch[c.nextBatchRow]),
         nextResourceSearchRow := (c.nextSearchResultRow - BATCH_SIZE) + c.nextBatchRow,
         nextBatchRow := c.nextBatchRow + 1)
    else c.(nextBatch := None)
  }

  /** A pending resource the WHERE predicate rejects is let go; the predicate may throw. */
  function Test(q: Query, c: Cursor): (o: Outcome)
  {
    if c.nextResource.None? then Outcome(c, None)
    else
      match q.wherePredicate(c.nextResource.value)
      case Failure(f) => Outcome(c, Some(f))
      case Success(pass) =>
        if pass then Outcome(c.(accepted := c.accepted + [c.nextResourceSearchRow]), None)
        else Outcome(c.(nextResource := None), None)
  }

  /** One pass of the while loop of fetchNextResource. */
  function Step(q: Query, c: Cursor): (o: Outcome)
    requires Indexable(c) && c.nextResource.None? && !c.exhausted
    ensures Indexable(o.cursor) && o.cursor.nextSearchResultRow >= c.nextSearchResultRow
    ensures o.cursor.emitted == c.emitted
  {
    match FetchBatch(q, c)
    case Failure(f) => Outcome(c, Some(f))
    case Success(c1) => Test(q, Pick(c1))
  }

  /** Windows not yet fetched, then entries left in the current batch. */
  function Windows(q: Query, c: Cursor): nat
  {
    Max(0, |q.provider.resources| - c.nextSearchResultRow)
  }

  function BatchLeft(c: Cursor): nat
  {
    if c.nextBatch.Some? then 1 + Max(0, |c.nextBatch.value| - c.nextBatchRow) else 0
  }

  /** The cursor the loop continues with: no exception, nothing pending, not exhausted. */
  predicate Continues(o: Outcome)
  {
    o.fault.None? && o.cursor.nextResource.None? && !o.cursor.exhausted
  }

  /** A pass that does not end the loop leaves less to scan. */
  lemma StepDecreases(q: Query, c: Cursor)
    requires Indexable(c) && c.nextResource.None? && !c.exhausted
    requires Continues(Step(q, c))
    ensures Windows(q, Step(q, c).cursor) < Windows(q, c)
            || (Windows(q, Step(q, c).cursor) == Windows(q, c) && BatchLeft(Step(q, c).cursor) < BatchLeft(c))
  {
    if c.nextBatch.None? {
      var from := c.nextSearchResultRow;
      assert |Slice(q.provider, from, from + BATCH_SIZE)| > 0;
    }
  }

  /**
   * The while loop of fetchNextResource: passes until a resource is pending, the
   * search is exhausted, or an exception is thrown.
   */
  function Loop(q: Query, c: Cursor): (o: Outcome)
    requires Indexable(c)
    ensures Indexable(o.cursor) && o.cursor.nextSearchResultRow >= c.nextSearchResultRow
    ensures o.fault.None? ==> o.cursor.nextResource.Some? || o.cursor.exhausted
    ensures o.cursor.emitted == c.emitted
    decreases Windows(q, c), BatchLeft(c)
  {
    if c.nextResource.Some? || c.exhausted then Outcome(c, None)
    else
      var o := Step(q, c);
      if Continues(o) then
        StepDecreases(q, c);
        Loop(q, o.cursor)
      else o
  }

  /**
   * createAndStoreErrorRow: the cursor ends, and a one-value error row waits to be
   * returned. For a null message, List.of throws a NullPointerException once the
   * cursor has ended, so no row is stored and the one before stays.
   */
  function StoreError(c: Cursor, message: Option<string>): (r: Cursor)
    ensures r.exhausted && r.nextResource.None?
    ensures message.Some? ==> r.errorRow == Some(Row(ROW_OFFSET_ERROR, [message]))
    ensures message.None? ==> r.errorRow == c.errorRow
    ensures r.(exhausted := c.exhausted, nextResource := c.nextResource, errorRow := c.errorRow) == c
  {
    var ended := c.(exhausted := true, nextResource := None);
    if message.None? then ended else ended.(errorRow := Some(Row(ROW_OFFSET_ERROR, [message])))
  }

  /** An accepted resource counts towards the limit; reaching it ends the search. */
  function Count(q: Query, c: Cursor): (r: Cursor)
    ensures r.totalRowsFetched == c.totalRowsFetched + 1
    ensures r.exhausted <==> c.exhausted || (q.limit.Some? && c.totalRowsFetched + 1 >= q.limit.value)
  {
    var total := c.totalRowsFetched + 1;
    c.(totalRowsFetched := total, exhausted := c.exhausted || (q.limit.Some? && total >= q.limit.value))
  }

  /** fetchNextResource. */
  function FetchNext(q: Query, c: Cursor): (r: Cursor)
    requires Indexable(c)
    ensures Indexable(r)
    ensures r.nextResource.Some? || r.exhausted
    ensures r.emitted == c.emitted
  {
    if c.nextResource.Some? then c
    else
      var o := Loop(q, c);
      if o.fault.Some? then StoreError(o.cursor, o.fault.value.message)
      else if o.cursor.nextResource.Some? then Count(q, o.cursor)
      else o.cursor
  }

  /** hasNext: fetch, then report whether a resource is pending. */
  function HasNext(q: Query, c: Cursor): (Cursor, bool)
    requires Indexable(c)
  {
    var r := FetchNext(q, c);
    (r, r.nextResource.Some?)
  }

  /** The column value of one evaluation: the first element only, by its kind. */
  function Stringify(values: seq<PathValue>): (r: Option<string>)
    ensures values == [] ==> r.None?
    ensures values != [] && values[0].IdValue? ==> r == values[0].idPart
    ensures values != [] && values[0].Encodable? ==> r == Some(values[0].encoded)
    ensures values != [] && values[0].NullValue? ==> r.None?
  {
    if values == [] then None
    else match values[0]
      case IdValue(idPart) => idPart
      case Encodable(encoded) => Some(encoded)
      case NullValue => None
  }

  /** The first clause whose evaluation threw, with the exception. */
  datatype ProjectionFailure = ProjectionFailure(clause: string, fault: Fault)

  /** The values of a row: each clause evaluated in order, until one throws. */
  function Project(q: Query, clauses: seq<SelectClause>, r: Resource): (p: Result<seq<Option<string>>, ProjectionFailure>)
    ensures p.Success? ==> |p.value| == |clauses|
  {
    if clauses == [] then Success([])
    else
      match Project(q, clauses[..|clauses| - 1], r)
      case Failure(f) => Failure(f)
      case Success(values) =>
        var last := clauses[|clauses| - 1];
        match q.evaluate(r, last.clause)
        case Failure(f) => Failure(ProjectionFailure(last.clause, f))
        case Success(columnValues) => Success(values + [Stringify(columnValues)])
  }

  /** The text that opens the message of a projection error row. */
  const EVALUATION_FAILED_TEXT: string := "Failed to evaluate FHIRPath expression \""

  /** The message of the error row for a clause that could not be evaluated. */
  function ProjectionErrorMessage(f: ProjectionFailure): string
  {
    EVALUATION_FAILED_TEXT + f.clause + "\". Error: " + NullToString(f.fault.message)
  }

  /**
   * getNextRow: fetch; a stored error row is handed out and forgotten; with nothing
   * pending the call fails with "No more results"; otherwise the pending resource
   * is projected into a row at its search offset, or, if a clause throws, into an
   * error row that is also stored.
   */
  function NextRow(q: Query, c: Cursor): (r: (Cursor, Result<Row, string>))
    requires Indexable(c)
    ensures Indexable(r.0)
  {
    Deliver(q, FetchNext(q, c))
  }

  /** The part of getNextRow after the fetch. */
  function Deliver(q: Query, c: Cursor): (r: (Cursor, Result<Row, string>))
    requires Indexable(c)
    ensures Indexable(r.0)
  {
    if c.errorRow.Some? then (c.(errorRow := None), Success(c.errorRow.value))
    else if c.nextResource.None? then (c, Failure(NO_MORE_RESULTS))
    else
      match Project(q, q.selectClauses, c.nextResource.value)
      case Failure(f) =>
        var c2 := StoreError(c, Some(ProjectionErrorMessage(f)));
        (c2, Success(c2.errorRow.value))
      case Success(values) =>
        (c.(nextResource := None, emitted := c.emitted + [c.nextResourceSearchRow]),
         Success(Row(c.nextResourceSearchRow, values)))
  }

  /** The column aliases, in SELECT order. */
  function Aliases(clauses: seq<SelectClause>): (r: seq<string>)
    ensures |r| == |clauses| && forall i :: 0 <= i < |r| ==> r[i] == clauses[i].alias
  {
    if clauses == [] then [] else Aliases(clauses[..|clauses| - 1]) + [clauses[|clauses| - 1].alias]
  }
}
