/**
 * LocalSearchHfqlExecutionResult: the HFQL result cursor over a local search, as
 * a class whose fields are the Java fields and whose methods are proved to move
 * the cursor exactly as the functions of HfqlModel describe, so that the
 * guarantees proved in HfqlProperties hold of every object.
 */
module HfqlCursor {
  import opened Wrappers
  import opened JavaStrings
  import opened HfqlModel
  import HfqlProperties

  class LocalSearchHfqlExecutionResult {
    const statement: seq<SelectClause>
    const searchResult: SearchProvider
    const executionContext: (Resource, string) -> Result<seq<PathValue>, Fault>
    const limit: Option<int>
    const whereClausePredicate: Resource -> Result<bool, Fault>
    const columnNames: seq<string> := Aliases(statement)
    /** Only used to start the search; kept so that the query can be named. */
    ghost const initialOffset: nat

    var totalRowsFetched: int
    var nextSearchResultRow: int
    var nextBatchRow: int
    var nextBatch: Option<seq<Resource>>
    var nextResource: Option<Resource>
    var exhausted: bool
    var nextResourceSearchRow: int
    var errorRow: Option<Row>
    /** Bookkeeping of the model: windows requested, offsets accepted, offsets returned as data rows. */
    ghost var windows: seq<int>
    ghost var accepted: seq<int>
    ghost var emitted: seq<int>

    /** The fixed inputs of this execution. */
    ghost function Q(): Query
    {
      Query(searchResult, statement, executionContext, whereClausePredicate, limit, initialOffset)
    }

    /** The cursor's fields as a value. */
    ghost function State(): Cursor
      reads this
    {
      Cursor(totalRowsFetched, nextSearchResultRow, nextBatchRow, nextBatch, nextResource, exhausted,
             nextResourceSearchRow, errorRow, windows, accepted, emitted)
    }

    ghost predicate Valid()
      reads this
    {
      HfqlProperties.Valid(Q(), State())
    }

    constructor(theStatement: seq<SelectClause>, theSearchResult: SearchProvider,
                theExecutionContext: (Resource, string) -> Result<seq<PathValue>, Fault>,
                theLimit: Option<int>, theInitialOffset: nat,
                theWhereClausePredicate: Resource -> Result<bool, Fault>)
      ensures Q() == Query(theSearchResult, theStatement, theExecutionContext, theWhereClausePredicate,
                           theLimit, theInitialOffset)
      ensures State() == Initial(Q())
      ensures Valid()
    {
      statement := theStatement;
      searchResult := theSearchResult;
      executionContext := theExecutionContext;
      limit := theLimit;
      initialOffset := theInitialOffset;
      whereClausePredicate := theWhereClausePredicate;
      totalRowsFetched := 0;
      nextSearchResultRow := theInitialOffset;
      nextBatchRow := 0;
      nextBatch := None;
      nextResource := None;
      exhausted := false;
      nextResourceSearchRow := 0;
      errorRow := None;
      windows := [];
      accepted := [];
      emitted := [];
      new;
      HfqlProperties.InitialValid(Q());
    }

    /** The column names are the SELECT aliases, in order. */
    function GetColumnNames(): (r: seq<string>)
      ensures |r| == |statement| && forall i :: 0 <= i < |r| ==> r[i] == statement[i].alias
    {
      columnNames
    }

    /** hasNext: fetches if nothing is pending, and reports whether a resource is. */
    method HasNext() returns (r: bool)
      requires Valid()
      modifies this
      ensures Valid()
      ensures (State(), r) == HfqlModel.HasNext(Q(), old(State()))
    {
      HfqlProperties.FetchNextValid(Q(), State());
      FetchNextResource();
      r := nextResource.Some?;
    }

    /** fetchNextResource; an exception from the provider or the predicate becomes the stored error row. */
    method FetchNextResource()
      requires Indexable(State())
      modifies this
      ensures State() == FetchNext(Q(), old(State()))
    {
      if nextResource.Some? {
        return;
      }
      ghost var start := State();
      while nextResource.None? && !exhausted
        invariant Indexable(State())
        invariant Loop(Q(), State()) == Loop(Q(), start)
        decreases if nextResource.None? && !exhausted then 1 else 0, Windows(Q(), State()), BatchLeft(State())
      {
        ghost var before := State();
        var thrown := FetchPass();
        if thrown {
          return;
        }
        if Continues(Step(Q(), before)) {
          StepDecreases(Q(), before);
        }
      }
      if nextResource.Some? {
        totalRowsFetched := totalRowsFetched + 1;
        if limit.Some? && totalRowsFetched >= limit.value {
          exhausted := true;
        }
      }
    }

    /**
     * One pass of the fetch loop: fetch a window if there is no batch, take the
     * batch's next entry (or note the end of the search, or drop a used-up batch),
     * and let go of an entry the predicate rejects. An exception ends the cursor
     * with an error row and reports that it was thrown.
     */
    method FetchPass() returns (thrown: bool)
      requires Indexable(State()) && nextResource.None? && !exhausted
      modifies this
      ensures thrown <==> Step(Q(), old(State())).fault.Some?
      ensures !thrown ==> State() == Step(Q(), old(State())).cursor
      ensures thrown ==> State() == StoreError(Step(Q(), old(State())).cursor, Step(Q(), old(State())).fault.value.message)
    {
      var fault := FetchWindow();
      if fault.Some? {
        var _ := CreateAndStoreErrorRow(fault.value.message);
        return true;
      }
      PickEntry();
      fault := TestEntry();
      if fault.Some? {
        var _ := CreateAndStoreErrorRow(fault.value.message);
        return true;
      }
      return false;
    }

    /** The window fetch of a pass: BATCH_SIZE offsets from nextSearchResultRow, when there is no batch. */
    method FetchWindow() returns (fault: Option<Fault>)
      requires Indexable(State())
      modifies this
      ensures FetchBatch(Q(), old(State())) == if fault.Some? then Failure(fault.value) else Success(State())
      ensures fault.Some? ==> State() == old(State())
    {
      if nextBatch.None? {
        var from := nextSearchResultRow;
        var batch := GetResources(searchResult, from, from + BATCH_SIZE);
        if batch.Failure? {
          return Some(batch.error);
        }
        nextBatch := Some(batch.value);
        windows := windows + [from];
        nextBatchRow := 0;
        nextSearchResultRow := nextSearchResultRow + BATCH_SIZE;
      }
      return None;
    }

    /** The batch step of a pass: end of search, next entry pending, or the used-up batch dropped. */
    method PickEntry()
      requires Indexable(State()) && nextBatch.Some?
      modifies this
      ensures State() == Pick(old(State()))
    {
      if nextBatch.value == [] {
        exhausted := true;
      } else if |nextBatch.value| > nextBatchRow {
        nextResource := Some(nextBatch.value[nextBatchRow]);
        nextResourceSearchRow := (nextSearchResultRow - BATCH_SIZE) + nextBatchRow;
        nextBatchRow := nextBatchRow + 1;
      } else {
        nextBatch := None;
      }
    }

    /** The WHERE step of a pass: a pending resource the predicate rejects is let go. */
    method TestEntry() returns (fault: Option<Fault>)
      modifies this
      ensures Test(Q(), old(State())) == Outcome(State(), fault)
    {
      if nextResource.Some? {
        var test := whereClausePredicate(nextResource.value);
        if test.Failure? {
          return Some(test.error);
        }
        if !test.value {
          nextResource := None;
        } else {
          accepted := accepted + [nextResourceSearchRow];
        }
      }
      return None;
    }

    /** getNextRow: a stored error row, else the pending resource projected into a row. */
    method GetNextRow() returns (r: Result<Row, string>)
      requires Valid()
      modifies this
      ensures Valid()
      ensures (State(), r) == NextRow(Q(), old(State()))
    {
      HfqlProperties.NextRowValid(Q(), State());
      FetchNextResource();
      r := DeliverRow();
    }

    /** The part of getNextRow after the fetch: hand out what the fetch left. */
    method DeliverRow() returns (r: Result<Row, string>)
      requires Indexable(State())
      modifies this
      ensures (State(), r) == Deliver(Q(), old(State()))
    {
      if errorRow.Some? {
        var row := errorRow.value;
        errorRow := None;
        return Success(row);
      }
      if nextResource.None? {
        return Failure(NO_MORE_RESULTS);
      }
      var projected := ProjectColumns(nextResource.value);
      match projected {
        case Failure(failure) =>
          var row := CreateAndStoreErrorRow(Some(ProjectionErrorMessage(failure)));
          return Success(row.value);
        case Success(values) =>
          nextResource := None;
          emitted := emitted + [nextResourceSearchRow];
          return Success(Row(nextResourceSearchRow, values));
      }
    }

    /**
     * The select-clause loop of getNextRow: each clause evaluated on the resource in
     * turn, the first element of its result kept, until a clause throws.
     */
    method ProjectColumns(resource: Resource) returns (p: Result<seq<Option<string>>, ProjectionFailure>)
      ensures p == Project(Q(), statement, resource)
    {
      var values: seq<Option<string>> := [];
      for columnIndex := 0 to |statement|
        invariant Project(Q(), statement[..columnIndex], resource) == Success(values)
      {
        var clause := statement[columnIndex].clause;
        var columnValues := executionContext(resource, clause);
        if columnValues.Failure? {
          HfqlProperties.ProjectFailsAt(Q(), statement, columnIndex, resource);
          return Failure(ProjectionFailure(clause, columnValues.error));
        }
        var value: Option<string> := None;
        if columnValues.value != [] {
          var first := columnValues.value[0];
          if first.IdValue? {
            value := first.idPart;
          } else if first.Encodable? {
            value := Some(first.encoded);
          }
        }
        assert statement[..columnIndex + 1][..columnIndex] == statement[..columnIndex];
        values := values + [value];
      }
      assert statement[..|statement|] == statement;
      return Success(values);
    }

    /**
     * createAndStoreErrorRow: ends the cursor and stores a one-value error row, which it
     * also returns. For a null message List.of throws a NullPointerException after the
     * cursor has ended: nothing is stored, and None stands for the exception.
     */
    method CreateAndStoreErrorRow(message: Option<string>) returns (row: Option<Row>)
      modifies this
      ensures State() == StoreError(old(State()), message)
      ensures message.Some? ==> row.Some? && errorRow == row
      ensures message.None? ==> row.None?
    {
      exhausted := true;
      nextResource := None;
      if message.None? {
        return None;
      }
      errorRow := Some(Row(ROW_OFFSET_ERROR, [message]));
      row := errorRow;
    }

    /** The cursor never reports itself closed. */
    predicate IsClosed()
    {
      false
    }

    /** Closing does nothing. */
    method Close()
      ensures !IsClosed()
    {
    }

    /** The search id is the provider's id. */
    function GetSearchId(): (r: string)
      ensures r == searchResult.uuid
    {
      searchResult.uuid
    }

    /** The limit, or -1 when there is none. */
    function GetLimit(): (r: int)
      ensures limit.Some? ==> r == limit.value
      ensures limit.None? ==> r == -1
    {
      if limit.Some? then limit.value else -1
    }
  }
}
