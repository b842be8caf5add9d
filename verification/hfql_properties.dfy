/**
 * What the HFQL cursor guarantees, proved about the functions of HfqlModel:
 * windows are requested at consecutive multiples of the batch size from the
 * initial offset, a resource is skipped only when the WHERE predicate rejects it,
 * the data rows come out in search order, the limit bounds the accepted
 * resources, and an error row ends the cursor.
 */
module HfqlProperties {
  import opened Wrappers
  import opened HfqlModel

  /** The offset of the next entry to be examined. */
  function Scan(c: Cursor): int
  {
    if c.nextBatch.Some? then c.nextSearchResultRow - BATCH_SIZE + c.nextBatchRow else c.nextSearchResultRow
  }

  /** The resource at offset o exists and the WHERE predicate accepts it. */
  predicate Passes(q: Query, o: int)
  {
    0 <= o < |q.provider.resources| && q.wherePredicate(q.provider.resources[o]) == Success(true)
  }

  /** The offsets in [lo, hi) whose resources the predicate accepts, in increasing order. */
  function Accepted(q: Query, lo: int, hi: int): seq<int>
    decreases hi - lo
  {
    if hi <= lo then [] else Accepted(q, lo, hi - 1) + (if Passes(q, hi - 1) then [hi - 1] else [])
  }

  /** The window starts w, requested from off on, each one batch after the one before, and the next start. */
  predicate Consecutive(off: int, w: seq<int>, next: int)
    decreases |w|
  {
    if w == [] then next == off else w[|w| - 1] + BATCH_SIZE == next && Consecutive(off, w[..|w| - 1], w[|w| - 1])
  }

  /** The window bookkeeping and the current batch agree with the provider. */
  predicate Structure(q: Query, c: Cursor)
  {
    Indexable(c) && c.nextSearchResultRow >= q.initialOffset
    && Consecutive(q.initialOffset, c.windows, c.nextSearchResultRow)
    && (c.nextBatch.Some? ==>
          c.nextSearchResultRow >= q.initialOffset + BATCH_SIZE
          && c.nextBatchRow <= |c.nextBatch.value|
          && c.nextBatch.value == Slice(q.provider, c.nextSearchResultRow - BATCH_SIZE, c.nextSearchResultRow))
  }

  /** Every offset examined so far was accepted exactly when the predicate passes it; a pending resource is the last one accepted. */
  predicate Scanned(q: Query, c: Cursor)
  {
    c.accepted == Accepted(q, q.initialOffset, Scan(c))
    && (c.nextResource.Some? ==>
          c.accepted != [] && c.nextResourceSearchRow == c.accepted[|c.accepted| - 1]
          && c.nextResourceSearchRow == Scan(c) - 1
          && 0 <= c.nextResourceSearchRow < |q.provider.resources|
          && c.nextResource.value == q.provider.resources[c.nextResourceSearchRow])
  }

  /** The data rows returned are the accepted resources in order, all but a pending or dropped last one. */
  predicate Emission(c: Cursor)
  {
    |c.emitted| <= |c.accepted| <= |c.emitted| + 1
    && c.emitted == c.accepted[..|c.emitted|]
    && (c.nextResource.Some? ==> |c.accepted| == |c.emitted| + 1)
    && (c.nextResource.None? && |c.accepted| == |c.emitted| + 1 ==> c.exhausted)
  }

  /** The count of accepted resources never passes the limit (or one, for a limit below one), and reaching it ends the search. */
  predicate WithinLimit(q: Query, c: Cursor)
  {
    c.totalRowsFetched == |c.accepted|
    && (q.limit.Some? ==> c.totalRowsFetched <= Max(q.limit.value, 1))
    && (q.limit.Some? && c.totalRowsFetched >= Max(q.limit.value, 1) ==> c.exhausted)
  }

  /** A stored error row has the error offset and one value, and ends the cursor. */
  predicate ErrorShape(c: Cursor)
  {
    c.errorRow.Some? ==>
      c.exhausted && c.nextResource.None?
      && c.errorRow.value.searchRowNumber == ROW_OFFSET_ERROR && |c.errorRow.value.values| == 1
  }

  /** The invariant of the cursor between calls. */
  predicate Valid(q: Query, c: Cursor)
  {
    Structure(q, c) && Scanned(q, c) && Emission(c) && WithinLimit(q, c) && ErrorShape(c)
  }

  // ---------------------------------------------------------------- Accepted

  /** Accepted lists exactly the passing offsets of [lo, hi), strictly increasing. */
  lemma {:induction false} AcceptedSpec(q: Query, lo: int, hi: int)
    ensures forall i :: 0 <= i < |Accepted(q, lo, hi)| ==>
              lo <= Accepted(q, lo, hi)[i] < hi && Passes(q, Accepted(q, lo, hi)[i])
    ensures forall i, j :: 0 <= i < j < |Accepted(q, lo, hi)| ==> Accepted(q, lo, hi)[i] < Accepted(q, lo, hi)[j]
    ensures forall o :: lo <= o < hi && Passes(q, o) ==> o in Accepted(q, lo, hi)
    decreases hi - lo
  {
    if hi > lo {
      AcceptedSpec(q, lo, hi - 1);
    }
  }

  /** Offsets past the end of the search pass nothing. */
  lemma {:induction false} AcceptedPastEnd(q: Query, lo: int, hi: int, hi2: int)
    requires |q.provider.resources| <= hi <= hi2
    ensures Accepted(q, lo, hi) == Accepted(q, lo, hi2)
    decreases hi2 - hi
  {
    if hi < hi2 {
      AcceptedPastEnd(q, lo, hi, hi2 - 1);
      assert !Passes(q, hi2 - 1);
    }
  }

  /** Window i starts i batches after the initial offset. */
  lemma {:induction false} WindowsClosedForm(off: int, w: seq<int>, next: int)
    requires Consecutive(off, w, next)
    ensures forall i :: 0 <= i < |w| ==> w[i] == off + i * BATCH_SIZE
    ensures next == off + |w| * BATCH_SIZE
    decreases |w|
  {
    if w != [] {
      var k := |w| - 1;
      WindowsClosedForm(off, w[..k], w[k]);
      assert (k + 1) * BATCH_SIZE == k * BATCH_SIZE + BATCH_SIZE;
      forall i | 0 <= i < |w|
        ensures w[i] == off + i * BATCH_SIZE
      {
        if i < k {
          assert w[i] == w[..k][i];
        }
      }
    }
  }

  // ---------------------------------------------------------------- one pass

  /** The model fields that one pass of the fetch loop leaves alone. */
  predicate Untouched(c: Cursor, d: Cursor)
  {
    d.totalRowsFetched == c.totalRowsFetched && d.emitted == c.emitted && d.errorRow == c.errorRow
  }

  /** The state once a thrown exception has cleared the pending resource. */
  function Settle(o: Outcome): Cursor
  {
    if o.fault.Some? then o.cursor.(nextResource := None) else o.cursor
  }

  lemma FetchBatchKeeps(q: Query, c: Cursor)
    requires Structure(q, c) && Scanned(q, c) && c.nextResource.None?
    ensures FetchBatch(q, c).Failure? ==> c.nextBatch.None?
    ensures FetchBatch(q, c).Success? ==>
              var c1 := FetchBatch(q, c).value;
              Structure(q, c1) && Scanned(q, c1) && c1.nextResource.None? && Untouched(c, c1)
              && c1.accepted == c.accepted && c1.exhausted == c.exhausted
  {
    if c.nextBatch.None? {
      var from := c.nextSearchResultRow;
      match GetResources(q.provider, from, from + BATCH_SIZE)
      case Failure(_) =>
      case Success(batch) =>
        var c1 := c.(nextBatch := Some(batch), nextBatchRow := 0, nextSearchResultRow := from + BATCH_SIZE,
                     windows := c.windows + [from]);
        assert FetchBatch(q, c) == Success(c1);
        assert batch == Slice(q.provider, from, from + BATCH_SIZE);
        assert Consecutive(q.initialOffset, c1.windows, c1.nextSearchResultRow) by {
          assert c1.windows[..|c1.windows| - 1] == c.windows;
        }
        assert Scan(c1) == from == Scan(c);
    }
  }

  /** The offset of the next entry to examine is never before the initial offset. */
  lemma ScanFromOffset(q: Query, c: Cursor)
    requires Structure(q, c)
    ensures Scan(c) >= q.initialOffset
  {
  }

  lemma PickTakes(q: Query, c: Cursor)
    requires Structure(q, c) && Scanned(q, c) && c.nextResource.None? && c.nextBatch.Some?
    requires c.nextBatch.value != [] && |c.nextBatch.value| > c.nextBatchRow
    ensures var c2 := Pick(c);
            Structure(q, c2) && Untouched(c, c2) && c2.accepted == c.accepted
            && c2.nextResource.Some? && c2.nextResourceSearchRow == Scan(c) && Scan(c2) == Scan(c) + 1
            && q.initialOffset <= c2.nextResourceSearchRow < |q.provider.resources|
            && c2.nextResource.value == q.provider.resources[c2.nextResourceSearchRow]
  {
  }

  lemma PickDrops(q: Query, c: Cursor)
    requires Structure(q, c) && Scanned(q, c) && c.nextResource.None? && c.nextBatch.Some?
    requires c.nextBatch.value != [] && |c.nextBatch.value| <= c.nextBatchRow
    ensures var c2 := Pick(c);
            Structure(q, c2) && Untouched(c, c2) && c2.accepted == c.accepted
            && c2.nextResource.None? && Scanned(q, c2)
  {
    var n := c.nextSearchResultRow;
    if n > |q.provider.resources| {
      AcceptedPastEnd(q, q.initialOffset, Scan(c), n);
    }
  }

  lemma PickKeeps(q: Query, c: Cursor)
    requires Structure(q, c) && Scanned(q, c) && c.nextResource.None? && c.nextBatch.Some?
    ensures var c2 := Pick(c);
            Structure(q, c2) && Untouched(c, c2) && c2.accepted == c.accepted
            && (c2.nextResource.Some? ==>
                  c2.nextResourceSearchRow == Scan(c) && Scan(c2) == Scan(c) + 1
                  && q.initialOffset <= c2.nextResourceSearchRow < |q.provider.resources|
                  && c2.nextResource.value == q.provider.resources[c2.nextResourceSearchRow])
            && (c2.nextResource.None? ==> Scanned(q, c2))
  {
    var batch := c.nextBatch.value;
    if batch != [] {
      if |batch| > c.nextBatchRow {
        PickTakes(q, c);
      } else {
        PickDrops(q, c);
      }
    }
  }

  lemma TestKeeps(q: Query, c: Cursor)
    requires Structure(q, c) && c.accepted == Accepted(q, q.initialOffset, Scan(c) - 1)
    requires c.nextResource.Some? && c.nextResourceSearchRow == Scan(c) - 1
    requires q.initialOffset <= c.nextResourceSearchRow < |q.provider.resources|
    requires c.nextResource.value == q.provider.resources[c.nextResourceSearchRow]
    ensures var o := Test(q, c);
            Structure(q, o.cursor) && Scanned(q, Settle(o)) && Untouched(c, o.cursor)
            && o.cursor.exhausted == c.exhausted
            && (if o.fault.None? && o.cursor.nextResource.Some?
                then o.cursor.accepted == c.accepted + [o.cursor.nextResourceSearchRow]
                else o.cursor.accepted == c.accepted)
  {
    var n := c.nextResourceSearchRow;
    assert Accepted(q, q.initialOffset, n + 1) == c.accepted + (if Passes(q, n) then [n] else []);
    match q.wherePredicate(c.nextResource.value)
    case Failure(f) =>
      assert !Passes(q, n);
      assert Settle(Test(q, c)) == c.(nextResource := None);
      assert Scan(c.(nextResource := None)) == n + 1;
    case Success(pass) =>
      if pass {
        assert Passes(q, n);
        assert Test(q, c).cursor == c.(accepted := c.accepted + [n]);
        assert Scan(c.(accepted := c.accepted + [n])) == n + 1;
      } else {
        assert !Passes(q, n);
        assert Test(q, c).cursor == c.(nextResource := None);
        assert Scan(c.(nextResource := None)) == n + 1;
      }
  }

  /** One pass keeps the invariant and adds to the accepted offsets only the resource it leaves pending. */
  lemma StepKeeps(q: Query, c: Cursor)
    requires Structure(q, c) && Scanned(q, c) && c.nextResource.None? && !c.exhausted
    ensures var o := Step(q, c);
            Structure(q, o.cursor) && Scanned(q, Settle(o)) && Untouched(c, o.cursor)
            && (if o.fault.None? && o.cursor.nextResource.Some?
                then o.cursor.accepted == c.accepted + [o.cursor.nextResourceSearchRow]
                else o.cursor.accepted == c.accepted)
  {
    FetchBatchKeeps(q, c);
    if FetchBatch(q, c).Success? {
      var c1 := FetchBatch(q, c).value;
      PickKeeps(q, c1);
      if Pick(c1).nextResource.Some? {
        TestKeeps(q, Pick(c1));
      }
    }
  }

  /** The whole loop keeps the invariant and accepts at most the one resource it leaves pending. */
  lemma {:induction false} LoopKeeps(q: Query, c: Cursor)
    requires Structure(q, c) && Scanned(q, c) && c.nextResource.None?
    ensures var o := Loop(q, c);
            Structure(q, o.cursor) && Scanned(q, Settle(o)) && Untouched(c, o.cursor)
            && (if o.fault.None? && o.cursor.nextResource.Some?
                then o.cursor.accepted == c.accepted + [o.cursor.nextResourceSearchRow]
                else o.cursor.accepted == c.accepted)
    decreases Windows(q, c), BatchLeft(c)
  {
    if !c.exhausted {
      StepKeeps(q, c);
      var o := Step(q, c);
      if Continues(o) {
        StepDecreases(q, c);
        LoopKeeps(q, o.cursor);
      }
    }
  }

  /**
   * A loop that ends without an exception and without a pending resource has
   * examined every offset of the search: all passing resources from the initial
   * offset on have been accepted.
   */
  lemma {:induction false} LoopScansToEnd(q: Query, c: Cursor)
    requires Structure(q, c) && Scanned(q, c) && c.nextResource.None? && !c.exhausted
    requires Loop(q, c).fault.None? && Loop(q, c).cursor.nextResource.None?
    ensures Scan(Loop(q, c).cursor) >= |q.provider.resources|
    ensures Loop(q, c).cursor.accepted == Accepted(q, q.initialOffset, Max(q.initialOffset, |q.provider.resources|))
    decreases Windows(q, c), BatchLeft(c)
  {
    StepKeeps(q, c);
    var o := Step(q, c);
    if Continues(o) {
      StepDecreases(q, c);
      LoopScansToEnd(q, o.cursor);
    } else {
      EmptyBatchScansToEnd(q, c);
    }
  }

  /** A pass that ends the search without an exception met an empty window, past the end of the search. */
  lemma EmptyBatchScansToEnd(q: Query, c: Cursor)
    requires Structure(q, c) && Scanned(q, c) && c.nextResource.None? && !c.exhausted
    requires Step(q, c).fault.None? && Step(q, c).cursor.nextResource.None? && Step(q, c).cursor.exhausted
    ensures Scan(Step(q, c).cursor) >= |q.provider.resources|
    ensures Step(q, c).cursor.accepted == Accepted(q, q.initialOffset, Max(q.initialOffset, |q.provider.resources|))
  {
    FetchBatchKeeps(q, c);
    var c1 := FetchBatch(q, c).value;
    assert c1.nextBatch == Some([]) && Step(q, c).cursor == c1.(exhausted := true) by {
      assert Step(q, c) == Test(q, Pick(c1));
    }
    assert |Slice(q.provider, c1.nextSearchResultRow - BATCH_SIZE, c1.nextSearchResultRow)| == 0;
    ScanFromOffset(q, c1);
    AcceptedPastEnd(q, q.initialOffset, Max(q.initialOffset, |q.provider.resources|), Scan(c1));
  }

  /** The limit plays no part in the fetch loop: it is consulted only after a resource is accepted. */
  lemma {:induction false} LoopIgnoresLimit(q: Query, c: Cursor, limit: Option<int>)
    requires Indexable(c)
    ensures Loop(q, c) == Loop(q.(limit := limit), c)
    decreases Windows(q, c), BatchLeft(c)
  {
    if c.nextResource.None? && !c.exhausted {
      var o := Step(q, c);
      assert o == Step(q.(limit := limit), c);
      if Continues(o) {
        StepDecreases(q, c);
        LoopIgnoresLimit(q, o.cursor, limit);
      }
    }
  }

  // ---------------------------------------------------------------- fetch and rows

  /** The constructor establishes the invariant. */
  lemma InitialValid(q: Query)
    ensures Valid(q, Initial(q))
  {
  }

  /** What the fetch loop leaves, from a valid cursor with nothing pending. */
  predicate LoopResult(q: Query, c: Cursor, o: Outcome)
  {
    Structure(q, o.cursor) && Scanned(q, Settle(o)) && Untouched(c, o.cursor)
    && (if o.fault.None? && o.cursor.nextResource.Some?
        then o.cursor.accepted == c.accepted + [o.cursor.nextResourceSearchRow]
        else o.cursor.accepted == c.accepted)
  }

  lemma FaultValid(q: Query, c: Cursor, o: Outcome)
    requires Valid(q, c) && c.nextResource.None? && !c.exhausted
    requires LoopResult(q, c, o) && o.fault.Some?
    ensures Valid(q, StoreError(o.cursor, o.fault.value.message))
  {
    assert StoreError(o.cursor, o.fault.value.message) == StoreError(Settle(o), o.fault.value.message);
  }

  lemma AcceptValid(q: Query, c: Cursor, o: Outcome)
    requires Valid(q, c) && c.nextResource.None? && !c.exhausted
    requires LoopResult(q, c, o) && o.fault.None? && o.cursor.nextResource.Some?
    ensures Valid(q, Count(q, o.cursor))
  {
  }

  lemma NothingFoundValid(q: Query, c: Cursor, o: Outcome)
    requires Valid(q, c) && c.nextResource.None? && !c.exhausted
    requires LoopResult(q, c, o) && o.fault.None? && o.cursor.nextResource.None? && o.cursor.exhausted
    ensures Valid(q, o.cursor)
  {
  }

  /** The loop's result, once counted or turned into an error row, satisfies the invariant again. */
  lemma LoopResultValid(q: Query, c: Cursor)
    requires Valid(q, c) && c.nextResource.None? && !c.exhausted
    ensures Valid(q, FetchNext(q, c))
  {
    LoopKeeps(q, c);
    var o := Loop(q, c);
    assert LoopResult(q, c, o);
    if o.fault.Some? {
      FaultValid(q, c, o);
    } else if o.cursor.nextResource.Some? {
      AcceptValid(q, c, o);
    } else {
      NothingFoundValid(q, c, o);
    }
  }

  /** fetchNextResource keeps the invariant. */
  lemma FetchNextValid(q: Query, c: Cursor)
    requires Valid(q, c)
    ensures Valid(q, FetchNext(q, c))
  {
    if c.nextResource.None? && !c.exhausted {
      LoopResultValid(q, c);
    }
  }

  /** fetchNextResource and hasNext change nothing when called again. */
  lemma FetchNextIdempotent(q: Query, c: Cursor)
    requires Indexable(c)
    ensures FetchNext(q, FetchNext(q, c)) == FetchNext(q, c)
    ensures HasNext(q, HasNext(q, c).0) == HasNext(q, c)
  {
  }

  /** Once exhausted with nothing pending, the cursor fetches nothing more. */
  lemma ExhaustedStaysExhausted(q: Query, c: Cursor)
    requires Indexable(c) && c.exhausted && c.nextResource.None?
    ensures FetchNext(q, c) == c
    ensures !HasNext(q, c).1
  {
  }

  lemma {:induction false} ProjectSuccess(q: Query, clauses: seq<SelectClause>, r: Resource)
    requires Project(q, clauses, r).Success?
    ensures forall i :: 0 <= i < |clauses| ==>
              q.evaluate(r, clauses[i].clause).Success?
              && Project(q, clauses, r).value[i] == Stringify(q.evaluate(r, clauses[i].clause).value)
  {
    if clauses != [] {
      var init := clauses[..|clauses| - 1];
      ProjectSuccess(q, init, r);
      forall i | 0 <= i < |clauses|
        ensures q.evaluate(r, clauses[i].clause).Success?
                && Project(q, clauses, r).value[i] == Stringify(q.evaluate(r, clauses[i].clause).value)
      {
        if i < |init| {
          assert clauses[i] == init[i];
        }
      }
    }
  }

  /** A projection fails at the first clause that throws: every clause before it evaluated. */
  lemma {:induction false} ProjectFailure(q: Query, clauses: seq<SelectClause>, r: Resource)
    requires Project(q, clauses, r).Failure?
    ensures exists k :: 0 <= k < |clauses|
              && (forall i :: 0 <= i < k ==> q.evaluate(r, clauses[i].clause).Success?)
              && q.evaluate(r, clauses[k].clause) == Failure(Project(q, clauses, r).error.fault)
              && Project(q, clauses, r).error.clause == clauses[k].clause
  {
    var init := clauses[..|clauses| - 1];
    if Project(q, init, r).Failure? {
      ProjectFailure(q, init, r);
      var k :| 0 <= k < |init|
              && (forall i :: 0 <= i < k ==> q.evaluate(r, init[i].clause).Success?)
              && q.evaluate(r, init[k].clause) == Failure(Project(q, init, r).error.fault)
              && Project(q, init, r).error.clause == init[k].clause;
      assert forall i :: 0 <= i <= k ==> clauses[i] == init[i];
    } else {
      ProjectSuccess(q, init, r);
      assert forall i :: 0 <= i < |init| ==> clauses[i] == init[i];
    }
  }

  /** Handing out a stored error row keeps the invariant. */
  lemma ErrorRowTakenValid(q: Query, c: Cursor)
    requires Valid(q, c) && c.errorRow.Some?
    ensures Valid(q, c.(errorRow := None))
  {
  }

  /** Storing a projection error row keeps the invariant. */
  lemma ProjectionErrorValid(q: Query, c: Cursor, message: string)
    requires Valid(q, c) && c.errorRow.None? && c.nextResource.Some?
    ensures Valid(q, StoreError(c, Some(message)))
  {
  }

  /** Handing out the pending resource as a data row keeps the invariant. */
  lemma DataRowTakenValid(q: Query, c: Cursor)
    requires Valid(q, c) && c.errorRow.None? && c.nextResource.Some?
    ensures Valid(q, c.(nextResource := None, emitted := c.emitted + [c.nextResourceSearchRow]))
  {
    var c2 := c.(nextResource := None, emitted := c.emitted + [c.nextResourceSearchRow]);
    assert c2.emitted == c.accepted;
    assert c2.emitted == c2.accepted[..|c2.emitted|];
  }

  /** Handing out a row after the fetch keeps the invariant. */
  lemma DeliverValid(q: Query, c: Cursor)
    requires Valid(q, c)
    ensures Valid(q, Deliver(q, c).0)
  {
    if c.errorRow.Some? {
      ErrorRowTakenValid(q, c);
    } else if c.nextResource.Some? {
      match Project(q, q.selectClauses, c.nextResource.value)
      case Failure(f) => ProjectionErrorValid(q, c, ProjectionErrorMessage(f));
      case Success(_) => DataRowTakenValid(q, c);
    }
  }

  /** Once clause i throws after the clauses before it evaluated, the projection fails there, whatever follows. */
  lemma {:induction false} ProjectFailsAt(q: Query, clauses: seq<SelectClause>, i: nat, r: Resource)
    requires i < |clauses| && Project(q, clauses[..i], r).Success?
    requires q.evaluate(r, clauses[i].clause).Failure?
    ensures Project(q, clauses, r)
            == Failure(ProjectionFailure(clauses[i].clause, q.evaluate(r, clauses[i].clause).error))
    decreases |clauses|
  {
    if i < |clauses| - 1 {
      var init := clauses[..|clauses| - 1];
      assert init[..i] == clauses[..i] && init[i] == clauses[i];
      ProjectFailsAt(q, init, i, r);
    } else {
      assert clauses[..|clauses| - 1] == clauses[..i];
    }
  }

  /** getNextRow keeps the invariant. */
  lemma NextRowValid(q: Query, c: Cursor)
    requires Valid(q, c)
    ensures Valid(q, NextRow(q, c).0)
  {
    FetchNextValid(q, c);
    DeliverValid(q, FetchNext(q, c));
  }

  lemma DeliverDataRow(q: Query, c: Cursor)
    requires Valid(q, c)
    requires Deliver(q, c).1.Success? && Deliver(q, c).1.value.searchRowNumber != ROW_OFFSET_ERROR
    ensures var (c2, row) := Deliver(q, c);
            var o := row.value.searchRowNumber;
            Passes(q, o) && c2.emitted == c.emitted + [o] && c2.nextResource.None?
            && |row.value.values| == |q.selectClauses|
            && forall i :: 0 <= i < |q.selectClauses| ==>
                 q.evaluate(q.provider.resources[o], q.selectClauses[i].clause).Success?
                 && row.value.values[i] == Stringify(q.evaluate(q.provider.resources[o], q.selectClauses[i].clause).value)
  {
    AcceptedSpec(q, q.initialOffset, Scan(c));
    ProjectSuccess(q, q.selectClauses, c.nextResource.value);
  }

  /**
   * A data row is the next accepted resource of the search, at its offset, with
   * one value per SELECT clause: the first element the clause evaluates to.
   */
  lemma DataRow(q: Query, c: Cursor)
    requires Valid(q, c)
    requires NextRow(q, c).1.Success? && NextRow(q, c).1.value.searchRowNumber != ROW_OFFSET_ERROR
    ensures var (c2, row) := NextRow(q, c);
            var o := row.value.searchRowNumber;
            Passes(q, o) && c2.emitted == c.emitted + [o] && c2.nextResource.None?
            && |row.value.values| == |q.selectClauses|
            && forall i :: 0 <= i < |q.selectClauses| ==>
                 q.evaluate(q.provider.resources[o], q.selectClauses[i].clause).Success?
                 && row.value.values[i] == Stringify(q.evaluate(q.provider.resources[o], q.selectClauses[i].clause).value)
  {
    FetchNextValid(q, c);
    var c1 := FetchNext(q, c);
    DeliverDataRow(q, c1);
    assert c1.emitted == c.emitted;
  }

  /** The data rows of a cursor are accepted resources, strictly increasing in offset. */
  lemma RowsInSearchOrder(q: Query, c: Cursor)
    requires Valid(q, c)
    ensures forall i :: 0 <= i < |c.emitted| ==> Passes(q, c.emitted[i]) && c.emitted[i] >= q.initialOffset
    ensures forall i, j :: 0 <= i < j < |c.emitted| ==> c.emitted[i] < c.emitted[j]
  {
    AcceptedSpec(q, q.initialOffset, Scan(c));
    assert forall i :: 0 <= i < |c.emitted| ==> c.emitted[i] == c.accepted[i];
  }

  /** Two data rows in a row: the second comes from further on in the search. */
  lemma ConsecutiveDataRows(q: Query, c: Cursor)
    requires Valid(q, c)
    requires NextRow(q, c).1.Success? && NextRow(q, c).1.value.searchRowNumber != ROW_OFFSET_ERROR
    requires var c2 := NextRow(q, c).0;
             NextRow(q, c2).1.Success? && NextRow(q, c2).1.value.searchRowNumber != ROW_OFFSET_ERROR
    ensures NextRow(q, c).1.value.searchRowNumber < NextRow(q, NextRow(q, c).0).1.value.searchRowNumber
  {
    var (c2, first) := NextRow(q, c);
    var (c3, second) := NextRow(q, c2);
    var o1, o2 := first.value.searchRowNumber, second.value.searchRowNumber;
    DataRow(q, c);
    NextRowValid(q, c);
    DataRow(q, c2);
    NextRowValid(q, c2);
    RowsInSearchOrder(q, c3);
    var k := |c.emitted|;
    assert c3.emitted == c.emitted + [o1] + [o2];
    assert c3.emitted[k] == o1 && c3.emitted[k + 1] == o2;
  }

  /** With a limit, no more data rows come out than the limit, or one for a limit below one. */
  lemma LimitBoundsRows(q: Query, c: Cursor)
    requires Valid(q, c) && q.limit.Some?
    ensures |c.emitted| <= Max(q.limit.value, 1)
  {
  }

  /**
   * A limit of one or less still lets the first accepted resource through, the
   * same one an unlimited query would fetch, and then ends the search.
   */
  lemma SmallLimitYieldsFirst(q: Query)
    requires q.limit.Some? && q.limit.value <= 1
    ensures FetchNext(q, Initial(q)).nextResource == FetchNext(q.(limit := None), Initial(q)).nextResource
    ensures FetchNext(q, Initial(q)).nextResource.Some? ==> FetchNext(q, Initial(q)).exhausted
  {
    LoopIgnoresLimit(q, Initial(q), None);
    LoopKeeps(q, Initial(q));
  }

  /** Without an exception or a limit, an exhausted cursor has returned every accepted resource from the initial offset on. */
  lemma CompleteWithoutLimit(q: Query, c: Cursor)
    requires Valid(q, c) && q.limit.None? && c.nextResource.None? && !c.exhausted
    requires Loop(q, c).fault.None? && FetchNext(q, c).nextResource.None?
    ensures FetchNext(q, c).accepted == Accepted(q, q.initialOffset, Max(q.initialOffset, |q.provider.resources|))
  {
    LoopScansToEnd(q, c);
  }

  /**
   * An exception while fetching leaves an error row: hasNext is false, getNextRow
   * hands out the row once, and then fails with "No more results".
   */
  lemma FetchErrorReportedOnce(q: Query, c: Cursor)
    requires Valid(q, c) && FetchNext(q, c).errorRow.Some?
    ensures !HasNext(q, c).1
    ensures NextRow(q, c).1 == Success(FetchNext(q, c).errorRow.value)
    ensures NextRow(q, NextRow(q, c).0).1 == Failure(NO_MORE_RESULTS)
  {
    FetchNextValid(q, c);
  }

  /**
   * An exception with a null message while fetching: List.of(null) throws once the
   * cursor has ended, so no error row is stored, and every later hasNext is false and
   * every later getNextRow fails with "No more results".
   */
  lemma NullMessageFetchError(q: Query, c: Cursor)
    requires Valid(q, c) && c.nextResource.None?
    requires Loop(q, c).fault.Some? && Loop(q, c).fault.value.message.None?
    ensures var d := FetchNext(q, c);
            && d.exhausted && d.nextResource.None? && d.errorRow.None?
            && HasNext(q, d) == (d, false)
            && NextRow(q, d) == (d, Failure(NO_MORE_RESULTS))
  {
    assert !c.exhausted && c.errorRow.None?;
    var o := Loop(q, c);
    LoopKeeps(q, c);
    var d := FetchNext(q, c);
    assert d == StoreError(o.cursor, None);
    ExhaustedStaysExhausted(q, d);
  }

  /**
   * A clause that throws turns the pending resource into an error row naming the
   * clause; the row is stored as well as returned, so the next getNextRow returns
   * it again, and the one after that fails with "No more results".
   */
  lemma ProjectionErrorReportedTwice(q: Query, c: Cursor)
    requires Valid(q, c)
    requires FetchNext(q, c).errorRow.None? && FetchNext(q, c).nextResource.Some?
    requires Project(q, q.selectClauses, FetchNext(q, c).nextResource.value).Failure?
    ensures var f := Project(q, q.selectClauses, FetchNext(q, c).nextResource.value).error;
            var row := Row(ROW_OFFSET_ERROR, [Some(ProjectionErrorMessage(f))]);
            var c2 := NextRow(q, c).0;
            NextRow(q, c).1 == Success(row) && NextRow(q, c2).1 == Success(row)
            && NextRow(q, NextRow(q, c2).0).1 == Failure(NO_MORE_RESULTS)
  {
  }
}
