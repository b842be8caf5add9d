/**
 * WorkChunkStatusEnum: the states of a batch2 work chunk, the successor relation
 * between them, and the predecessor table the enum builds by inverting it.
 */
module WorkChunkStatus {

  datatype WorkChunkStatusEnum = QUEUED | IN_PROGRESS | ERRORED | FAILED | COMPLETED
  {
    /** isIncomplete: anything but COMPLETED, FAILED included. */
    predicate IsIncomplete()
    {
      this != COMPLETED
    }
  }

  /** values(), in declaration order. */
  function Values(): seq<WorkChunkStatusEnum>
  {
    [QUEUED, IN_PROGRESS, ERRORED, FAILED, COMPLETED]
  }

  /** values() lists every state exactly once. */
  lemma ValuesListsEveryState()
    ensures forall s :: s in Values()
    ensures forall i, j :: 0 <= i < j < |Values()| ==> Values()[i] != Values()[j]
  {
    forall s ensures s in Values() {
      if s == QUEUED { assert Values()[0] == s; }
      else if s == IN_PROGRESS { assert Values()[1] == s; }
      else if s == ERRORED { assert Values()[2] == s; }
      else if s == FAILED { assert Values()[3] == s; }
      else { assert Values()[4] == s; }
    }
  }

  /** getNextStates: the states a chunk may move to from s. */
  function GetNextStates(s: WorkChunkStatusEnum): set<WorkChunkStatusEnum>
  {
    match s
    case QUEUED => {IN_PROGRESS}
    case IN_PROGRESS => {IN_PROGRESS, ERRORED, FAILED, COMPLETED}
    case ERRORED => {IN_PROGRESS, FAILED, COMPLETED}
    case FAILED => {}
    case COMPLETED => {}
  }

  /** The states among those listed that can move to s. */
  function PriorAmong(states: seq<WorkChunkStatusEnum>, s: WorkChunkStatusEnum): set<WorkChunkStatusEnum>
  {
    set p | p in states && s in GetNextStates(p)
  }

  /** The states that can move to s: what getPriorStates is meant to answer. */
  function PriorStates(s: WorkChunkStatusEnum): set<WorkChunkStatusEnum>
  {
    PriorAmong(Values(), s)
  }

  /** p is a prior state of s exactly when s is a next state of p. */
  lemma PriorStatesInvertNextStates(p: WorkChunkStatusEnum, s: WorkChunkStatusEnum)
    ensures p in PriorStates(s) <==> s in GetNextStates(p)
  {
    ValuesListsEveryState();
  }

  /**
   * The static initializer: an empty set for every state, then, for each state p in
   * declaration order, p added to the set of every state p can move to.
   */
  method BuildPriorStates() returns (priorStates: map<WorkChunkStatusEnum, set<WorkChunkStatusEnum>>)
    ensures forall s :: s in priorStates && (forall p :: p in priorStates[s] <==> s in GetNextStates(p))
  {
    var values := Values();
    ValuesListsEveryState();
    priorStates := map[];
    for i := 0 to |values|
      invariant forall j :: 0 <= j < i ==> values[j] in priorStates && priorStates[values[j]] == {}
      invariant forall s :: s in priorStates ==> s in values[..i]
    {
      priorStates := priorStates[values[i] := {}];
    }
    forall s ensures s in priorStates && priorStates[s] == PriorAmong(values[..0], s) {
      assert s in values;
      var j :| 0 <= j < |values| && values[j] == s;
    }
    for i := 0 to |values|
      invariant forall s :: s in priorStates && priorStates[s] == PriorAmong(values[..i], s)
    {
      priorStates := AddPriorState(priorStates, values[i]);
      forall s ensures priorStates[s] == PriorAmong(values[..i + 1], s) {
        PriorAmongNext(values, i, s);
      }
    }
    assert values[..|values|] == values;
  }

  /** The inner loop of the static initializer: prior is added to the set of each of its next states. */
  method AddPriorState(table: map<WorkChunkStatusEnum, set<WorkChunkStatusEnum>>, prior: WorkChunkStatusEnum)
    returns (updated: map<WorkChunkStatusEnum, set<WorkChunkStatusEnum>>)
    requires forall s :: s in table
    ensures forall s :: s in updated && updated[s] == table[s] + (if s in GetNextStates(prior) then {prior} else {})
  {
    updated := table;
    var rest := GetNextStates(prior);
    while rest != {}
      invariant rest <= GetNextStates(prior)
      invariant forall s :: s in updated && updated[s] == table[s] + (if s in GetNextStates(prior) - rest then {prior} else {})
      decreases rest
    {
      var next :| next in rest;
      updated := updated[next := updated[next] + {prior}];
      rest := rest - {next};
    }
  }

  /** Listing one more state adds it to the prior states of exactly its next states. */
  lemma PriorAmongNext(values: seq<WorkChunkStatusEnum>, i: nat, s: WorkChunkStatusEnum)
    requires i < |values|
    ensures PriorAmong(values[..i + 1], s) == PriorAmong(values[..i], s) + (if s in GetNextStates(values[i]) then {values[i]} else {})
  {
    assert values[..i + 1] == values[..i] + [values[i]];
  }

  /**
   * The enum's static state: the prior-states table, filled once by the static
   * initializer and only read afterwards.
   */
  class StaticState {
    const ourPriorStates: map<WorkChunkStatusEnum, set<WorkChunkStatusEnum>>

    ghost predicate Valid()
    {
      forall s :: s in ourPriorStates && ourPriorStates[s] == PriorStates(s)
    }

    constructor ()
      ensures Valid()
    {
      var table := BuildPriorStates();
      ourPriorStates := table;
      new;
      forall s ensures table[s] == PriorStates(s) {
        forall p ensures p in table[s] <==> p in PriorStates(s) {
          PriorStatesInvertNextStates(p, s);
        }
      }
    }

    /** getPriorStates: the states that can move to s. */
    function GetPriorStates(s: WorkChunkStatusEnum): (r: set<WorkChunkStatusEnum>)
      requires Valid()
      ensures forall p :: p in r <==> s in GetNextStates(p)
    {
      PriorStatesInvertNextStatesAll(s);
      ourPriorStates[s]
    }
  }

  /** PriorStatesInvertNextStates for every p at once. */
  lemma PriorStatesInvertNextStatesAll(s: WorkChunkStatusEnum)
    ensures forall p :: p in PriorStates(s) <==> s in GetNextStates(p)
  {
    forall p ensures p in PriorStates(s) <==> s in GetNextStates(p) {
      PriorStatesInvertNextStates(p, s);
    }
  }

  /** The predecessor table spelled out. */
  lemma PriorStatesTable()
    ensures PriorStates(QUEUED) == {}
    ensures PriorStates(IN_PROGRESS) == {QUEUED, IN_PROGRESS, ERRORED}
    ensures PriorStates(ERRORED) == {IN_PROGRESS}
    ensures PriorStates(FAILED) == {IN_PROGRESS, ERRORED}
    ensures PriorStates(COMPLETED) == {IN_PROGRESS, ERRORED}
  {
    PriorStatesInvertNextStatesAll(QUEUED);
    PriorStatesInvertNextStatesAll(IN_PROGRESS);
    PriorStatesInvertNextStatesAll(ERRORED);
    PriorStatesInvertNextStatesAll(FAILED);
    PriorStatesInvertNextStatesAll(COMPLETED);
  }

  /**
   * FAILED and COMPLETED, and only they, are terminal; ERRORED retries but never
   * moves to itself or back to QUEUED; QUEUED can only start.
   */
  lemma TerminalStates(s: WorkChunkStatusEnum)
    ensures GetNextStates(s) == {} <==> s == FAILED || s == COMPLETED
    ensures GetNextStates(QUEUED) == {IN_PROGRESS}
    ensures ERRORED !in GetNextStates(ERRORED) && QUEUED !in GetNextStates(ERRORED)
  {
    assert IN_PROGRESS in GetNextStates(IN_PROGRESS);
    assert IN_PROGRESS in GetNextStates(ERRORED);
  }

  /** Incomplete is not the same as non-terminal: FAILED is terminal yet incomplete. */
  lemma IncompleteVersusTerminal(s: WorkChunkStatusEnum)
    ensures !s.IsIncomplete() ==> GetNextStates(s) == {}
    ensures FAILED.IsIncomplete() && GetNextStates(FAILED) == {}
    ensures s.IsIncomplete() <==> s != COMPLETED
  {
  }

  /** Each step of the chunk's life follows an allowed transition. */
  ghost predicate IsRun(run: seq<WorkChunkStatusEnum>)
  {
    forall i :: 0 <= i < |run| - 1 ==> run[i + 1] in GetNextStates(run[i])
  }

  /**
   * Along any run, QUEUED can only be the first state, and COMPLETED or FAILED only
   * the last.
   */
  lemma RunShape(run: seq<WorkChunkStatusEnum>, i: nat)
    requires IsRun(run) && i < |run|
    ensures 0 < i ==> run[i] != QUEUED
    ensures run[i] == COMPLETED || run[i] == FAILED ==> i == |run| - 1
  {
    if 0 < i {
      PriorStatesInvertNextStates(run[i - 1], run[i]);
      PriorStatesTable();
    }
    if i < |run| - 1 {
      assert run[i + 1] in GetNextStates(run[i]);
    }
  }
}
