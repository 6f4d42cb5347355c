/** The two sagas that record compensations while operations run.

    The later saga (ledger/src/main/java/com/lekha/saga/Saga.java) lives in a
    try-with-resources scope: a terminal failure only raises a flag, and `close`
    replays the recorded compensations, last first, when the flag is up.  The earlier
    saga (src/main/java/com/lekha/saga/Saga.java) has no scope: the failing `run`
    replays the compensations itself before rethrowing, and never clears its list.

    A compensation is a value of type `C` (for the executors, the operation to run);
    its execution is the caller's business.  Both `run` overloads are one function
    here: the result-free overload is a task of result type `()` whose compensation
    ignores it.
 */
module Sagas {
  import opened Common

  datatype Saga<C> = Saga(compensations: seq<C>, needsCompensation: bool)

  function NewSaga<C>(): (r: Saga<C>)
    ensures r.compensations == [] && !r.needsCompensation
  {
    Saga([], false)
  }

  /** Records the outcome of one task: a success adds the compensation bound to its result;
      a terminal failure adds nothing and asks for compensation; any other failure adds
      nothing and leaves the flag alone. */
  function Run<T, C>(s: Saga<C>, outcome: Result<T>, compensation: T --> C): (r: Saga<C>)
    requires outcome.Ok? ==> compensation.requires(outcome.value)
    ensures outcome.Ok? ==>
      r.compensations == s.compensations + [compensation(outcome.value)] && r.needsCompensation == s.needsCompensation
    ensures outcome.Err? ==>
      r.compensations == s.compensations && (r.needsCompensation <==> s.needsCompensation || IsTerminal(outcome.error))
  {
    match outcome
    case Ok(v) => s.(compensations := s.compensations + [compensation(v)])
    case Err(e) => if IsTerminal(e) then s.(needsCompensation := true) else s
  }

  /** The compensations `close` runs, in the order it runs them. */
  function OnClose<C>(s: Saga<C>): (r: seq<C>)
    ensures !s.needsCompensation ==> r == []
    ensures s.needsCompensation ==> |r| == |s.compensations|
    ensures forall i | 0 <= i < |r| :: r[i] == s.compensations[|s.compensations| - 1 - i]
  {
    if s.needsCompensation then Reverse(s.compensations) else []
  }

  /** `compensation` applied to each result, in order. */
  function MapSeq<T, C>(results: seq<T>, compensation: T -> C): (r: seq<C>)
    ensures |r| == |results|
    ensures forall i | 0 <= i < |results| :: r[i] == compensation(results[i])
  {
    seq(|results|, i requires 0 <= i < |results| => compensation(results[i]))
  }

  /** A fresh saga after the tasks that produced `results` all succeeded. */
  function Recorded<T, C>(results: seq<T>, compensation: T -> C): Saga<C>
    decreases |results|
  {
    if results == [] then NewSaga()
    else Run(Recorded(results[..|results| - 1], compensation), Ok(results[|results| - 1]), compensation)
  }

  lemma {:induction false} RecordedCompensations<T, C>(results: seq<T>, compensation: T -> C)
    ensures Recorded(results, compensation) == Saga(MapSeq(results, compensation), false)
    decreases |results|
  {
    if results != [] {
      var init := results[..|results| - 1];
      RecordedCompensations(init, compensation);
      assert MapSeq(init, compensation) + [compensation(results[|results| - 1])] == MapSeq(results, compensation);
    }
  }

  /** After successful tasks, `close` runs nothing; after they are followed by a failing task,
      it runs the compensation of every successful task, last first, exactly when that
      failure is terminal. */
  lemma CloseAfter<T, C>(results: seq<T>, failure: ErrorKind, compensation: T -> C)
    ensures OnClose(Recorded(results, compensation)) == []
    ensures OnClose(Run(Recorded(results, compensation), Err(failure), compensation)) ==
      if IsTerminal(failure) then Reverse(MapSeq(results, compensation)) else []
  {
    RecordedCompensations(results, compensation);
  }

  // ---- The earlier saga ----

  datatype LegacySaga<C> = LegacySaga(compensations: seq<C>)

  /** The saga after a task, and the compensations that `run` executes before rethrowing. */
  datatype LegacyStep<C> = LegacyStep(saga: LegacySaga<C>, compensateNow: seq<C>)

  /** Every recorded compensation, last recorded first; the list itself is kept. */
  function Compensate<C>(s: LegacySaga<C>): (r: seq<C>)
    ensures |r| == |s.compensations|
    ensures forall i | 0 <= i < |r| :: r[i] == s.compensations[|s.compensations| - 1 - i]
  {
    Reverse(s.compensations)
  }

  /** A success appends the compensation bound to its result; a terminal failure appends
      nothing and compensates at once; any other failure does neither. */
  function LegacyRun<T, C>(s: LegacySaga<C>, outcome: Result<T>, compensation: T --> C): (r: LegacyStep<C>)
    requires outcome.Ok? ==> compensation.requires(outcome.value)
    ensures outcome.Ok? ==>
      r == LegacyStep(LegacySaga(s.compensations + [compensation(outcome.value)]), [])
    ensures outcome.Err? ==> r.saga == s
    ensures outcome.Err? && IsTerminal(outcome.error) ==> r.compensateNow == Compensate(s)
    ensures outcome.Err? && !IsTerminal(outcome.error) ==> r.compensateNow == []
  {
    match outcome
    case Ok(v) => LegacyStep(LegacySaga(s.compensations + [compensation(v)]), [])
    case Err(e) => LegacyStep(s, if IsTerminal(e) then Compensate(s) else [])
  }

  /** Compensating does not clear the list: another terminal failure on the same saga would
      replay the same compensations again. */
  lemma LegacyCompensationRepeats<T, C>(s: LegacySaga<C>, first: ErrorKind, second: ErrorKind,
                                        compensation: T -> C)
    requires IsTerminal(first) && IsTerminal(second)
    ensures var once := LegacyRun(s, Err(first), compensation);
      var twice := LegacyRun(once.saga, Err(second), compensation);
      twice.compensateNow == once.compensateNow == Compensate(s)
  {
  }
}
