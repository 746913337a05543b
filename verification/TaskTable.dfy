/**
 The durable table of delegated coding tasks. Every operation is one guarded SQL statement (or one immediate
 transaction), so each is an atomic function of the row it touches.
 */
module TaskTable {
  import opened Options
  import opened Delivery

  type TaskId = nat
  type CallId = nat
  type RunId = nat

  datatype Status = Queued | Running | Completed | Failed | Cancelled | Interrupted

  /** The submitted tool call a task was launched by, and the run that made the call. */
  datatype Origin = Origin(call: CallId, parent: RunId)

  datatype Row = Row(
    status: Status,
    cancelRequested: bool,
    origin: Option<Origin>,
    request: string,
    outcome: Option<Outcome>)

  function NewRow(origin: Option<Origin>, request: string): (row: Row)
  {
    Row(Queued, false, origin, request, None)
  }

  predicate Active(row: Row)
  {
    row.status == Queued || row.status == Running
  }

  /** Records a stop on an unfinished task; a finished one is unchanged. */
  function RequestCancellation(row: Row): (r: Row)
  {
    if Active(row) then row.(cancelRequested := true) else row
  }

  predicate CanMarkRunning(row: Row)
  {
    row.status == Queued && !row.cancelRequested
  }

  function MarkRunning(row: Row): (r: Row)
  {
    if CanMarkRunning(row) then row.(status := Running) else row
  }

  /** A finish never overrides a recorded stop with success, nor hides an error or a failed cleanup behind a stop. */
  function Finish(row: Row, finish: Completion): (r: Row)
  {
    if !Active(row) then row else
    var failed := finish.hasError || finish.outcome == Some(OutCleanupFailed);
    var status :=
      if failed then Failed
      else if row.cancelRequested then Cancelled
      else match finish.status
           case FinCompleted => Completed
           case FinCancelled => Cancelled
           case FinFailed => Failed;
    row.(status := status,
    outcome := if row.cancelRequested && !failed then Some(OutCancelled) else finish.outcome)
  }

  /** Start-up settles what an earlier daemon left unfinished. */
  function Interrupt(row: Row): (r: Row)
  {
    if !Active(row) then row
    else row.(status := if row.cancelRequested then Cancelled else Interrupted)
  }

  /** The four writes other than the insert. */
  datatype Write = WriteStop | WriteRunning | WriteFinish(finish: Completion) | WriteInterrupt

  function Written(row: Row, write: Write): (r: Row)
  {
    match write
    case WriteStop => RequestCancellation(row)
    case WriteRunning => MarkRunning(row)
    case WriteFinish(finish) => Finish(row, finish)
    case WriteInterrupt => Interrupt(row)
  }

  function WrittenAll(row: Row, writes: seq<Write>): (r: Row)
    decreases |writes|
  {
    if writes == [] then row else WrittenAll(Written(row, writes[0]), writes[1..])
  }

  /** What holds of every row whose history is its insert followed by any writes. */
  predicate RowOk(row: Row)
  {
    && (row.cancelRequested ==> row.status in {Queued, Running, Cancelled, Failed})
    && (row.status == Completed ==> row.outcome == Some(OutCompleted))
  }

  predicate FinishFits(finish: Completion)
  {
    finish.status == FinCompleted ==> finish.outcome == Some(OutCompleted) && !finish.hasError
  }

  /**
   A finished row never changes again, and a recorded stop is never lost: over any later writes the row ends
   cancelled or failed, never completed or interrupted.
   */
  lemma {:induction false} RowHistory(row: Row, writes: seq<Write>)
    requires RowOk(row)
    requires forall w | w in writes && w.WriteFinish? :: FinishFits(w.finish)
    ensures RowOk(WrittenAll(row, writes))
    ensures !Active(row) ==> WrittenAll(row, writes) == row
    ensures row.cancelRequested ==> WrittenAll(row, writes).cancelRequested
    ensures row.status != Queued ==> WrittenAll(row, writes).status != Queued
    ensures WrittenAll(row, writes).origin == row.origin && WrittenAll(row, writes).request == row.request
    decreases |writes|
  {
    if writes != [] {
      assert RowOk(Written(row, writes[0])) by {
        assert writes[0] in writes;
      }
      RowHistory(Written(row, writes[0]), writes[1..]);
    }
  }

  /** What a finished run stores, both ways: a stop beats success, and an error or failed cleanup beats a stop. */
  lemma StoredStatus(row: Row, result: RunResult)
    requires Active(row)
    ensures var stored := Finish(row, CompletionOf(result));
            && (stored.status == Completed <==>
                !row.cancelRequested && result.Answered? && result.answer.outcome == OutCompleted)
            && (stored.status == Cancelled <==>
                && result.Answered? && result.answer.outcome != OutCleanupFailed
                && (row.cancelRequested || result.answer.outcome == OutCancelled))
            && stored.status in {Completed, Cancelled, Failed} && stored.cancelRequested == row.cancelRequested
            && stored.origin == row.origin && stored.request == row.request
            && stored.outcome == if stored.status == Cancelled && row.cancelRequested then Some(OutCancelled)
                                 else if result.Answered? then Some(result.answer.outcome)
                                 else None
  {
  }
}
