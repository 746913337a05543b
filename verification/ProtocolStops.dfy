/**
 What a stop achieves, and what it needs a cause for: no recorded stop is lost, no worker ends cancelled without a
 stop, an unreadable row or a shutdown, and no stored verdict is better than what the worker did.
 */
module ProtocolStops {
  import opened Options
  import opened Delivery
  import opened TaskTable
  import opened Protocol
  import opened ProtocolInvariant
  import opened ProtocolTheorems

  // ----- no lost cancellation -----------------------------------------------------------------------------

  /** The worker has a stop permit waiting, or has already consumed one. */
  predicate Muted(w: Worker)
  {
    w.permit || Consumed(w.did)
  }

  /** The most moves a worker with a stop waiting can still make, on its way out included. */
  function StopBudget(pc: Pc): (n: nat)
    ensures n <= 9
  {
    match pc
    case HasSlot => 8
    case Admitted => 7
    case MarkRefused => 6
    case Marked => 6
    case SettingUp => 7
    case Prepared(_) => 6
    case Cleared(_) => 7
    case Handshake(_) => 6
    case Prompting => 9
    case Closing(_) => 8
    case Closed => 7
    case Verifying(_, _) => 6
    case RunOver(_) => 5
    case Unwinding(_) => 4
    case Waiting => 4
    case Finishing(_) => 3
    case Deregistering(_) => 2
    case FallingBack => 1
    case Done => 0
    case Lost => 0
  }

  /** With a stop waiting, a worker passes no further checkpoint and keeps the stop in sight. */
  lemma MutedMove(w: Worker, row: Row, slotFree: bool, phase: Phase, act: Act)
    requires ActEnabled(w, row, slotFree, phase, act) && Muted(w) && (Consumed(w.did) ==> Returning(w.pc))
    ensures !PassesCheckpoint(act)
    ensures Muted(ActWorker(w, row, act))
  {
  }

  /** A move that passes no checkpoint brings the worker closer to its end. */
  lemma WindingMove(w: Worker, row: Row, slotFree: bool, phase: Phase, act: Act)
    requires ActEnabled(w, row, slotFree, phase, act) && !PassesCheckpoint(act)
    ensures StopBudget(ActPc(w.pc, row, act)) < StopBudget(w.pc)
    ensures act.Spawn? ==> w.pc.Cleared?
    ensures !ActPc(w.pc, row, act).Cleared?
  {
  }

  function OwnMoves(steps: seq<Step>, i: nat): (n: nat)
    decreases |steps|
  {
    if steps == [] then 0
    else (if Own(steps[0], i) then 1 else 0) + OwnMoves(steps[1..], i)
  }

  predicate NoCheckpointPassed(steps: seq<Step>, i: nat)
  {
    forall k | 0 <= k < |steps| && Own(steps[k], i) :: !PassesCheckpoint(steps[k].act)
  }

  predicate NoSpawnBy(steps: seq<Step>, i: nat)
  {
    forall k | 0 <= k < |steps| && Own(steps[k], i) :: !steps[k].act.Spawn?
  }

  /** Steps of others leave a worker where it is, and never take back its permit. */
  lemma OthersKeepWorker(s: State, step: Step, i: nat)
    requires Enabled(s, step) && i < |s.workers|
    requires step.WorkerAct? ==> step.worker != i
    ensures var w, next := s.workers[i], Apply(s, step).workers[i];
            && (next.pc == w.pc || next.pc.Lost?)
            && next.did == w.did
            && (w.permit ==> next.permit)
  {
  }

  predicate Own(step: Step, i: nat)
  {
    step.WorkerAct? && step.worker == i
  }

  /** One step, seen from a worker that is on its way out. */
  predicate WindsDown(w: Worker, step: Step, i: nat, next: Worker)
  {
    && Muted(next) && HistoryOk(next)
    && (Own(step, i) ==> !PassesCheckpoint(step.act) && StopBudget(next.pc) < StopBudget(w.pc))
    && StopBudget(next.pc) <= StopBudget(w.pc)
    && (!w.pc.Cleared? ==> !next.pc.Cleared? && !(Own(step, i) && step.act.Spawn?))
  }

  lemma OwnStepWindsDown(s: State, i: nat, act: Act)
    requires i < |s.workers| && Muted(s.workers[i]) && HistoryOk(s.workers[i]) && Enabled(s, WorkerAct(i, act))
    ensures WindsDown(s.workers[i], WorkerAct(i, act), i, ActStep(s, i, act).workers[i])
  {
    MutedMove(s.workers[i], s.rows[s.workers[i].task], s.slot.None?, s.gate.phase, act);
    WindingMove(s.workers[i], s.rows[s.workers[i].task], s.slot.None?, s.gate.phase, act);
    HistoryKept(s.workers[i], s.rows[s.workers[i].task], s.slot.None?, s.gate.phase, act);
  }

  lemma StepWindsDown(s: State, i: nat, step: Step)
    requires i < |s.workers| && Muted(s.workers[i]) && HistoryOk(s.workers[i]) && Enabled(s, step)
    ensures i < |Apply(s, step).workers|
    ensures WindsDown(s.workers[i], step, i, Apply(s, step).workers[i])
  {
    if Own(step, i) {
      OwnStepWindsDown(s, i, step.act);
    } else {
      OthersKeepWorker(s, step, i);
    }
  }

  lemma {:induction false} MutedRun(s: State, i: nat, steps: seq<Step>, later: State)
    requires i < |s.workers| && Muted(s.workers[i]) && HistoryOk(s.workers[i]) && Execution(s, steps, later)
    ensures NoCheckpointPassed(steps, i)
    ensures OwnMoves(steps, i) <= StopBudget(s.workers[i].pc)
    ensures !s.workers[i].pc.Cleared? ==> NoSpawnBy(steps, i)
    decreases |steps|
  {
    if steps != [] {
      StepWindsDown(s, i, steps[0]);
      MutedRun(Apply(s, steps[0]), i, steps[1..], later);
      assert forall k | 1 <= k < |steps| :: steps[k] == steps[1..][k - 1];
    }
  }

  /**
   A recorded stop reaches the worker at its next poll, through whichever manager it was recorded. From then on, in
   every run, the worker passes no checkpoint, makes at most nine more moves, and spawns no agent unless its second
   setup check was already behind it. A poll that cannot read the row has the same effect.
   */
  lemma NoLostCancellation(s: State, i: nat, readable: bool, steps: seq<Step>, later: State)
    requires Reachable(s) && Enabled(s, Tick(i, readable))
    requires !readable || s.rows[s.workers[i].task].cancelRequested
    requires Execution(Apply(s, Tick(i, readable)), steps, later)
    ensures NoCheckpointPassed(steps, i) && OwnMoves(steps, i) <= 9
    ensures !s.workers[i].pc.Cleared? ==> NoSpawnBy(steps, i)
  {
    ReachableInv(s);
    InvKept(s, Tick(i, readable));
    WorkerFacts(Apply(s, Tick(i, readable)), i);
    MutedRun(Apply(s, Tick(i, readable)), i, steps, later);
  }

  /** A move that consumes the permit ends the run: what is left to do is closing, releasing and recording. */
  lemma ConsumedMeansReturning(s: State, i: nat)
    requires Reachable(s) && i < |s.workers| && Consumed(s.workers[i].did)
    ensures Returning(s.workers[i].pc)
  {
    ReachableInv(s);
    WorkerFacts(s, i);
  }

  /** At a checkpoint the stop branch is the only branch, and its answer is `cancelled`. */
  lemma CheckpointTakesStop(w: Worker, row: Row, slotFree: bool, phase: Phase, act: Act)
    requires ActEnabled(w, row, slotFree, phase, act) && w.permit
    requires w.pc.Waiting? || w.pc.Marked? || w.pc.Prepared? || w.pc.Handshake? || (w.pc.Verifying? && w.pc.todo > 0)
    ensures Consumes(act)
    ensures var pc := ActPc(w.pc, row, act);
            && (pc.Finishing? || pc.RunOver?)
            && pc.result.Answered? && pc.result.answer.outcome == OutCancelled
  {
  }

  // ----- no spurious cancellation -------------------------------------------------------------------------

  /** The worker is about to report, or reports, `cancelled`. */
  predicate CancelledResult(pc: Pc)
  {
    && (pc.RunOver? || pc.Unwinding? || pc.Finishing?)
    && pc.result.Answered? && pc.result.answer.outcome == OutCancelled
  }

  /** Every cancelled result and every stored `cancelled` has its cause on record. */
  lemma NoSpuriousCancellation(s: State, i: nat)
    requires Reachable(s) && i < |s.workers|
    ensures s.workers[i].task in s.rows
    ensures var w := s.workers[i];
            var row := s.rows[w.task];
            && (row.status == Cancelled ==> CancelCause(w, row))
            && (w.permit ==> row.cancelRequested || w.unreadable)
            && (CancelledResult(w.pc) ==> CancelCause(w, row))
  {
    ReachableInv(s);
    WorkerFacts(s, i);
  }

  /** Steps that neither stop anything, nor shut down, nor fail to read a row. */
  predicate Quiet(step: Step)
  {
    && !step.StopRecord? && !step.FamilyStop? && !step.PrepareShutdown? && !step.CloseGate?
    && !(step.Tick? && !step.readable)
  }

  predicate Unstopped(s: State)
  {
    && s.gate.phase == Open && s.stops == {}
    && (forall t | t in s.rows :: !s.rows[t].cancelRequested)
    && (forall i | 0 <= i < |s.workers| :: !s.workers[i].permit && !s.workers[i].unreadable
                                           && GateRefuses !in s.workers[i].did && !Consumed(s.workers[i].did))
  }

  lemma UnstoppedKept(s: State, step: Step)
    requires Unstopped(s) && Enabled(s, step) && Quiet(step)
    ensures Unstopped(Apply(s, step))
  {
    if step.WorkerAct? {
      WriteFrame(s.rows[s.workers[step.worker].task], s.workers[step.worker].pc, step.act);
    }
  }

  lemma {:induction false} QuietForever(s: State, steps: seq<Step>, later: State)
    requires Unstopped(s) && Execution(s, steps, later)
    requires forall k | 0 <= k < |steps| :: Quiet(steps[k])
    ensures Unstopped(later)
    decreases |steps|
  {
    if steps != [] {
      UnstoppedKept(s, steps[0]);
      QuietForever(Apply(s, steps[0]), steps[1..], later);
    }
  }

  /** A run in which nobody stops anything never ends a task, or even a worker's result, as cancelled. */
  lemma QuietRunsNeverCancel(steps: seq<Step>, s: State, i: nat)
    requires Execution(Init(), steps, s) && i < |s.workers|
    requires forall k | 0 <= k < |steps| :: Quiet(steps[k])
    ensures s.workers[i].task in s.rows && s.rows[s.workers[i].task].status != Cancelled
    ensures !Consumed(s.workers[i].did) && !CancelledResult(s.workers[i].pc)
  {
    assert Reachable(s);
    QuietForever(Init(), steps, s);
    NoSpuriousCancellation(s, i);
    ReachableInv(s);
    WorkerFacts(s, i);
  }

  // ----- what is stored -----------------------------------------------------------------------------------

  /**
   A stored `completed` was earned: the worker of that row spawned an agent that ended its turn, closed it cleanly,
   chose the checks, and saw every one of them pass; no script was missing and nothing was stopped.
   */
  lemma HonestCompletion(s: State, t: TaskId) returns (i: nat)
    requires Reachable(s) && t in s.rows && s.rows[t].status == Completed
    ensures TaskOf(s, i, t) && HonestHistory(s.workers[i].did) && Mark in s.workers[i].did
    ensures ChosenPassed(s.workers[i].did)
    ensures !s.rows[t].cancelRequested && s.rows[t].outcome == Some(OutCompleted)
  {
    ReachableInv(s);
    i := ServedBy(s, t);
    WorkerFacts(s, i);
  }

  /** A `checks_passed` was earned too: no script was missing and every chosen check, at least one, ran and passed. */
  lemma ChecksPassedIsEarned(s: State, i: nat)
    requires Reachable(s) && i < |s.workers|
    requires var pc := s.workers[i].pc; pc.RunOver? || pc.Unwinding? || pc.Finishing?
    requires s.workers[i].pc.result.Answered?
    requires s.workers[i].pc.result.answer.delivery == Some(DeliveredChecksPassed)
    ensures HonestHistory(s.workers[i].did) && AllChecksPassed(s.workers[i].did)
  {
    ReachableInv(s);
    WorkerFacts(s, i);
  }

  /** A recorded stop stays recorded, a finished row never changes, and a stopped task never counts as a success. */
  lemma {:induction false} StoredStopsLast(s: State, t: TaskId, steps: seq<Step>, later: State)
    requires Inv(s) && t in s.rows && Execution(s, steps, later)
    ensures t in later.rows
    ensures s.rows[t].cancelRequested ==>
              later.rows[t].cancelRequested && later.rows[t].status !in {Completed, Interrupted}
    ensures !Active(s.rows[t]) ==> later.rows[t] == s.rows[t]
    decreases |steps|
  {
    if steps == [] {
      StoppedRowOk(s, t);
    } else {
      InvKept(s, steps[0]);
      if !steps[0].Create? {
        RowsFrame(s, steps[0]);
        assert SameRowBut(s.rows[t], Apply(s, steps[0]).rows[t]);
      }
      StoredStopsLast(Apply(s, steps[0]), t, steps[1..], later);
    }
  }

  lemma StoppedRowOk(s: State, t: TaskId)
    requires Inv(s) && t in s.rows
    ensures RowOk(s.rows[t])
  {
    if !NoWorker(s, t) {
      var i: nat :| i < |s.workers| && s.workers[i].task == t;
      WorkerFacts(s, i);
    }
  }
}
