/**
 What moves the protocol along: a stop signalled through the launching manager reaches its worker, and some worker can
 always move until all have ended.
 */
module ProtocolProgress {
  import opened Options
  import opened Delivery
  import opened TaskTable
  import opened Protocol
  import opened ProtocolInvariant
  import opened ProtocolTheorems
  import opened ProtocolStops

  // ----- registration -------------------------------------------------------------------------------------

  /** The manager's map still has an entry for a worker here. */
  predicate StillRegistered(pc: Pc)
  {
    !pc.FallingBack? && !pc.Done? && !pc.Lost?
  }

  predicate RegisteredOk(s: State)
  {
    && (forall i | 0 <= i < |s.workers| && StillRegistered(s.workers[i].pc) ::
          (s.workers[i].manager, s.workers[i].task) in s.registered)
    && (forall k | k in s.registered ::
          && s.registered[k] < |s.workers| && StillRegistered(s.workers[s.registered[k]].pc)
          && k == (s.workers[s.registered[k]].manager, s.workers[s.registered[k]].task))
  }

  lemma RegisteredMove(w: Worker, row: Row, slotFree: bool, phase: Phase, act: Act)
    requires ActEnabled(w, row, slotFree, phase, act)
    ensures StillRegistered(ActPc(w.pc, row, act)) <==> StillRegistered(w.pc) && !act.Deregister?
    ensures ActWorker(w, row, act).manager == w.manager && ActWorker(w, row, act).task == w.task
  {
  }

  lemma RegisteredFrame(s: State, t: State, i: nat)
    requires Linked(s) && RegisteredOk(s) && i < |s.workers| && |t.workers| == |s.workers|
    requires t.workers[i].manager == s.workers[i].manager && t.workers[i].task == s.workers[i].task
    requires forall j | 0 <= j < |s.workers| && j != i :: t.workers[j] == s.workers[j]
    requires StillRegistered(t.workers[i].pc) ==> StillRegistered(s.workers[i].pc) && t.registered == s.registered
    requires !StillRegistered(t.workers[i].pc) && StillRegistered(s.workers[i].pc) ==>
               t.registered == s.registered - {(s.workers[i].manager, s.workers[i].task)}
    requires !StillRegistered(s.workers[i].pc) ==> t.registered == s.registered
    ensures RegisteredOk(t)
  {
    assert forall j | 0 <= j < |s.workers| && j != i :: s.workers[j].task != s.workers[i].task;
  }

  lemma RegisteredAfterAct(s: State, i: nat, act: Act)
    requires Linked(s) && RegisteredOk(s) && Enabled(s, WorkerAct(i, act))
    ensures RegisteredOk(ActStep(s, i, act))
  {
    RegisteredMove(s.workers[i], s.rows[s.workers[i].task], s.slot.None?, s.gate.phase, act);
    ActFrame(s, i, act);
    RegisteredFrame(s, ActStep(s, i, act), i);
  }

  lemma RegisteredAfterLaunch(s: State, m: Manager, t: TaskId)
    requires Linked(s) && RegisteredOk(s) && (m, t) in s.launches
    ensures RegisteredOk(LaunchStep(s, m, t))
  {
  }

  /** The other steps leave the maps, and every worker's place, manager and task. */
  predicate SameEntries(s: State, t: State)
  {
    && t.registered == s.registered && |t.workers| == |s.workers|
    && forall j | 0 <= j < |s.workers| ::
         && t.workers[j].pc == s.workers[j].pc && t.workers[j].manager == s.workers[j].manager
         && t.workers[j].task == s.workers[j].task
  }

  lemma EntriesKept(s: State, step: Step)
    requires Enabled(s, step) && !step.WorkerAct? && !step.Launch? && !step.Restart?
    ensures SameEntries(s, Apply(s, step))
  {
  }

  lemma RegisteredSame(s: State, t: State)
    requires RegisteredOk(s) && SameEntries(s, t)
    ensures RegisteredOk(t)
  {
  }

  lemma RegisteredAfterRestart(s: State)
    ensures RegisteredOk(RestartStep(s))
  {
  }

  lemma RegisteredKept(s: State, step: Step)
    requires Linked(s) && RegisteredOk(s) && Enabled(s, step)
    ensures RegisteredOk(Apply(s, step))
  {
    if step.WorkerAct? {
      RegisteredAfterAct(s, step.worker, step.act);
    } else if step.Launch? {
      RegisteredAfterLaunch(s, step.manager, step.task);
    } else if step.Restart? {
      RegisteredAfterRestart(s);
    } else {
      EntriesKept(s, step);
      RegisteredSame(s, Apply(s, step));
    }
  }

  lemma {:induction false} RegisteredAlways(s: State, steps: seq<Step>, later: State)
    requires Linked(s) && RegisteredOk(s) && Execution(s, steps, later)
    ensures RegisteredOk(later)
    decreases |steps|
  {
    if steps != [] {
      LinkedKept(s, steps[0]);
      RegisteredKept(s, steps[0]);
      RegisteredAlways(Apply(s, steps[0]), steps[1..], later);
    }
  }

  /** In every reachable state the launching manager's entry leads to the worker until the worker removes it. */
  lemma RegisteredWorker(s: State, i: nat)
    requires Reachable(s) && i < |s.workers| && StillRegistered(s.workers[i].pc)
    ensures var key := (s.workers[i].manager, s.workers[i].task); key in s.registered && s.registered[key] == i
    ensures forall k | k in s.registered && s.registered[k] == i :: k == (s.workers[i].manager, s.workers[i].task)
  {
    var steps :| Execution(Init(), steps, s);
    RegisteredAlways(Init(), steps, s);
    ReachableInv(s);
    WorkerFacts(s, i);
  }

  /** A worker that has removed its entry, or whose daemon is gone, is in no map any more. */
  lemma UnregisteredWorker(s: State, i: nat)
    requires Reachable(s) && i < |s.workers| && !StillRegistered(s.workers[i].pc)
    ensures forall k | k in s.registered :: s.registered[k] != i
  {
    var steps :| Execution(Init(), steps, s);
    RegisteredAlways(Init(), steps, s);
  }

  /** A stop is taken exactly on an unfinished task, is on record at once, and can be signalled; no more changes. */
  lemma StopIsRecorded(s: State, m: Manager, t: TaskId)
    requires t in s.rows
    ensures Enabled(s, StopRecord(m, t)) <==> s.rows[t].status == Queued || s.rows[t].status == Running
    ensures Enabled(s, StopRecord(m, t)) ==>
              var r := Apply(s, StopRecord(m, t));
              && r.rows == s.rows[t := s.rows[t].(cancelRequested := true)]
              && Enabled(r, StopSignal(m, t)) && r.workers == s.workers
  {
  }

  /**
   A stop recorded through the launching manager reaches the worker with the manager's signal, without waiting for a
   poll: from then on, in every run, it passes no checkpoint and makes at most nine more moves.
   */
  lemma SignalledStopIsNotLost(s: State, i: nat, steps: seq<Step>, later: State)
    requires Reachable(s) && i < |s.workers| && StillRegistered(s.workers[i].pc)
    requires Enabled(s, StopSignal(s.workers[i].manager, s.workers[i].task))
    requires Execution(Apply(s, StopSignal(s.workers[i].manager, s.workers[i].task)), steps, later)
    ensures NoCheckpointPassed(steps, i) && OwnMoves(steps, i) <= 9
    ensures !s.workers[i].pc.Cleared? ==> NoSpawnBy(steps, i)
  {
    RegisteredWorker(s, i);
    HistoryInReach(s, i);
    MutedRun(Apply(s, StopSignal(s.workers[i].manager, s.workers[i].task)), i, steps, later);
  }

  lemma HistoryInReach(s: State, i: nat)
    requires Reachable(s) && i < |s.workers|
    ensures HistoryOk(s.workers[i]) && s.workers[i].task in s.rows
  {
    ReachableInv(s);
    WorkerFacts(s, i);
  }

  // ----- no deadlock --------------------------------------------------------------------------------------

  predicate HasEnded(pc: Pc)
  {
    pc.Done? || pc.Lost?
  }

  /** A move the worker can make wherever it is, if it is not waiting for the slot. */
  function SomeMove(w: Worker, phase: Phase): (act: Act)
  {
    match w.pc
    case Waiting => if w.permit then QueueStop else TakeSlot
    case HasSlot => if phase == Open then Admit else GateRefuses
    case Admitted => MarkFails
    case MarkRefused => MarkGivesUp
    case Marked => if w.permit then FirstStop else FirstPass
    case SettingUp => SetupDone(false)
    case Prepared(_) => if w.permit then SecondStop else SecondPass
    case Cleared(_) => Spawn
    case Handshake(_) => if w.permit then HandshakeStop else HandshakeDone
    case Prompting => PromptEnds(EndedTimedOut)
    case Closing(_) => CloseOk
    case Closed => ScriptMissing
    case Verifying(todo, passed) =>
      if todo == 0 then VerifyDone else if w.permit then VerifyStop else CheckPasses(passed)
    case RunOver(_) => DropAdmission
    case Unwinding(_) => DropSlot
    case Finishing(_) => FinishWrite(true)
    case Deregistering(_) => Deregister
    case FallingBack => FallbackWrite(true)
    case Done => Deregister
    case Lost => Deregister
  }

  predicate Blocked(w: Worker, slotFree: bool)
  {
    HasEnded(w.pc) || (w.pc.Waiting? && !w.permit && !slotFree)
  }

  lemma MoveOrBlocked(w: Worker, row: Row, slotFree: bool, phase: Phase)
    ensures !Blocked(w, slotFree) ==> ActEnabled(w, row, slotFree, phase, SomeMove(w, phase))
  {
  }

  lemma BlockedStays(w: Worker, row: Row, slotFree: bool, phase: Phase, act: Act)
    requires Blocked(w, slotFree)
    ensures !ActEnabled(w, row, slotFree, phase, act)
  {
  }

  /** A worker is blocked exactly when it has ended or waits, with no stop, for a slot that another worker holds. */
  lemma OnlyTheSlotBlocks(s: State, i: nat)
    requires Reachable(s) && i < |s.workers|
    ensures (exists act :: Enabled(s, WorkerAct(i, act))) <==> !Blocked(s.workers[i], s.slot.None?)
  {
    HistoryInReach(s, i);
    var w, row := s.workers[i], s.rows[s.workers[i].task];
    if Blocked(w, s.slot.None?) {
      forall act ensures !Enabled(s, WorkerAct(i, act)) {
        BlockedStays(w, row, s.slot.None?, s.gate.phase, act);
      }
    } else {
      MoveOrBlocked(w, row, s.slot.None?, s.gate.phase);
      assert Enabled(s, WorkerAct(i, SomeMove(w, s.gate.phase)));
    }
  }

  /** The slot holder has not ended and is not waiting. */
  lemma SlotHolderIsInside(s: State)
    requires Reachable(s) && s.slot.Some?
    ensures s.slot.value < |s.workers| && HoldsSlot(s.workers[s.slot.value].pc)
  {
    ReachableInv(s);
  }

  /** While any worker is unfinished, some worker can move; a stopped worker can always move itself. */
  lemma NoDeadlock(s: State, i: nat) returns (j: nat)
    requires Reachable(s) && i < |s.workers| && !HasEnded(s.workers[i].pc)
    ensures j < |s.workers| && exists act :: Enabled(s, WorkerAct(j, act))
    ensures s.workers[i].permit ==> j == i
  {
    OnlyTheSlotBlocks(s, i);
    j := i;
    if s.workers[i].pc.Waiting? && !s.workers[i].permit && s.slot.Some? {
      SlotHolderIsInside(s);
      j := s.slot.value;
      OnlyTheSlotBlocks(s, j);
    }
  }
}
