/**
 What every step of the coding-task protocol keeps. The invariant has a part about one worker and its row, which
 each worker move keeps by itself, and parts about what workers share: the slot, the gate, the agents, the call ids.
 */
module ProtocolInvariant {
  import opened Options
  import opened Delivery
  import opened TaskTable
  import opened Protocol

  // ----- one worker and its row ---------------------------------------------------------------------------

  predicate Consumed(did: set<Act>)
  {
    || QueueStop in did || FirstStop in did || SecondStop in did
    || HandshakeStop in did || PromptStop in did || VerifyStop in did
  }

  /** Why this worker may end as cancelled: a durable request, an unreadable row, or the shutdown gate. */
  predicate CancelCause(w: Worker, row: Row)
  {
    row.cancelRequested || w.unreadable || GateRefuses in w.did
  }

  predicate ClosedCleanly(did: set<Act>)
  {
    && PromptEnds(Finished(EndTurn)) in did
    && CloseOk in did
    && CloseFails !in did
  }

  /** The worker's own history shows a finished turn, a confirmed exit, and no failed or stopped check. */
  predicate HonestHistory(did: set<Act>)
  {
    && Spawn in did
    && ClosedCleanly(did)
    && CheckFails !in did
    && ScriptMissing !in did
    && !Consumed(did)
  }

  predicate PassedUpTo(did: set<Act>, n: nat)
  {
    forall k: nat | k < n :: CheckPasses(k) in did
  }

  /** Some checks were chosen, and the worker saw every one of them pass. */
  predicate ChosenPassed(did: set<Act>)
  {
    exists a | a in did :: a.ChecksChosen? && PassedUpTo(did, a.count)
  }

  /** Some number of checks was chosen, at least one, and the worker saw every one of them pass. */
  predicate AllChecksPassed(did: set<Act>)
  {
    exists a | a in did :: a.ChecksChosen? && a.count > 0 && PassedUpTo(did, a.count)
  }

  predicate ResultOk(w: Worker, row: Row, result: RunResult)
  {
    && (result.Answered? && result.answer.outcome == OutCancelled ==> CancelCause(w, row))
    && (result.Answered? && result.answer.outcome == OutCompleted ==>
          HonestHistory(w.did) && ChosenPassed(w.did))
    && (result.Answered? && result.answer.delivery == Some(DeliveredChecksPassed) ==>
          HonestHistory(w.did) && AllChecksPassed(w.did))
  }

  predicate Unmarked(pc: Pc)
  {
    pc.Waiting? || pc.HasSlot? || pc.Admitted? || pc.MarkRefused?
  }

  predicate Unspawned(pc: Pc)
  {
    Unmarked(pc) || pc.Marked? || pc.SettingUp? || pc.Prepared? || pc.Cleared?
  }

  /** Slot, admission and mark come in this order. */
  predicate MarkHistory(w: Worker)
  {
    && (Mark in w.did ==> TakeSlot in w.did && Admit in w.did)
    && (Unmarked(w.pc) ==> Mark !in w.did)
    && (HoldsAdmission(w.pc) && !Unmarked(w.pc) && !w.pc.RunOver? ==> Mark in w.did)
    && (HoldsSlot(w.pc) ==> TakeSlot in w.did)
    && (HoldsAdmission(w.pc) ==> Admit in w.did)
  }

  /** The spawn follows the mark. */
  predicate SpawnHistory(w: Worker)
  {
    && (Spawn in w.did ==> Mark in w.did)
    && (Unspawned(w.pc) ==> Spawn !in w.did)
    && (AgentUp(w.pc) || w.pc.Closed? || w.pc.Verifying? ==> Spawn in w.did)
  }

  predicate HistoryOk(w: Worker)
  {
    MarkHistory(w) && SpawnHistory(w) && (Consumed(w.did) ==> Returning(w.pc))
  }

  predicate NothingWrongYet(did: set<Act>)
  {
    CloseFails !in did && HandshakeFails(false) !in did && CheckFails !in did && ScriptMissing !in did
  }

  predicate ChecksOnRecord(did: set<Act>, todo: nat, passed: nat)
  {
    ChecksChosen(todo + passed) in did && PassedUpTo(did, passed)
  }

  /** The parts of the history that a report will rest on. */
  predicate EvidenceOk(w: Worker, row: Row)
  {
    && (!Returning(w.pc) && !w.pc.Closed? && !w.pc.Verifying? ==> NothingWrongYet(w.did))
    && (w.pc.Closing? ==>
          && NothingWrongYet(w.did)
          && (w.pc.ended == EndedCancelled ==> CancelCause(w, row))
          && (w.pc.ended != EndedCancelled ==> PromptEnds(w.pc.ended) in w.did && !Consumed(w.did)))
    && (w.pc.Closed? ==> HonestHistory(w.did))
    && (w.pc.Verifying? ==> HonestHistory(w.did) && ChecksOnRecord(w.did, w.pc.todo, w.pc.passed))
    && (w.pc.RunOver? || w.pc.Unwinding? || w.pc.Finishing? ==> ResultOk(w, row, w.pc.result))
  }

  /** The worker's own final write is behind it. */
  predicate Settled(pc: Pc)
  {
    pc.Deregistering? || pc.FallingBack? || pc.Done? || pc.Lost?
  }

  predicate RowAndWorker(w: Worker, row: Row)
  {
    && RowOk(row)
    && (Mark in w.did ==> row.status != Queued)
    && (row.status == Running ==> Mark in w.did)
    && (row.status == Completed ==> Settled(w.pc) && HonestHistory(w.did) && ChosenPassed(w.did))
    && (row.status == Cancelled ==> CancelCause(w, row))
    && (w.permit ==> row.cancelRequested || w.unreadable)
  }

  predicate WorkerOk(w: Worker, row: Row)
  {
    HistoryOk(w) && EvidenceOk(w, row) && RowAndWorker(w, row)
  }

  /** The moves of a worker whose agent is not spawned yet. */
  predicate SetupAct(act: Act)
  {
    || act.QueueStop? || act.TakeSlot? || act.Admit? || act.GateRefuses? || act.GateBroken?
    || act.Mark? || act.MarkFails? || act.MarkWasCancelled? || act.MarkGivesUp? || act.FirstStop? || act.FirstPass?
    || act.SetupFails? || act.SetupDone? || act.SecondStop? || act.SecondPass? || act.SpawnFails?
  }

  /** The moves of a worker with an agent. */
  predicate AgentAct(act: Act)
  {
    || act.Spawn? || act.HandshakeStop? || act.HandshakeFails? || act.HandshakeDone?
    || act.PromptStop? || act.PromptEnds? || act.CloseOk? || act.CloseFails?
  }

  lemma MarkHistoryInSetup(w: Worker, row: Row, slotFree: bool, phase: Phase, act: Act)
    requires ActEnabled(w, row, slotFree, phase, act) && MarkHistory(w) && SetupAct(act)
    ensures MarkHistory(ActWorker(w, row, act))
  {
  }

  lemma MarkHistoryWithAgent(w: Worker, row: Row, slotFree: bool, phase: Phase, act: Act)
    requires ActEnabled(w, row, slotFree, phase, act) && MarkHistory(w) && AgentAct(act)
    ensures MarkHistory(ActWorker(w, row, act))
  {
  }

  lemma MarkHistoryAfterwards(w: Worker, row: Row, slotFree: bool, phase: Phase, act: Act)
    requires ActEnabled(w, row, slotFree, phase, act) && MarkHistory(w) && !SetupAct(act) && !AgentAct(act)
    ensures MarkHistory(ActWorker(w, row, act))
  {
  }

  lemma MarkHistoryKept(w: Worker, row: Row, slotFree: bool, phase: Phase, act: Act)
    requires ActEnabled(w, row, slotFree, phase, act) && MarkHistory(w)
    ensures MarkHistory(ActWorker(w, row, act))
  {
    if SetupAct(act) {
      MarkHistoryInSetup(w, row, slotFree, phase, act);
    } else if AgentAct(act) {
      MarkHistoryWithAgent(w, row, slotFree, phase, act);
    } else {
      MarkHistoryAfterwards(w, row, slotFree, phase, act);
    }
  }

  lemma SpawnHistoryInSetup(w: Worker, row: Row, slotFree: bool, phase: Phase, act: Act)
    requires ActEnabled(w, row, slotFree, phase, act) && MarkHistory(w) && SpawnHistory(w) && SetupAct(act)
    ensures SpawnHistory(ActWorker(w, row, act))
  {
  }

  lemma SpawnHistoryWithAgent(w: Worker, row: Row, slotFree: bool, phase: Phase, act: Act)
    requires ActEnabled(w, row, slotFree, phase, act) && MarkHistory(w) && SpawnHistory(w) && AgentAct(act)
    ensures SpawnHistory(ActWorker(w, row, act))
  {
  }

  lemma SpawnHistoryAfterwards(w: Worker, row: Row, slotFree: bool, phase: Phase, act: Act)
    requires ActEnabled(w, row, slotFree, phase, act) && MarkHistory(w) && SpawnHistory(w)
    requires !SetupAct(act) && !AgentAct(act)
    ensures SpawnHistory(ActWorker(w, row, act))
  {
  }

  lemma SpawnHistoryKept(w: Worker, row: Row, slotFree: bool, phase: Phase, act: Act)
    requires ActEnabled(w, row, slotFree, phase, act) && MarkHistory(w) && SpawnHistory(w)
    ensures SpawnHistory(ActWorker(w, row, act))
  {
    if SetupAct(act) {
      SpawnHistoryInSetup(w, row, slotFree, phase, act);
    } else if AgentAct(act) {
      SpawnHistoryWithAgent(w, row, slotFree, phase, act);
    } else {
      SpawnHistoryAfterwards(w, row, slotFree, phase, act);
    }
  }

  lemma ConsumptionKept(w: Worker, row: Row, slotFree: bool, phase: Phase, act: Act)
    requires ActEnabled(w, row, slotFree, phase, act) && (Consumed(w.did) ==> Returning(w.pc))
    ensures Consumed(w.did + {act}) ==> Returning(ActPc(w.pc, row, act))
  {
  }

  lemma HistoryKept(w: Worker, row: Row, slotFree: bool, phase: Phase, act: Act)
    requires ActEnabled(w, row, slotFree, phase, act) && HistoryOk(w)
    ensures HistoryOk(ActWorker(w, row, act))
  {
    MarkHistoryKept(w, row, slotFree, phase, act);
    SpawnHistoryKept(w, row, slotFree, phase, act);
    ConsumptionKept(w, row, slotFree, phase, act);
  }

  lemma EvidenceInSetup(w: Worker, row: Row, slotFree: bool, phase: Phase, act: Act)
    requires ActEnabled(w, row, slotFree, phase, act) && WorkerOk(w, row) && SetupAct(act)
    ensures EvidenceOk(ActWorker(w, row, act), ActRow(w.pc, row, act))
  {
  }

  lemma EvidenceWithAgent(w: Worker, row: Row, slotFree: bool, phase: Phase, act: Act)
    requires ActEnabled(w, row, slotFree, phase, act) && WorkerOk(w, row) && AgentAct(act)
    ensures EvidenceOk(ActWorker(w, row, act), ActRow(w.pc, row, act))
  {
  }

  lemma EvidenceAfterwards(w: Worker, row: Row, slotFree: bool, phase: Phase, act: Act)
    requires ActEnabled(w, row, slotFree, phase, act) && WorkerOk(w, row) && !SetupAct(act) && !AgentAct(act)
    ensures EvidenceOk(ActWorker(w, row, act), ActRow(w.pc, row, act))
  {
  }

  lemma EvidenceKept(w: Worker, row: Row, slotFree: bool, phase: Phase, act: Act)
    requires ActEnabled(w, row, slotFree, phase, act) && WorkerOk(w, row)
    ensures EvidenceOk(ActWorker(w, row, act), ActRow(w.pc, row, act))
  {
    if SetupAct(act) {
      EvidenceInSetup(w, row, slotFree, phase, act);
    } else if AgentAct(act) {
      EvidenceWithAgent(w, row, slotFree, phase, act);
    } else {
      EvidenceAfterwards(w, row, slotFree, phase, act);
    }
  }

  lemma RowInSetup(w: Worker, row: Row, slotFree: bool, phase: Phase, act: Act)
    requires ActEnabled(w, row, slotFree, phase, act) && WorkerOk(w, row) && SetupAct(act)
    ensures RowAndWorker(ActWorker(w, row, act), ActRow(w.pc, row, act))
  {
  }

  lemma RowWithAgent(w: Worker, row: Row, slotFree: bool, phase: Phase, act: Act)
    requires ActEnabled(w, row, slotFree, phase, act) && WorkerOk(w, row) && AgentAct(act)
    ensures RowAndWorker(ActWorker(w, row, act), ActRow(w.pc, row, act))
  {
  }

  lemma RowAfterwards(w: Worker, row: Row, slotFree: bool, phase: Phase, act: Act)
    requires ActEnabled(w, row, slotFree, phase, act) && WorkerOk(w, row) && !SetupAct(act) && !AgentAct(act)
    ensures RowAndWorker(ActWorker(w, row, act), ActRow(w.pc, row, act))
  {
  }

  lemma RowKept(w: Worker, row: Row, slotFree: bool, phase: Phase, act: Act)
    requires ActEnabled(w, row, slotFree, phase, act) && WorkerOk(w, row)
    ensures RowAndWorker(ActWorker(w, row, act), ActRow(w.pc, row, act))
  {
    if SetupAct(act) {
      RowInSetup(w, row, slotFree, phase, act);
    } else if AgentAct(act) {
      RowWithAgent(w, row, slotFree, phase, act);
    } else {
      RowAfterwards(w, row, slotFree, phase, act);
    }
  }

  /** Every enabled move of a worker keeps what is known about that worker and its row. */
  lemma WorkerKept(w: Worker, row: Row, slotFree: bool, phase: Phase, act: Act)
    requires ActEnabled(w, row, slotFree, phase, act) && WorkerOk(w, row)
    ensures WorkerOk(ActWorker(w, row, act), ActRow(w.pc, row, act))
  {
    HistoryKept(w, row, slotFree, phase, act);
    EvidenceKept(w, row, slotFree, phase, act);
    RowKept(w, row, slotFree, phase, act);
  }

  lemma StopWriteKept(w: Worker, row: Row)
    requires WorkerOk(w, row)
    ensures WorkerOk(w, RequestCancellation(row))
  {
  }

  lemma InterruptKept(w: Worker, row: Row)
    requires WorkerOk(w, row)
    ensures WorkerOk(w, Interrupt(row))
  {
  }

  lemma LostKept(w: Worker, row: Row)
    requires WorkerOk(w, row)
    ensures WorkerOk(w.(pc := Lost), Interrupt(row))
  {
  }

  lemma PermitKept(w: Worker, row: Row)
    requires WorkerOk(w, row)
    ensures row.cancelRequested ==> WorkerOk(w.(permit := true), row)
    ensures WorkerOk(w.(permit := true, unreadable := true), row)
  {
  }

  /** A stop or an interrupt written to the row, a raised permit, or a lost daemon leaves the worker consistent. */
  lemma OutsideChangesKept(w: Worker, row: Row)
    requires WorkerOk(w, row)
    ensures WorkerOk(w, RequestCancellation(row))
    ensures WorkerOk(w, Interrupt(row))
    ensures row.cancelRequested ==> WorkerOk(w.(permit := true), row)
    ensures WorkerOk(w.(permit := true, unreadable := true), row)
    ensures WorkerOk(w.(pc := Lost), Interrupt(row))
  {
    StopWriteKept(w, row);
    InterruptKept(w, row);
    LostKept(w, row);
    PermitKept(w, row);
  }

  // ----- what workers share -------------------------------------------------------------------------------

  predicate NoWorker(s: State, t: TaskId)
  {
    forall i | 0 <= i < |s.workers| :: s.workers[i].task != t
  }

  /** Tasks, workers, pending launches, registrations and pending stops point at each other correctly. */
  predicate Linked(s: State)
  {
    && (forall i | 0 <= i < |s.workers| :: s.workers[i].task in s.rows)
    && (forall i, j | 0 <= i < j < |s.workers| :: s.workers[i].task != s.workers[j].task)
    && (forall l | l in s.launches :: l.1 in s.rows && NoWorker(s, l.1))
    && (forall l, k | l in s.launches && k in s.launches && l.1 == k.1 :: l == k)
    && (forall k | k in s.registered ::
          s.registered[k] < |s.workers| && s.workers[s.registered[k]].task == k.1)
    && (forall k | k in s.stops :: k.1 in s.rows && s.rows[k.1].cancelRequested)
  }

  predicate WorkersOk(s: State)
    requires Linked(s)
  {
    && (forall i | 0 <= i < |s.workers| :: WorkerOk(s.workers[i], s.rows[s.workers[i].task]))
    && (forall t | t in s.rows && NoWorker(s, t) :: IdleRow(s.rows[t]))
  }

  /** A row no worker was launched for was never run. */
  predicate IdleRow(row: Row)
  {
    && RowOk(row)
    && (row.status == Queued || row.status == Interrupted || (row.status == Cancelled && row.cancelRequested))
  }

  predicate SlotOk(s: State)
  {
    && (forall i | 0 <= i < |s.workers| :: HoldsSlot(s.workers[i].pc) <==> s.slot == Some(i))
    && (s.slot.Some? ==> s.slot.value < |s.workers|)
  }

  predicate AgentsOk(s: State)
  {
    && (forall i | i in s.live :: i < |s.workers|)
    && (forall i | 0 <= i < |s.workers| :: i in s.live <==> AgentUp(s.workers[i].pc))
  }

  predicate LeftBehind(did: set<Act>)
  {
    CloseFails in did || HandshakeFails(false) in did
  }

  /** An agent is unaccounted for only after a close that could not confirm its exit, or with its daemon gone. */
  predicate OrphansOk(s: State)
  {
    forall i | i in s.orphans ::
      i < |s.workers| && (LeftBehind(s.workers[i].did) || s.workers[i].pc.Lost?)
  }

  predicate SlotAdmitted(s: State)
  {
    s.slot.Some? && s.slot.value < |s.workers| && HoldsAdmission(s.workers[s.slot.value].pc)
  }

  /** The gate counts exactly the other operations and the one admitted worker; a gentle shutdown excludes it. */
  predicate GateOk(s: State)
  {
    && s.gate.active == s.others + (if SlotAdmitted(s) then 1 else 0)
    && (s.gate.phase != Open && s.gate.gentle ==> !SlotAdmitted(s))
  }

  predicate SameCall(a: Row, b: Row)
  {
    a.origin.Some? && b.origin.Some? && a.origin.value.call == b.origin.value.call
  }

  predicate CallsOk(s: State)
  {
    && (forall t, u | t in s.rows && u in s.rows && SameCall(s.rows[t], s.rows[u]) :: t == u)
    && (forall r | r in s.replies ::
          r.1 in s.rows && s.rows[r.1].origin.Some? && s.rows[r.1].origin.value.call == r.0)
  }

  /** Every unfinished task of a stopped run carries the stop. */
  predicate FamilyOk(s: State)
  {
    forall t | t in s.rows && InFamily(s.rows[t], s.stopped) :: Active(s.rows[t]) ==> s.rows[t].cancelRequested
  }

  predicate Inv(s: State)
  {
    Linked(s) && WorkersOk(s) && SlotOk(s) && AgentsOk(s) && OrphansOk(s) && GateOk(s) && CallsOk(s) && FamilyOk(s)
  }

  /** How one move changes what its worker holds. */
  lemma Holdings(w: Worker, row: Row, slotFree: bool, phase: Phase, act: Act)
    requires ActEnabled(w, row, slotFree, phase, act)
    ensures var pc := ActPc(w.pc, row, act);
            && (HoldsSlot(pc) <==> act.TakeSlot? || (HoldsSlot(w.pc) && !act.DropSlot?))
            && (HoldsAdmission(pc) <==> act.Admit? || (HoldsAdmission(w.pc) && !act.DropAdmission?))
            && (AgentUp(pc) <==> act.Spawn?
                                 || (AgentUp(w.pc) && !act.HandshakeStop? && !act.HandshakeFails? && !act.CloseOk?
                                     && !act.CloseFails?))
    ensures act.TakeSlot? ==> slotFree && !HoldsSlot(w.pc)
    ensures act.DropSlot? ==> HoldsSlot(w.pc) && !HoldsAdmission(w.pc)
    ensures act.Admit? ==> HoldsSlot(w.pc) && !HoldsAdmission(w.pc) && phase == Open
    ensures act.DropAdmission? ==> HoldsAdmission(w.pc)
  {
  }

  /** Writes never change a row's lineage or forget a stop. */
  lemma WriteFrame(row: Row, pc: Pc, act: Act)
    ensures ActRow(pc, row, act).origin == row.origin
    ensures ActRow(pc, row, act).cancelRequested == row.cancelRequested
    ensures !Active(row) ==> ActRow(pc, row, act) == row
    ensures RequestCancellation(row).origin == row.origin && Interrupt(row).origin == row.origin
    ensures row.cancelRequested ==> RequestCancellation(row).cancelRequested && Interrupt(row).cancelRequested
  {
  }

  predicate SameRowBut(row: Row, next: Row)
  {
    && next.origin == row.origin
    && (row.cancelRequested ==> next.cancelRequested)
    && (!Active(row) ==> next == row)
  }

  /** Every task stays, with its lineage and its recorded stop. */
  predicate RowsFramed(s: State, t: State)
  {
    && t.rows.Keys == s.rows.Keys
    && forall u | u in s.rows :: SameRowBut(s.rows[u], t.rows[u])
  }

  /** Every worker keeps its task, and the managers' bookkeeping only shrinks, but for stops just recorded. */
  predicate ManagersFramed(s: State, t: State)
  {
    && |t.workers| == |s.workers|
    && (forall j | 0 <= j < |s.workers| :: t.workers[j].task == s.workers[j].task)
    && t.launches <= s.launches
    && (forall k | k in t.registered :: k in s.registered && t.registered[k] == s.registered[k])
    && (forall k | k in t.stops :: k in s.stops || (k.1 in t.rows && t.rows[k.1].cancelRequested))
  }

  lemma RowsFrame(s: State, step: Step)
    requires Enabled(s, step) && !step.Create?
    ensures RowsFramed(s, Apply(s, step))
  {
    if step.WorkerAct? {
      WriteFrame(s.rows[s.workers[step.worker].task], s.workers[step.worker].pc, step.act);
    }
  }

  lemma ManagersFrame(s: State, step: Step)
    requires Enabled(s, step) && !step.Create? && !step.Launch?
    ensures ManagersFramed(s, Apply(s, step))
    ensures !step.Replay? ==> Apply(s, step).replies == s.replies
  {
  }

  lemma SlotAfterAct(s: State, i: nat, act: Act)
    requires SlotOk(s) && Enabled(s, WorkerAct(i, act))
    ensures SlotOk(ActStep(s, i, act))
  {
    Holdings(s.workers[i], s.rows[s.workers[i].task], s.slot.None?, s.gate.phase, act);
  }

  lemma SlotKept(s: State, step: Step)
    requires SlotOk(s) && Enabled(s, step)
    ensures SlotOk(Apply(s, step))
  {
    match step
    case WorkerAct(i, act) => SlotAfterAct(s, i, act);
    case _ =>
  }

  lemma AgentsFrame(s: State, t: State, i: nat)
    requires AgentsOk(s) && |t.workers| == |s.workers| && i < |s.workers|
    requires forall j | 0 <= j < |s.workers| && j != i :: t.workers[j].pc == s.workers[j].pc
    requires forall j | j != i :: j in t.live <==> j in s.live
    requires i in t.live <==> AgentUp(t.workers[i].pc)
    ensures AgentsOk(t)
  {
  }

  lemma AgentsKept(s: State, step: Step)
    requires AgentsOk(s) && Enabled(s, step)
    ensures AgentsOk(Apply(s, step))
  {
    match step
    case WorkerAct(i, act) =>
      Holdings(s.workers[i], s.rows[s.workers[i].task], s.slot.None?, s.gate.phase, act);
      AgentsFrame(s, ActStep(s, i, act), i);
    case _ =>
  }

  lemma GateAfterAct(s: State, i: nat, act: Act)
    requires SlotOk(s) && GateOk(s) && Enabled(s, WorkerAct(i, act))
    ensures GateOk(ActStep(s, i, act))
  {
    Holdings(s.workers[i], s.rows[s.workers[i].task], s.slot.None?, s.gate.phase, act);
    assert HoldsAdmission(s.workers[i].pc) ==> s.slot == Some(i);
  }

  /** Other steps than worker moves and restarts leave the slot and every worker where they are. */
  predicate SamePlaces(s: State, t: State)
  {
    && t.slot == s.slot && |t.workers| >= |s.workers|
    && forall j | 0 <= j < |s.workers| :: t.workers[j].pc == s.workers[j].pc
  }

  lemma PlacesKept(s: State, step: Step)
    requires Enabled(s, step) && !step.WorkerAct? && !step.Restart?
    ensures SamePlaces(s, Apply(s, step))
  {
  }

  lemma SamePlacesSameAdmission(s: State, t: State)
    requires SlotOk(s) && SamePlaces(s, t)
    ensures SlotAdmitted(t) <==> SlotAdmitted(s)
  {
  }

  /** What the steps of others do to the gate's own count. */
  lemma GateCount(s: State, step: Step)
    requires Enabled(s, step) && !step.WorkerAct? && !step.Restart?
    ensures var r := Apply(s, step);
            && r.gate.active - r.others == s.gate.active - s.others
            && (r.gate.phase != Open && r.gate.gentle ==>
                  (s.gate.phase != Open && s.gate.gentle) || s.gate.active == 0)
  {
  }

  lemma GateElsewhere(s: State, step: Step)
    requires SlotOk(s) && GateOk(s) && Enabled(s, step) && !step.WorkerAct? && !step.Restart?
    ensures GateOk(Apply(s, step))
  {
    PlacesKept(s, step);
    SamePlacesSameAdmission(s, Apply(s, step));
    GateCount(s, step);
  }

  lemma GateKept(s: State, step: Step)
    requires SlotOk(s) && GateOk(s) && Enabled(s, step)
    ensures GateOk(Apply(s, step))
  {
    if step.WorkerAct? {
      GateAfterAct(s, step.worker, step.act);
    } else if !step.Restart? {
      GateElsewhere(s, step);
    }
  }

  lemma OrphansElsewhere(s: State, step: Step)
    requires AgentsOk(s) && OrphansOk(s) && Enabled(s, step) && !step.WorkerAct?
    ensures OrphansOk(Apply(s, step))
  {
  }

  lemma OrphansKept(s: State, step: Step)
    requires AgentsOk(s) && OrphansOk(s) && Enabled(s, step)
    ensures OrphansOk(Apply(s, step))
  {
    if step.WorkerAct? {
      OrphansAfterAct(s, step.worker, step.act);
    } else {
      OrphansElsewhere(s, step);
    }
  }

  lemma OrphansAfterAct(s: State, i: nat, act: Act)
    requires OrphansOk(s) && i < |s.workers| && s.workers[i].task in s.rows
    requires !s.workers[i].pc.Lost?
    ensures OrphansOk(ActStep(s, i, act))
  {
  }

  lemma CallsFrame(s: State, t: State)
    requires CallsOk(s) && RowsFramed(s, t) && t.replies == s.replies
    ensures CallsOk(t)
  {
  }

  lemma CallsAfterCreate(s: State, m: Manager, t: TaskId, origin: Option<Origin>, request: string)
    requires CallsOk(s) && Enabled(s, Create(m, t, origin, request))
    ensures CallsOk(CreateStep(s, m, t, origin, request))
  {
  }

  lemma CallsAfterReply(s: State, t: TaskId)
    requires CallsOk(s)
    ensures CallsOk(s.(replies := ReplyTo(s, t)))
  {
  }

  lemma CallsElsewhere(s: State, step: Step)
    requires CallsOk(s) && Enabled(s, step) && !step.Create? && !step.Replay? && !step.Launch?
    ensures CallsOk(Apply(s, step))
  {
    RowsFrame(s, step);
    ManagersFrame(s, step);
    CallsFrame(s, Apply(s, step));
  }

  lemma CallsKept(s: State, step: Step)
    requires CallsOk(s) && Enabled(s, step)
    ensures CallsOk(Apply(s, step))
  {
    match step
    case Create(m, t, origin, request) => CallsAfterCreate(s, m, t, origin, request);
    case Replay(_, t, _, _) => CallsAfterReply(s, t);
    case Launch(_, t) => CallsAfterReply(s, t);
    case _ => CallsElsewhere(s, step);
  }

  lemma FamilyAfterAct(s: State, i: nat, act: Act)
    requires FamilyOk(s) && i < |s.workers| && s.workers[i].task in s.rows
    ensures FamilyOk(ActStep(s, i, act))
  {
    WriteFrame(s.rows[s.workers[i].task], s.workers[i].pc, act);
  }

  lemma FamilyKept(s: State, step: Step)
    requires FamilyOk(s) && Enabled(s, step)
    ensures FamilyOk(Apply(s, step))
  {
    match step
    case WorkerAct(i, act) => FamilyAfterAct(s, i, act);
    case _ =>
  }

  lemma LinkedFrame(s: State, t: State)
    requires Linked(s) && RowsFramed(s, t) && ManagersFramed(s, t)
    ensures Linked(t)
  {
  }

  lemma LinkedAfterLaunch(s: State, m: Manager, t: TaskId)
    requires Linked(s) && (m, t) in s.launches
    ensures Linked(LaunchStep(s, m, t))
  {
    var r := LaunchStep(s, m, t);
    assert forall l | l in r.launches :: l in s.launches && l.1 != t;
  }

  lemma LinkedAfterCreate(s: State, m: Manager, t: TaskId, origin: Option<Origin>, request: string)
    requires Linked(s) && t !in s.rows
    ensures Linked(CreateStep(s, m, t, origin, request))
  {
  }

  lemma LinkedElsewhere(s: State, step: Step)
    requires Linked(s) && Enabled(s, step) && !step.Create? && !step.Launch?
    ensures Linked(Apply(s, step))
  {
    RowsFrame(s, step);
    ManagersFrame(s, step);
    LinkedFrame(s, Apply(s, step));
  }

  lemma LinkedKept(s: State, step: Step)
    requires Linked(s) && Enabled(s, step)
    ensures Linked(Apply(s, step))
  {
    match step
    case Create(m, t, origin, request) => LinkedAfterCreate(s, m, t, origin, request);
    case Launch(m, t) => LinkedAfterLaunch(s, m, t);
    case _ => LinkedElsewhere(s, step);
  }

  /** The three outside writes to a row: none, a recorded stop, or an interrupt. */
  predicate OutsideWrite(row: Row, next: Row)
  {
    next == row || next == RequestCancellation(row) || next == Interrupt(row)
  }

  lemma WorkersAfterOutsideWrites(s: State, t: State)
    requires Linked(s) && WorkersOk(s) && Linked(t)
    requires t.workers == s.workers && t.rows.Keys == s.rows.Keys
    requires forall u | u in s.rows :: OutsideWrite(s.rows[u], t.rows[u])
    ensures WorkersOk(t)
  {
    forall i | 0 <= i < |t.workers| ensures WorkerOk(t.workers[i], t.rows[t.workers[i].task]) {
      OutsideChangesKept(s.workers[i], s.rows[s.workers[i].task]);
    }
    assert forall u | u in t.rows && NoWorker(t, u) :: NoWorker(s, u);
  }

  lemma WorkersAfterOneChange(s: State, t: State, i: nat)
    requires Linked(s) && WorkersOk(s) && Linked(t)
    requires i < |s.workers| && |t.workers| == |s.workers| && t.workers[i].task == s.workers[i].task
    requires forall j | 0 <= j < |s.workers| && j != i :: t.workers[j] == s.workers[j]
    requires t.rows.Keys == s.rows.Keys
    requires forall u | u in s.rows && u != s.workers[i].task :: t.rows[u] == s.rows[u]
    requires WorkerOk(t.workers[i], t.rows[t.workers[i].task])
    ensures WorkersOk(t)
  {
    assert forall j | 0 <= j < |s.workers| && j != i :: s.workers[j].task != s.workers[i].task;
    forall u | u in t.rows && NoWorker(t, u) ensures IdleRow(t.rows[u]) {
      assert u != t.workers[i].task;
      assert NoWorker(s, u);
    }
  }

  lemma FreshWorkerOk(m: Manager, t: TaskId, row: Row)
    requires IdleRow(row)
    ensures WorkerOk(Worker(m, t, Waiting, false, false, {}), row)
  {
  }

  lemma WorkersAfterLaunch(s: State, m: Manager, t: TaskId)
    requires Linked(s) && WorkersOk(s) && (m, t) in s.launches
    requires Linked(LaunchStep(s, m, t))
    ensures WorkersOk(LaunchStep(s, m, t))
  {
    var r := LaunchStep(s, m, t);
    FreshWorkerOk(m, t, s.rows[t]);
    forall i | 0 <= i < |r.workers| ensures WorkerOk(r.workers[i], r.rows[r.workers[i].task]) {
      assert i < |s.workers| ==> r.workers[i] == s.workers[i];
    }
    forall u | u in r.rows && NoWorker(r, u) ensures IdleRow(r.rows[u]) {
      assert forall i | 0 <= i < |s.workers| :: s.workers[i] == r.workers[i];
      assert NoWorker(s, u);
    }
  }

  lemma WorkersAfterCreate(s: State, m: Manager, t: TaskId, origin: Option<Origin>, request: string)
    requires Linked(s) && WorkersOk(s) && t !in s.rows
    requires Linked(CreateStep(s, m, t, origin, request))
    ensures WorkersOk(CreateStep(s, m, t, origin, request))
  {
    var r := CreateStep(s, m, t, origin, request);
    forall u | u in r.rows && NoWorker(r, u) ensures IdleRow(r.rows[u]) {
      if u != t {
        assert NoWorker(s, u);
      }
    }
  }

  lemma WorkersAfterRestart(s: State)
    requires Linked(s) && WorkersOk(s) && Linked(RestartStep(s))
    ensures WorkersOk(RestartStep(s))
  {
    var r := RestartStep(s);
    forall i | 0 <= i < |r.workers| ensures WorkerOk(r.workers[i], r.rows[r.workers[i].task]) {
      OutsideChangesKept(s.workers[i], s.rows[s.workers[i].task]);
    }
    forall u | u in r.rows && NoWorker(r, u) ensures IdleRow(r.rows[u]) {
      assert forall i | 0 <= i < |s.workers| :: r.workers[i].task == s.workers[i].task;
      assert NoWorker(s, u);
    }
  }

  /** What a worker's move leaves alone, and what it writes. */
  lemma ActFrame(s: State, i: nat, act: Act)
    requires i < |s.workers| && s.workers[i].task in s.rows
    ensures var w, r := s.workers[i], ActStep(s, i, act);
            && |r.workers| == |s.workers| && r.rows.Keys == s.rows.Keys
            && r.workers[i] == ActWorker(w, s.rows[w.task], act) && r.workers[i].task == w.task
            && r.rows[w.task] == ActRow(w.pc, s.rows[w.task], act)
            && (forall j | 0 <= j < |s.workers| && j != i :: r.workers[j] == s.workers[j])
            && (forall u | u in s.rows && u != w.task :: r.rows[u] == s.rows[u])
  {
  }

  lemma ActorOk(s: State, i: nat, act: Act)
    requires Linked(s) && WorkersOk(s) && Enabled(s, WorkerAct(i, act))
    ensures var w := s.workers[i];
            WorkerOk(ActWorker(w, s.rows[w.task], act), ActRow(w.pc, s.rows[w.task], act))
  {
    WorkerKept(s.workers[i], s.rows[s.workers[i].task], s.slot.None?, s.gate.phase, act);
  }

  lemma WorkersAfterAct(s: State, i: nat, act: Act)
    requires Linked(s) && WorkersOk(s) && Enabled(s, WorkerAct(i, act)) && Linked(ActStep(s, i, act))
    ensures WorkersOk(ActStep(s, i, act))
  {
    ActorOk(s, i, act);
    ActFrame(s, i, act);
    WorkersAfterOneChange(s, ActStep(s, i, act), i);
  }

  lemma WorkersAfterTick(s: State, i: nat, readable: bool)
    requires Linked(s) && WorkersOk(s) && i < |s.workers| && Linked(TickStep(s, i, readable))
    ensures WorkersOk(TickStep(s, i, readable))
  {
    OutsideChangesKept(s.workers[i], s.rows[s.workers[i].task]);
    WorkersAfterOneChange(s, TickStep(s, i, readable), i);
  }

  lemma WorkersAfterStopSignal(s: State, m: Manager, t: TaskId)
    requires Linked(s) && WorkersOk(s) && (m, t) in s.stops
    requires Linked(Apply(s, StopSignal(m, t)))
    ensures WorkersOk(Apply(s, StopSignal(m, t)))
  {
    if (m, t) in s.registered {
      var i := s.registered[(m, t)];
      OutsideChangesKept(s.workers[i], s.rows[s.workers[i].task]);
      WorkersAfterOneChange(s, Apply(s, StopSignal(m, t)), i);
    } else {
      WorkersAfterOutsideWrites(s, Apply(s, StopSignal(m, t)));
    }
  }

  lemma WorkersKept(s: State, step: Step)
    requires Linked(s) && WorkersOk(s) && Enabled(s, step) && Linked(Apply(s, step))
    ensures WorkersOk(Apply(s, step))
  {
    match step
    case Create(m, t, origin, request) => WorkersAfterCreate(s, m, t, origin, request);
    case Launch(m, t) => WorkersAfterLaunch(s, m, t);
    case Restart => WorkersAfterRestart(s);
    case StopSignal(m, t) => WorkersAfterStopSignal(s, m, t);
    case Tick(i, readable) => WorkersAfterTick(s, i, readable);
    case WorkerAct(i, act) => WorkersAfterAct(s, i, act);
    case _ => WorkersAfterOutsideWrites(s, Apply(s, step));
  }

  /** Every step of the protocol keeps the invariant. */
  lemma InvKept(s: State, step: Step)
    requires Inv(s) && Enabled(s, step)
    ensures Inv(Apply(s, step))
  {
    LinkedKept(s, step);
    WorkersKept(s, step);
    SlotKept(s, step);
    AgentsKept(s, step);
    OrphansKept(s, step);
    GateKept(s, step);
    CallsKept(s, step);
    FamilyKept(s, step);
  }

  /** The invariant holds in every state a run can reach. */
  lemma {:induction false} InvAlways(s: State, steps: seq<Step>, t: State)
    requires Inv(s) && Execution(s, steps, t)
    ensures Inv(t)
    decreases |steps|
  {
    if steps != [] {
      InvKept(s, steps[0]);
      InvAlways(Apply(s, steps[0]), steps[1..], t);
    }
  }
}
