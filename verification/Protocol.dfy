/**
 The background coding-task protocol as a state machine: managers create tasks, launch workers and record stops;
 workers wait for the single slot, pass the shutdown gate, mark their row, and drive one agent; the daemon may
 shut down, be restarted, or fail to read its database at any point. Every step below is atomic in the source
 (one SQL statement, one lock region, one poll of a biased select), and any interleaving of steps is a run.
 */
module Protocol {
  import opened Options
  import opened Delivery
  import opened TaskTable

  type Manager = nat

  datatype Phase = Open | Checking | Shut

  /** The admission gate. `gentle` remembers that the current shutdown reservation was asked for without force. */
  datatype Gate = Gate(phase: Phase, active: nat, gentle: bool)

  /** Where a worker is. Constructors after `Prompting` carry what the run knows so far. */
  datatype Pc =
    | Waiting                                // in the queue for the slot
    | HasSlot
    | Admitted
    | MarkRefused                            // the row could not be marked running
    | Marked
    | SettingUp
    | Prepared(tree: bool)                   // `tree`: a worktree was made; otherwise the run works in place
    | Cleared(tree: bool)                    // the second stop check has passed; the spawn is next
    | Handshake(tree: bool)
    | Prompting
    | Closing(ended: Ended)
    | Closed                                 // the turn ended, the tree is gone, verification is next
    | Verifying(todo: nat, passed: nat)
    | RunOver(result: RunResult)             // waiting for the activity recorder; slot and admission still held
    | Unwinding(result: RunResult)           // admission dropped
    | Finishing(result: RunResult)           // slot dropped
    | Deregistering(saved: bool)
    | FallingBack
    | Done
    | Lost                                   // its daemon is gone

  /** The atomic moves of one worker. */
  datatype Act =
    | QueueStop | TakeSlot
    | Admit | GateRefuses | GateBroken
    | Mark | MarkFails | MarkWasCancelled | MarkGivesUp
    | FirstStop | FirstPass
    | SetupFails | SetupDone(tree: bool)
    | SecondStop | SecondPass
    | SpawnFails | Spawn
    | HandshakeStop | HandshakeFails(confirmed: bool) | HandshakeDone
    | PromptStop | PromptEnds(ended: Ended)
    | CloseOk | CloseFails
    | RunnerMissing | ScriptMissing | ChecksChosen(count: nat)
    | VerifyStop | CheckPasses(index: nat) | CheckFails | VerifyDone
    | DropAdmission | DropSlot
    | FinishWrite(readable: bool) | Deregister | FallbackWrite(readable: bool)

  /** A launched worker; `did` is its own history, `unreadable` whether a poll could not read its row. */
  datatype Worker = Worker(
    manager: Manager, task: TaskId, pc: Pc, permit: bool, unreadable: bool, did: set<Act>)

  datatype State = State(
    rows: map<TaskId, Row>,
    workers: seq<Worker>,
    registered: map<(Manager, TaskId), nat>, // each manager's `cancellations` map
    launches: set<(Manager, TaskId)>,        // rows created here whose worker is not launched yet
    stops: set<(Manager, TaskId)>,           // stops recorded but not signalled yet
    stopped: set<RunId>,                     // runs whose family was stopped
    replies: set<(CallId, TaskId)>,          // successful replies to `start_for_call`
    slot: Option<nat>,
    gate: Gate,
    others: nat,                             // admissions held by other daemon operations
    live: set<nat>,                          // workers whose agent process they own
    orphans: set<nat>)                       // agents whose exit was never confirmed

  datatype Step =
    | Create(manager: Manager, task: TaskId, origin: Option<Origin>, request: string)
    | Replay(manager: Manager, task: TaskId, call: CallId, request: string)
    | Launch(manager: Manager, task: TaskId)
    | LaunchLost(manager: Manager, task: TaskId)
    | StopRecord(manager: Manager, task: TaskId)
    | StopSignal(manager: Manager, task: TaskId)
    | FamilyStop(parent: RunId, children: set<RunId>)
    | InterruptAll
    | Restart
    | PrepareShutdown(force: bool)
    | AbandonShutdown
    | CloseGate
    | OtherAdmit
    | OtherRelease
    | Tick(worker: nat, readable: bool)
    | WorkerAct(worker: nat, act: Act)

  // ----- one worker ---------------------------------------------------------------------------------------

  /** A move that consumes the worker's stop permit. */
  predicate Consumes(act: Act)
  {
    act.QueueStop? || act.FirstStop? || act.SecondStop? || act.HandshakeStop? || act.PromptStop? || act.VerifyStop?
  }

  /** A move past a point where the worker looks at its permit. */
  predicate PassesCheckpoint(act: Act)
  {
    act.TakeSlot? || act.FirstPass? || act.SecondPass? || act.HandshakeDone? || act.CheckPasses? || act.CheckFails?
  }

  predicate HoldsSlot(pc: Pc)
  {
    HoldsAdmission(pc) || pc.HasSlot? || pc.Unwinding?
  }

  predicate HoldsAdmission(pc: Pc)
  {
    || pc.Admitted? || pc.MarkRefused? || pc.Marked? || pc.SettingUp? || pc.Prepared? || pc.Cleared?
    || pc.Handshake? || pc.Prompting? || pc.Closing? || pc.Closed? || pc.Verifying? || pc.RunOver?
  }

  predicate AgentUp(pc: Pc)
  {
    pc.Handshake? || pc.Prompting? || pc.Closing?
  }

  /** The poll loop runs beside the recorded task and ends with it. */
  predicate Polling(pc: Pc)
  {
    pc.Waiting? || HoldsSlot(pc)
  }

  /** Past the point of no return: only unwinding is left. */
  predicate Returning(pc: Pc)
  {
    || (pc.Closing? && pc.ended == EndedCancelled)
    || pc.RunOver? || pc.Unwinding? || pc.Finishing? || pc.Deregistering? || pc.FallingBack? || pc.Done? || pc.Lost?
  }

  predicate ActEnabled(w: Worker, row: Row, slotFree: bool, phase: Phase, act: Act)
  {
    match act
    case QueueStop => w.pc.Waiting? && w.permit
    case TakeSlot => w.pc.Waiting? && !w.permit && slotFree
    case Admit => w.pc.HasSlot? && phase == Open
    case GateRefuses => w.pc.HasSlot? && phase != Open
    case GateBroken => w.pc.HasSlot?
    case Mark => w.pc.Admitted? && CanMarkRunning(row)
    case MarkFails => w.pc.Admitted?
    case MarkWasCancelled => w.pc.MarkRefused? && row.cancelRequested
    case MarkGivesUp => w.pc.MarkRefused?
    case FirstStop => w.pc.Marked? && w.permit
    case FirstPass => w.pc.Marked? && !w.permit
    case SetupFails => w.pc.SettingUp?
    case SetupDone(_) => w.pc.SettingUp?
    case SecondStop => w.pc.Prepared? && w.permit
    case SecondPass => w.pc.Prepared? && !w.permit
    case SpawnFails => w.pc.Cleared?
    case Spawn => w.pc.Cleared?
    case HandshakeStop => w.pc.Handshake? && w.permit
    case HandshakeFails(_) => w.pc.Handshake? && !w.permit
    case HandshakeDone => w.pc.Handshake? && !w.permit
    case PromptStop => w.pc.Prompting? && w.permit
    case PromptEnds(ended) => w.pc.Prompting? && ended != EndedCancelled
    case CloseOk => w.pc.Closing?
    case CloseFails => w.pc.Closing?
    case RunnerMissing => w.pc.Closed?
    case ScriptMissing => w.pc.Closed?
    case ChecksChosen(_) => w.pc.Closed?
    case VerifyStop => w.pc.Verifying? && w.pc.todo > 0 && w.permit
    case CheckPasses(index) => w.pc.Verifying? && w.pc.todo > 0 && !w.permit && index == w.pc.passed
    case CheckFails => w.pc.Verifying? && w.pc.todo > 0 && !w.permit
    case VerifyDone => w.pc.Verifying? && w.pc.todo == 0
    case DropAdmission => w.pc.RunOver?
    case DropSlot => w.pc.Unwinding?
    case FinishWrite(_) => w.pc.Finishing?
    case Deregister => w.pc.Deregistering?
    case FallbackWrite(_) => w.pc.FallingBack?
  }

  const FALLBACK := Completion(FinFailed, None, true)

  function ActPc(pc: Pc, row: Row, act: Act): (r: Pc)
  {
    match act
    case QueueStop => Finishing(CancelledWith(NoAgentStarted))
    case TakeSlot => HasSlot
    case Admit => Admitted
    case GateRefuses => Unwinding(CancelledWith(NoAgentStarted))
    case GateBroken => Unwinding(Refused)
    case Mark => Marked
    case MarkFails => MarkRefused
    case MarkWasCancelled => RunOver(CancelledWith(NoAgentStarted))
    case MarkGivesUp => RunOver(Refused)
    case FirstStop => RunOver(CancelledWith(NothingStarted))
    case FirstPass => SettingUp
    case SetupFails => RunOver(Refused)
    case SetupDone(tree) => Prepared(tree)
    case SecondStop => if pc.Prepared? then RunOver(CancelledWith(SetupNote(pc.tree))) else pc
    case SecondPass => if pc.Prepared? then Cleared(pc.tree) else pc
    case SpawnFails => RunOver(Refused)
    case Spawn => if pc.Cleared? then Handshake(pc.tree) else pc
    case HandshakeStop => if pc.Handshake? then RunOver(CancelledWith(SetupNote(pc.tree))) else pc
    case HandshakeFails(_) => RunOver(Refused)
    case HandshakeDone => Prompting
    case PromptStop => Closing(EndedCancelled)
    case PromptEnds(ended) => Closing(ended)
    case CloseOk =>
      if !pc.Closing? then pc
      else if pc.ended == Finished(EndTurn) then Closed
      else RunOver(PromptedResult(pc.ended, true, NotRun))
    case CloseFails => if pc.Closing? then RunOver(PromptedResult(pc.ended, false, NotRun)) else pc
    case RunnerMissing => RunOver(Refused)
    case ScriptMissing => RunOver(PromptedResult(Finished(EndTurn), true, ChecksFail))
    case ChecksChosen(count) => Verifying(count, 0)
    case VerifyStop => RunOver(PromptedResult(Finished(EndTurn), true, ChecksCancelled))
    case CheckPasses(_) => if pc.Verifying? && pc.todo > 0 then Verifying(pc.todo - 1, pc.passed + 1) else pc
    case CheckFails => RunOver(PromptedResult(Finished(EndTurn), true, ChecksFail))
    case VerifyDone =>
      if pc.Verifying?
      then RunOver(PromptedResult(Finished(EndTurn), true, if pc.passed == 0 then NotRun else ChecksPass))
      else pc
    case DropAdmission => if pc.RunOver? then Unwinding(pc.result) else pc
    case DropSlot => if pc.Unwinding? then Finishing(pc.result) else pc
    case FinishWrite(readable) => Deregistering(readable && Active(row))
    case Deregister => if pc.Deregistering? && pc.saved then Done else FallingBack
    case FallbackWrite(_) => Done
  }

  function ActWorker(w: Worker, row: Row, act: Act): (r: Worker)
  {
    w.(pc := ActPc(w.pc, row, act), permit := w.permit && !Consumes(act), did := w.did + {act})
  }

  function ActRow(pc: Pc, row: Row, act: Act): (r: Row)
  {
    match act
    case Mark => MarkRunning(row)
    case FinishWrite(readable) => if readable && pc.Finishing? then Finish(row, CompletionOf(pc.result)) else row
    case FallbackWrite(readable) => if readable then Finish(row, FALLBACK) else row
    case _ => row
  }

  function ActGate(gate: Gate, act: Act): (r: Gate)
  {
    if act.Admit? then gate.(active := gate.active + 1)
    else if act.DropAdmission? && gate.active > 0 then gate.(active := gate.active - 1)
    else gate
  }

  function ActSlot(slot: Option<nat>, i: nat, act: Act): (r: Option<nat>)
  {
    if act.TakeSlot? then Some(i) else if act.DropSlot? then None else slot
  }

  /** A close, or the end of a failed handshake, that could not confirm the exit of the agent's process tree. */
  predicate Unconfirmed(act: Act)
  {
    act.CloseFails? || (act.HandshakeFails? && !act.confirmed)
  }

  /**
   A stop at the handshake drops the connection, which kills its process tree. A failed handshake and the end of a
   prompt close it, and the worker owns the agent no longer, whether or not the exit could be confirmed.
   */
  function ActLive(live: set<nat>, i: nat, act: Act): (r: set<nat>)
  {
    if act.Spawn? then live + {i}
    else if act.HandshakeStop? || act.HandshakeFails? || act.CloseOk? || act.CloseFails? then live - {i}
    else live
  }

  // ----- the whole system ---------------------------------------------------------------------------------

  function Init(): (s: State)
  {
    State(map[], [], map[], {}, {}, {}, {}, None, Gate(Open, 0, false), 0, {}, {})
  }

  predicate TaskOf(s: State, i: nat, t: TaskId)
  {
    i < |s.workers| && s.workers[i].task == t
  }

  /**
   Creating and replaying happen inside an admission that was taken before, so a row may still be inserted after the
   gate has closed; any admission of another operation stands for it.
   */
  predicate Enabled(s: State, step: Step)
  {
    match step
    case Create(m, t, origin, _) =>
      && t !in s.rows
      && s.others > 0
      && (origin.Some? ==>
            && origin.value.parent !in s.stopped
            && forall u | u in s.rows :: s.rows[u].origin.None? || s.rows[u].origin.value.call != origin.value.call)
    case Replay(m, t, call, request) =>
      && t in s.rows && s.others > 0
      && s.rows[t].origin.Some? && s.rows[t].origin.value.call == call && s.rows[t].request == request
    case Launch(m, t) => (m, t) in s.launches
    case LaunchLost(m, t) => (m, t) in s.launches
    case StopRecord(m, t) => t in s.rows && Active(s.rows[t])
    case StopSignal(m, t) => (m, t) in s.stops
    case FamilyStop(_, _) => true
    case InterruptAll => true
    case Restart => true
    case PrepareShutdown(force) => s.gate.phase == Open && (force || s.gate.active == 0)
    case AbandonShutdown => s.gate.phase == Checking
    case CloseGate => true
    case OtherAdmit => s.gate.phase == Open
    case OtherRelease => s.others > 0 && s.gate.active > 0
    case Tick(i, _) => i < |s.workers| && Polling(s.workers[i].pc) && s.workers[i].task in s.rows
    case WorkerAct(i, act) =>
      && i < |s.workers| && s.workers[i].task in s.rows
      && ActEnabled(s.workers[i], s.rows[s.workers[i].task], s.slot.None?, s.gate.phase, act)
  }

  function CreateStep(s: State, m: Manager, t: TaskId, origin: Option<Origin>, request: string): (r: State)
  {
    s.(rows := s.rows[t := NewRow(origin, request)],
    launches := s.launches + {(m, t)})
  }

  function ReplyTo(s: State, t: TaskId): (replies: set<(CallId, TaskId)>)
  {
    if t in s.rows && s.rows[t].origin.Some? then s.replies + {(s.rows[t].origin.value.call, t)} else s.replies
  }

  function LaunchStep(s: State, m: Manager, t: TaskId): (r: State)
  {
    s.(workers := s.workers + [Worker(m, t, Waiting, false, false, {})],
    registered := s.registered[(m, t) := |s.workers|],
    launches := s.launches - {(m, t)},
    replies := ReplyTo(s, t))
  }

  function Signalled(s: State, i: nat): (r: State)
  {
    if i < |s.workers| then s.(workers := s.workers[i := s.workers[i].(permit := true)]) else s
  }

  predicate InFamily(row: Row, family: set<RunId>)
  {
    row.origin.Some? && row.origin.value.parent in family
  }

  function FamilyRows(rows: map<TaskId, Row>, family: set<RunId>): (r: map<TaskId, Row>)
  {
    map t | t in rows :: if InFamily(rows[t], family) then RequestCancellation(rows[t]) else rows[t]
  }

  function InterruptRows(rows: map<TaskId, Row>): (r: map<TaskId, Row>)
  {
    map t | t in rows :: Interrupt(rows[t])
  }

  function LostWorkers(workers: seq<Worker>): (r: seq<Worker>)
  {
    seq(|workers|, i requires 0 <= i < |workers| => workers[i].(pc := Lost))
  }

  /** A new daemon: the old one's workers, map entries and gate are gone, and unfinished rows are settled. */
  function RestartStep(s: State): (r: State)
  {
    s.(rows := InterruptRows(s.rows), workers := LostWorkers(s.workers),
    registered := map[], launches := {}, stops := {}, slot := None,
    gate := Gate(Open, 0, false), others := 0, live := {}, orphans := s.orphans + s.live)
  }

  function TickStep(s: State, i: nat, readable: bool): (r: State)
    requires i < |s.workers|
  {
    var w := s.workers[i];
    if !readable then s.(workers := s.workers[i := w.(permit := true, unreadable := true)])
    else if w.task in s.rows && s.rows[w.task].cancelRequested then Signalled(s, i)
    else s
  }

  function ActStep(s: State, i: nat, act: Act): (r: State)
    requires i < |s.workers| && s.workers[i].task in s.rows
  {
    var w := s.workers[i];
    var row := s.rows[w.task];
    s.(rows := s.rows[w.task := ActRow(w.pc, row, act)],
    workers := s.workers[i := ActWorker(w, row, act)],
    registered := if act.Deregister? then s.registered - {(w.manager, w.task)} else s.registered,
    slot := ActSlot(s.slot, i, act),
    gate := ActGate(s.gate, act),
    live := ActLive(s.live, i, act),
    orphans := if Unconfirmed(act) then s.orphans + {i} else s.orphans)
  }

  function Apply(s: State, step: Step): (r: State)
    requires Enabled(s, step)
  {
    match step
    case Create(m, t, origin, request) => CreateStep(s, m, t, origin, request)
    case Replay(m, t, _, _) => s.(replies := ReplyTo(s, t))
    case Launch(m, t) => LaunchStep(s, m, t)
    case LaunchLost(m, t) => s.(launches := s.launches - {(m, t)})
    case StopRecord(m, t) =>
      s.(rows := s.rows[t := RequestCancellation(s.rows[t])], stops := s.stops + {(m, t)})
    case StopSignal(m, t) =>
      var rest := s.(stops := s.stops - {(m, t)});
      if (m, t) in s.registered then Signalled(rest, s.registered[(m, t)]) else rest
    case FamilyStop(parent, children) =>
      s.(rows := FamilyRows(s.rows, children + {parent}), stopped := s.stopped + {parent})
    case InterruptAll => s.(rows := InterruptRows(s.rows))
    case Restart => RestartStep(s)
    case PrepareShutdown(force) => s.(gate := s.gate.(phase := Checking, gentle := !force))
    case AbandonShutdown => s.(gate := s.gate.(phase := Open))
    case CloseGate => s.(gate := s.gate.(phase := Shut, gentle := s.gate.gentle && s.gate.phase != Open))
    case OtherAdmit => s.(gate := s.gate.(active := s.gate.active + 1), others := s.others + 1)
    case OtherRelease => s.(gate := s.gate.(active := s.gate.active - 1), others := s.others - 1)
    case Tick(i, readable) => TickStep(s, i, readable)
    case WorkerAct(i, act) => ActStep(s, i, act)
  }

  /** `steps` is a run from `s` to `t`. */
  ghost predicate Execution(s: State, steps: seq<Step>, t: State)
    decreases |steps|
  {
    if steps == [] then t == s
    else Enabled(s, steps[0]) && Execution(Apply(s, steps[0]), steps[1..], t)
  }
}
