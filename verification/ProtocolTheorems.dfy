/**
 What the coding-task protocol promises over whole runs: who may spawn an agent, what a stop achieves, that a
 launch call is dispatched once, and that a stored `completed` was earned.
 */
module ProtocolTheorems {
  import opened Options
  import opened TaskTable
  import opened Protocol
  import opened ProtocolInvariant

  ghost predicate Reachable(s: State)
  {
    exists steps :: Execution(Init(), steps, s)
  }

  lemma ReachableInv(s: State)
    requires Reachable(s)
    ensures Inv(s)
  {
    var steps :| Execution(Init(), steps, s);
    assert Inv(Init());
    InvAlways(Init(), steps, s);
  }

  /** The parts of the invariant about worker `i`. */
  lemma WorkerFacts(s: State, i: nat)
    requires Inv(s) && i < |s.workers|
    ensures s.workers[i].task in s.rows && WorkerOk(s.workers[i], s.rows[s.workers[i].task])
    ensures HoldsSlot(s.workers[i].pc) <==> s.slot == Some(i)
    ensures i in s.live <==> AgentUp(s.workers[i].pc)
    ensures forall j: nat | TaskOf(s, j, s.workers[i].task) :: j == i
  {
  }

  /** A worker that never marked its row has no agent. */
  lemma UnmarkedHasNoAgent(s: State, i: nat)
    requires Inv(s) && i < |s.workers| && Mark !in s.workers[i].did
    ensures Spawn !in s.workers[i].did && i !in s.live
    ensures s.rows[s.workers[i].task].status !in {Running, Completed}
  {
    WorkerFacts(s, i);
  }

  // ----- dispatch -----------------------------------------------------------------------------------------

  /** Replies to one launch call name one task, one row exists for it, and at most one worker was ever launched. */
  lemma ExactlyOnceDispatch(s: State, call: CallId)
    requires Reachable(s)
    ensures forall t | (call, t) in s.replies ::
              t in s.rows && s.rows[t].origin.Some? && s.rows[t].origin.value.call == call
    ensures forall t, u | (call, t) in s.replies && (call, u) in s.replies :: t == u
    ensures forall t, u | t in s.rows && u in s.rows && s.rows[t].origin.Some? && s.rows[u].origin.Some?
                          && s.rows[t].origin.value.call == call == s.rows[u].origin.value.call :: t == u
    ensures forall t, i: nat, j: nat | (call, t) in s.replies && TaskOf(s, i, t) && TaskOf(s, j, t) :: i == j
  {
    ReachableInv(s);
    forall t, u | (call, t) in s.replies && (call, u) in s.replies ensures t == u {
      assert SameCall(s.rows[t], s.rows[u]);
    }
    forall t, u | t in s.rows && u in s.rows && s.rows[t].origin.Some? && s.rows[u].origin.Some?
                  && s.rows[t].origin.value.call == call == s.rows[u].origin.value.call
      ensures t == u
    {
      assert SameCall(s.rows[t], s.rows[u]);
    }
  }

  /** A creation stores the request as given, queued and unstopped, under its call and parent; nothing else changes. */
  lemma CreationRecords(s: State, m: Manager, t: TaskId, origin: Option<Origin>, request: string)
    requires Enabled(s, Create(m, t, origin, request))
    ensures var r := Apply(s, Create(m, t, origin, request));
            && r.rows.Keys == s.rows.Keys + {t} && (forall u | u in s.rows :: r.rows[u] == s.rows[u])
            && r.rows[t].status == Queued && !r.rows[t].cancelRequested && r.rows[t].outcome == None
            && r.rows[t].origin == origin && r.rows[t].request == request && (m, t) in r.launches
  {
  }

  /** A launch answers its call with the task, and so does every replay with the same request. */
  lemma DispatchAnswers(s: State, m: Manager, t: TaskId, call: CallId, request: string)
    requires t in s.rows && s.rows[t].origin.Some? && s.rows[t].origin.value.call == call
    requires s.rows[t].request == request
    ensures (m, t) in s.launches ==>
              Enabled(s, Launch(m, t)) && (call, t) in Apply(s, Launch(m, t)).replies
    ensures s.others > 0 ==>
              Enabled(s, Replay(m, t, call, request)) && (call, t) in Apply(s, Replay(m, t, call, request)).replies
  {
  }

  // ----- spawning -----------------------------------------------------------------------------------------

  lemma SpawnNeedsClearance(s: State, i: nat)
    requires Enabled(s, WorkerAct(i, Spawn))
    ensures i < |s.workers| && s.workers[i].pc.Cleared?
  {
  }

  lemma ClearedFacts(s: State, i: nat)
    requires Reachable(s) && i < |s.workers| && s.workers[i].pc.Cleared?
    ensures Mark in s.workers[i].did && Spawn !in s.workers[i].did
    ensures s.slot == Some(i) && SlotAdmitted(s) && s.gate.active > 0
  {
    ReachableInv(s);
    WorkerFacts(s, i);
  }

  /** An agent is spawned only by a worker that itself marked its row, and that holds slot and admission right now. */
  lemma SpawnIsGuarded(s: State, i: nat)
    requires Reachable(s) && Enabled(s, WorkerAct(i, Spawn))
    ensures Mark in s.workers[i].did && Spawn !in s.workers[i].did
    ensures s.slot == Some(i) && SlotAdmitted(s) && s.gate.active > 0
  {
    SpawnNeedsClearance(s, i);
    ClearedFacts(s, i);
  }

  /** A row is moved to running only while unstopped, by the one worker holding slot and admission. */
  lemma MarkIsGuarded(s: State, i: nat)
    requires Reachable(s) && Enabled(s, WorkerAct(i, Mark))
    ensures s.slot == Some(i) && SlotAdmitted(s)
    ensures var row := s.rows[s.workers[i].task]; row.status == Queued && !row.cancelRequested
    ensures Apply(s, WorkerAct(i, Mark)).rows[s.workers[i].task].status == Running
    ensures forall j: nat | TaskOf(s, j, s.workers[i].task) :: j == i && Mark !in s.workers[j].did
  {
    ReachableInv(s);
    WorkerFacts(s, i);
  }

  /** In every reachable state an owned agent belongs to the one slot holder, so there is at most one. */
  lemma MutualExclusion(s: State)
    requires Reachable(s)
    ensures forall i | i in s.live :: s.slot == Some(i) && SlotAdmitted(s) && Spawn in s.workers[i].did
    ensures forall i, j | i in s.live && j in s.live :: i == j
    ensures forall i | i in s.orphans :: i < |s.workers| && (LeftBehind(s.workers[i].did) || s.workers[i].pc.Lost?)
  {
    ReachableInv(s);
    forall i | i in s.live ensures s.slot == Some(i) && SlotAdmitted(s) && Spawn in s.workers[i].did {
      assert AgentUp(s.workers[i].pc);
    }
  }

  /** A shutdown reserved without force finds no agent and admits none. */
  lemma GentleShutdownIsIdle(s: State)
    requires Reachable(s) && s.gate.phase != Open && s.gate.gentle
    ensures s.live == {}
    ensures forall i: nat :: !Enabled(s, WorkerAct(i, Spawn)) && !Enabled(s, WorkerAct(i, Admit))
  {
    ReachableInv(s);
    forall i: nat | i < |s.workers| ensures !HoldsAdmission(s.workers[i].pc) && i !in s.live {
      NotAdmitted(s, i);
    }
    assert s.live == {};
  }

  lemma NotAdmitted(s: State, i: nat)
    requires Inv(s) && i < |s.workers| && s.gate.phase != Open && s.gate.gentle
    ensures !HoldsAdmission(s.workers[i].pc) && i !in s.live
  {
    WorkerFacts(s, i);
  }

  /**
   Nothing may run for this task any more: no worker marked it, and either its row can no longer be marked (a stop,
   an interrupt or an end is recorded) or the gate is shut and no worker of the task is past it.
   */
  predicate Barred(s: State, t: TaskId)
  {
    && t in s.rows
    && (forall i | 0 <= i < |s.workers| && s.workers[i].task == t :: Mark !in s.workers[i].did)
    && (!CanMarkRunning(s.rows[t])
        || (s.gate.phase == Shut
            && forall i | 0 <= i < |s.workers| && s.workers[i].task == t :: !s.workers[i].pc.Admitted?))
  }

  lemma BarredMove(w: Worker, row: Row, slotFree: bool, phase: Phase, act: Act)
    requires ActEnabled(w, row, slotFree, phase, act)
    requires !CanMarkRunning(row) || (phase == Shut && !w.pc.Admitted?)
    ensures !act.Mark?
    ensures !CanMarkRunning(row) ==> !CanMarkRunning(ActRow(w.pc, row, act))
    ensures phase == Shut && !w.pc.Admitted? ==> !ActPc(w.pc, row, act).Admitted?
  {
  }

  lemma BarredFrame(s: State, r: State, i: nat, t: TaskId)
    requires Barred(s, t) && i < |s.workers| && |r.workers| == |s.workers| && r.gate.phase == s.gate.phase
    requires forall j | 0 <= j < |s.workers| && j != i :: r.workers[j] == s.workers[j]
    requires r.workers[i].task == s.workers[i].task && t in r.rows
    requires s.workers[i].task != t ==> r.rows[t] == s.rows[t]
    requires s.workers[i].task == t ==>
               && Mark !in r.workers[i].did
               && (!CanMarkRunning(s.rows[t]) ==> !CanMarkRunning(r.rows[t]))
               && (s.gate.phase == Shut && !s.workers[i].pc.Admitted? ==> !r.workers[i].pc.Admitted?)
    ensures Barred(r, t)
  {
  }

  lemma BarredActor(s: State, i: nat, act: Act, t: TaskId)
    requires Barred(s, t) && Enabled(s, WorkerAct(i, act)) && s.workers[i].task == t
    ensures var w := s.workers[i];
            && Mark !in ActWorker(w, s.rows[t], act).did
            && (!CanMarkRunning(s.rows[t]) ==> !CanMarkRunning(ActRow(w.pc, s.rows[t], act)))
            && (s.gate.phase == Shut && !w.pc.Admitted? ==> !ActWorker(w, s.rows[t], act).pc.Admitted?)
  {
    BarredMove(s.workers[i], s.rows[t], s.slot.None?, s.gate.phase, act);
  }

  lemma BarredAfterOwn(s: State, i: nat, act: Act, t: TaskId)
    requires Barred(s, t) && i < |s.workers| && s.workers[i].task == t
    requires var w := s.workers[i];
             && Mark !in ActWorker(w, s.rows[t], act).did
             && (!CanMarkRunning(s.rows[t]) ==> !CanMarkRunning(ActRow(w.pc, s.rows[t], act)))
             && (s.gate.phase == Shut && !w.pc.Admitted? ==> !ActWorker(w, s.rows[t], act).pc.Admitted?)
    ensures Barred(ActStep(s, i, act), t)
  {
    ActFrame(s, i, act);
    BarredFrame(s, ActStep(s, i, act), i, t);
  }

  lemma BarredAfterOther(s: State, i: nat, act: Act, t: TaskId)
    requires Barred(s, t) && i < |s.workers| && s.workers[i].task in s.rows && s.workers[i].task != t
    ensures Barred(ActStep(s, i, act), t)
  {
    ActFrame(s, i, act);
    BarredFrame(s, ActStep(s, i, act), i, t);
  }

  lemma BarredAfterAct(s: State, i: nat, act: Act, t: TaskId)
    requires Barred(s, t) && Enabled(s, WorkerAct(i, act))
    ensures Barred(ActStep(s, i, act), t)
  {
    if s.workers[i].task == t {
      BarredActor(s, i, act, t);
      BarredAfterOwn(s, i, act, t);
    } else {
      BarredAfterOther(s, i, act, t);
    }
  }

  lemma BarredKept(s: State, step: Step, t: TaskId)
    requires Barred(s, t) && Enabled(s, step)
    ensures Barred(Apply(s, step), t)
  {
    match step
    case WorkerAct(i, act) => BarredAfterAct(s, i, act, t);
    case _ =>
  }

  lemma {:induction false} BarredForever(s: State, steps: seq<Step>, t: TaskId, later: State)
    requires Inv(s) && Barred(s, t) && Execution(s, steps, later)
    ensures Inv(later) && Barred(later, t)
    decreases |steps|
  {
    if steps != [] {
      InvKept(s, steps[0]);
      BarredKept(s, steps[0], t);
      BarredForever(Apply(s, steps[0]), steps[1..], t, later);
    }
  }

  /** If the stop, interrupt or shutdown came before the move to running, no agent is ever spawned for the task. */
  lemma StoppedBeforeRunningNeverSpawns(s: State, t: TaskId, steps: seq<Step>, later: State)
    requires Reachable(s) && Barred(s, t) && Execution(s, steps, later)
    ensures forall i: nat | TaskOf(later, i, t) :: Spawn !in later.workers[i].did && i !in later.live
    ensures t in later.rows && later.rows[t].status !in {Running, Completed}
  {
    ReachableInv(s);
    BarredForever(s, steps, t, later);
    forall i: nat | TaskOf(later, i, t) ensures Spawn !in later.workers[i].did && i !in later.live {
      UnmarkedHasNoAgent(later, i);
    }
    if later.rows[t].status in {Running, Completed} {
      var i := ServedBy(later, t);
      UnmarkedHasNoAgent(later, i);
    }
  }

  predicate NeverMarked(s: State, t: TaskId)
  {
    forall i | 0 <= i < |s.workers| && s.workers[i].task == t :: Mark !in s.workers[i].did
  }

  /** The steps that write a stop or an end into the row of `t`. Shutting the gate is not one of them. */
  predicate Stopping(s: State, step: Step, t: TaskId)
  {
    || (step.StopRecord? && step.task == t)
    || (step.FamilyStop? && t in s.rows && InFamily(s.rows[t], step.children + {step.parent}))
    || step.InterruptAll? || step.Restart?
  }

  lemma StoppingBars(s: State, step: Step, t: TaskId)
    requires t in s.rows && NeverMarked(s, t) && Enabled(s, step) && Stopping(s, step, t)
    ensures Barred(Apply(s, step), t)
  {
  }

  /** A stop, family stop, interrupt or restart before the move to running rules out every agent for the task. */
  lemma StopBeforeRunningWins(s: State, step: Step, t: TaskId, steps: seq<Step>, later: State)
    requires Reachable(s) && t in s.rows && NeverMarked(s, t) && Enabled(s, step) && Stopping(s, step, t)
    requires Execution(Apply(s, step), steps, later)
    ensures forall i: nat | TaskOf(later, i, t) :: Spawn !in later.workers[i].did && i !in later.live
    ensures t in later.rows && later.rows[t].status !in {Running, Completed}
  {
    StoppingBars(s, step, t);
    ReachableNext(s, step);
    StoppedBeforeRunningNeverSpawns(Apply(s, step), t, steps, later);
  }

  lemma {:induction false} ExecutionThen(s: State, steps: seq<Step>, t: State, step: Step)
    requires Execution(s, steps, t) && Enabled(t, step)
    ensures Execution(s, steps + [step], Apply(t, step))
    decreases |steps|
  {
    if steps == [] {
      assert ([step])[1..] == [] && steps + [step] == [step];
    } else {
      assert (steps + [step])[1..] == steps[1..] + [step];
      ExecutionThen(Apply(s, steps[0]), steps[1..], t, step);
    }
  }

  lemma ReachableNext(s: State, step: Step)
    requires Reachable(s) && Enabled(s, step)
    ensures Reachable(Apply(s, step))
  {
    var steps :| Execution(Init(), steps, s);
    ExecutionThen(Init(), steps, s, step);
  }

  /** A row that ran has a worker. */
  lemma ServedBy(s: State, t: TaskId) returns (i: nat)
    requires Inv(s) && t in s.rows && !IdleRow(s.rows[t])
    ensures TaskOf(s, i, t)
  {
    assert !NoWorker(s, t);
    i :| 0 <= i < |s.workers| && s.workers[i].task == t;
  }

  /** Stopping a run bars every task of its family that is not running yet, and admits no new one. */
  lemma ParentStopBars(s: State, parent: RunId, children: set<RunId>, steps: seq<Step>, later: State)
    requires Reachable(s)
    requires Execution(Apply(s, FamilyStop(parent, children)), steps, later)
    ensures forall t | t in later.rows && InFamily(later.rows[t], {parent}) ::
              t in s.rows && InFamily(s.rows[t], {parent})
    ensures forall t, i: nat | t in s.rows && InFamily(s.rows[t], children + {parent}) && TaskOf(later, i, t) ::
              Spawn in later.workers[i].did ==> i < |s.workers| && Mark in s.workers[i].did
  {
    ReachableInv(s);
    var stop := FamilyStop(parent, children);
    InvKept(s, stop);
    var first := Apply(s, stop);
    NoNewFamily(first, parent, steps, later);
    forall t, i: nat | t in s.rows && InFamily(s.rows[t], children + {parent}) && TaskOf(later, i, t)
      ensures Spawn in later.workers[i].did ==> i < |s.workers| && Mark in s.workers[i].did
    {
      StoppedRowNeverSpawns(s, first, t, steps, later, i);
    }
  }

  predicate FamilyWithin(s: State, t: State, parent: RunId)
  {
    forall u | u in t.rows && InFamily(t.rows[u], {parent}) :: u in s.rows && InFamily(s.rows[u], {parent})
  }

  lemma NoNewFamilyStep(s: State, parent: RunId, step: Step)
    requires parent in s.stopped && Enabled(s, step)
    ensures FamilyWithin(s, Apply(s, step), parent)
  {
    if !step.Create? {
      RowsFrame(s, step);
    }
  }

  lemma {:induction false} NoNewFamily(s: State, parent: RunId, steps: seq<Step>, later: State)
    requires parent in s.stopped && Execution(s, steps, later)
    ensures FamilyWithin(s, later, parent)
    decreases |steps|
  {
    if steps != [] {
      NoNewFamilyStep(s, parent, steps[0]);
      NoNewFamily(Apply(s, steps[0]), parent, steps[1..], later);
    }
  }

  lemma StoppedRowNeverSpawns(s: State, first: State, t: TaskId, steps: seq<Step>, later: State, i: nat)
    requires Inv(s) && Inv(first) && first.workers == s.workers && t in s.rows && t in first.rows
    requires first.rows[t] == RequestCancellation(s.rows[t])
    requires Execution(first, steps, later) && TaskOf(later, i, t)
    ensures Spawn in later.workers[i].did ==> i < |s.workers| && Mark in s.workers[i].did
  {
    if Barred(first, t) {
      BarredForever(first, steps, t, later);
      UnmarkedHasNoAgent(later, i);
    } else {
      var j: nat :| j < |first.workers| && first.workers[j].task == t && Mark in first.workers[j].did;
      WorkersStay(first, steps, later, j);
      InvAlways(first, steps, later);
      WorkerFacts(later, j);
    }
  }

  /** Workers are never forgotten and never change task. */
  lemma {:induction false} WorkersStay(s: State, steps: seq<Step>, later: State, j: nat)
    requires Execution(s, steps, later) && j < |s.workers|
    ensures j < |later.workers| && later.workers[j].task == s.workers[j].task
    decreases |steps|
  {
    if steps != [] {
      WorkersStay(Apply(s, steps[0]), steps[1..], later, j);
    }
  }
}
