/**
 What shutting the gate does to a coding task that is not running yet. The running mark does not look at the gate, so a
 worker that was admitted before the gate shut goes on to its agent; every other task is shut out for good.
 */
module ProtocolShutdown {
  import opened Options
  import opened TaskTable
  import opened Protocol
  import opened ProtocolInvariant
  import opened ProtocolTheorems
  import opened ProtocolStops
  import opened ProtocolRuns

  predicate SpawnedFor(s: State, t: TaskId)
  {
    exists i | 0 <= i < |s.workers| :: s.workers[i].task == t && Spawn in s.workers[i].did
  }

  /** Some continuation, with restarts or without, spawns an agent for the task. */
  ghost predicate MaySpawn(s: State, t: TaskId)
  {
    exists steps, later :: Execution(s, steps, later) && SpawnedFor(later, t)
  }

  predicate AdmittedUnstopped(s: State, t: TaskId, i: nat)
  {
    TaskOf(s, i, t) && s.workers[i].pc.Admitted? && !s.workers[i].permit
  }

  /** A worker that does not spawn has not spawned. */
  lemma {:induction false} NoSpawnNoAgent(s: State, i: nat, steps: seq<Step>, later: State)
    requires i < |s.workers| && Spawn !in s.workers[i].did && Execution(s, steps, later) && NoSpawnBy(steps, i)
    ensures i < |later.workers| && Spawn !in later.workers[i].did
    decreases |steps|
  {
    if steps != [] {
      if !Own(steps[0], i) {
        OthersKeepWorker(s, steps[0], i);
      }
      assert forall k | 0 <= k < |steps[1..]| :: steps[1..][k] == steps[k + 1];
      NoSpawnNoAgent(Apply(s, steps[0]), i, steps[1..], later);
    }
  }

  lemma OnlyWorkerOfTask(s: State, t: TaskId, i: nat, j: nat)
    requires Inv(s) && TaskOf(s, i, t) && TaskOf(s, j, t)
    ensures i == j
  {
    WorkerFacts(s, i);
  }

  lemma WaitingStopWins(s: State, j: nat, steps: seq<Step>, later: State)
    requires j < |s.workers| && HistoryOk(s.workers[j]) && s.workers[j].pc.Admitted? && s.workers[j].permit
    requires Execution(s, steps, later)
    ensures j < |later.workers| && Spawn !in later.workers[j].did
  {
    MutedRun(s, j, steps, later);
    NoSpawnNoAgent(s, j, steps, later);
  }

  /** A task keeps its one worker. */
  lemma SameWorkerLater(s: State, t: TaskId, j: nat, steps: seq<Step>, later: State)
    requires Inv(s) && TaskOf(s, j, t) && Execution(s, steps, later)
    ensures forall i: nat | TaskOf(later, i, t) :: i == j
  {
    WorkersStay(s, steps, later, j);
    InvAlways(s, steps, later);
    forall i: nat | TaskOf(later, i, t) ensures i == j {
      OnlyWorkerOfTask(later, t, i, j);
    }
  }

  lemma WorkerHistory(s: State, j: nat)
    requires Inv(s) && j < |s.workers|
    ensures HistoryOk(s.workers[j])
  {
    WorkerFacts(s, j);
  }

  lemma SpawnedByItsWorker(s: State, t: TaskId, j: nat)
    requires (forall i: nat | TaskOf(s, i, t) :: i == j) && j < |s.workers| && Spawn !in s.workers[j].did
    ensures !SpawnedFor(s, t)
  {
    forall i: nat | i < |s.workers| && s.workers[i].task == t ensures Spawn !in s.workers[i].did {
      assert TaskOf(s, i, t);
    }
  }

  /** A stop that waits for an admitted worker keeps it from an agent. */
  lemma StoppedAdmittedNeverSpawns(s: State, t: TaskId, j: nat, steps: seq<Step>, later: State)
    requires Inv(s) && TaskOf(s, j, t) && s.workers[j].pc.Admitted? && s.workers[j].permit
    requires Execution(s, steps, later)
    ensures !SpawnedFor(later, t)
  {
    WorkerHistory(s, j);
    WaitingStopWins(s, j, steps, later);
    SameWorkerLater(s, t, j, steps, later);
    SpawnedByItsWorker(later, t, j);
  }

  lemma BarredNeverSpawns(s: State, t: TaskId, steps: seq<Step>, later: State)
    requires Inv(s) && Barred(s, t) && Execution(s, steps, later)
    ensures !SpawnedFor(later, t)
  {
    BarredForever(s, steps, t, later);
    forall i: nat | TaskOf(later, i, t) ensures Spawn !in later.workers[i].did {
      UnmarkedHasNoAgent(later, i);
    }
  }

  lemma ShutOut(s: State, t: TaskId, steps: seq<Step>, later: State)
    requires Inv(s) && s.gate.phase == Shut && t in s.rows && NeverMarked(s, t) && Execution(s, steps, later)
    requires !CanMarkRunning(s.rows[t]) || forall i: nat :: !AdmittedUnstopped(s, t, i)
    ensures !SpawnedFor(later, t)
  {
    if Barred(s, t) {
      BarredNeverSpawns(s, t, steps, later);
    } else {
      var j: nat :| j < |s.workers| && s.workers[j].task == t && s.workers[j].pc.Admitted?;
      assert !AdmittedUnstopped(s, t, j);
      StoppedAdmittedNeverSpawns(s, t, j, steps, later);
    }
  }

  lemma GoesThrough(s: State, t: TaskId, i: nat) returns (later: State)
    requires Inv(s) && t in s.rows && CanMarkRunning(s.rows[t]) && AdmittedUnstopped(s, t, i)
    ensures Leads(s, later) && later.gate.phase == s.gate.phase && i in later.live && SpawnedFor(later, t)
  {
    LeadsNow(s);
    later := SpawnsOnceAdmitted(s, s, i, false);
    assert later.workers[i].task == t;
  }

  lemma ClosedGate(s: State)
    requires Reachable(s)
    ensures Inv(s) && Inv(Apply(s, CloseGate))
  {
    ReachableInv(s);
    InvKept(s, CloseGate);
  }

  /**
   Shutdown against a task that was never marked running, exactly: after the gate shuts, some continuation still spawns
   an agent for it if and only if its row can be marked and its worker is already admitted with no stop waiting.
   */
  lemma ShutdownWindow(s: State, t: TaskId)
    requires Reachable(s) && t in s.rows && NeverMarked(s, t)
    ensures MaySpawn(Apply(s, CloseGate), t) <==>
            CanMarkRunning(s.rows[t]) && exists i: nat :: AdmittedUnstopped(s, t, i)
  {
    ClosedGate(s);
    var shut := Apply(s, CloseGate);
    if i: nat :| CanMarkRunning(s.rows[t]) && AdmittedUnstopped(s, t, i) {
      var later := GoesThrough(shut, t, i);
      var steps :| Execution(shut, steps, later) && CleanSteps(steps);
      assert MaySpawn(shut, t);
    } else {
      assert forall i: nat :: AdmittedUnstopped(shut, t, i) ==> AdmittedUnstopped(s, t, i);
      forall steps, later | Execution(shut, steps, later) ensures !SpawnedFor(later, t) {
        ShutOut(shut, t, steps, later);
      }
    }
  }

  /** The window is real: an agent is spawned after the gate has shut. */
  lemma AgentAfterShutdown() returns (s: State)
    ensures Reachable(s) && s.gate.phase == Shut && 0 in s.live
  {
    var queued := OneQueued();
    var admitted := Enters(queued, 0);
    LeadsReachable(queued, admitted);
    ClosedGate(admitted);
    ReachableNext(admitted, CloseGate);
    var shut := Apply(admitted, CloseGate);
    s := GoesThrough(shut, 0, 0);
    LeadsReachable(shut, s);
  }

  // ----- what a shutdown freezes --------------------------------------------------------------------------

  /** A step that takes a new admission. */
  predicate TakesAdmission(step: Step)
  {
    step.OtherAdmit? || (step.WorkerAct? && step.act.Admit?)
  }

  /** A step that answers a launch call. */
  predicate AnswersCall(step: Step)
  {
    step.Create? || step.Replay?
  }

  lemma FrozenStep(s: State, step: Step)
    requires Enabled(s, step) && s.gate.phase != Open && !step.AbandonShutdown? && !step.Restart?
    ensures !TakesAdmission(step) && Apply(s, step).gate.phase != Open && Apply(s, step).others <= s.others
    ensures s.others == 0 ==> !AnswersCall(step)
  {
  }

  /** From a reserved shutdown on nothing is admitted, and once other operations have drained no task is made. */
  lemma {:induction false} ShutdownFreezes(s: State, steps: seq<Step>, later: State)
    requires s.gate.phase != Open && Execution(s, steps, later)
    requires forall k | 0 <= k < |steps| :: !steps[k].AbandonShutdown? && !steps[k].Restart?
    ensures forall k | 0 <= k < |steps| :: !TakesAdmission(steps[k]) && (s.others == 0 ==> !AnswersCall(steps[k]))
    decreases |steps|
  {
    if steps != [] {
      FrozenStep(s, steps[0]);
      assert forall k | 1 <= k < |steps| :: steps[k] == steps[1..][k - 1];
      ShutdownFreezes(Apply(s, steps[0]), steps[1..], later);
    }
  }

  /** A reservation closes the gate at once, an abandoned one opens it again, and a closed gate stays closed. */
  lemma GatePhases(s: State, force: bool)
    ensures Enabled(s, PrepareShutdown(force)) <==> s.gate.phase == Open && (force || s.gate.active == 0)
    ensures Enabled(s, PrepareShutdown(force)) ==> Apply(s, PrepareShutdown(force)).gate.phase == Checking
    ensures Enabled(s, AbandonShutdown) ==> Apply(s, AbandonShutdown).gate.phase == Open
    ensures Enabled(s, AbandonShutdown) <==> s.gate.phase == Checking
    ensures Apply(s, CloseGate).gate.phase == Shut
  {
  }
}
