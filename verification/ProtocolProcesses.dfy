/**
 Agent processes rather than owned agents. The slot bounds the agents that workers own; a process whose exit could
 not be confirmed is owned by nobody, so the bound on processes is exactly as good as cleanup.
 */
module ProtocolProcesses {
  import opened Options
  import opened Delivery
  import opened TaskTable
  import opened Protocol
  import opened ProtocolInvariant
  import opened ProtocolTheorems
  import opened ProtocolRuns
  import opened ProtocolStories

  function Processes(s: State): (r: set<nat>)
  {
    s.live + s.orphans
  }

  /** Two agent processes exist at once. */
  predicate Crowded(s: State)
  {
    exists i, j | i in Processes(s) && j in Processes(s) :: i != j
  }

  // ----- which processes exist ----------------------------------------------------------------------------

  /** The exit of the worker's agent was confirmed, or its process tree was taken down with the connection. */
  predicate ExitKnown(did: set<Act>)
  {
    CloseOk in did || HandshakeStop in did || HandshakeFails(true) in did
  }

  /** The processes are those of the workers that spawned one and know of no exit. */
  predicate Accounted(s: State)
  {
    forall i | 0 <= i < |s.workers| ::
      i in Processes(s) <==> Spawn in s.workers[i].did && !ExitKnown(s.workers[i].did)
  }

  lemma ActAccounts(w: Worker, row: Row, slotFree: bool, phase: Phase, act: Act, i: nat, live: set<nat>,
                    orphans: set<nat>)
    requires ActEnabled(w, row, slotFree, phase, act) && OnPath(w)
    requires i in live <==> AgentUp(w.pc)
    requires i in orphans ==> !AgentUp(w.pc) && !Unspawned(w.pc)
    requires i in live + orphans <==> Spawn in w.did && !ExitKnown(w.did)
    ensures i in ActLive(live, i, act) + (if Unconfirmed(act) then orphans + {i} else orphans)
            <==> Spawn in w.did + {act} && !ExitKnown(w.did + {act})
  {
  }

  lemma OrphanPlace(s: State, i: nat)
    requires Inv(s) && i < |s.workers|
    ensures i in s.live <==> AgentUp(s.workers[i].pc)
    ensures i in s.orphans ==> !AgentUp(s.workers[i].pc) && !Unspawned(s.workers[i].pc)
  {
    WorkerFacts(s, i);
  }

  lemma ActorAccounted(s: State, i: nat, act: Act)
    requires Inv(s) && PathsOk(s) && Accounted(s) && Enabled(s, WorkerAct(i, act))
    ensures var did := s.workers[i].did + {act};
            i in ActLive(s.live, i, act) + (if Unconfirmed(act) then s.orphans + {i} else s.orphans)
            <==> Spawn in did && !ExitKnown(did)
  {
    OrphanPlace(s, i);
    assert OnPath(s.workers[i]);
    ActAccounts(s.workers[i], s.rows[s.workers[i].task], s.slot.None?, s.gate.phase, act, i, s.live, s.orphans);
  }

  /** What a worker's move does to the processes of others. */
  lemma OtherProcesses(s: State, i: nat, act: Act, j: nat)
    requires i < |s.workers| && s.workers[i].task in s.rows && j != i
    ensures j in Processes(ActStep(s, i, act)) <==> j in Processes(s)
    ensures i in Processes(ActStep(s, i, act)) <==>
            i in ActLive(s.live, i, act) + (if Unconfirmed(act) then s.orphans + {i} else s.orphans)
  {
  }

  lemma AccountedAfterAct(s: State, i: nat, act: Act)
    requires Inv(s) && PathsOk(s) && Accounted(s) && Enabled(s, WorkerAct(i, act))
    ensures Accounted(ActStep(s, i, act))
  {
    var t := ActStep(s, i, act);
    ActorAccounted(s, i, act);
    ActFrame(s, i, act);
    forall j: nat | j < |t.workers|
      ensures j in Processes(t) <==> Spawn in t.workers[j].did && !ExitKnown(t.workers[j].did)
    {
      OtherProcesses(s, i, act, if j == i then i + 1 else j);
    }
  }

  lemma ProcessesKept(s: State, step: Step)
    requires Enabled(s, step) && !step.WorkerAct?
    ensures Processes(Apply(s, step)) == Processes(s)
    ensures |Apply(s, step).workers| >= |s.workers|
    ensures forall j | 0 <= j < |s.workers| :: Apply(s, step).workers[j].did == s.workers[j].did
    ensures forall j | |s.workers| <= j < |Apply(s, step).workers| :: Apply(s, step).workers[j].did == {}
  {
  }

  lemma NoProcessYet(s: State, j: nat)
    requires Inv(s) && j >= |s.workers|
    ensures j !in Processes(s)
  {
  }

  lemma AccountedAfterOthers(s: State, step: Step)
    requires Inv(s) && Accounted(s) && Enabled(s, step) && !step.WorkerAct?
    ensures Accounted(Apply(s, step))
  {
    var t := Apply(s, step);
    ProcessesKept(s, step);
    forall j: nat | j < |t.workers|
      ensures j in Processes(t) <==> Spawn in t.workers[j].did && !ExitKnown(t.workers[j].did)
    {
      if j >= |s.workers| {
        NoProcessYet(s, j);
      }
    }
  }

  lemma {:induction false} AccountedAlways(s: State, steps: seq<Step>, later: State)
    requires Inv(s) && PathsOk(s) && Accounted(s) && Execution(s, steps, later)
    ensures Accounted(later)
    decreases |steps|
  {
    if steps != [] {
      InvKept(s, steps[0]);
      if steps[0].WorkerAct? {
        PathsAfterAct(s, steps[0].worker, steps[0].act);
        AccountedAfterAct(s, steps[0].worker, steps[0].act);
      } else {
        PathsAfterOthers(s, steps[0]);
        AccountedAfterOthers(s, steps[0]);
      }
      AccountedAlways(Apply(s, steps[0]), steps[1..], later);
    }
  }

  /**
   Processes are conserved: in every reachable state, also after restarts, the agent processes are exactly those of the
   workers that spawned one and whose exit is not known.
   */
  lemma ProcessesExactly(s: State, i: nat)
    requires Reachable(s)
    ensures i in Processes(s) <==>
            i < |s.workers| && Spawn in s.workers[i].did && !ExitKnown(s.workers[i].did)
  {
    var steps :| Execution(Init(), steps, s);
    assert Inv(Init());
    AccountedAlways(Init(), steps, s);
    ReachableInv(s);
    if i >= |s.workers| {
      NoProcessYet(s, i);
    }
  }

  // ----- the bound while exits are confirmed --------------------------------------------------------------

  lemma {:induction false} CleanRunsLeaveNoOrphan(s: State, steps: seq<Step>, later: State)
    requires Execution(s, steps, later) && CleanSteps(steps)
    ensures later.orphans == s.orphans
    decreases |steps|
  {
    if steps != [] {
      assert CleanStep(steps[0]);
      CleanRunsLeaveNoOrphan(Apply(s, steps[0]), steps[1..], later);
    }
  }

  /** While every cleanup is confirmed, at most one agent process exists at any time, over all managers. */
  lemma AtMostOneProcess(s: State, steps: seq<Step>, later: State)
    requires Reachable(s) && s.orphans == {} && Execution(s, steps, later) && CleanSteps(steps)
    ensures !Crowded(later)
    ensures forall i | i in Processes(later) :: later.slot == Some(i)
  {
    CleanRunsLeaveNoOrphan(s, steps, later);
    assert Leads(s, later);
    LeadsReachable(s, later);
    MutualExclusion(later);
  }

  // ----- freeing the slot ---------------------------------------------------------------------------------

  /** The fewest moves in which a worker inside can give the slot back. */
  function MovesToRelease(pc: Pc): (n: nat)
  {
    match pc
    case Prompting => 5
    case Admitted => 4
    case Marked => 4
    case Prepared(_) => 4
    case Closing(_) => 4
    case MarkRefused => 3
    case SettingUp => 3
    case Cleared(_) => 3
    case Handshake(_) => 3
    case Closed => 3
    case Verifying(_, _) => 3
    case HasSlot => 2
    case RunOver(_) => 2
    case Unwinding(_) => 1
    case _ => 0
  }

  function QuickMove(w: Worker): (act: Act)
  {
    match w.pc
    case HasSlot => GateBroken
    case Admitted => MarkFails
    case MarkRefused => MarkGivesUp
    case Marked => if w.permit then FirstStop else FirstPass
    case SettingUp => SetupFails
    case Prepared(_) => if w.permit then SecondStop else SecondPass
    case Cleared(_) => SpawnFails
    case Handshake(_) => if w.permit then HandshakeStop else HandshakeFails(true)
    case Prompting => PromptEnds(EndedTimedOut)
    case Closing(_) => CloseOk
    case Closed => ScriptMissing
    case Verifying(todo, _) => if todo == 0 then VerifyDone else if w.permit then VerifyStop else CheckFails
    case RunOver(_) => DropAdmission
    case _ => DropSlot
  }

  lemma QuickMoveHelps(w: Worker, row: Row, slotFree: bool, phase: Phase)
    requires HoldsSlot(w.pc)
    ensures ActEnabled(w, row, slotFree, phase, QuickMove(w)) && !Unconfirmed(QuickMove(w))
    ensures MovesToRelease(ActPc(w.pc, row, QuickMove(w))) < MovesToRelease(w.pc)
    ensures QuickMove(w).DropSlot? || HoldsSlot(ActPc(w.pc, row, QuickMove(w)))
    ensures !QuickMove(w).TakeSlot? && !QuickMove(w).Spawn?
  {
  }

  lemma OneQuickMove(s: State, j: nat) returns (t: State)
    requires Inv(s) && s.slot == Some(j)
    ensures j < |s.workers| && HoldsSlot(s.workers[j].pc)
    ensures Leads(s, t) && Inv(t) && |t.workers| == |s.workers|
    ensures t.orphans == s.orphans && t.gate.phase == s.gate.phase
    ensures t.slot == None || (t.slot == Some(j) && MovesToRelease(t.workers[j].pc) < MovesToRelease(s.workers[j].pc))
  {
    WorkerFacts(s, j);
    var w := s.workers[j];
    QuickMoveHelps(w, s.rows[w.task], s.slot.None?, s.gate.phase);
    LeadsNow(s);
    t := Then(s, s, WorkerAct(j, QuickMove(w)));
    InvKept(s, WorkerAct(j, QuickMove(w)));
  }

  lemma {:induction false} FreesSlot(s: State) returns (t: State)
    requires Inv(s)
    ensures Leads(s, t) && t.slot == None && |t.workers| == |s.workers|
    ensures t.orphans == s.orphans && t.gate.phase == s.gate.phase
    decreases if s.slot.Some? && s.slot.value < |s.workers| then MovesToRelease(s.workers[s.slot.value].pc) + 1 else 0
  {
    if s.slot == None {
      LeadsNow(s);
      t := s;
    } else {
      var next := OneQuickMove(s, s.slot.value);
      t := FreesSlot(next);
      LeadsJoined(s, next, t);
    }
  }

  // ----- the bound and its exception ----------------------------------------------------------------------

  lemma {:induction false} SomeBound(keys: set<nat>) returns (n: nat)
    ensures forall k | k in keys :: k < n
  {
    if keys == {} {
      n := 0;
    } else {
      var k :| k in keys;
      var m := SomeBound(keys - {k});
      n := if m <= k then k + 1 else m;
      assert forall j | j in keys :: j == k || j in keys - {k};
    }
  }

  /** A daemon with a free slot and an open gate can take one more coding task to a live agent. */
  lemma OneMoreAgent(s: State) returns (t: State)
    requires s.slot == None && s.gate.phase == Open
    ensures Leads(s, t) && t.orphans == s.orphans && |s.workers| in t.live
  {
    var id := SomeBound(s.rows.Keys);
    LeadsNow(s);
    var queued := Then(s, s, OtherAdmit);
    queued := Then(s, queued, Create(0, id, None, ""));
    queued := Then(s, queued, Launch(0, id));
    t := Spawns(queued, |s.workers|, false);
    LeadsJoined(s, queued, t);
  }

  lemma OpensGate(s: State) returns (t: State)
    requires Inv(s) && s.gate.phase != Shut
    ensures Leads(s, t) && Inv(t) && t.gate.phase == Open && t.orphans == s.orphans && |t.workers| == |s.workers|
  {
    LeadsNow(s);
    t := s;
    if s.gate.phase == Checking {
      t := Then(s, s, AbandonShutdown);
      InvKept(s, AbandonShutdown);
    }
  }

  lemma OrphansCrowd(s: State) returns (t: State)
    requires Reachable(s) && s.gate.phase != Shut && s.orphans != {}
    ensures Leads(s, t) && Crowded(t)
  {
    ReachableInv(s);
    var open := OpensGate(s);
    var free := FreesSlot(open);
    LeadsJoined(s, open, free);
    t := OneMoreAgent(free);
    LeadsJoined(s, free, t);
    var orphan :| orphan in s.orphans;
    assert orphan in Processes(t) && |s.workers| in Processes(t);
  }

  // ----- behind a shut gate -------------------------------------------------------------------------------

  /** The worker has its agent, or can still come to one behind a shut gate. */
  predicate NearAgent(w: Worker, row: Row)
  {
    || AgentUp(w.pc) || w.pc.Cleared?
    || (!w.permit && (w.pc.Marked? || w.pc.SettingUp? || w.pc.Prepared? || (w.pc.Admitted? && CanMarkRunning(row))))
  }

  predicate SomeNearAgent(s: State)
  {
    exists i | 0 <= i < |s.workers| && s.workers[i].task in s.rows :: NearAgent(s.workers[i], s.rows[s.workers[i].task])
  }

  lemma FarMove(w: Worker, row: Row, slotFree: bool, act: Act)
    requires ActEnabled(w, row, slotFree, Shut, act) && !NearAgent(w, row)
    ensures !NearAgent(ActWorker(w, row, act), ActRow(w.pc, row, act))
  {
  }

  lemma FarOutside(w: Worker, row: Row)
    requires !NearAgent(w, row)
    ensures !NearAgent(w, RequestCancellation(row)) && !NearAgent(w, Interrupt(row))
    ensures !NearAgent(w.(permit := true), row) && !NearAgent(w.(permit := true, unreadable := true), row)
  {
  }

  lemma FarFrame(s: State, t: State, i: nat)
    requires Linked(s) && !SomeNearAgent(s) && i < |s.workers| && |t.workers| == |s.workers|
    requires t.workers[i].task == s.workers[i].task && t.rows.Keys == s.rows.Keys
    requires forall j | 0 <= j < |s.workers| && j != i :: t.workers[j] == s.workers[j]
    requires forall u | u in s.rows && u != s.workers[i].task :: t.rows[u] == s.rows[u]
    requires !NearAgent(t.workers[i], t.rows[t.workers[i].task])
    ensures !SomeNearAgent(t)
  {
    assert forall j | 0 <= j < |s.workers| && j != i :: s.workers[j].task != s.workers[i].task;
  }

  lemma FarActor(s: State, i: nat, act: Act)
    requires s.gate.phase == Shut && !SomeNearAgent(s) && Enabled(s, WorkerAct(i, act))
    ensures var w := s.workers[i];
            !NearAgent(ActWorker(w, s.rows[w.task], act), ActRow(w.pc, s.rows[w.task], act))
  {
    FarMove(s.workers[i], s.rows[s.workers[i].task], s.slot.None?, act);
  }

  lemma FarAfterAct(s: State, i: nat, act: Act)
    requires Linked(s) && s.gate.phase == Shut && !SomeNearAgent(s) && Enabled(s, WorkerAct(i, act))
    ensures !SomeNearAgent(ActStep(s, i, act))
  {
    FarActor(s, i, act);
    ActFrame(s, i, act);
    FarFrame(s, ActStep(s, i, act), i);
  }

  lemma FarAfterOthers(s: State, step: Step)
    requires Linked(s) && s.gate.phase == Shut && !SomeNearAgent(s) && Enabled(s, step)
    requires !step.WorkerAct? && CleanStep(step)
    ensures !SomeNearAgent(Apply(s, step))
  {
    var t := Apply(s, step);
    forall i: nat | i < |t.workers| && t.workers[i].task in t.rows
      ensures !NearAgent(t.workers[i], t.rows[t.workers[i].task])
    {
      if i < |s.workers| {
        FarOutside(s.workers[i], s.rows[s.workers[i].task]);
      }
    }
  }

  lemma ShutStays(s: State, step: Step)
    requires s.gate.phase == Shut && Enabled(s, step) && CleanStep(step)
    ensures Apply(s, step).gate.phase == Shut
  {
  }

  lemma {:induction false} FarForever(s: State, steps: seq<Step>, later: State)
    requires Inv(s) && s.gate.phase == Shut && !SomeNearAgent(s) && Execution(s, steps, later) && CleanSteps(steps)
    ensures Inv(later) && !SomeNearAgent(later)
    decreases |steps|
  {
    if steps != [] {
      assert CleanStep(steps[0]);
      InvKept(s, steps[0]);
      ShutStays(s, steps[0]);
      if steps[0].WorkerAct? {
        FarAfterAct(s, steps[0].worker, steps[0].act);
      } else {
        FarAfterOthers(s, steps[0]);
      }
      FarForever(Apply(s, steps[0]), steps[1..], later);
    }
  }

  lemma FarMeansNoAgent(s: State)
    requires Inv(s) && !SomeNearAgent(s)
    ensures s.live == {}
  {
    forall i: nat | i < |s.workers| ensures i !in s.live {
      WorkerFacts(s, i);
    }
    assert s.live == {};
  }

  predicate TwoOrphans(s: State)
  {
    exists i, j | i in s.orphans && j in s.orphans :: i != j
  }

  lemma FarKeepsCount(s: State, later: State)
    requires Reachable(s) && s.gate.phase == Shut && !SomeNearAgent(s) && Leads(s, later)
    ensures Crowded(later) <==> TwoOrphans(s)
  {
    var steps :| Execution(s, steps, later) && CleanSteps(steps);
    ReachableInv(s);
    FarForever(s, steps, later);
    FarMeansNoAgent(later);
    CleanRunsLeaveNoOrphan(s, steps, later);
    assert Processes(later) == s.orphans;
  }

  /** A worker near its agent was not left behind. */
  lemma NearIsNoOrphan(s: State, i: nat)
    requires Inv(s) && i < |s.workers| && s.workers[i].task in s.rows
    requires NearAgent(s.workers[i], s.rows[s.workers[i].task])
    ensures i !in s.orphans
  {
    WorkerFacts(s, i);
  }

  lemma PreparesAndStarts(s: State, i: nat) returns (t: State)
    requires i < |s.workers| && s.workers[i].task in s.rows && !s.workers[i].permit
    requires s.workers[i].pc.Marked? || s.workers[i].pc.SettingUp? || s.workers[i].pc.Prepared?
    ensures Leads(s, t) && t.orphans == s.orphans && i in t.live
  {
    LeadsNow(s);
    if s.workers[i].pc.Marked? {
      t := SetsUp(s, s, i, false);
      t := Starts(s, t, i, false);
    } else if s.workers[i].pc.SettingUp? {
      t := Move(s, s, i, SetupDone(false));
      t := Starts(s, t, i, false);
    } else {
      t := Starts(s, s, i, s.workers[i].pc.tree);
    }
  }

  lemma ReachesAgent(s: State, i: nat) returns (t: State)
    requires i < |s.workers| && s.workers[i].task in s.rows && NearAgent(s.workers[i], s.rows[s.workers[i].task])
    requires AgentUp(s.workers[i].pc) ==> i in s.live
    ensures Leads(s, t) && t.orphans == s.orphans && i in t.live
  {
    LeadsNow(s);
    if AgentUp(s.workers[i].pc) {
      t := s;
    } else if s.workers[i].pc.Cleared? {
      t := Then(s, s, WorkerAct(i, Spawn));
    } else if s.workers[i].pc.Admitted? {
      t := SpawnsOnceAdmitted(s, s, i, false);
    } else {
      t := PreparesAndStarts(s, i);
    }
  }

  lemma NearCrowds(s: State) returns (t: State)
    requires Reachable(s) && SomeNearAgent(s) && s.orphans != {}
    ensures Leads(s, t) && Crowded(t)
  {
    ReachableInv(s);
    var i: nat :| i < |s.workers| && s.workers[i].task in s.rows && NearAgent(s.workers[i], s.rows[s.workers[i].task]);
    NearIsNoOrphan(s, i);
    WorkerFacts(s, i);
    t := ReachesAgent(s, i);
    var orphan :| orphan in s.orphans;
    assert i in Processes(t) && orphan in Processes(t);
  }

  /**
   The bound, exactly and from every reachable state. Confirmed exits can still lead to two agent processes at once if
   and only if two earlier exits were not confirmed, or one was not and an agent can still be had: the gate is not shut,
   or some worker is near its agent.
   */
  lemma ProcessBoundExactly(s: State)
    requires Reachable(s)
    ensures (exists t :: Leads(s, t) && Crowded(t)) <==>
            TwoOrphans(s) || (s.orphans != {} && (s.gate.phase != Shut || SomeNearAgent(s)))
  {
    if TwoOrphans(s) {
      LeadsNow(s);
      var i, j :| i in s.orphans && j in s.orphans && i != j;
      assert i in Processes(s) && j in Processes(s);
    } else if s.orphans == {} {
      forall t | Leads(s, t) ensures !Crowded(t) {
        var steps :| Execution(s, steps, t) && CleanSteps(steps);
        AtMostOneProcess(s, steps, t);
      }
    } else if s.gate.phase != Shut {
      var t := OrphansCrowd(s);
    } else if SomeNearAgent(s) {
      var t := NearCrowds(s);
    } else {
      forall t | Leads(s, t) ensures !Crowded(t) {
        FarKeepsCount(s, t);
      }
    }
  }

  /** A reachable state in which a worker is about to close its agent. */
  lemma AboutToClose() returns (s: State)
    ensures Reachable(s) && |s.workers| == 1 && s.workers[0].task in s.rows && s.workers[0].pc.Closing?
    ensures s.gate.phase == Open
  {
    var queued := OneQueued();
    s := Spawns(queued, 0, false);
    s := Move(queued, s, 0, HandshakeDone);
    s := Move(queued, s, 0, PromptEnds(Finished(EndTurn)));
    LeadsReachable(queued, s);
  }

  lemma NoExitSeen(s: State, i: nat, act: Act) returns (t: State)
    requires Reachable(s) && Enabled(s, WorkerAct(i, act)) && Unconfirmed(act)
    ensures Reachable(t) && i in t.orphans && t.gate.phase == s.gate.phase
  {
    t := Apply(s, WorkerAct(i, act));
    ReachableNext(s, WorkerAct(i, act));
  }

  /** The exception is real: one close that cannot confirm the exit, and two agent processes exist later. */
  lemma UnconfirmedExitBreaksTheBound() returns (s: State)
    ensures Reachable(s) && Crowded(s)
  {
    var closing := AboutToClose();
    var failed := NoExitSeen(closing, 0, CloseFails);
    s := OrphansCrowd(failed);
    LeadsReachable(failed, s);
  }

  /** The same after a handshake that fails and whose cleanup fails too. */
  lemma FailedHandshakeBreaksTheBound() returns (s: State)
    ensures Reachable(s) && Crowded(s)
  {
    var queued := OneQueued();
    var spawned := Spawns(queued, 0, false);
    LeadsReachable(queued, spawned);
    var failed := NoExitSeen(spawned, 0, HandshakeFails(false));
    s := OrphansCrowd(failed);
    LeadsReachable(failed, s);
  }
}
