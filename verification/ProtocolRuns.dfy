/**
 Building runs of the coding-task protocol: which states a state leads to when every close confirms the agent's exit and
 the daemon is not restarted, and the runs in which one worker goes from the queue to a live agent.
 */
module ProtocolRuns {
  import opened Options
  import opened TaskTable
  import opened Protocol
  import opened ProtocolInvariant
  import opened ProtocolTheorems

  predicate CleanStep(step: Step)
  {
    !step.Restart? && !(step.WorkerAct? && Unconfirmed(step.act))
  }

  /** Every close, also after a failed handshake, confirms the exit, and the daemon is not restarted. */
  predicate CleanSteps(steps: seq<Step>)
  {
    forall k | 0 <= k < |steps| :: CleanStep(steps[k])
  }

  ghost predicate Leads(s: State, t: State)
  {
    exists steps :: Execution(s, steps, t) && CleanSteps(steps)
  }

  lemma {:induction false} Joined(s: State, first: seq<Step>, mid: State, second: seq<Step>, t: State)
    requires Execution(s, first, mid) && Execution(mid, second, t)
    ensures Execution(s, first + second, t)
    decreases |first|
  {
    if first == [] {
      assert first + second == second;
    } else {
      assert (first + second)[1..] == first[1..] + second;
      Joined(Apply(s, first[0]), first[1..], mid, second, t);
    }
  }

  lemma LeadsJoined(s: State, mid: State, t: State)
    requires Leads(s, mid) && Leads(mid, t)
    ensures Leads(s, t)
  {
    var first :| Execution(s, first, mid) && CleanSteps(first);
    var second :| Execution(mid, second, t) && CleanSteps(second);
    Joined(s, first, mid, second, t);
  }

  lemma LeadsNow(s: State)
    ensures Leads(s, s)
  {
    assert Execution(s, [], s) && CleanSteps([]);
  }

  lemma Then(s: State, t: State, step: Step) returns (next: State)
    requires Leads(s, t) && Enabled(t, step) && CleanStep(step)
    ensures next == Apply(t, step) && Leads(s, next)
  {
    next := Apply(t, step);
    assert Execution(t, [step], next) && CleanSteps([step]) by {
      assert [step][1..] == [];
    }
    LeadsJoined(s, t, next);
  }

  lemma LeadsReachable(s: State, t: State)
    requires Reachable(s) && Leads(s, t)
    ensures Reachable(t)
  {
    var before :| Execution(Init(), before, s);
    var after :| Execution(s, after, t) && CleanSteps(after);
    Joined(Init(), before, s, after, t);
  }

  // ----- one worker's way to an agent ---------------------------------------------------------------------

  /** What a worker's moves leave alone. */
  predicate OnlyWorker(s: State, i: nat, t: State)
  {
    && i < |s.workers| && |t.workers| == |s.workers| && s.workers[i].task in s.rows
    && t.rows.Keys == s.rows.Keys && t.gate.phase == s.gate.phase
    && t.workers[i].task == s.workers[i].task && t.workers[i].permit == s.workers[i].permit
    && (forall j | 0 <= j < |s.workers| && j != i :: t.workers[j] == s.workers[j])
    && (forall u | u in s.rows && u != s.workers[i].task :: t.rows[u] == s.rows[u])
  }

  /** One more move of worker `i` in a run that only it has been making. */
  lemma Move(s: State, t: State, i: nat, act: Act) returns (next: State)
    requires Leads(s, t) && OnlyWorker(s, i, t) && !t.workers[i].permit && !Unconfirmed(act)
    requires ActEnabled(t.workers[i], t.rows[t.workers[i].task], t.slot.None?, t.gate.phase, act)
    ensures Leads(s, next) && OnlyWorker(s, i, next) && !next.workers[i].permit
    ensures next.workers[i].pc == ActPc(t.workers[i].pc, t.rows[t.workers[i].task], act)
    ensures next.workers[i].did == t.workers[i].did + {act}
    ensures next.rows[t.workers[i].task] == ActRow(t.workers[i].pc, t.rows[t.workers[i].task], act)
    ensures next.slot == ActSlot(t.slot, i, act) && next.live == ActLive(t.live, i, act)
    ensures next.orphans == t.orphans
  {
    next := Then(s, t, WorkerAct(i, act));
  }

  /** `t` is reached from `s` by moves of worker `i`, which is now at `pc`, and no exit was left unconfirmed. */
  ghost predicate At(s: State, t: State, i: nat, pc: Pc)
  {
    && Leads(s, t) && OnlyWorker(s, i, t) && !t.workers[i].permit && t.workers[i].pc == pc
    && t.orphans == s.orphans
  }

  predicate ReadyToRun(s: State, i: nat)
  {
    && i < |s.workers| && s.workers[i].task in s.rows
    && s.workers[i].pc == Waiting && !s.workers[i].permit
    && s.slot == None && s.gate.phase == Open && CanMarkRunning(s.rows[s.workers[i].task])
  }

  lemma Enters(s: State, i: nat) returns (t: State)
    requires ReadyToRun(s, i)
    ensures At(s, t, i, Admitted) && t.live == s.live && t.slot == Some(i)
    ensures CanMarkRunning(t.rows[s.workers[i].task]) && t.workers[i].did == s.workers[i].did + {TakeSlot, Admit}
  {
    LeadsNow(s);
    t := Move(s, s, i, TakeSlot);
    t := Move(s, t, i, Admit);
  }

  lemma Marks(s: State, t: State, i: nat) returns (next: State)
    requires At(s, t, i, Admitted) && CanMarkRunning(t.rows[s.workers[i].task])
    ensures At(s, next, i, Marked) && next.live == t.live && next.slot == t.slot
    ensures next.rows[s.workers[i].task] == MarkRunning(t.rows[s.workers[i].task])
  {
    next := Move(s, t, i, Mark);
  }

  lemma SetsUp(s: State, t: State, i: nat, tree: bool) returns (next: State)
    requires At(s, t, i, Marked)
    ensures At(s, next, i, Prepared(tree)) && next.live == t.live && next.slot == t.slot
    ensures next.rows[s.workers[i].task] == t.rows[s.workers[i].task]
  {
    next := Move(s, t, i, FirstPass);
    next := Move(s, next, i, SetupDone(tree));
  }

  lemma Starts(s: State, t: State, i: nat, tree: bool) returns (next: State)
    requires At(s, t, i, Prepared(tree))
    ensures At(s, next, i, Handshake(tree)) && next.live == t.live + {i} && next.slot == t.slot
    ensures Spawn in next.workers[i].did && next.rows[s.workers[i].task] == t.rows[s.workers[i].task]
  {
    next := Move(s, t, i, SecondPass);
    next := Move(s, next, i, Spawn);
  }

  /** An admitted worker with a markable row and no stop can reach a live agent in five moves. */
  lemma SpawnsOnceAdmitted(s: State, t: State, i: nat, tree: bool) returns (next: State)
    requires At(s, t, i, Admitted) && CanMarkRunning(t.rows[s.workers[i].task])
    ensures At(s, next, i, Handshake(tree)) && next.live == t.live + {i} && next.slot == t.slot
    ensures Spawn in next.workers[i].did && next.rows[s.workers[i].task] == MarkRunning(t.rows[s.workers[i].task])
  {
    next := Marks(s, t, i);
    next := SetsUp(s, next, i, tree);
    next := Starts(s, next, i, tree);
  }

  lemma Spawns(s: State, i: nat, tree: bool) returns (t: State)
    requires ReadyToRun(s, i)
    ensures At(s, t, i, Handshake(tree)) && t.live == s.live + {i} && t.slot == Some(i)
    ensures t.rows[s.workers[i].task].status == Running && !t.rows[s.workers[i].task].cancelRequested
  {
    t := Enters(s, i);
    t := SpawnsOnceAdmitted(s, t, i, tree);
  }

  /** A daemon with one queued coding task. */
  lemma OneQueued() returns (s: State)
    ensures Reachable(s) && |s.workers| == 1 && ReadyToRun(s, 0) && s.workers[0].task == 0
    ensures s.live == {} && s.orphans == {}
  {
    LeadsNow(Init());
    s := Then(Init(), Init(), OtherAdmit);
    s := Then(Init(), s, Create(0, 0, None, ""));
    s := Then(Init(), s, Launch(0, 0));
    assert Execution(Init(), [], Init());
    LeadsReachable(Init(), s);
  }
}
