/**
 What a run that was stopped before its prompt tells the reader. The note is chosen by whether a worktree was made, not
 by whether an agent was spawned, so it is wrong exactly for a stop at the handshake of a run that works in place.
 */
module ProtocolNotes {
  import opened Options
  import opened Delivery
  import opened TaskTable
  import opened Protocol
  import opened ProtocolInvariant
  import opened ProtocolTheorems
  import opened ProtocolRuns

  /** The note of a result that is not recorded yet. */
  function NoteOf(pc: Pc): (note: Option<Note>)
  {
    if (pc.RunOver? || pc.Unwinding? || pc.Finishing?) && pc.result.Answered? then pc.result.answer.note else None
  }

  /** Whether the worker's own history bears out what a note says. */
  predicate Truthful(note: Note, did: set<Act>)
  {
    match note
    case NoAgentStarted => Spawn !in did
    case NothingStarted => Spawn !in did && SetupDone(true) !in did
    case StoppedBeforePrompt => HandshakeDone !in did && SetupDone(true) in did
  }

  /** The stop was taken at the handshake of a run that works in place. */
  predicate StoppedAtInPlaceHandshake(did: set<Act>)
  {
    HandshakeStop in did && SetupDone(false) in did
  }

  predicate BeforeSetup(pc: Pc)
  {
    Unmarked(pc) || pc.Marked? || pc.SettingUp?
  }

  predicate TreeOnRecord(did: set<Act>, tree: bool)
  {
    SetupDone(tree) in did && SetupDone(!tree) !in did && HandshakeDone !in did
  }

  /** What a note rests on. */
  predicate NoteGrounds(note: Note, did: set<Act>)
  {
    match note
    case NoAgentStarted => Spawn !in did && HandshakeStop !in did
    case NothingStarted =>
      && SetupDone(true) !in did && (Spawn in did <==> HandshakeStop in did)
      && (HandshakeStop in did ==> SetupDone(false) in did)
    case StoppedBeforePrompt => TreeOnRecord(did, true)
  }

  predicate NoteOk(w: Worker)
  {
    && (BeforeSetup(w.pc) ==> SetupDone(true) !in w.did && SetupDone(false) !in w.did && HandshakeDone !in w.did)
    && (w.pc.Prepared? || w.pc.Cleared? || w.pc.Handshake? ==> TreeOnRecord(w.did, w.pc.tree))
    && (NoteOf(w.pc).Some? ==> NoteGrounds(NoteOf(w.pc).value, w.did))
  }

  lemma NoteInSetup(w: Worker, row: Row, slotFree: bool, phase: Phase, act: Act)
    requires ActEnabled(w, row, slotFree, phase, act) && HistoryOk(w) && NoteOk(w) && SetupAct(act)
    ensures NoteOk(ActWorker(w, row, act))
  {
  }

  lemma NoteWithAgent(w: Worker, row: Row, slotFree: bool, phase: Phase, act: Act)
    requires ActEnabled(w, row, slotFree, phase, act) && HistoryOk(w) && NoteOk(w) && AgentAct(act)
    ensures NoteOk(ActWorker(w, row, act))
  {
  }

  lemma NoteAfterwards(w: Worker, row: Row, slotFree: bool, phase: Phase, act: Act)
    requires ActEnabled(w, row, slotFree, phase, act) && HistoryOk(w) && NoteOk(w) && !SetupAct(act) && !AgentAct(act)
    ensures NoteOk(ActWorker(w, row, act))
  {
  }

  lemma NoteKept(w: Worker, row: Row, slotFree: bool, phase: Phase, act: Act)
    requires ActEnabled(w, row, slotFree, phase, act) && HistoryOk(w) && NoteOk(w)
    ensures NoteOk(ActWorker(w, row, act))
  {
    if SetupAct(act) {
      NoteInSetup(w, row, slotFree, phase, act);
    } else if AgentAct(act) {
      NoteWithAgent(w, row, slotFree, phase, act);
    } else {
      NoteAfterwards(w, row, slotFree, phase, act);
    }
  }

  predicate NotesOk(s: State)
  {
    forall i | 0 <= i < |s.workers| :: NoteOk(s.workers[i])
  }

  lemma NotesAfterAct(s: State, i: nat, act: Act)
    requires NotesOk(s) && Enabled(s, WorkerAct(i, act)) && HistoryOk(s.workers[i])
    ensures NotesOk(ActStep(s, i, act))
  {
    NoteKept(s.workers[i], s.rows[s.workers[i].task], s.slot.None?, s.gate.phase, act);
  }

  lemma HistoryOf(s: State, i: nat)
    requires Inv(s) && i < |s.workers|
    ensures HistoryOk(s.workers[i])
  {
    WorkerFacts(s, i);
  }

  lemma NotesAfterOthers(s: State, step: Step)
    requires NotesOk(s) && Enabled(s, step) && !step.WorkerAct?
    ensures NotesOk(Apply(s, step))
  {
  }

  lemma NotesKept(s: State, step: Step)
    requires Inv(s) && NotesOk(s) && Enabled(s, step)
    ensures NotesOk(Apply(s, step))
  {
    if step.WorkerAct? {
      HistoryOf(s, step.worker);
      NotesAfterAct(s, step.worker, step.act);
    } else {
      NotesAfterOthers(s, step);
    }
  }

  lemma {:induction false} NotesAlways(s: State, steps: seq<Step>, later: State)
    requires Inv(s) && NotesOk(s) && Execution(s, steps, later)
    ensures NotesOk(later)
    decreases |steps|
  {
    if steps != [] {
      InvKept(s, steps[0]);
      NotesKept(s, steps[0]);
      NotesAlways(Apply(s, steps[0]), steps[1..], later);
    }
  }

  /** In every reachable state a note is true if and only if the stop was not taken at an in-place handshake. */
  lemma NoteTruth(s: State, i: nat)
    requires Reachable(s) && i < |s.workers| && NoteOf(s.workers[i].pc).Some?
    ensures Truthful(NoteOf(s.workers[i].pc).value, s.workers[i].did) <==> !StoppedAtInPlaceHandshake(s.workers[i].did)
  {
    var steps :| Execution(Init(), steps, s);
    assert Inv(Init());
    NotesAlways(Init(), steps, s);
    assert NoteOk(s.workers[i]);
  }

  /** The exception is real: the note says that nothing was started, and an agent was. */
  lemma NoteCanBeWrong() returns (s: State)
    ensures Reachable(s) && |s.workers| == 1 && NoteOf(s.workers[0].pc) == Some(NothingStarted)
    ensures Spawn in s.workers[0].did
  {
    var queued := OneQueued();
    var spawned := Spawns(queued, 0, false);
    LeadsReachable(queued, spawned);
    s := StopsAtHandshake(spawned, 0);
  }

  lemma AtHandshake(s: State, i: nat)
    requires Reachable(s) && i < |s.workers| && s.workers[i].pc.Handshake?
    ensures s.workers[i].task in s.rows && Spawn in s.workers[i].did
  {
    ReachableInv(s);
    WorkerFacts(s, i);
  }

  lemma Stopped(s: State, i: nat) returns (t: State)
    requires Reachable(s) && i < |s.workers| && s.workers[i].pc == Handshake(false) && s.workers[i].task in s.rows
    ensures Reachable(t) && |t.workers| == |s.workers| && t.workers[i].permit && t.workers[i].pc == Handshake(false)
    ensures t.workers[i].task in t.rows && t.workers[i].did == s.workers[i].did
  {
    t := Apply(s, Tick(i, false));
    ReachableNext(s, Tick(i, false));
  }

  lemma StopsAtHandshake(s: State, i: nat) returns (t: State)
    requires Reachable(s) && i < |s.workers| && s.workers[i].pc == Handshake(false)
    ensures Reachable(t) && |t.workers| == |s.workers| && NoteOf(t.workers[i].pc) == Some(NothingStarted)
    ensures Spawn in t.workers[i].did
  {
    AtHandshake(s, i);
    var stopped := Stopped(s, i);
    t := Apply(stopped, WorkerAct(i, HandshakeStop));
    ReachableNext(stopped, WorkerAct(i, HandshakeStop));
  }
}
