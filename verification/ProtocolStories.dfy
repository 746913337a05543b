/**
 What a worker can have done by the time it reports, and what it then reports. A story names one way for a run to end;
 its history and its report are written out here, apart from the moves, and every reachable report has a story.
 */
module ProtocolStories {
  import opened Options
  import opened Delivery
  import opened TaskTable
  import opened Protocol
  import opened ProtocolInvariant
  import opened ProtocolTheorems
  import opened ProtocolStops
  import opened ProtocolRuns
  import opened ProtocolChecks

  datatype Story =
    | StoppedInQueue
    | ShutOut                                              // the gate refused: the daemon is stopping
    | GateUnavailable
    | StoppedBeforeMark
    | NotMarked
    | StoppedFirst
    | NotSetUp
    | StoppedSecond(tree: bool)
    | NotSpawned(tree: bool)
    | StoppedAtHandshake(tree: bool)
    | NoHandshake(tree: bool, confirmed: bool)
    | StoppedPrompt(tree: bool, closed: bool)
    | Unfinished(tree: bool, ended: Ended, closed: bool)   // any other end of the prompt than a checked, finished turn
    | NoRunner(tree: bool)
    | NoScript(tree: bool)
    | StoppedCheck(tree: bool, chosen: nat, passed: nat)
    | FailedCheck(tree: bool, chosen: nat, passed: nat)
    | Checked(tree: bool, chosen: nat)

  predicate Told(story: Story)
  {
    match story
    case Unfinished(_, ended, closed) => ended != EndedCancelled && (ended == Finished(EndTurn) ==> !closed)
    case StoppedCheck(_, chosen, passed) => passed < chosen
    case FailedCheck(_, chosen, passed) => passed < chosen
    case _ => true
  }

  // ----- histories ----------------------------------------------------------------------------------------

  predicate InEntry(a: Act)
  {
    a.TakeSlot? || a.Admit?
  }

  predicate InSetup(tree: bool, a: Act)
  {
    InEntry(a) || a.Mark? || a.FirstPass? || a == SetupDone(tree) || a.SecondPass?
  }

  predicate InTalk(tree: bool, a: Act)
  {
    InSetup(tree, a) || a.Spawn? || a.HandshakeDone?
  }

  predicate InTurn(tree: bool, a: Act)
  {
    InTalk(tree, a) || a == PromptEnds(Finished(EndTurn)) || a.CloseOk?
  }

  predicate InChecks(tree: bool, chosen: nat, passed: nat, a: Act)
  {
    InTurn(tree, a) || a == ChecksChosen(chosen) || (a.CheckPasses? && a.index < passed)
  }

  predicate IsClose(closed: bool, a: Act)
  {
    if closed then a.CloseOk? else a.CloseFails?
  }

  /** Whether the move belongs to the story, releasing the admission and the slot aside. */
  predicate Tells(story: Story, a: Act)
  {
    match story
    case StoppedInQueue => a.QueueStop?
    case ShutOut => a.TakeSlot? || a.GateRefuses?
    case GateUnavailable => a.TakeSlot? || a.GateBroken?
    case StoppedBeforeMark => InEntry(a) || a.MarkFails? || a.MarkWasCancelled?
    case NotMarked => InEntry(a) || a.MarkFails? || a.MarkGivesUp?
    case StoppedFirst => InEntry(a) || a.Mark? || a.FirstStop?
    case NotSetUp => InEntry(a) || a.Mark? || a.FirstPass? || a.SetupFails?
    case StoppedSecond(tree) => (InSetup(tree, a) && !a.SecondPass?) || a.SecondStop?
    case NotSpawned(tree) => InSetup(tree, a) || a.SpawnFails?
    case StoppedAtHandshake(tree) => InSetup(tree, a) || a.Spawn? || a.HandshakeStop?
    case NoHandshake(tree, confirmed) => InSetup(tree, a) || a.Spawn? || a == HandshakeFails(confirmed)
    case StoppedPrompt(tree, closed) => InTalk(tree, a) || a.PromptStop? || IsClose(closed, a)
    case Unfinished(tree, ended, closed) => InTalk(tree, a) || a == PromptEnds(ended) || IsClose(closed, a)
    case NoRunner(tree) => InTurn(tree, a) || a.RunnerMissing?
    case NoScript(tree) => InTurn(tree, a) || a.ScriptMissing?
    case StoppedCheck(tree, chosen, passed) => InChecks(tree, chosen, passed, a) || a.VerifyStop?
    case FailedCheck(tree, chosen, passed) => InChecks(tree, chosen, passed, a) || a.CheckFails?
    case Checked(tree, chosen) => InChecks(tree, chosen, chosen, a) || a.VerifyDone?
  }

  // ----- reports ------------------------------------------------------------------------------------------

  function BeforePrompt(note: Note): (r: RunResult)
  {
    Answered(Answer(OutCancelled, None, None, Some(note)))
  }

  function NotVerified(outcome: Outcome): (r: RunResult)
  {
    Answered(Answer(outcome, Some(Unverified), Some(NotRun), None))
  }

  /** The word for an end of the prompt that is not checked further. */
  function EndWord(ended: Ended): (o: Outcome)
  {
    match ended
    case Finished(_) => OutStopped
    case EndedCancelled => OutCancelled
    case EndedTimedOut => OutTimedOut
    case AgentExited(_) => OutAgentExited
    case EndedFailed(_) => OutFailed
  }

  function Report(story: Story): (r: RunResult)
  {
    match story
    case StoppedInQueue => BeforePrompt(NoAgentStarted)
    case ShutOut => BeforePrompt(NoAgentStarted)
    case StoppedBeforeMark => BeforePrompt(NoAgentStarted)
    case StoppedFirst => BeforePrompt(NothingStarted)
    case StoppedSecond(tree) => BeforePrompt(if tree then StoppedBeforePrompt else NothingStarted)
    case StoppedAtHandshake(tree) => BeforePrompt(if tree then StoppedBeforePrompt else NothingStarted)
    case GateUnavailable => Refused
    case NotMarked => Refused
    case NotSetUp => Refused
    case NotSpawned(_) => Refused
    case NoHandshake(_, _) => Refused
    case NoRunner(_) => Refused
    case StoppedPrompt(_, closed) => NotVerified(if closed then OutCancelled else OutCleanupFailed)
    case Unfinished(_, ended, closed) => NotVerified(if closed then EndWord(ended) else OutCleanupFailed)
    case NoScript(_) =>
      Answered(Answer(OutVerificationFailed, Some(DeliveredVerificationFailed), Some(ChecksFail), None))
    case FailedCheck(_, _, _) =>
      Answered(Answer(OutVerificationFailed, Some(DeliveredVerificationFailed), Some(ChecksFail), None))
    case StoppedCheck(_, _, _) => Answered(Answer(OutCancelled, Some(Unverified), Some(ChecksCancelled), None))
    case Checked(_, chosen) =>
      if chosen == 0 then NotVerified(OutCompleted)
      else Answered(Answer(OutCompleted, Some(DeliveredChecksPassed), Some(ChecksPass), None))
  }

  // ----- every worker is somewhere in a story ---------------------------------------------------------------

  predicate Release(a: Act)
  {
    a.DropAdmission? || a.DropSlot?
  }

  /** The worker did what the story tells, all of it, and nothing else. */
  ghost predicate Lived(did: set<Act>, story: Story)
  {
    forall a | !Release(a) :: a in did <==> Tells(story, a)
  }

  ghost predicate HasStory(did: set<Act>, result: RunResult)
  {
    exists story :: Told(story) && Report(story) == result && Lived(did, story)
  }

  /** Whether the move lies before this place, for a worker with or without a worktree. */
  predicate Before(pc: Pc, tree: bool, a: Act)
  {
    match pc
    case Waiting => false
    case HasSlot => a.TakeSlot?
    case Admitted => InEntry(a)
    case MarkRefused => InEntry(a) || a.MarkFails?
    case Marked => InEntry(a) || a.Mark?
    case SettingUp => InEntry(a) || a.Mark? || a.FirstPass?
    case Prepared(_) => InSetup(tree, a) && !a.SecondPass?
    case Cleared(_) => InSetup(tree, a)
    case Handshake(_) => InSetup(tree, a) || a.Spawn?
    case Prompting => InTalk(tree, a)
    case Closing(ended) =>
      InTalk(tree, a) || (if ended == EndedCancelled then a.PromptStop? else a == PromptEnds(ended))
    case Closed => InTurn(tree, a)
    case Verifying(todo, passed) => InChecks(tree, todo + passed, passed, a)
    case _ => false
  }

  predicate Underway(pc: Pc)
  {
    Unspawned(pc) || AgentUp(pc) || pc.Closed? || pc.Verifying?
  }

  predicate Reporting(pc: Pc)
  {
    pc.RunOver? || pc.Unwinding? || pc.Finishing?
  }

  predicate TreeFits(pc: Pc, tree: bool)
  {
    pc.Prepared? || pc.Cleared? || pc.Handshake? ==> pc.tree == tree
  }

  /** The worker did what lies before this place, all of it, and nothing else. */
  ghost predicate Came(pc: Pc, tree: bool, did: set<Act>)
  {
    TreeFits(pc, tree) && forall a :: a in did <==> Before(pc, tree, a)
  }

  ghost predicate OnPath(w: Worker)
  {
    && (Underway(w.pc) ==> Came(w.pc, true, w.did) || Came(w.pc, false, w.did))
    && (Reporting(w.pc) ==> HasStory(w.did, w.pc.result))
  }

  /** The story that a move from this place ends with, if it ends the run. */
  function Ending(pc: Pc, tree: bool, act: Act): (story: Option<Story>)
  {
    match act
    case QueueStop => Some(StoppedInQueue)
    case GateRefuses => Some(ShutOut)
    case GateBroken => Some(GateUnavailable)
    case MarkWasCancelled => Some(StoppedBeforeMark)
    case MarkGivesUp => Some(NotMarked)
    case FirstStop => Some(StoppedFirst)
    case SetupFails => Some(NotSetUp)
    case SecondStop => Some(StoppedSecond(tree))
    case SpawnFails => Some(NotSpawned(tree))
    case HandshakeStop => Some(StoppedAtHandshake(tree))
    case HandshakeFails(confirmed) => Some(NoHandshake(tree, confirmed))
    case CloseFails =>
      if !pc.Closing? then None
      else if pc.ended == EndedCancelled then Some(StoppedPrompt(tree, false))
      else Some(Unfinished(tree, pc.ended, false))
    case CloseOk =>
      if !pc.Closing? || pc.ended == Finished(EndTurn) then None
      else if pc.ended == EndedCancelled then Some(StoppedPrompt(tree, true))
      else Some(Unfinished(tree, pc.ended, true))
    case RunnerMissing => Some(NoRunner(tree))
    case ScriptMissing => Some(NoScript(tree))
    case VerifyStop => if pc.Verifying? then Some(StoppedCheck(tree, pc.todo + pc.passed, pc.passed)) else None
    case CheckFails => if pc.Verifying? then Some(FailedCheck(tree, pc.todo + pc.passed, pc.passed)) else None
    case VerifyDone => if pc.Verifying? then Some(Checked(tree, pc.passed)) else None
    case _ => None
  }

  /** Which moves go on and which end the run, and what is then reported. */
  lemma EndingReportsInSetup(w: Worker, row: Row, slotFree: bool, phase: Phase, act: Act, tree: bool)
    requires ActEnabled(w, row, slotFree, phase, act) && Underway(w.pc) && TreeFits(w.pc, tree)
    requires SetupAct(act)
    ensures var next, story := ActPc(w.pc, row, act), Ending(w.pc, tree, act);
            && (story.Some? <==> Reporting(next)) && (story.None? ==> Underway(next))
            && (story.Some? ==> Told(story.value) && Report(story.value) == next.result)
  {
  }

  lemma EndingReportsWithAgent(w: Worker, row: Row, slotFree: bool, phase: Phase, act: Act, tree: bool)
    requires ActEnabled(w, row, slotFree, phase, act) && Underway(w.pc) && TreeFits(w.pc, tree)
    requires AgentAct(act)
    ensures var next, story := ActPc(w.pc, row, act), Ending(w.pc, tree, act);
            && (story.Some? <==> Reporting(next)) && (story.None? ==> Underway(next))
            && (story.Some? ==> Told(story.value) && Report(story.value) == next.result)
  {
  }

  lemma EndingReportsAfterwards(w: Worker, row: Row, slotFree: bool, phase: Phase, act: Act, tree: bool)
    requires ActEnabled(w, row, slotFree, phase, act) && Underway(w.pc) && TreeFits(w.pc, tree)
    requires !SetupAct(act) && !AgentAct(act)
    ensures var next, story := ActPc(w.pc, row, act), Ending(w.pc, tree, act);
            && (story.Some? <==> Reporting(next)) && (story.None? ==> Underway(next))
            && (story.Some? ==> Told(story.value) && Report(story.value) == next.result)
  {
  }

  lemma EndingReports(w: Worker, row: Row, slotFree: bool, phase: Phase, act: Act, tree: bool)
    requires ActEnabled(w, row, slotFree, phase, act) && Underway(w.pc) && TreeFits(w.pc, tree)
    ensures var next, story := ActPc(w.pc, row, act), Ending(w.pc, tree, act);
            && (story.Some? <==> Reporting(next)) && (story.None? ==> Underway(next))
            && (story.Some? ==> Told(story.value) && Report(story.value) == next.result)
  {
    if SetupAct(act) {
      EndingReportsInSetup(w, row, slotFree, phase, act, tree);
    } else if AgentAct(act) {
      EndingReportsWithAgent(w, row, slotFree, phase, act, tree);
    } else {
      EndingReportsAfterwards(w, row, slotFree, phase, act, tree);
    }
  }

  /** The moves that go on, with the places they lead from and to. */
  predicate Continues(pc: Pc, act: Act, next: Pc)
  {
    match pc
    case Waiting => act.TakeSlot? && next == HasSlot
    case HasSlot => act.Admit? && next == Admitted
    case Admitted => (act.Mark? && next == Marked) || (act.MarkFails? && next == MarkRefused)
    case Marked => act.FirstPass? && next == SettingUp
    case Prepared(tree) => act.SecondPass? && next == Cleared(tree)
    case Cleared(tree) => act.Spawn? && next == Handshake(tree)
    case Handshake(_) => act.HandshakeDone? && next == Prompting
    case Prompting =>
      || (act.PromptStop? && next == Closing(EndedCancelled))
      || (act.PromptEnds? && act.ended != EndedCancelled && next == Closing(act.ended))
    case Closing(ended) => act.CloseOk? && ended == Finished(EndTurn) && next == Closed
    case Closed => act.ChecksChosen? && next == Verifying(act.count, 0)
    case Verifying(todo, passed) => act == CheckPasses(passed) && todo > 0 && next == Verifying(todo - 1, passed + 1)
    case _ => false
  }

  lemma FurtherPlace(w: Worker, row: Row, slotFree: bool, phase: Phase, act: Act, tree: bool)
    requires ActEnabled(w, row, slotFree, phase, act) && Underway(w.pc)
    requires Ending(w.pc, tree, act).None? && !act.SetupDone?
    ensures Continues(w.pc, act, ActPc(w.pc, row, act))
  {
  }

  /** A move that goes on is the only thing that lies before the next place and not before this one. */
  lemma OneFurtherAtEntry(pc: Pc, act: Act, next: Pc, tree: bool, a: Act)
    requires Continues(pc, act, next) && TreeFits(pc, tree)
    requires pc.Waiting? || pc.HasSlot? || pc.Admitted? || pc.Marked?
    ensures TreeFits(next, tree) && (Before(next, tree, a) <==> Before(pc, tree, a) || a == act)
  {
  }

  lemma OneFurtherInSetup(pc: Pc, act: Act, next: Pc, tree: bool, a: Act)
    requires Continues(pc, act, next) && TreeFits(pc, tree)
    requires pc.Prepared? || pc.Cleared?
    ensures TreeFits(next, tree) && (Before(next, tree, a) <==> Before(pc, tree, a) || a == act)
  {
  }

  lemma OneFurtherAtHandshake(pc: Pc, act: Act, next: Pc, tree: bool, a: Act)
    requires Continues(pc, act, next) && TreeFits(pc, tree)
    requires pc.Handshake?
    ensures TreeFits(next, tree) && (Before(next, tree, a) <==> Before(pc, tree, a) || a == act)
  {
  }

  lemma OneFurtherAtPrompt(pc: Pc, act: Act, next: Pc, tree: bool, a: Act)
    requires Continues(pc, act, next) && TreeFits(pc, tree)
    requires pc.Prompting?
    ensures TreeFits(next, tree) && (Before(next, tree, a) <==> Before(pc, tree, a) || a == act)
  {
  }

  lemma OneFurtherAtClose(pc: Pc, act: Act, next: Pc, tree: bool, a: Act)
    requires Continues(pc, act, next) && TreeFits(pc, tree)
    requires pc.Closing?
    ensures TreeFits(next, tree) && (Before(next, tree, a) <==> Before(pc, tree, a) || a == act)
  {
  }

  lemma OneFurtherAtChecks(pc: Pc, act: Act, next: Pc, tree: bool, a: Act)
    requires Continues(pc, act, next) && TreeFits(pc, tree)
    requires pc.Closed? || pc.Verifying?
    ensures TreeFits(next, tree) && (Before(next, tree, a) <==> Before(pc, tree, a) || a == act)
  {
  }

  lemma OneFurther(pc: Pc, act: Act, next: Pc, tree: bool, a: Act)
    requires Continues(pc, act, next) && TreeFits(pc, tree)
    ensures TreeFits(next, tree) && (Before(next, tree, a) <==> Before(pc, tree, a) || a == act)
  {
    if pc.Closed? || pc.Verifying? {
      OneFurtherAtChecks(pc, act, next, tree, a);
    } else if pc.Closing? {
      OneFurtherAtClose(pc, act, next, tree, a);
    } else if pc.Prompting? {
      OneFurtherAtPrompt(pc, act, next, tree, a);
    } else if pc.Handshake? {
      OneFurtherAtHandshake(pc, act, next, tree, a);
    } else if pc.Prepared? || pc.Cleared? {
      OneFurtherInSetup(pc, act, next, tree, a);
    } else {
      OneFurtherAtEntry(pc, act, next, tree, a);
    }
  }

  lemma SetupFurther(w: Worker, row: Row, slotFree: bool, phase: Phase, act: Act, tree: bool, a: Act)
    requires ActEnabled(w, row, slotFree, phase, act) && act.SetupDone?
    ensures ActPc(w.pc, row, act) == Prepared(act.tree)
    ensures Before(Prepared(act.tree), act.tree, a) <==> Before(w.pc, tree, a) || a == act
  {
  }

  /** The places at which the moves that end a run are made. */
  predicate EndsAt(pc: Pc, act: Act)
  {
    match pc
    case Waiting => act.QueueStop?
    case HasSlot => act.GateRefuses? || act.GateBroken?
    case MarkRefused => act.MarkWasCancelled? || act.MarkGivesUp?
    case Marked => act.FirstStop?
    case SettingUp => act.SetupFails?
    case Prepared(_) => act.SecondStop?
    case Cleared(_) => act.SpawnFails?
    case Handshake(_) => act.HandshakeStop? || act.HandshakeFails?
    case Closing(ended) => act.CloseFails? || (act.CloseOk? && ended != Finished(EndTurn))
    case Closed => act.RunnerMissing? || act.ScriptMissing?
    case Verifying(todo, _) => act.VerifyStop? || act.CheckFails? || (act.VerifyDone? && todo == 0)
    case _ => false
  }

  lemma EndingPlace(w: Worker, row: Row, slotFree: bool, phase: Phase, act: Act, tree: bool)
    requires ActEnabled(w, row, slotFree, phase, act) && Ending(w.pc, tree, act).Some?
    ensures EndsAt(w.pc, act)
  {
  }

  /** A move that ends the run completes its story. */
  lemma StoryCompletedAtEntry(pc: Pc, act: Act, tree: bool, a: Act)
    requires EndsAt(pc, act) && TreeFits(pc, tree) && Ending(pc, tree, act).Some? && !Release(a)
    requires pc.Waiting? || pc.HasSlot? || pc.MarkRefused?
    ensures Tells(Ending(pc, tree, act).value, a) <==> Before(pc, tree, a) || a == act
  {
  }

  lemma StoryCompletedOnceMarked(pc: Pc, act: Act, tree: bool, a: Act)
    requires EndsAt(pc, act) && TreeFits(pc, tree) && Ending(pc, tree, act).Some? && !Release(a)
    requires pc.Marked? || pc.SettingUp?
    ensures Tells(Ending(pc, tree, act).value, a) <==> Before(pc, tree, a) || a == act
  {
  }

  lemma StoryCompletedInSetup(pc: Pc, act: Act, tree: bool, a: Act)
    requires EndsAt(pc, act) && TreeFits(pc, tree) && Ending(pc, tree, act).Some? && !Release(a)
    requires pc.Prepared? || pc.Cleared?
    ensures Tells(Ending(pc, tree, act).value, a) <==> Before(pc, tree, a) || a == act
  {
  }

  lemma StoryCompletedAtHandshake(pc: Pc, act: Act, tree: bool, a: Act)
    requires EndsAt(pc, act) && TreeFits(pc, tree) && Ending(pc, tree, act).Some? && !Release(a)
    requires pc.Handshake?
    ensures Tells(Ending(pc, tree, act).value, a) <==> Before(pc, tree, a) || a == act
  {
  }

  lemma StoryCompletedAtClose(pc: Pc, act: Act, tree: bool, a: Act)
    requires EndsAt(pc, act) && TreeFits(pc, tree) && Ending(pc, tree, act).Some? && !Release(a)
    requires pc.Closing? && pc.ended != EndedCancelled
    ensures Tells(Ending(pc, tree, act).value, a) <==> Before(pc, tree, a) || a == act
  {
  }

  lemma StoryCompletedAtStoppedClose(pc: Pc, act: Act, tree: bool, a: Act)
    requires EndsAt(pc, act) && TreeFits(pc, tree) && Ending(pc, tree, act).Some? && !Release(a)
    requires pc.Closing? && pc.ended == EndedCancelled
    ensures Tells(Ending(pc, tree, act).value, a) <==> Before(pc, tree, a) || a == act
  {
  }

  lemma StoryCompletedOnceClosed(pc: Pc, act: Act, tree: bool, a: Act)
    requires EndsAt(pc, act) && TreeFits(pc, tree) && Ending(pc, tree, act).Some? && !Release(a)
    requires pc.Closed?
    ensures Tells(Ending(pc, tree, act).value, a) <==> Before(pc, tree, a) || a == act
  {
  }

  lemma StoryCompletedAtChecks(pc: Pc, act: Act, tree: bool, a: Act)
    requires EndsAt(pc, act) && TreeFits(pc, tree) && Ending(pc, tree, act).Some? && !Release(a)
    requires pc.Verifying? && !act.VerifyDone?
    ensures Tells(Ending(pc, tree, act).value, a) <==> Before(pc, tree, a) || a == act
  {
  }

  lemma StoryCompletedOnceChecked(pc: Pc, act: Act, tree: bool, a: Act)
    requires EndsAt(pc, act) && TreeFits(pc, tree) && Ending(pc, tree, act).Some? && !Release(a)
    requires pc.Verifying? && act.VerifyDone?
    ensures Tells(Ending(pc, tree, act).value, a) <==> Before(pc, tree, a) || a == act
  {
  }

  lemma StoryCompleted(pc: Pc, act: Act, tree: bool, a: Act)
    requires EndsAt(pc, act) && TreeFits(pc, tree) && Ending(pc, tree, act).Some? && !Release(a)
    ensures Tells(Ending(pc, tree, act).value, a) <==> Before(pc, tree, a) || a == act
  {
    if pc.Verifying? && act.VerifyDone? {
      StoryCompletedOnceChecked(pc, act, tree, a);
    } else if pc.Verifying? {
      StoryCompletedAtChecks(pc, act, tree, a);
    } else if pc.Closing? && pc.ended == EndedCancelled {
      StoryCompletedAtStoppedClose(pc, act, tree, a);
    } else if pc.Closing? {
      StoryCompletedAtClose(pc, act, tree, a);
    } else if pc.Closed? {
      StoryCompletedOnceClosed(pc, act, tree, a);
    } else if pc.Handshake? {
      StoryCompletedAtHandshake(pc, act, tree, a);
    } else if pc.Prepared? || pc.Cleared? {
      StoryCompletedInSetup(pc, act, tree, a);
    } else if pc.Marked? || pc.SettingUp? {
      StoryCompletedOnceMarked(pc, act, tree, a);
    } else {
      StoryCompletedAtEntry(pc, act, tree, a);
    }
  }

  lemma EndingMove(w: Worker, row: Row, slotFree: bool, phase: Phase, act: Act, tree: bool)
    requires ActEnabled(w, row, slotFree, phase, act) && Underway(w.pc) && Came(w.pc, tree, w.did)
    requires Ending(w.pc, tree, act).Some?
    ensures Lived(w.did + {act}, Ending(w.pc, tree, act).value)
  {
    EndingPlace(w, row, slotFree, phase, act, tree);
    forall a | !Release(a) ensures a in w.did + {act} <==> Tells(Ending(w.pc, tree, act).value, a) {
      StoryCompleted(w.pc, act, tree, a);
    }
  }

  lemma FurtherMove(w: Worker, row: Row, slotFree: bool, phase: Phase, act: Act, tree: bool)
    requires ActEnabled(w, row, slotFree, phase, act) && Underway(w.pc) && Came(w.pc, tree, w.did)
    requires Ending(w.pc, tree, act).None?
    ensures Came(ActPc(w.pc, row, act), if act.SetupDone? then act.tree else tree, w.did + {act})
  {
    if act.SetupDone? {
      forall a ensures a in w.did + {act} <==> Before(ActPc(w.pc, row, act), act.tree, a) {
        SetupFurther(w, row, slotFree, phase, act, tree, a);
      }
      SetupFurther(w, row, slotFree, phase, act, tree, act);
    } else {
      FurtherPlace(w, row, slotFree, phase, act, tree);
      forall a ensures a in w.did + {act} <==> Before(ActPc(w.pc, row, act), tree, a) {
        OneFurther(w.pc, act, ActPc(w.pc, row, act), tree, a);
      }
      OneFurther(w.pc, act, ActPc(w.pc, row, act), tree, act);
    }
  }

  lemma EndsWithStory(did: set<Act>, pc: Pc, story: Story)
    requires Reporting(pc) && Told(story) && Report(story) == pc.result && Lived(did, story)
    ensures HasStory(did, pc.result) && !Underway(pc)
  {
  }

  lemma UnderwayMove(w: Worker, row: Row, slotFree: bool, phase: Phase, act: Act, tree: bool)
    requires ActEnabled(w, row, slotFree, phase, act) && Underway(w.pc) && Came(w.pc, tree, w.did)
    ensures OnPath(ActWorker(w, row, act))
  {
    EndingReports(w, row, slotFree, phase, act, tree);
    if Ending(w.pc, tree, act).Some? {
      EndingMove(w, row, slotFree, phase, act, tree);
      EndsWithStory(w.did + {act}, ActPc(w.pc, row, act), Ending(w.pc, tree, act).value);
    } else {
      FurtherMove(w, row, slotFree, phase, act, tree);
    }
  }

  lemma LivedOn(did: set<Act>, act: Act, story: Story)
    requires Lived(did, story) && Release(act)
    ensures Lived(did + {act}, story)
  {
  }

  lemma LateMove(w: Worker, row: Row, slotFree: bool, phase: Phase, act: Act)
    requires ActEnabled(w, row, slotFree, phase, act) && !Underway(w.pc)
    ensures var next := ActPc(w.pc, row, act);
            !Underway(next) && (Reporting(next) ==> Reporting(w.pc) && Release(act) && next.result == w.pc.result)
  {
  }

  lemma ReportingMove(w: Worker, row: Row, slotFree: bool, phase: Phase, act: Act)
    requires ActEnabled(w, row, slotFree, phase, act) && !Underway(w.pc) && OnPath(w)
    ensures OnPath(ActWorker(w, row, act))
  {
    LateMove(w, row, slotFree, phase, act);
    if Reporting(ActPc(w.pc, row, act)) {
      var story :| Told(story) && Report(story) == w.pc.result && Lived(w.did, story);
      LivedOn(w.did, act, story);
    }
  }

  lemma PathKept(w: Worker, row: Row, slotFree: bool, phase: Phase, act: Act)
    requires ActEnabled(w, row, slotFree, phase, act) && OnPath(w)
    ensures OnPath(ActWorker(w, row, act))
  {
    if !Underway(w.pc) {
      ReportingMove(w, row, slotFree, phase, act);
    } else if Came(w.pc, true, w.did) {
      UnderwayMove(w, row, slotFree, phase, act, true);
    } else {
      UnderwayMove(w, row, slotFree, phase, act, false);
    }
  }

  ghost predicate PathsOk(s: State)
  {
    forall i | 0 <= i < |s.workers| :: OnPath(s.workers[i])
  }

  lemma PathsAfterAct(s: State, i: nat, act: Act)
    requires PathsOk(s) && Enabled(s, WorkerAct(i, act))
    ensures PathsOk(ActStep(s, i, act))
  {
    ActorOnPath(s, i, act);
    ActFrame(s, i, act);
    OnePath(s, ActStep(s, i, act), i);
  }

  lemma ActorOnPath(s: State, i: nat, act: Act)
    requires PathsOk(s) && Enabled(s, WorkerAct(i, act))
    ensures OnPath(ActWorker(s.workers[i], s.rows[s.workers[i].task], act))
  {
    PathKept(s.workers[i], s.rows[s.workers[i].task], s.slot.None?, s.gate.phase, act);
  }

  lemma OnePath(s: State, t: State, i: nat)
    requires PathsOk(s) && i < |s.workers| && |t.workers| == |s.workers| && OnPath(t.workers[i])
    requires forall j | 0 <= j < |s.workers| && j != i :: t.workers[j] == s.workers[j]
    ensures PathsOk(t)
  {
  }

  lemma SamePath(w: Worker, next: Worker)
    requires OnPath(w) && next.did == w.did && (next.pc == w.pc || next.pc.Lost?)
    ensures OnPath(next)
  {
  }

  lemma OtherWorkers(s: State, step: Step, i: nat)
    requires Enabled(s, step) && !step.WorkerAct? && |s.workers| <= i < |Apply(s, step).workers|
    ensures Apply(s, step).workers[i].pc.Waiting? && Apply(s, step).workers[i].did == {}
  {
  }

  lemma PathAfterOther(s: State, step: Step, i: nat)
    requires PathsOk(s) && Enabled(s, step) && !step.WorkerAct? && i < |Apply(s, step).workers|
    ensures OnPath(Apply(s, step).workers[i])
  {
    if i < |s.workers| {
      OthersKeepWorker(s, step, i);
      SamePath(s.workers[i], Apply(s, step).workers[i]);
    } else {
      OtherWorkers(s, step, i);
    }
  }

  lemma PathsAfterOthers(s: State, step: Step)
    requires PathsOk(s) && Enabled(s, step) && !step.WorkerAct?
    ensures PathsOk(Apply(s, step))
  {
    var t := Apply(s, step);
    forall i: nat | i < |t.workers| ensures OnPath(t.workers[i]) {
      PathAfterOther(s, step, i);
    }
  }

  lemma {:induction false} PathsAlways(s: State, steps: seq<Step>, later: State)
    requires PathsOk(s) && Execution(s, steps, later)
    ensures PathsOk(later)
    decreases |steps|
  {
    if steps != [] {
      if steps[0].WorkerAct? {
        PathsAfterAct(s, steps[0].worker, steps[0].act);
      } else {
        PathsAfterOthers(s, steps[0]);
      }
      PathsAlways(Apply(s, steps[0]), steps[1..], later);
    }
  }

  /** In every reachable state each worker has done exactly what its place says, in full. */
  lemma EveryWorkerOnPath(s: State, i: nat)
    requires Reachable(s) && i < |s.workers|
    ensures OnPath(s.workers[i])
  {
    var steps :| Execution(Init(), steps, s);
    PathsAlways(Init(), steps, s);
  }

  /** Every report of every reachable state has a story, and is what the story says. */
  lemma EveryReportHasAStory(s: State, i: nat) returns (story: Story)
    requires Reachable(s) && i < |s.workers|
    requires var pc := s.workers[i].pc; pc.RunOver? || pc.Unwinding? || pc.Finishing?
    ensures Told(story) && Lived(s.workers[i].did, story) && Report(story) == s.workers[i].pc.result
  {
    EveryWorkerOnPath(s, i);
    story :| Told(story) && Lived(s.workers[i].did, story) && Report(story) == s.workers[i].pc.result;
  }

  // ----- what is stored -----------------------------------------------------------------------------------

  /** The run ended in an error, or its cleanup was not confirmed. */
  predicate WentWrong(story: Story)
  {
    || story.GateUnavailable? || story.NotMarked? || story.NotSetUp? || story.NotSpawned? || story.NoHandshake?
    || story.NoRunner? || (story.StoppedPrompt? && !story.closed) || (story.Unfinished? && !story.closed)
  }

  predicate WasStopped(story: Story)
  {
    || story.StoppedInQueue? || story.ShutOut? || story.StoppedBeforeMark? || story.StoppedFirst?
    || story.StoppedSecond? || story.StoppedAtHandshake? || (story.StoppedPrompt? && story.closed)
    || story.StoppedCheck?
  }

  lemma FinishByStory(row: Row, story: Story)
    requires Active(row) && Told(story)
    ensures var stored := Finish(row, CompletionOf(Report(story)));
            && (stored.status == Completed <==> story.Checked? && !row.cancelRequested)
            && (stored.status == Cancelled <==> !WentWrong(story) && (row.cancelRequested || WasStopped(story)))
            && !Active(stored) && stored.status != Interrupted
            && (stored.outcome == Some(OutCompleted) <==> story.Checked? && !row.cancelRequested)
  {
  }

  /**
   What a finished worker stores, exactly. Its final write on a row that nothing else ended stores `completed` if and
   only if the worker did the whole of a checked run and no stop is recorded, `cancelled` if and only if nothing went
   wrong and it was stopped or a stop is recorded, and `failed` otherwise.
   */
  lemma StoredExactly(s: State, i: nat) returns (story: Story)
    requires Reachable(s) && Enabled(s, WorkerAct(i, FinishWrite(true))) && Active(s.rows[s.workers[i].task])
    ensures Told(story) && Lived(s.workers[i].did, story) && Report(story) == s.workers[i].pc.result
    ensures var row := s.rows[s.workers[i].task];
            var stored := Apply(s, WorkerAct(i, FinishWrite(true))).rows[s.workers[i].task];
            && (stored.status == Completed <==> story.Checked? && !row.cancelRequested)
            && (stored.status == Cancelled <==> !WentWrong(story) && (row.cancelRequested || WasStopped(story)))
            && stored.status in {Completed, Cancelled, Failed}
  {
    story := EveryReportHasAStory(s, i);
    var row := s.rows[s.workers[i].task];
    FinishByStory(row, story);
    ActFrame(s, i, FinishWrite(true));
  }

  /** The fallback for a result that could not be saved stores `failed`, never a success or a stop. */
  lemma FallbackStoresFailed(s: State, i: nat)
    requires Enabled(s, WorkerAct(i, FallbackWrite(true))) && Active(s.rows[s.workers[i].task])
    ensures Apply(s, WorkerAct(i, FallbackWrite(true))).rows[s.workers[i].task].status == Failed
  {
    ActFrame(s, i, FallbackWrite(true));
  }

  // ----- a completed task exists --------------------------------------------------------------------------

  /** `count` checks, all of which pass. */
  function AllPass(count: nat): (events: seq<CheckEvent>)
    ensures |events| == count && Parsed(events) && PassingPrefix(events) == count
  {
    if count == 0 then [] else
    var rest := AllPass(count - 1);
    assert ([PASSED_EVENT] + rest)[1..] == rest;
    [PASSED_EVENT] + rest
  }

  /** A worker with its agent can come to the end of a finished turn. */
  lemma EndsTurn(s: State, t: State, i: nat, tree: bool) returns (next: State)
    requires At(s, t, i, Handshake(tree))
    ensures Leads(s, next) && OnlyWorker(s, i, next) && AtEndOfTurn(next, i)
    ensures next.rows[s.workers[i].task] == t.rows[s.workers[i].task]
  {
    next := Move(s, t, i, HandshakeDone);
    next := Move(s, next, i, PromptEnds(Finished(EndTurn)));
  }

  predicate RunsUnstopped(s: State, i: nat)
  {
    && i < |s.workers| && s.workers[i].task in s.rows
    && s.rows[s.workers[i].task].status == Running && !s.rows[s.workers[i].task].cancelRequested
  }

  lemma FinishedTurn(tree: bool) returns (s: State)
    ensures Reachable(s) && AtEndOfTurn(s, 0) && |s.workers| == 1 && s.workers[0].task == 0 && RunsUnstopped(s, 0)
  {
    var queued := OneQueued();
    var spawned := Spawns(queued, 0, tree);
    s := EndsTurn(queued, spawned, 0, tree);
    LeadsReachable(queued, s);
  }

  lemma DropsAdmission(s: State, i: nat) returns (t: State)
    requires Reachable(s) && i < |s.workers| && s.workers[i].task in s.rows && s.workers[i].pc.RunOver?
    ensures Reachable(t) && |t.workers| == |s.workers| && t.workers[i].task == s.workers[i].task && t.rows == s.rows
    ensures t.workers[i].pc == Unwinding(s.workers[i].pc.result)
  {
    t := Apply(s, WorkerAct(i, DropAdmission));
    ReachableNext(s, WorkerAct(i, DropAdmission));
  }

  lemma DropsSlot(s: State, i: nat) returns (t: State)
    requires Reachable(s) && i < |s.workers| && s.workers[i].task in s.rows && s.workers[i].pc.Unwinding?
    ensures Reachable(t) && |t.workers| == |s.workers| && t.workers[i].task == s.workers[i].task && t.rows == s.rows
    ensures t.workers[i].pc == Finishing(s.workers[i].pc.result)
  {
    t := Apply(s, WorkerAct(i, DropSlot));
    ReachableNext(s, WorkerAct(i, DropSlot));
  }

  lemma Stores(s: State, i: nat) returns (t: State)
    requires Reachable(s) && i < |s.workers| && s.workers[i].task in s.rows && s.workers[i].pc.Finishing?
    ensures Reachable(t) && t.rows == s.rows[s.workers[i].task :=
              Finish(s.rows[s.workers[i].task], CompletionOf(s.workers[i].pc.result))]
  {
    t := Apply(s, WorkerAct(i, FinishWrite(true)));
    ReachableNext(s, WorkerAct(i, FinishWrite(true)));
  }

  lemma ReleasesAndStores(s: State, i: nat) returns (t: State)
    requires Reachable(s) && i < |s.workers| && s.workers[i].task in s.rows && s.workers[i].pc.RunOver?
    ensures Reachable(t) && t.rows == s.rows[s.workers[i].task :=
              Finish(s.rows[s.workers[i].task], CompletionOf(s.workers[i].pc.result))]
  {
    t := DropsAdmission(s, i);
    t := DropsSlot(t, i);
    t := Stores(t, i);
  }

  lemma SameTaskLater(s: State, t: State, i: nat)
    requires Leads(s, t) && i < |s.workers|
    ensures i < |t.workers| && t.workers[i].task == s.workers[i].task
  {
    var steps :| Execution(s, steps, t) && CleanSteps(steps);
    WorkersStay(s, steps, t, i);
  }

  /** With and without a worktree, and for any number of checks, some run stores `completed`. */
  lemma CompletedIsStored(tree: bool, count: nat) returns (s: State)
    ensures Reachable(s) && 0 in s.rows && s.rows[0].status == Completed
  {
    var turn := FinishedTurn(tree);
    var over := FinishedTurnIsVerified(turn, 0, AllPass(count));
    LeadsReachable(turn, over);
    SameTaskLater(turn, over, 0);
    s := ReleasesAndStores(over, 0);
    StoredStatus(over.rows[0], over.workers[0].pc.result);
  }
}
