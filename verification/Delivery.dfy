/**
 How one coding-agent run becomes a delivery: the agent's ending, the cleanup of its process tree and the
 independent verification commands decide `outcome` and `delivery_status`, and the outcome decides the status
 that the background manager asks the task table to store.
 */
module Delivery {
  import opened Options

  /** Why an agent said its turn ended. */
  datatype StopReason =
    | EndTurn | MaxTokens | MaxTurnRequests | Refusal | ReasonCancelled | OtherReason(text: string)

  /** How a prompt ended, as the agent connection reports it. */
  datatype Ended =
    | Finished(reason: StopReason)
    | EndedCancelled
    | EndedTimedOut
    | AgentExited(code: Option<int>)
    | EndedFailed(message: string)

  /** The `outcome` words this code can put in an answer. */
  datatype Outcome =
    | OutCompleted | OutStopped | OutCancelled | OutTimedOut | OutAgentExited | OutFailed
    | OutCleanupFailed | OutVerificationFailed

  datatype VerificationStatus = NotRun | ChecksPass | ChecksFail | ChecksCancelled

  datatype DeliveryStatus = Unverified | DeliveredChecksPassed | DeliveredVerificationFailed

  /** What a verification command left behind. `Undecodable` covers a runner error and output that is no JSON. */
  datatype CheckBody =
    | Undecodable
    | Decoded(exitCode: Option<int>, ranToCompletion: bool, reportedFailures: nat, captureComplete: bool)

  predicate Succeeded(body: CheckBody)
  {
    && body.Decoded?
    && body.exitCode == Some(0)
    && body.ranToCompletion
    && body.reportedFailures == 0
    && body.captureComplete
  }

  /** What the world does when the loop reaches one check: the stop permit wins over a finished command. */
  datatype CheckEvent = Unparsable | StopNotified | Ran(body: CheckBody)

  datatype CheckRecord = CheckRecord(command: string, passed: bool, body: CheckBody)

  datatype Verification = Verification(status: VerificationStatus, checks: seq<CheckRecord>, issues: seq<string>)

  datatype VerifyReply = VerifyRefused | Verified(verification: Verification)

  const CHECK_LIMIT := 16

  /** What parsing lets through: few checks, and none when commands are not allowed. */
  predicate Accepted(asked: seq<string>, allowCommands: bool)
  {
    |asked| <= CHECK_LIMIT && (asked != [] ==> allowCommands)
  }

  /** The checks of a submitted request; a missing list is an empty one. */
  function ParseChecks(given: Option<seq<string>>, parses: string -> bool, allowCommands: bool)
    : (r: Option<seq<string>>)
    ensures given.None? ==> r == Some([])
    ensures r.Some? ==> Accepted(r.value, allowCommands)
    ensures given.Some? && r.Some? ==> r == given && |given.value| <= 16 && (given.value != [] ==> allowCommands)
    ensures given.Some? && r.Some? ==> forall c | c in given.value :: parses(c)
    ensures given.Some? && r.None? ==>
              || |given.value| > 16 || (given.value != [] && !allowCommands)
              || exists c | c in given.value :: !parses(c)
  {
    if given.None? then Some([])
    else if |given.value| > CHECK_LIMIT || (exists c | c in given.value :: !parses(c)) then None
    else if !allowCommands && given.value != [] then None
    else Some(given.value)
  }

  /** The project's own checks: those of the three known scripts that it has. */
  function ProjectChecks(scripts: set<string>): (r: seq<string>)
    ensures |r| <= 3 && forall c :: c in r <==> c in scripts && c in {"build", "lint", "typecheck"}
    ensures forall i, j | 0 <= i < j < |r| :: r[i] != r[j]
  {
    (if "build" in scripts then ["build"] else []) + (if "lint" in scripts then ["lint"] else [])
    + if "typecheck" in scripts then ["typecheck"] else []
  }

  /** The commands that are run: the owner's, or the project's own when none were named and commands are allowed. */
  function SelectedChecks(asked: seq<string>, allowCommands: bool, scripts: set<string>): (r: seq<string>)
    ensures Accepted(asked, allowCommands) ==> |r| <= CHECK_LIMIT
    ensures asked != [] ==> r == asked
    ensures asked == [] ==> forall c :: c in r <==> allowCommands && c in scripts && c in {"build", "lint", "typecheck"}
    ensures asked == [] ==> forall i, j | 0 <= i < j < |r| :: r[i] != r[j]
    ensures !allowCommands && Accepted(asked, allowCommands) ==> r == []
  {
    if asked == [] && allowCommands then ProjectChecks(scripts) else asked
  }

  predicate PassingEvent(event: CheckEvent)
  {
    event.Ran? && Succeeded(event.body)
  }

  /** How many events at the front are successful runs. */
  function PassingPrefix(events: seq<CheckEvent>): (n: nat)
    ensures n <= |events|
    ensures forall j | 0 <= j < n :: PassingEvent(events[j])
    ensures n < |events| ==> !PassingEvent(events[n])
  {
    if events == [] || !PassingEvent(events[0]) then 0 else
    var n := PassingPrefix(events[1..]);
    assert forall j | 1 <= j < n + 1 :: events[j] == events[1..][j - 1];
    n + 1
  }

  /** How the checks end, by the first event that is not a successful run. */
  function CheckedStatus(events: seq<CheckEvent>): (status: VerificationStatus)
  {
    var k := PassingPrefix(events);
    if k < |events| then if events[k].StopNotified? then ChecksCancelled else ChecksFail
    else if events == [] then NotRun
    else ChecksPass
  }

  /** `records` reports the first checks of `selected`, each with its own verdict and body. */
  ghost predicate Reports(records: seq<CheckRecord>, selected: seq<string>, events: seq<CheckEvent>)
  {
    && |records| <= |selected| && |records| <= |events|
    && forall j | 0 <= j < |records| ::
         && records[j].command == selected[j]
         && events[j].Ran?
         && records[j].body == events[j].body
         && (records[j].passed <==> Succeeded(events[j].body))
  }

  /** The independent check loop. It stops at the first check that does not pass. */
  method Verify(runnerAvailable: bool, missing: seq<string>, selected: seq<string>, events: seq<CheckEvent>)
    returns (reply: VerifyReply)
    requires |events| == |selected|
    ensures reply.VerifyRefused? <==>
            !runnerAvailable
            || (missing == [] && PassingPrefix(events) < |events| && events[PassingPrefix(events)].Unparsable?)
    ensures reply.Verified? ==> Reports(reply.verification.checks, selected, events)
    ensures reply.Verified? ==> forall j | 0 <= j < |reply.verification.checks| ::
              var body := events[j].body;
              reply.verification.checks[j].passed <==>
                && body.Decoded? && body.exitCode == Some(0) && body.ranToCompletion
                && body.reportedFailures == 0 && body.captureComplete
    ensures reply.Verified? ==>
              forall j | 0 <= j < |reply.verification.checks| - 1 :: reply.verification.checks[j].passed
    ensures reply.Verified? && missing != [] ==> reply.verification == Verification(ChecksFail, [], missing)
    ensures reply.Verified? && missing == [] ==>
              var k := PassingPrefix(events);
              && reply.verification.issues == [] && reply.verification.status == CheckedStatus(events)
              && |reply.verification.checks| == if k < |events| && events[k].Ran? then k + 1 else k
  {
    if !runnerAvailable {
      return VerifyRefused;
    }
    if missing != [] {
      return Verified(Verification(ChecksFail, [], missing));
    }
    var checks: seq<CheckRecord> := [];
    var k := 0;
    while k < |selected|
      invariant 0 <= k <= |selected|
      invariant |checks| == k && Reports(checks, selected, events)
      invariant forall j | 0 <= j < k :: PassingEvent(events[j])
      invariant k <= PassingPrefix(events)
    {
      if events[k].Unparsable? {
        return VerifyRefused;
      }
      if events[k].StopNotified? {
        return Verified(Verification(ChecksCancelled, checks, []));
      }
      var success := Succeeded(events[k].body);
      checks := checks + [CheckRecord(selected[k], success, events[k].body)];
      if !success {
        return Verified(Verification(ChecksFail, checks, []));
      }
      k := k + 1;
    }
    return Verified(Verification(if checks == [] then NotRun else ChecksPass, checks, []));
  }

  function EndedWords(ended: Ended): (o: Outcome)
  {
    match ended
    case Finished(EndTurn) => OutCompleted
    case Finished(_) => OutStopped
    case EndedCancelled => OutCancelled
    case EndedTimedOut => OutTimedOut
    case AgentExited(_) => OutAgentExited
    case EndedFailed(_) => OutFailed
  }

  /** The part of an answer that carries a verdict. Answers of a run stopped in setup have no delivery part. */
  datatype Answer = Answer(
    outcome: Outcome, delivery: Option<DeliveryStatus>, verification: Option<VerificationStatus>, note: Option<Note>)

  /** What the answer of a run that was stopped before its prompt tells the reader in `next`. */
  datatype Note =
    | NoAgentStarted                         // stopped in the queue, by the gate, or before the running mark
    | NothingStarted                         // no coding agent or worktree was started
    | StoppedBeforePrompt                    // stopped before the prompt; the worktree is kept

  /** What the recorded task returned: an adapter error, or an answer. */
  datatype RunResult = Refused | Answered(answer: Answer)

  function CancelledWith(note: Note): (r: RunResult)
  {
    Answered(Answer(OutCancelled, None, None, Some(note)))
  }

  /** The note depends only on whether a worktree was made. */
  function SetupNote(tree: bool): (note: Note)
  {
    if tree then StoppedBeforePrompt else NothingStarted
  }

  /** The verdict of a prompted run, given how the turn ended, whether cleanup was confirmed, and the check status. */
  function PromptedResult(ended: Ended, cleanedUp: bool, checked: VerificationStatus): (r: RunResult)
  {
    var status := if cleanedUp && ended == Finished(EndTurn) then checked else NotRun;
    var outcome :=
      if !cleanedUp then OutCleanupFailed
      else if status == ChecksFail then OutVerificationFailed
      else if status == ChecksCancelled then OutCancelled
      else EndedWords(ended);
    var delivery :=
      match status
      case ChecksPass => DeliveredChecksPassed
      case ChecksFail => DeliveredVerificationFailed
      case _ => Unverified;
    Answered(Answer(outcome, Some(delivery), Some(status), None))
  }

  /** Rewrites the outcome and adds the delivery status from the verification, in place. */
  method ClassifyDelivery(before: Answer) returns (answer: Answer)
    ensures answer.verification == before.verification && answer.note == before.note
    ensures answer.outcome ==
            if before.verification == Some(ChecksFail) then OutVerificationFailed
            else if before.verification == Some(ChecksCancelled) then OutCancelled
            else before.outcome
    ensures answer.delivery == Some(DeliveredChecksPassed) <==> before.verification == Some(ChecksPass)
    ensures answer.delivery == Some(DeliveredVerificationFailed) <==> before.verification == Some(ChecksFail)
    ensures answer.delivery == Some(Unverified) <==>
            before.verification !in {Some(ChecksPass), Some(ChecksFail)}
  {
    answer := before;
    if answer.verification == Some(ChecksFail) {
      answer := answer.(outcome := OutVerificationFailed);
    } else if answer.verification == Some(ChecksCancelled) {
      answer := answer.(outcome := OutCancelled);
    }
    answer := answer.(delivery := Some(
                        if answer.verification == Some(ChecksPass) then DeliveredChecksPassed
                        else if answer.verification == Some(ChecksFail) then DeliveredVerificationFailed
                        else Unverified));
  }

  /** Some event is not a successful run, so the checks end there. */
  predicate StopsAtEvent(events: seq<CheckEvent>)
  {
    PassingPrefix(events) < |events|
  }

  /** Every command that was asked for was run, in order, and passed. */
  predicate RanAll(asked: seq<string>, checks: seq<CheckRecord>)
  {
    |checks| == |asked| && forall j | 0 <= j < |asked| :: checks[j].command == asked[j] && checks[j].passed
  }

  /** Each of the three known scripts that the project has was run once and passed, and nothing else was run. */
  predicate RanProject(scripts: set<string>, checks: seq<CheckRecord>)
  {
    && (forall c | c in scripts && c in {"build", "lint", "typecheck"} ::
          exists j :: 0 <= j < |checks| && checks[j].command == c)
    && (forall j | 0 <= j < |checks| ::
          checks[j].passed && checks[j].command in scripts && checks[j].command in {"build", "lint", "typecheck"})
    && (forall j, k | 0 <= j < k < |checks| :: checks[j].command != checks[k].command)
  }

  /** A record carries the body of its own run, and says `passed` exactly for a clean, complete, successful one. */
  predicate Truthful(checks: seq<CheckRecord>, events: seq<CheckEvent>)
  {
    && |checks| <= |events|
    && forall j | 0 <= j < |checks| ::
         var body := checks[j].body;
         && events[j] == Ran(body)
         && (checks[j].passed <==>
             && body.Decoded? && body.exitCode == Some(0) && body.ranToCompletion
             && body.reportedFailures == 0 && body.captureComplete)
  }

  lemma RecordsTruthful(checks: seq<CheckRecord>, selected: seq<string>, events: seq<CheckEvent>)
    requires Reports(checks, selected, events)
    ensures Truthful(checks, events)
  {
  }

  lemma AskedCovered(asked: seq<string>, events: seq<CheckEvent>, checks: seq<CheckRecord>)
    requires Reports(checks, asked, events) && |checks| == |asked| == |events| == PassingPrefix(events)
    ensures RanAll(asked, checks)
  {
    assert forall j | 0 <= j < |events| :: PassingEvent(events[j]);
  }

  lemma ProjectCovered(selected: seq<string>, scripts: set<string>, events: seq<CheckEvent>, checks: seq<CheckRecord>)
    requires RanAll(selected, checks)
    requires forall c :: c in selected <==> c in scripts && c in {"build", "lint", "typecheck"}
    requires forall i, j | 0 <= i < j < |selected| :: selected[i] != selected[j]
    ensures RanProject(scripts, checks)
  {
    forall c | c in scripts && c in {"build", "lint", "typecheck"}
      ensures exists j :: 0 <= j < |checks| && checks[j].command == c
    {
      var j :| 0 <= j < |selected| && selected[j] == c;
      assert checks[j].command == c;
    }
    assert forall j | 0 <= j < |checks| :: checks[j].command == selected[j] && selected[j] in selected;
  }

  lemma RecordsCover(asked: seq<string>, allowCommands: bool, scripts: set<string>, events: seq<CheckEvent>,
                     checks: seq<CheckRecord>)
    requires Reports(checks, SelectedChecks(asked, allowCommands, scripts), events)
    ensures Truthful(checks, events)
    ensures |checks| == |events| == PassingPrefix(events) == |SelectedChecks(asked, allowCommands, scripts)| ==>
              && (asked != [] ==> RanAll(asked, checks))
              && (asked == [] && allowCommands ==> RanProject(scripts, checks))
  {
    var selected := SelectedChecks(asked, allowCommands, scripts);
    RecordsTruthful(checks, selected, events);
    if |checks| == |events| == |selected| && PassingPrefix(events) == |events| {
      AskedCovered(selected, events, checks);
      if asked == [] && allowCommands {
        ProjectCovered(selected, scripts, events, checks);
      }
    }
  }

  predicate WasChecked(result: RunResult)
  {
    result.Answered? && result.answer.delivery == Some(DeliveredChecksPassed)
  }

  /**
   The end of a prompted run: close, verify only a cleanly closed finished turn, classify. The postconditions are
   the honesty of the report, both ways, over every ending, cleanup and sequence of check events.
   */
  method FinishRun(ended: Ended, cleanedUp: bool, runnerAvailable: bool, missing: seq<string>,
                   asked: seq<string>, allowCommands: bool, scripts: set<string>, events: seq<CheckEvent>)
    returns (result: RunResult, checks: seq<CheckRecord>)
    requires |events| == |SelectedChecks(asked, allowCommands, scripts)|
    ensures Reports(checks, SelectedChecks(asked, allowCommands, scripts), events)
    ensures result.Answered? && result.answer.outcome == OutCompleted <==>
            && ended == Finished(EndTurn) && cleanedUp && runnerAvailable && missing == []
            && PassingPrefix(events) == |events|
    ensures result.Answered? && result.answer.delivery == Some(DeliveredChecksPassed) <==>
            && ended == Finished(EndTurn) && cleanedUp && runnerAvailable && missing == []
            && (asked != [] || (allowCommands && ProjectChecks(scripts) != []))
            && forall j | 0 <= j < |events| :: PassingEvent(events[j])
    ensures result.Answered? && result.answer.delivery == Some(DeliveredVerificationFailed) <==>
            && ended == Finished(EndTurn) && cleanedUp && runnerAvailable
            && (missing != [] || (PassingPrefix(events) < |events| && events[PassingPrefix(events)].Ran?))
    ensures result.Refused? <==>
            && ended == Finished(EndTurn) && cleanedUp
            && (!runnerAvailable
                || (missing == [] && StopsAtEvent(events) && events[PassingPrefix(events)].Unparsable?))
    ensures result.Answered? ==>
              var outcome := result.answer.outcome;
              && (outcome == OutCleanupFailed <==> !cleanedUp)
              && (outcome == OutVerificationFailed <==> result.answer.delivery == Some(DeliveredVerificationFailed))
              && (outcome == OutCancelled <==>
                  && cleanedUp
                  && (ended == EndedCancelled
                      || (ended == Finished(EndTurn) && missing == [] && StopsAtEvent(events)
                          && events[PassingPrefix(events)].StopNotified?)))
              && (outcome == OutStopped <==> cleanedUp && ended.Finished? && ended.reason != EndTurn)
              && (outcome == OutTimedOut <==> cleanedUp && ended.EndedTimedOut?)
              && (outcome == OutAgentExited <==> cleanedUp && ended.AgentExited?)
              && (outcome == OutFailed <==> cleanedUp && ended.EndedFailed?)
    ensures WasChecked(result) && asked != [] ==> RanAll(asked, checks)
    ensures WasChecked(result) && asked == [] ==> allowCommands && RanProject(scripts, checks)
    ensures Truthful(checks, events)
    ensures result.Answered? ==> exists checked :: result == PromptedResult(ended, cleanedUp, checked)
  {
    checks := [];
    var answer := Answer(EndedWords(ended), None, Some(NotRun), None);
    ghost var checked := NotRun;
    if !cleanedUp {
      answer := answer.(outcome := OutCleanupFailed);
    } else if ended == Finished(EndTurn) {
      var reply := Verify(runnerAvailable, missing, SelectedChecks(asked, allowCommands, scripts), events);
      if reply.VerifyRefused? {
        return Refused, [];
      }
      answer := answer.(verification := Some(reply.verification.status));
      checks := reply.verification.checks;
      RecordsCover(asked, allowCommands, scripts, events, checks);
      checked := reply.verification.status;
    }
    answer := ClassifyDelivery(answer);
    result := Answered(answer);
    assert result == PromptedResult(ended, cleanedUp, checked);
  }

  /** The status a finished run asks the task table for. */
  datatype FinalStatus = FinCompleted | FinCancelled | FinFailed

  datatype Completion = Completion(status: FinalStatus, outcome: Option<Outcome>, hasError: bool)

  function CompletionOf(result: RunResult): (c: Completion)
  {
    match result
    case Refused => Completion(FinFailed, None, true)
    case Answered(answer) =>
      Completion(
        match answer.outcome
        case OutCompleted => FinCompleted
        case OutCancelled => FinCancelled
        case _ => FinFailed,
        Some(answer.outcome), false)
  }
}
