/**
 The verification moves of a worker and the verification loop are the same thing: what a worker can report after its
 checks, over every interleaving with the rest of the system, is what the loop computes from some sequence of events.
 */
module ProtocolChecks {
  import opened Options
  import opened Delivery
  import opened TaskTable
  import opened Protocol
  import opened ProtocolInvariant
  import opened ProtocolTheorems
  import opened ProtocolStops
  import opened ProtocolRuns

  /** Every check was parsed when it was submitted, so none fails to parse now. */
  predicate Parsed(events: seq<CheckEvent>)
  {
    forall i | 0 <= i < |events| :: !events[i].Unparsable?
  }

  /** The result of the loop on these events, when `passed` checks came before them. */
  function ResultFrom(passed: nat, events: seq<CheckEvent>): (r: RunResult)
  {
    PromptedResult(
      Finished(EndTurn), true, if events == [] && passed > 0 then ChecksPass else CheckedStatus(events))
  }

  lemma PassingFirst(passed: nat, event: CheckEvent, rest: seq<CheckEvent>)
    requires PassingEvent(event)
    ensures ResultFrom(passed, [event] + rest) == ResultFrom(passed + 1, rest)
  {
    var events := [event] + rest;
    assert events[1..] == rest;
    assert PassingPrefix(events) == PassingPrefix(rest) + 1;
    assert PassingPrefix(rest) < |rest| ==> events[PassingPrefix(events)] == rest[PassingPrefix(rest)];
  }

  lemma NotPassingFirst(passed: nat, event: CheckEvent, rest: seq<CheckEvent>)
    requires !PassingEvent(event)
    ensures ResultFrom(passed, [event] + rest)
            == PromptedResult(Finished(EndTurn), true, if event.StopNotified? then ChecksCancelled else ChecksFail)
  {
    assert PassingPrefix([event] + rest) == 0;
  }

  predicate AtChecks(s: State, i: nat, todo: nat, passed: nat)
  {
    && i < |s.workers| && s.workers[i].task in s.rows && !s.workers[i].permit
    && s.workers[i].pc == Verifying(todo, passed)
  }

  // ----- every sequence of events is a run ----------------------------------------------------------------

  lemma OneCheckPasses(s: State, i: nat, todo: nat, passed: nat) returns (t: State)
    requires AtChecks(s, i, todo, passed) && todo > 0
    ensures Leads(s, t) && AtChecks(t, i, todo - 1, passed + 1) && t.rows == s.rows
  {
    LeadsNow(s);
    t := Then(s, s, WorkerAct(i, CheckPasses(passed)));
  }

  /** A check that does not pass ends the run: by a stop that a poll delivered, or by failing. */
  lemma ChecksEnd(s: State, i: nat, todo: nat, passed: nat, event: CheckEvent) returns (t: State)
    requires AtChecks(s, i, todo, passed) && todo > 0 && !PassingEvent(event)
    ensures Leads(s, t) && i < |t.workers| && t.rows == s.rows
    ensures t.workers[i].pc == RunOver(ResultFrom(passed, [event]))
  {
    NotPassingFirst(passed, event, []);
    assert [event] + [] == [event];
    LeadsNow(s);
    if event.StopNotified? {
      t := Then(s, s, Tick(i, false));
      t := Then(s, t, WorkerAct(i, VerifyStop));
    } else {
      t := Then(s, s, WorkerAct(i, CheckFails));
    }
  }

  lemma {:induction false} ChecksExecute(s: State, i: nat, passed: nat, events: seq<CheckEvent>) returns (t: State)
    requires AtChecks(s, i, |events|, passed) && Parsed(events)
    ensures Leads(s, t) && i < |t.workers| && t.workers[i].pc == RunOver(ResultFrom(passed, events))
    ensures t.rows == s.rows
    decreases |events|
  {
    if events == [] {
      LeadsNow(s);
      t := Then(s, s, WorkerAct(i, VerifyDone));
    } else {
      var rest := events[1..];
      assert events == [events[0]] + rest;
      if PassingEvent(events[0]) {
        var next := OneCheckPasses(s, i, |events|, passed);
        t := ChecksExecute(next, i, passed + 1, rest);
        LeadsJoined(s, next, t);
        PassingFirst(passed, events[0], rest);
      } else {
        t := ChecksEnd(s, i, |events|, passed, events[0]);
        NotPassingFirst(passed, events[0], rest);
        NotPassingFirst(passed, events[0], []);
        assert [events[0]] + [] == [events[0]];
      }
    }
  }

  // ----- every run is a sequence of events ----------------------------------------------------------------

  predicate PastRun(pc: Pc)
  {
    pc.Unwinding? || pc.Finishing? || pc.Deregistering? || pc.FallingBack? || pc.Done? || pc.Lost?
  }

  lemma OverMove(w: Worker, row: Row, slotFree: bool, phase: Phase, act: Act)
    requires ActEnabled(w, row, slotFree, phase, act) && (w.pc.RunOver? || PastRun(w.pc))
    ensures PastRun(ActPc(w.pc, row, act))
  {
  }

  /** A result, once reported, is not replaced by another. */
  lemma {:induction false} ResultStays(s: State, i: nat, steps: seq<Step>, later: State)
    requires i < |s.workers| && (s.workers[i].pc.RunOver? || PastRun(s.workers[i].pc)) && Execution(s, steps, later)
    ensures i < |later.workers| && (later.workers[i].pc == s.workers[i].pc || PastRun(later.workers[i].pc))
    decreases |steps|
  {
    if steps != [] {
      if Own(steps[0], i) {
        OverMove(s.workers[i], s.rows[s.workers[i].task], s.slot.None?, s.gate.phase, steps[0].act);
      } else {
        OthersKeepWorker(s, steps[0], i);
      }
      ResultStays(Apply(s, steps[0]), i, steps[1..], later);
    }
  }

  function Verified(status: VerificationStatus): (pc: Pc)
  {
    RunOver(PromptedResult(Finished(EndTurn), true, status))
  }

  /** Where a worker at its checks can be after one step of anybody. */
  predicate CheckStep(pc: Pc, next: Pc)
    requires pc.Verifying?
  {
    || next == pc || next.Lost?
    || (pc.todo == 0 && next == RunOver(ResultFrom(pc.passed, [])))
    || (pc.todo > 0 && (next == Verifying(pc.todo - 1, pc.passed + 1) || next == Verified(ChecksCancelled)
                        || next == Verified(ChecksFail)))
  }

  lemma CheckMove(w: Worker, row: Row, slotFree: bool, phase: Phase, act: Act)
    requires ActEnabled(w, row, slotFree, phase, act) && w.pc.Verifying?
    ensures CheckStep(w.pc, ActPc(w.pc, row, act))
  {
  }

  lemma NextAtChecks(s: State, i: nat, step: Step)
    requires i < |s.workers| && s.workers[i].pc.Verifying? && Enabled(s, step)
    ensures i < |Apply(s, step).workers| && CheckStep(s.workers[i].pc, Apply(s, step).workers[i].pc)
  {
    if Own(step, i) {
      CheckMove(s.workers[i], s.rows[s.workers[i].task], s.slot.None?, s.gate.phase, step.act);
    } else {
      OthersKeepWorker(s, step, i);
    }
  }

  function Repeated(event: CheckEvent, n: nat): (r: seq<CheckEvent>)
    ensures |r| == n && forall i | 0 <= i < n :: r[i] == event
  {
    seq(n, _ => event)
  }

  const PASSED_EVENT := Ran(Decoded(Some(0), true, 0, true))
  const FAILED_EVENT := Ran(Undecodable)

  /** The events that a run of the worker shows. */
  lemma {:induction false} ChecksTraced(s: State, i: nat, steps: seq<Step>, later: State)
    returns (events: seq<CheckEvent>)
    requires i < |s.workers| && s.workers[i].pc.Verifying? && Execution(s, steps, later)
    requires i < |later.workers| && later.workers[i].pc.RunOver?
    ensures |events| == s.workers[i].pc.todo && Parsed(events)
    ensures later.workers[i].pc.result == ResultFrom(s.workers[i].pc.passed, events)
    decreases |steps|
  {
    var pc := s.workers[i].pc;
    var next := Apply(s, steps[0]);
    NextAtChecks(s, i, steps[0]);
    if next.workers[i].pc.Verifying? {
      var rest := ChecksTraced(next, i, steps[1..], later);
      events := if next.workers[i].pc == pc then rest else [PASSED_EVENT] + rest;
      PassingFirst(pc.passed, PASSED_EVENT, rest);
    } else {
      ResultStays(next, i, steps[1..], later);
      events := Ending(pc, next.workers[i].pc);
    }
  }

  /** Events that end the checks as the worker ended them. */
  lemma Ending(pc: Pc, next: Pc) returns (events: seq<CheckEvent>)
    requires pc.Verifying? && CheckStep(pc, next) && next.RunOver?
    ensures |events| == pc.todo && Parsed(events) && next.result == ResultFrom(pc.passed, events)
  {
    if pc.todo == 0 {
      events := [];
    } else {
      var event := if next == Verified(ChecksCancelled) then StopNotified else FAILED_EVENT;
      events := [event] + Repeated(event, pc.todo - 1);
      NotPassingFirst(pc.passed, event, Repeated(event, pc.todo - 1));
    }
  }

  /** Some run, whatever else happens in it, takes the worker to this result. */
  ghost predicate CanReport(s: State, i: nat, result: RunResult)
  {
    exists steps, later ::
      Execution(s, steps, later) && i < |later.workers| && later.workers[i].pc == RunOver(result)
  }

  /** The loop ends with this result on some events for that many checks. */
  ghost predicate LoopReports(count: nat, result: RunResult)
  {
    exists events ::
      |events| == count && Parsed(events) && result == PromptedResult(Finished(EndTurn), true, CheckedStatus(events))
  }

  /**
   From the point where the checks are chosen and no stop waits, a worker can come to report a result if and only if the
   loop reaches it on some events of that many checks.
   */
  lemma MovesRefineVerify(s: State, i: nat, count: nat, result: RunResult)
    requires AtChecks(s, i, count, 0)
    ensures CanReport(s, i, result) <==> LoopReports(count, result)
  {
    if LoopReports(count, result) {
      var events :| && |events| == count && Parsed(events)
                    && result == PromptedResult(Finished(EndTurn), true, CheckedStatus(events));
      var t := ChecksExecute(s, i, 0, events);
      var steps :| Execution(s, steps, t) && CleanSteps(steps);
      assert t.workers[i].pc == RunOver(result);
    }
    if CanReport(s, i, result) {
      var steps, later :| Execution(s, steps, later) && i < |later.workers| && later.workers[i].pc == RunOver(result);
      var events := ChecksTraced(s, i, steps, later);
      assert result == ResultFrom(0, events);
    }
  }

  // ----- from the end of the turn -------------------------------------------------------------------------

  /** Where a worker is between the end of a finished turn and its checks. */
  predicate BeforeChecks(pc: Pc)
  {
    pc == Closing(Finished(EndTurn)) || pc == Closed
  }

  /** What a run can report that never reached its checks: no confirmed exit, no runner, or a missing script. */
  predicate UncheckedReport(result: RunResult)
  {
    || result == PromptedResult(Finished(EndTurn), false, NotRun)
    || result == Refused
    || result == PromptedResult(Finished(EndTurn), true, ChecksFail)
  }

  lemma NextBeforeChecks(s: State, i: nat, step: Step)
    requires i < |s.workers| && BeforeChecks(s.workers[i].pc) && Enabled(s, step)
    ensures i < |Apply(s, step).workers|
    ensures var next := Apply(s, step).workers[i].pc;
            || BeforeChecks(next) || next.Lost? || (next.RunOver? && UncheckedReport(next.result))
            || (next.Verifying? && next.passed == 0)
  {
    if !Own(step, i) {
      OthersKeepWorker(s, step, i);
    }
  }

  lemma {:induction false} FinishedTurnTraced(s: State, i: nat, steps: seq<Step>, later: State)
    requires i < |s.workers| && BeforeChecks(s.workers[i].pc) && Execution(s, steps, later)
    requires i < |later.workers| && later.workers[i].pc.RunOver?
    ensures var result := later.workers[i].pc.result;
            UncheckedReport(result) || exists count :: LoopReports(count, result)
    decreases |steps|
  {
    var next := Apply(s, steps[0]);
    NextBeforeChecks(s, i, steps[0]);
    if BeforeChecks(next.workers[i].pc) {
      FinishedTurnTraced(next, i, steps[1..], later);
    } else if next.workers[i].pc.Verifying? {
      var count := next.workers[i].pc.todo;
      var events := ChecksTraced(next, i, steps[1..], later);
      assert LoopReports(count, later.workers[i].pc.result);
    } else {
      ResultStays(next, i, steps[1..], later);
    }
  }

  predicate AtEndOfTurn(s: State, i: nat)
  {
    && i < |s.workers| && s.workers[i].task in s.rows && !s.workers[i].permit
    && s.workers[i].pc == Closing(Finished(EndTurn))
  }

  predicate AtClosed(s: State, i: nat)
  {
    i < |s.workers| && s.workers[i].task in s.rows && !s.workers[i].permit && s.workers[i].pc == Closed
  }

  lemma ClosesOk(s: State, i: nat) returns (t: State)
    requires AtEndOfTurn(s, i)
    ensures Leads(s, t) && AtClosed(t, i) && t.rows == s.rows 
  {
    LeadsNow(s);
    t := Then(s, s, WorkerAct(i, CloseOk));
  }

  lemma StopsUnchecked(s: State, i: nat, act: Act) returns (t: State)
    requires AtClosed(s, i) && (act.RunnerMissing? || act.ScriptMissing?)
    ensures Leads(s, t) && i < |t.workers|
    ensures t.workers[i].pc ==
            RunOver(if act.RunnerMissing? then Refused else PromptedResult(Finished(EndTurn), true, ChecksFail))
  {
    LeadsNow(s);
    t := Then(s, s, WorkerAct(i, act));
  }

  lemma ClosesBadly(s: State, i: nat) returns (t: State)
    requires AtEndOfTurn(s, i)
    ensures Execution(s, [WorkerAct(i, CloseFails)], t)
    ensures i < |t.workers| && t.workers[i].pc == RunOver(PromptedResult(Finished(EndTurn), false, NotRun))
  {
    t := Apply(s, WorkerAct(i, CloseFails));
    assert [WorkerAct(i, CloseFails)][1..] == [];
  }

  lemma ReachesUnchecked(s: State, i: nat, result: RunResult)
    requires AtEndOfTurn(s, i) && UncheckedReport(result)
    ensures CanReport(s, i, result)
  {
    if result == PromptedResult(Finished(EndTurn), false, NotRun) {
      var t := ClosesBadly(s, i);
    } else {
      var closed := ClosesOk(s, i);
      var t := StopsUnchecked(closed, i, if result == Refused then RunnerMissing else ScriptMissing);
      LeadsJoined(s, closed, t);
      var steps :| Execution(s, steps, t) && CleanSteps(steps);
    }
  }

  lemma ChoosesChecks(s: State, i: nat, count: nat) returns (t: State)
    requires AtClosed(s, i)
    ensures Leads(s, t) && AtChecks(t, i, count, 0) && t.rows == s.rows
  {
    LeadsNow(s);
    t := Then(s, s, WorkerAct(i, ChecksChosen(count)));
  }

  lemma ReachesChecks(s: State, i: nat, count: nat) returns (t: State)
    requires AtEndOfTurn(s, i)
    ensures Leads(s, t) && AtChecks(t, i, count, 0) && t.rows == s.rows
  {
    var closed := ClosesOk(s, i);
    t := ChoosesChecks(closed, i, count);
    LeadsJoined(s, closed, t);
  }

  /** Every sequence of events for any number of checks is one that a finished turn can be followed by. */
  lemma FinishedTurnIsVerified(s: State, i: nat, events: seq<CheckEvent>) returns (t: State)
    requires AtEndOfTurn(s, i) && Parsed(events)
    ensures Leads(s, t) && i < |t.workers| && t.rows == s.rows
    ensures t.workers[i].pc == RunOver(PromptedResult(Finished(EndTurn), true, CheckedStatus(events)))
  {
    var checks := ReachesChecks(s, i, |events|);
    t := ChecksExecute(checks, i, 0, events);
    LeadsJoined(s, checks, t);
  }

  /**
   A finished turn is verified before anything is reported. From its end, the results that a worker can come to report
   are those of the loop on some events, for some number of checks, and the three of a run that never got to its checks.
   */
  lemma FinishedTurnReports(s: State, i: nat, result: RunResult)
    requires AtEndOfTurn(s, i)
    ensures CanReport(s, i, result) <==> UncheckedReport(result) || exists count :: LoopReports(count, result)
  {
    if UncheckedReport(result) {
      ReachesUnchecked(s, i, result);
    }
    if count: nat :| LoopReports(count, result) {
      var events :| && |events| == count && Parsed(events)
                    && result == PromptedResult(Finished(EndTurn), true, CheckedStatus(events));
      var t := FinishedTurnIsVerified(s, i, events);
      assert CanReport(s, i, result);
    }
    if CanReport(s, i, result) {
      var steps, later :| Execution(s, steps, later) && i < |later.workers| && later.workers[i].pc == RunOver(result);
      FinishedTurnTraced(s, i, steps, later);
    }
  }
}
