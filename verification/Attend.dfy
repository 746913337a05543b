/**
 Attending a run at the terminal: list what waits, ask about the first held action of this run, relay the decision,
 and follow the replayed stream to the next stopping point. The daemon's replies and the person's answers are inputs.
 */
module Attend {
  import opened Options
  import opened RunStream
  import opened Text

  /** A listed approval. `held` says whether its arguments can be shown. */
  datatype Approval = Approval(id: string, run: string, pending: bool, held: bool)

  datatype ListReply = Listed(approvals: seq<Approval>) | ListFailed(error: ApiError)

  datatype DecideReply = Recorded | DecideFailed(error: ApiError)

  /** What following the run meets: the record and the stream may each be unavailable. */
  datatype FollowInput = FollowInput(
    readError: Option<ApiError>, openError: Option<ApiError>, frames: seq<Frame>, record: RecordReply)

  datatype Round = Round(list: ListReply, answer: string, reply: DecideReply, follow: FollowInput)

  datatype Decision = Decision(approval: Approval, approve: bool)

  function Lower(c: char): (r: char)
  {
    if 'A' <= c <= 'Z' then (c as int + 32) as char else c
  }

  /** `y` or `yes`, in any capitalisation. */
  predicate Affirms(word: string)
  {
    || (|word| == 1 && Lower(word[0]) == 'y')
    || (|word| == 3 && Lower(word[0]) == 'y' && Lower(word[1]) == 'e' && Lower(word[2]) == 's')
  }

  predicate SaysYes(answer: string)
  {
    Affirms(Trim(answer))
  }

  /** The words that are yes. */
  const YES_WORDS := {"y", "Y", "yes", "yeS", "yEs", "yES", "Yes", "YeS", "YEs", "YES"}

  lemma AffirmingWords(word: string)
    ensures Affirms(word) <==> word in YES_WORDS
  {
    if |word| == 1 {
      assert word == [word[0]];
    } else if |word| == 3 {
      assert word == [word[0], word[1], word[2]];
    }
  }

  /** `answer` is a word that is yes, with nothing but white space around it. */
  ghost predicate OnlyAffirms(answer: string, before: string, word: string, after: string)
  {
    answer == before + word + after && AllWhite(before) && AllWhite(after) && word in YES_WORDS
  }

  /** The default is refusal: an answer is yes if and only if it is `y` or `yes`, in any case, between white space. */
  lemma OnlyYesIsYes(answer: string)
    ensures SaysYes(answer) <==> exists before, word, after :: OnlyAffirms(answer, before, word, after)
  {
    if SaysYes(answer) {
      var before, after := TrimSplits(answer);
      AffirmingWords(Trim(answer));
      assert OnlyAffirms(answer, before, Trim(answer), after);
    }
    forall before, word, after | OnlyAffirms(answer, before, word, after) ensures SaysYes(answer) {
      AffirmingWords(word);
      TrimDrops(before, word, after);
    }
  }

  predicate WaitsFor(approval: Approval, run: string)
  {
    approval.run == run && approval.pending
  }

  /** The first approval of this run still waiting for a person. */
  method FindWaiting(approvals: seq<Approval>, run: string) returns (k: nat)
    ensures k <= |approvals|
    ensures forall j | 0 <= j < k :: approvals[j].run != run || !approvals[j].pending
    ensures k < |approvals| ==> approvals[k].run == run && approvals[k].pending
  {
    k := 0;
    while k < |approvals| && !WaitsFor(approvals[k], run)
      invariant 0 <= k <= |approvals|
      invariant forall j | 0 <= j < k :: !WaitsFor(approvals[j], run)
    {
      k := k + 1;
    }
  }

  method FollowRun(input: FollowInput, decided: string) returns (status: ExitStatus)
    ensures status == AwaitingApproval <==> ParksAgain(input, decided)
    ensures status == Ok <==> Settles(input, decided)
    ensures FollowsWith(input, decided, status)
  {
    if input.readError.Some? {
      return ReportError(input.readError.value);
    }
    if input.openError.Some? {
      return ReportError(input.openError.value);
    }
    var printed, stop;
    status, printed, stop := ConsumeTurn(input.frames, Some(decided), input.record);
    forall k: nat | FirstStop(input.frames, Some(decided), k) ensures k == stop {
      FirstStopUnique(input.frames, Some(decided), k, stop);
    }
  }

  /** An unreadable record or stream is reported; otherwise the status is that of the first stopping frame. */
  ghost predicate FollowsWith(input: FollowInput, decided: string, status: ExitStatus)
  {
    if input.readError.Some? then status == ReportError(input.readError.value)
    else if input.openError.Some? then status == ReportError(input.openError.value)
    else exists stop: nat ::
        FirstStop(input.frames, Some(decided), stop)
        && status == StatusAt(input.frames, Some(decided), input.record, stop)
  }

  /** The replay can be read and its first stopping frame names another approval. */
  ghost predicate ParksAgain(input: FollowInput, decided: string)
  {
    && input.readError.None? && input.openError.None?
    && exists k: nat :: k < |input.frames| && FirstStop(input.frames, Some(decided), k)
                        && NamesAnother(input.frames[k], decided)
  }

  /** The replay can be read and its first stopping frame is the run's completion. */
  ghost predicate Settles(input: FollowInput, decided: string)
  {
    && input.readError.None? && input.openError.None? && input.record.Record?
    && exists k: nat :: k < |input.frames| && FirstStop(input.frames, Some(decided), k)
                        && input.frames[k] == EventFrame(RunCompleted)
  }

  /** A decision that this round justifies: the first waiting approval, approved only if shown and agreed to. */
  ghost predicate Justified(round: Round, run: string, decision: Decision)
  {
    && round.list.Listed?
    && (exists k: nat :: && k < |round.list.approvals| && round.list.approvals[k] == decision.approval
                         && forall j: nat | j < k ::
                              round.list.approvals[j].run != run || !round.list.approvals[j].pending)
    && decision.approval.run == run && decision.approval.pending
    && (decision.approve <==> decision.approval.held && SaysYes(round.answer))
  }

  predicate NothingWaits(round: Round, run: string)
  {
    round.list.Listed? && forall a | a in round.list.approvals :: a.run != run || !a.pending
  }

  /** The decision was recorded and the run asks again. */
  ghost predicate AsksAgain(round: Round, decision: Decision)
  {
    round.reply.Recorded? && ParksAgain(round.follow, decision.approval.id)
  }

  /**
   What attending promises for these rounds. Round `k` justifies decision `k`, every round before the last asked again,
   and `status` is absent when the observed rounds end while the run still asks. `Ok` comes from the run's completion or
   from an empty list.
   */
  ghost predicate Attended(run: string, rounds: seq<Round>, decisions: seq<Decision>, status: Option<ExitStatus>,
                           last: nat)
  {
    && last <= |rounds| && (status.None? <==> last == |rounds|)
    && last <= |decisions| <= |rounds| && |decisions| <= last + 1
    && (forall k | 0 <= k < |decisions| :: Justified(rounds[k], run, decisions[k]))
    && (forall k | 0 <= k < last :: AsksAgain(rounds[k], decisions[k]))
    && (status.Some? ==> (|decisions| == last <==> rounds[last].list.ListFailed? || NothingWaits(rounds[last], run)))
    && (status.Some? && |decisions| == last + 1 ==> !AsksAgain(rounds[last], decisions[last]))
    && (status.Some? && |decisions| == last && rounds[last].list.ListFailed? ==>
          status == Some(ReportError(rounds[last].list.error)))
    && (status.Some? && |decisions| == last + 1 && rounds[last].reply.DecideFailed? ==>
          status == Some(ReportError(rounds[last].reply.error)))
    && (status.Some? && |decisions| == last + 1 && rounds[last].reply.Recorded? ==>
          FollowsWith(rounds[last].follow, decisions[last].approval.id, status.value))
    && (status == Some(Ok) <==>
        && last < |rounds|
        && (|decisions| == last ==> NothingWaits(rounds[last], run))
        && (|decisions| == last + 1 ==>
              rounds[last].reply.Recorded? && Settles(rounds[last].follow, decisions[last].approval.id)))
  }

  /** The attending loop over any sequence of rounds. */
  method AttendRun(run: string, rounds: seq<Round>)
    returns (decisions: seq<Decision>, status: Option<ExitStatus>, last: nat)
    ensures Attended(run, rounds, decisions, status, last)
  {
    decisions := [];
    last := 0;
    while last < |rounds|
      invariant 0 <= last <= |rounds| && |decisions| == last
      invariant forall k | 0 <= k < last :: Justified(rounds[k], run, decisions[k])
      invariant forall k | 0 <= k < last :: AsksAgain(rounds[k], decisions[k])
    {
      var round := rounds[last];
      if round.list.ListFailed? {
        status := Some(ReportError(round.list.error));
        return;
      }
      var found := FindWaiting(round.list.approvals, run);
      if found == |round.list.approvals| {
        status := Some(Ok);
        return;
      }
      var approval := round.list.approvals[found];
      var approve := approval.held && SaysYes(round.answer);
      decisions := decisions + [Decision(approval, approve)];
      if round.reply.DecideFailed? {
        status := Some(ReportError(round.reply.error));
        return;
      }
      var followed := FollowRun(round.follow, approval.id);
      if followed != AwaitingApproval {
        status := Some(followed);
        return;
      }
      last := last + 1;
    }
    status := None;
  }

  /** If the daemon stops listing decided approvals as pending, nothing is decided twice. */
  lemma NothingDecidedTwice(run: string, rounds: seq<Round>, decisions: seq<Decision>)
    requires |decisions| <= |rounds|
    requires forall k | 0 <= k < |decisions| :: Justified(rounds[k], run, decisions[k])
    requires forall j, k, a | 0 <= j < k < |decisions| && rounds[k].list.Listed? && a in rounds[k].list.approvals
                              && a.id == decisions[j].approval.id :: !a.pending
    ensures forall j, k | 0 <= j < k < |decisions| :: decisions[j].approval.id != decisions[k].approval.id
  {
    forall j, k | 0 <= j < k < |decisions| ensures decisions[j].approval.id != decisions[k].approval.id {
      assert Justified(rounds[k], run, decisions[k]);
      assert decisions[k].approval in rounds[k].list.approvals;
    }
  }

  // ----- attending by the logs ----------------------------------------------------------------------------

  /** The stream ends at `end` whatever was decided: an error, a break, a stall, the run's end, or no more frames. */
  ghost predicate EndsAt(frames: seq<Frame>, end: nat)
  {
    && end <= |frames| && (end < |frames| ==> StopsAnyway(frames, end))
    && forall j: nat | j < end :: !StopsAnyway(frames, j)
  }

  lemma EndExists(frames: seq<Frame>) returns (end: nat)
    ensures EndsAt(frames, end)
  {
    end := 0;
    while end < |frames| && !StopsAnyway(frames, end)
      invariant end <= |frames| && forall j: nat | j < end :: !StopsAnyway(frames, j)
    {
      end := end + 1;
    }
  }

  lemma FirstStopExists(frames: seq<Frame>, skip: Option<string>) returns (stop: nat)
    ensures FirstStop(frames, skip, stop)
  {
    stop := 0;
    while stop < |frames| && !Stops(frames, skip, stop)
      invariant stop <= |frames| && forall j: nat | j < stop :: !Stops(frames, skip, j)
    {
      stop := stop + 1;
    }
  }

  predicate Readable(input: FollowInput)
  {
    input.readError.None? && input.openError.None?
  }

  /** Before its end the log names an approval other than the decided one. */
  ghost predicate NamesAnotherBefore(frames: seq<Frame>, decided: string, end: nat)
    requires end <= |frames|
  {
    exists j: nat :: j < end && NamesAnother(frames[j], decided)
  }

  /** The log, and not how it is read, decides: it ends with the run's completion and names no other approval before. */
  ghost predicate LogCompletes(input: FollowInput, decided: string)
  {
    && Readable(input) && input.record.Record?
    && exists end: nat :: && EndsAt(input.frames, end) && end < |input.frames|
                          && input.frames[end] == EventFrame(RunCompleted)
                          && !NamesAnotherBefore(input.frames, decided, end)
  }

  ghost predicate LogParks(input: FollowInput, decided: string)
  {
    Readable(input) && exists end: nat :: EndsAt(input.frames, end) && NamesAnotherBefore(input.frames, decided, end)
  }

  lemma EndUnique(frames: seq<Frame>, a: nat, b: nat)
    requires EndsAt(frames, a) && EndsAt(frames, b)
    ensures a == b
  {
  }

  /** Following settles or parks exactly as the log says. */
  lemma FollowedByLog(input: FollowInput, decided: string)
    ensures Settles(input, decided) <==> LogCompletes(input, decided)
    ensures ParksAgain(input, decided) <==> LogParks(input, decided)
  {
    var frames := input.frames;
    var end := EndExists(frames);
    var stop := FirstStopExists(frames, Some(decided));
    forall k: nat | FirstStop(frames, Some(decided), k) ensures k == stop {
      FirstStopUnique(frames, Some(decided), k, stop);
    }
    forall k: nat | EndsAt(frames, k) ensures k == end {
      EndUnique(frames, k, end);
    }
    FollowReachesTheEnd(frames, decided, Record, stop, end);
    FollowStopsAtOthers(frames, decided, stop);
    if stop < end {
      assert NamesAnother(frames[stop], decided) && NamesAnotherBefore(frames, decided, end);
    } else {
      assert stop == end && !NamesAnotherBefore(frames, decided, end);
    }
  }

  /** The log names this approval before anything ends it. */
  ghost predicate Announces(frames: seq<Frame>, id: string)
  {
    exists j: nat :: && j < |frames| && frames[j] == EventFrame(ApprovalEvent(Some(id)))
                     && forall i: nat | i < j :: !StopsAnyway(frames, i)
  }

  /** Every followed log names every approval decided so far. */
  ghost predicate AllAnnounced(rounds: seq<Round>, decisions: seq<Decision>)
    requires |decisions| <= |rounds|
  {
    forall j, k | 0 <= j <= k < |decisions| :: Announces(rounds[k].follow.frames, decisions[j].approval.id)
  }

  lemma AnnouncesLonger(frames: seq<Frame>, longer: seq<Frame>, id: string)
    requires frames <= longer && Announces(frames, id)
    ensures Announces(longer, id)
  {
    var j: nat :| && j < |frames| && frames[j] == EventFrame(ApprovalEvent(Some(id)))
                  && forall i: nat | i < j :: !StopsAnyway(frames, i);
    forall i: nat | i < j ensures !StopsAnyway(longer, i) {
      assert !StopsAnyway(frames, i);
      assert Stalls(longer, i) ==> Stalls(frames, i);
    }
    assert longer[j] == frames[j];
  }

  /** Append-only logs that announce an approval before it is decided announce all decided ones. */
  lemma {:induction false} GrowingLogsAnnounce(rounds: seq<Round>, decisions: seq<Decision>, j: nat, k: nat)
    requires |decisions| <= |rounds| && j <= k < |decisions|
    requires forall i | 0 < i < |decisions| :: rounds[i - 1].follow.frames <= rounds[i].follow.frames
    requires forall i | 0 <= i < |decisions| :: Announces(rounds[i].follow.frames, decisions[i].approval.id)
    ensures Announces(rounds[k].follow.frames, decisions[j].approval.id)
    decreases k
  {
    if j < k {
      GrowingLogsAnnounce(rounds, decisions, j, k - 1);
      AnnouncesLonger(rounds[k - 1].follow.frames, rounds[k].follow.frames, decisions[j].approval.id);
    }
  }

  /** A log that announces another approval than the decided one is never followed to the run's end. */
  lemma AnotherAnnouncedParks(input: FollowInput, decided: string, other: string)
    requires other != decided && Announces(input.frames, other)
    ensures !LogCompletes(input, decided) && (Readable(input) ==> LogParks(input, decided))
  {
    var frames := input.frames;
    var j: nat :| && j < |frames| && frames[j] == EventFrame(ApprovalEvent(Some(other)))
                  && forall i: nat | i < j :: !StopsAnyway(frames, i);
    var end := EndExists(frames);
    forall k: nat | EndsAt(frames, k) ensures k == end {
      EndUnique(frames, k, end);
    }
    assert !StopsAnyway(frames, j);
    assert j < end;
    assert NamesAnother(frames[j], decided) && NamesAnotherBefore(frames, decided, end);
  }

  /** From the second distinct decision on, no follow reaches the run's end. */
  lemma LaterFollowsNeverSettle(rounds: seq<Round>, decisions: seq<Decision>, j: nat, k: nat)
    requires |decisions| <= |rounds| && AllAnnounced(rounds, decisions)
    requires j < k < |decisions| && decisions[j].approval.id != decisions[k].approval.id
    ensures !Settles(rounds[k].follow, decisions[k].approval.id)
    ensures Readable(rounds[k].follow) ==> ParksAgain(rounds[k].follow, decisions[k].approval.id)
  {
    AnotherAnnouncedParks(rounds[k].follow, decisions[k].approval.id, decisions[j].approval.id);
    FollowedByLog(rounds[k].follow, decisions[k].approval.id);
  }

  predicate DecidedOnce(decisions: seq<Decision>)
  {
    forall j, k | 0 <= j < k < |decisions| :: decisions[j].approval.id != decisions[k].approval.id
  }

  /** Attending saw the run complete: its last round decided something and the follow settled. */
  predicate SawTheEnd(decisions: seq<Decision>, status: Option<ExitStatus>, last: nat)
  {
    status == Some(Ok) && |decisions| == last + 1
  }

  lemma SeenEndIsSettled(run: string, rounds: seq<Round>, decisions: seq<Decision>, status: Option<ExitStatus>,
                         last: nat)
    requires Attended(run, rounds, decisions, status, last) && |decisions| == last + 1
    ensures status == Some(Ok) <==>
            rounds[last].reply.Recorded? && Settles(rounds[last].follow, decisions[last].approval.id)
  {
  }

  lemma FirstRoundAsks(run: string, rounds: seq<Round>, decisions: seq<Decision>, status: Option<ExitStatus>, last: nat)
    requires Attended(run, rounds, decisions, status, last) && decisions != []
    ensures last > 0 <==> AsksAgain(rounds[0], decisions[0])
  {
    assert forall k | 0 <= k < last :: AsksAgain(rounds[k], decisions[k]);
    if last == 0 {
      assert |decisions| == last + 1;
    }
  }

  /**
   `Ok` and the end of the run, over any number of rounds. When every followed log names every approval decided so far
   and nothing is decided twice, attending sees the run complete if and only if the first decision was recorded and its
   log ends with the completion and names no other approval before. After a second decision `Ok` only means that nothing
   waits any more.
   */
  lemma OkMeansCompletedExactly(run: string, rounds: seq<Round>, decisions: seq<Decision>, status: Option<ExitStatus>,
                                last: nat)
    requires Attended(run, rounds, decisions, status, last)
    requires AllAnnounced(rounds, decisions) && DecidedOnce(decisions)
    ensures SawTheEnd(decisions, status, last) <==>
            decisions != [] && rounds[0].reply.Recorded? && LogCompletes(rounds[0].follow, decisions[0].approval.id)
    ensures decisions != [] ==>
              (last > 0 <==> rounds[0].reply.Recorded? && LogParks(rounds[0].follow, decisions[0].approval.id))
    ensures |decisions| > 1 && status == Some(Ok) ==> |decisions| == last && NothingWaits(rounds[last], run)
  {
    if decisions != [] {
      FollowedByLog(rounds[0].follow, decisions[0].approval.id);
      FirstRoundAsks(run, rounds, decisions, status, last);
      CompletesOrParks(rounds[0].follow, decisions[0].approval.id);
    }
    if |decisions| == last + 1 {
      SeenEndIsSettled(run, rounds, decisions, status, last);
      if last > 0 {
        LaterFollowsNeverSettle(rounds, decisions, 0, last);
      }
    }
  }

  /** One log does not do both. */
  lemma CompletesOrParks(input: FollowInput, decided: string)
    ensures !(LogCompletes(input, decided) && LogParks(input, decided))
  {
    forall a: nat, b: nat | EndsAt(input.frames, a) && EndsAt(input.frames, b) ensures a == b {
      EndUnique(input.frames, a, b);
    }
  }

  // ----- an early end -------------------------------------------------------------------------------------

  function Named(id: string): (frame: Frame)
  {
    EventFrame(ApprovalEvent(Some(id)))
  }

  /** Two actions are held one after the other, both are decided, and then nothing waits; the run has completed. */
  function TwoActions(run: string, answer: string): (rounds: seq<Round>)
  {
    var log := [Named("a"), Named("b")];
    var whole := log + [EventFrame(RunCompleted)];
    [Round(Listed([Approval("a", run, true, true)]), answer, Recorded, FollowInput(None, None, log, Record)),
     Round(Listed([Approval("b", run, true, true)]), answer, Recorded, FollowInput(None, None, whole, Record)),
     Round(Listed([]), answer, Recorded, FollowInput(None, None, whole, Record))]
  }

  lemma DecidesTheOnlyOne(round: Round, run: string, decision: Decision, approval: Approval)
    requires Justified(round, run, decision) && round.list == Listed([approval])
    ensures decision.approval == approval
  {
  }

  lemma AskedBefore(run: string, rounds: seq<Round>, decisions: seq<Decision>, status: Option<ExitStatus>, last: nat)
    requires Attended(run, rounds, decisions, status, last)
    ensures forall k | 0 <= k < |decisions| :: Justified(rounds[k], run, decisions[k])
    ensures last < |rounds| && |decisions| == last ==> rounds[last].list.ListFailed? || NothingWaits(rounds[last], run)
    ensures last < |decisions| ==> !AsksAgain(rounds[last], decisions[last])
    ensures last == |decisions| && last < |rounds| && NothingWaits(rounds[last], run) ==> status == Some(Ok)
  {
  }

  lemma NothingToDecide(round: Round, run: string, decision: Decision)
    requires NothingWaits(round, run)
    ensures !Justified(round, run, decision)
  {
    assert forall k: nat | k < |round.list.approvals| :: round.list.approvals[k] in round.list.approvals;
  }

  /** Whoever attends these rounds gets `Ok` after two decisions, and no follow reached the logged completion. */
  lemma OkBeforeTheEnd(run: string, answer: string, decisions: seq<Decision>, status: Option<ExitStatus>, last: nat)
    requires Attended(run, TwoActions(run, answer), decisions, status, last)
    ensures status == Some(Ok) && last == 2 && |decisions| == 2
    ensures EventFrame(RunCompleted) in TwoActions(run, answer)[1].follow.frames
    ensures !Settles(TwoActions(run, answer)[1].follow, decisions[1].approval.id)
  {
    var rounds := TwoActions(run, answer);
    var a, b := Approval("a", run, true, true), Approval("b", run, true, true);
    AskedBefore(run, rounds, decisions, status, last);
    assert WaitsFor(a, run) && a in rounds[0].list.approvals && b in rounds[1].list.approvals;
    assert !NothingWaits(rounds[0], run) && !NothingWaits(rounds[1], run) && NothingWaits(rounds[2], run);
    assert |decisions| >= 1;
    DecidesTheOnlyOne(rounds[0], run, decisions[0], a);
    ParksAt(rounds[0].follow, "a", "b", 1);
    assert AsksAgain(rounds[0], decisions[0]);
    assert last >= 1 && |decisions| >= 2;
    DecidesTheOnlyOne(rounds[1], run, decisions[1], b);
    ParksAt(rounds[1].follow, "b", "a", 0);
    assert AsksAgain(rounds[1], decisions[1]);
    forall d: Decision ensures !Justified(rounds[2], run, d) {
      NothingToDecide(rounds[2], run, d);
    }
    assert rounds[1].follow.frames[2] == EventFrame(RunCompleted);
  }

  lemma ParksAt(input: FollowInput, decided: string, other: string, j: nat)
    requires Readable(input) && other != decided && j < |input.frames| && input.frames[j] == Named(other)
    requires forall i: nat | i < j :: !StopsAnyway(input.frames, i)
    ensures ParksAgain(input, decided) && !Settles(input, decided)
  {
    assert Announces(input.frames, other);
    AnotherAnnouncedParks(input, decided, other);
    FollowedByLog(input, decided);
  }
}
