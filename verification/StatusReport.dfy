/**
 Shrinking a coding task's stored result and its status view to their size limits without changing a verdict, and
 telling the reader when recorded activity is incomplete.
 */
module StatusReport {
  import opened Options
  import Delivery
  import opened Isolation
  import opened Sequences
  import Text

  /** The field names this code reads or writes, and any other. */
  datatype Field =
    | FOutcome | FDeliveryStatus | FVerification | FStatus | FChecks | FPassed | FCommand | FResultOmitted
    | FBrowserVerified | FDirectory | FMode | FBranch | FWorktree | FDetailsOmitted | FIndex | FFailureCount
    | FReportedFailures | FResult | FExitCode | FIssueCount | FIssues | FTaskId | FNext | FOther(name: string)

  datatype Json =
    | Null | Bool(b: bool) | Num(n: int) | Str(s: string) | Arr(items: seq<Json>) | Obj(fields: map<Field, Json>)

  /** Indexing reads null where there is nothing. */
  function At(v: Json, key: Field): (r: Json)
  {
    if v.Obj? && key in v.fields then v.fields[key] else Null
  }

  function AsStr(v: Json): (r: Option<string>)
  {
    if v.Str? then Some(v.s) else None
  }

  function AsBool(v: Json): (r: Option<bool>)
  {
    if v.Bool? then Some(v.b) else None
  }

  function Items(v: Json): (r: seq<Json>)
  {
    if v.Arr? then v.items else []
  }

  // ----- the verdict of a result --------------------------------------------------------------------------

  datatype Verdict = Verdict(
    outcome: Option<string>, delivery: Option<string>, verification: Option<string>, passed: seq<Option<bool>>)

  function ChecksOf(result: Json): (r: seq<Json>)
  {
    Items(At(At(result, FVerification), FChecks))
  }

  function PassedFlags(checks: seq<Json>): (r: seq<Option<bool>>)
    ensures |r| == |checks|
    ensures forall i | 0 <= i < |r| :: r[i] == AsBool(At(checks[i], FPassed))
  {
    seq(|checks|, i requires 0 <= i < |checks| => AsBool(At(checks[i], FPassed)))
  }

  function VerdictOf(result: Json): (v: Verdict)
  {
    Verdict(
      AsStr(At(result, FOutcome)), AsStr(At(result, FDeliveryStatus)),
      AsStr(At(At(result, FVerification), FStatus)), PassedFlags(ChecksOf(result)))
  }

  // ----- the stored result --------------------------------------------------------------------------------

  const STORED_LIMIT := 240000
  const CHECK_LIMIT := Delivery.CHECK_LIMIT
  const LABEL_LIMIT := 80

  /** What a shrunk report tells its reader to do; the wording is not modelled. */
  const NEXT_STORED := Str("inspect the files and rerun checks")
  const NEXT_HINT := Str("inspect the console for details")
  const NEXT_CONSOLE := Str("read the console")

  function StoredCheck(check: Json): (r: Json)
  {
    Obj(map[FCommand := At(check, FCommand), FPassed := At(check, FPassed), FResultOmitted := Bool(true)])
  }

  function StoredChecks(checks: seq<Json>): (r: seq<Json>)
    ensures |r| == Min(|checks|, CHECK_LIMIT)
    ensures forall i | 0 <= i < |r| :: r[i] == StoredCheck(checks[i])
  {
    seq(|Taken(checks, CHECK_LIMIT)|, i requires 0 <= i < |Taken(checks, CHECK_LIMIT)| => StoredCheck(checks[i]))
  }

  /** The result kept in the task table; an oversized one loses its details. `size` is the length of its text. */
  function BoundedResult(value: Json, size: Json -> nat): (r: Json)
  {
    if size(value) <= STORED_LIMIT then value
    else
      Obj(map[
            FOutcome := At(value, FOutcome), FDeliveryStatus := At(value, FDeliveryStatus),
            FBrowserVerified := Bool(false), FDirectory := At(value, FDirectory), FMode := At(value, FMode),
            FBranch := At(value, FBranch), FWorktree := At(value, FWorktree), FDetailsOmitted := Bool(true),
            FNext := NEXT_STORED,
            FVerification := Obj(map[
                                    FStatus := At(At(value, FVerification), FStatus),
                                    FChecks := Arr(StoredChecks(ChecksOf(value)))])])
  }

  /** Storing keeps the verdict exactly when the result fits or has no more checks than are kept. */
  lemma BoundedKeepsVerdict(value: Json, size: Json -> nat)
    ensures VerdictOf(BoundedResult(value, size)) == VerdictOf(value) <==>
            size(value) <= 240000 || |ChecksOf(value)| <= 16
    ensures At(BoundedResult(value, size), FBrowserVerified) == Bool(true) ==> At(value, FBrowserVerified) == Bool(true)
  {
    if size(value) > STORED_LIMIT {
      var kept := BoundedResult(value, size);
      assert ChecksOf(kept) == StoredChecks(ChecksOf(value));
      assert forall i | 0 <= i < |ChecksOf(kept)| :: PassedFlags(ChecksOf(kept))[i] == PassedFlags(ChecksOf(value))[i];
      assert |PassedFlags(ChecksOf(kept))| != |PassedFlags(ChecksOf(value))| <==> |ChecksOf(value)| > CHECK_LIMIT;
    }
  }

  /** What else an oversized result keeps: where the work is, and the checks' commands; the rest is declared omitted. */
  lemma BoundedKeepsPlace(value: Json, size: Json -> nat)
    ensures size(value) <= 240000 ==> BoundedResult(value, size) == value
    ensures size(value) > 240000 ==>
              var kept := BoundedResult(value, size);
              && At(kept, FDirectory) == At(value, FDirectory) && At(kept, FMode) == At(value, FMode)
              && At(kept, FBranch) == At(value, FBranch) && At(kept, FWorktree) == At(value, FWorktree)
              && At(kept, FOutcome) == At(value, FOutcome) && At(kept, FDeliveryStatus) == At(value, FDeliveryStatus)
              && At(kept, FBrowserVerified) == Bool(false) && At(kept, FDetailsOmitted) == Bool(true)
              && |ChecksOf(kept)| == Min(|ChecksOf(value)|, 16)
              && forall i | 0 <= i < |ChecksOf(kept)| ::
                   && At(ChecksOf(kept)[i], FCommand) == At(ChecksOf(value)[i], FCommand)
                   && At(ChecksOf(kept)[i], FPassed) == At(ChecksOf(value)[i], FPassed)
                   && At(ChecksOf(kept)[i], FResultOmitted) == Bool(true)
  {
    if size(value) > 240000 {
      assert ChecksOf(BoundedResult(value, size)) == StoredChecks(ChecksOf(value));
    }
  }

  // ----- the status view ----------------------------------------------------------------------------------

  function Label(v: Json): (r: Json)
  {
    if v.Str? then Str(Taken(v.s, LABEL_LIMIT)) else Null
  }

  function CompactCheck(index: nat, check: Json): (r: Json)
  {
    Obj(map[
          FIndex := Num(index), FPassed := (if At(check, FPassed).Bool? then At(check, FPassed) else Null),
          FFailureCount := Num(|Items(At(At(check, FResult), FReportedFailures))|),
          FExitCode := (if At(At(check, FResult), FExitCode).Num? then At(At(check, FResult), FExitCode) else Null)])
  }

  function CompactChecks(checks: seq<Json>): (r: seq<Json>)
    ensures |r| == Min(|checks|, CHECK_LIMIT)
    ensures forall i | 0 <= i < |r| :: r[i] == CompactCheck(i, checks[i])
  {
    seq(|Taken(checks, CHECK_LIMIT)|, i requires 0 <= i < |Taken(checks, CHECK_LIMIT)| => CompactCheck(i, checks[i]))
  }

  function CompactResult(result: Json): (r: Json)
  {
    Obj(map[
          FOutcome := Label(At(result, FOutcome)), FDeliveryStatus := Label(At(result, FDeliveryStatus)),
          FVerification := Obj(map[
                                  FStatus := Label(At(At(result, FVerification), FStatus)),
                                  FChecks := Arr(CompactChecks(ChecksOf(result))),
                                  FIssueCount := Num(|Items(At(At(result, FVerification), FIssues))|)]),
          FBrowserVerified := Bool(false), FDetailsOmitted := Bool(true)])
  }

  predicate ShortLabel(v: Json)
  {
    v.Str? ==> |v.s| <= 80
  }

  /** Compacting loses nothing of this result's verdict. */
  predicate Compactable(result: Json)
  {
    && ShortLabel(At(result, FOutcome)) && ShortLabel(At(result, FDeliveryStatus))
    && ShortLabel(At(At(result, FVerification), FStatus)) && |ChecksOf(result)| <= 16
  }

  lemma CompactKeepsVerdict(result: Json)
    ensures VerdictOf(CompactResult(result)) == VerdictOf(result) <==> Compactable(result)
  {
    var compact := CompactResult(result);
    assert ChecksOf(compact) == CompactChecks(ChecksOf(result));
    assert forall i | 0 <= i < |ChecksOf(compact)| ::
        PassedFlags(ChecksOf(compact))[i] == PassedFlags(ChecksOf(result))[i];
    assert |PassedFlags(ChecksOf(compact))| != |PassedFlags(ChecksOf(result))| <==> |ChecksOf(result)| > CHECK_LIMIT;
    LabelKept(At(result, FOutcome));
    LabelKept(At(result, FDeliveryStatus));
    LabelKept(At(At(result, FVerification), FStatus));
    assert PassedFlags(ChecksOf(compact)) == PassedFlags(ChecksOf(result)) <==> |ChecksOf(result)| <= CHECK_LIMIT;
  }

  /** What a compacted check says: its place, its verdict, how many failures it reported, its exit code if any. */
  lemma CompactedChecks(result: Json, i: nat)
    requires i < |ChecksOf(CompactResult(result))|
    ensures |ChecksOf(CompactResult(result))| == Min(|ChecksOf(result)|, 16)
    ensures var check, compact := ChecksOf(result)[i], ChecksOf(CompactResult(result))[i];
            && At(compact, FIndex) == Num(i)
            && (At(check, FPassed).Bool? ==> At(compact, FPassed) == At(check, FPassed))
            && (!At(check, FPassed).Bool? ==> At(compact, FPassed) == Null)
            && At(compact, FFailureCount) == Num(|Items(At(At(check, FResult), FReportedFailures))|)
            && (At(At(check, FResult), FExitCode).Num? ==>
                  At(compact, FExitCode) == At(At(check, FResult), FExitCode))
    ensures At(At(CompactResult(result), FVerification), FIssueCount)
            == Num(|Items(At(At(result, FVerification), FIssues))|)
    ensures At(CompactResult(result), FBrowserVerified) == Bool(false)
    ensures At(CompactResult(result), FDetailsOmitted) == Bool(true)
  {
    assert ChecksOf(CompactResult(result)) == CompactChecks(ChecksOf(result));
  }

  lemma LabelKept(v: Json)
    ensures AsStr(Label(v)) == AsStr(v) <==> ShortLabel(v)
  {
  }

  /** The first stage: the result is compacted, and the reader is told. */
  function WithCompactResult(view: Json): (r: Json)
    requires view.Obj?
    ensures r.Obj? && At(r, FResult) == CompactResult(At(view, FResult)) && At(r, FDetailsOmitted) == Bool(true)
    ensures At(r, FTaskId) == At(view, FTaskId) && At(r, FStatus) == At(view, FStatus)
  {
    Obj(view.fields[FResult := CompactResult(At(view, FResult))][FDetailsOmitted := Bool(true)][FNext := NEXT_HINT])
  }

  /** The second stage: only identity and truth are left. */
  function IdentityAndResult(view: Json): (r: Json)
    ensures At(r, FResult) == At(view, FResult) && At(r, FDetailsOmitted) == Bool(true)
    ensures At(r, FTaskId) == At(view, FTaskId) && At(r, FStatus) == At(view, FStatus)
  {
    Obj(map[FTaskId := At(view, FTaskId), FStatus := At(view, FStatus), FResult := At(view, FResult),
            FDetailsOmitted := Bool(true), FNext := NEXT_CONSOLE])
  }

  lemma CompactNeverVerifies(result: Json)
    ensures At(CompactResult(result), FBrowserVerified) == Bool(false)
  {
  }

  /** Shrinks a view in place until the model may read it: first its result, then everything but its identity. */
  method CompactStatus(before: Json, fits: Json -> bool) returns (view: Json)
    requires before.Obj?
    ensures fits(before) ==> view == before
    ensures !fits(before) ==> At(view, FResult) == CompactResult(At(before, FResult))
    ensures At(view, FTaskId) == At(before, FTaskId) && At(view, FStatus) == At(before, FStatus)
    ensures VerdictOf(At(view, FResult)) == VerdictOf(At(before, FResult)) <==>
            fits(before) || Compactable(At(before, FResult))
    ensures At(At(view, FResult), FBrowserVerified) == Bool(true) ==>
              At(At(before, FResult), FBrowserVerified) == Bool(true)
    ensures !fits(before) ==> At(view, FDetailsOmitted) == Bool(true)
  {
    view := before;
    if fits(view) {
      return;
    }
    ghost var result := At(before, FResult);
    CompactKeepsVerdict(result);
    CompactNeverVerifies(result);
    view := WithCompactResult(view);
    if !fits(view) {
      view := IdentityAndResult(view);
    }
  }

  // ----- what this daemon produces ------------------------------------------------------------------------

  function OutcomeLabel(o: Delivery.Outcome): (s: string)
    ensures |s| <= LABEL_LIMIT
  {
    match o
    case OutCompleted => "completed"
    case OutStopped => "stopped"
    case OutCancelled => "cancelled"
    case OutTimedOut => "timed_out"
    case OutAgentExited => "agent_exited"
    case OutFailed => "failed"
    case OutCleanupFailed => "cleanup_failed"
    case OutVerificationFailed => "verification_failed"
  }

  function DeliveryLabel(d: Delivery.DeliveryStatus): (s: string)
    ensures |s| <= LABEL_LIMIT
  {
    match d
    case Unverified => "unverified"
    case DeliveredChecksPassed => "checks_passed"
    case DeliveredVerificationFailed => "verification_failed"
  }

  function VerificationLabel(v: Delivery.VerificationStatus): (s: string)
    ensures |s| <= LABEL_LIMIT
  {
    match v
    case NotRun => "not_run"
    case ChecksPass => "passed"
    case ChecksFail => "failed"
    case ChecksCancelled => "cancelled"
  }

  /** `value` reports `answer` and these check records; everything else in it is free. */
  predicate Describes(value: Json, answer: Delivery.Answer, records: seq<Delivery.CheckRecord>)
  {
    && At(value, FOutcome) == Str(OutcomeLabel(answer.outcome))
    && At(value, FDeliveryStatus) == (if answer.delivery.Some? then Str(DeliveryLabel(answer.delivery.value)) else Null)
    && At(At(value, FVerification), FStatus)
       == (if answer.verification.Some? then Str(VerificationLabel(answer.verification.value)) else Null)
    && |ChecksOf(value)| == |records|
    && forall i | 0 <= i < |records| :: At(ChecksOf(value)[i], FPassed) == Bool(records[i].passed)
  }

  /** The records come from the check loop of an accepted request, so they are few. */
  ghost predicate Produced(records: seq<Delivery.CheckRecord>)
  {
    exists asked, allowCommands, scripts, events ::
      && Delivery.Accepted(asked, allowCommands)
      && Delivery.Reports(records, Delivery.SelectedChecks(asked, allowCommands, scripts), events)
  }

  lemma ProducedAreFew(records: seq<Delivery.CheckRecord>)
    requires Produced(records)
    ensures |records| <= CHECK_LIMIT
  {
  }

  /** What the finish statement stores: a recorded stop rewrites the outcome, unless cleanup failed. */
  function StoredResult(value: Json, size: Json -> nat, stopped: bool): (r: Json)
  {
    var bounded := BoundedResult(value, size);
    if stopped && bounded.Obj? && At(bounded, FOutcome) != Str(OutcomeLabel(Delivery.OutCleanupFailed))
    then Obj(bounded.fields[FOutcome := Str(OutcomeLabel(Delivery.OutCancelled))])
    else bounded
  }

  function StoredAnswer(answer: Delivery.Answer, stopped: bool): (r: Delivery.Answer)
  {
    if stopped && answer.outcome != Delivery.OutCleanupFailed then answer.(outcome := Delivery.OutCancelled) else answer
  }

  /** The words that are stored and shown. */
  lemma Words()
    ensures OutcomeLabel(Delivery.OutCompleted) == "completed" && OutcomeLabel(Delivery.OutStopped) == "stopped"
    ensures OutcomeLabel(Delivery.OutCancelled) == "cancelled" && OutcomeLabel(Delivery.OutTimedOut) == "timed_out"
    ensures OutcomeLabel(Delivery.OutAgentExited) == "agent_exited" && OutcomeLabel(Delivery.OutFailed) == "failed"
    ensures OutcomeLabel(Delivery.OutCleanupFailed) == "cleanup_failed"
    ensures OutcomeLabel(Delivery.OutVerificationFailed) == "verification_failed"
    ensures DeliveryLabel(Delivery.Unverified) == "unverified"
    ensures DeliveryLabel(Delivery.DeliveredChecksPassed) == "checks_passed"
    ensures DeliveryLabel(Delivery.DeliveredVerificationFailed) == "verification_failed"
    ensures VerificationLabel(Delivery.NotRun) == "not_run" && VerificationLabel(Delivery.ChecksPass) == "passed"
    ensures VerificationLabel(Delivery.ChecksFail) == "failed"
    ensures VerificationLabel(Delivery.ChecksCancelled) == "cancelled"
  {
  }

  lemma LabelsDiffer(a: Delivery.Outcome, b: Delivery.Outcome)
    ensures OutcomeLabel(a) == OutcomeLabel(b) <==> a == b
  {
  }

  /** The stored result of a produced one describes the answer with the outcome that the stop leaves. */
  lemma StoredDescribes(value: Json, size: Json -> nat, stopped: bool, answer: Delivery.Answer,
                        records: seq<Delivery.CheckRecord>)
    requires Describes(value, answer, records) && Produced(records)
    ensures Describes(StoredResult(value, size, stopped), StoredAnswer(answer, stopped), records)
    ensures At(StoredResult(value, size, stopped), FBrowserVerified) == Bool(true) ==>
              At(value, FBrowserVerified) == Bool(true)
  {
    ProducedAreFew(records);
    BoundedKeepsVerdict(value, size);
    var bounded := BoundedResult(value, size);
    SameVerdictDescribes(value, bounded, answer, records);
    LabelsDiffer(answer.outcome, Delivery.OutCleanupFailed);
    var stored := StoredResult(value, size, stopped);
    assert At(stored, FVerification) == At(bounded, FVerification);
    assert At(stored, FDeliveryStatus) == At(bounded, FDeliveryStatus);
  }

  lemma DescribedVerdict(a: Json, b: Json, x: Delivery.Answer, y: Delivery.Answer, records: seq<Delivery.CheckRecord>)
    requires Describes(a, x, records) && Describes(b, y, records)
    requires x.delivery == y.delivery && x.verification == y.verification
    ensures VerdictOf(a) == VerdictOf(b) <==> x.outcome == y.outcome
  {
    LabelsDiffer(x.outcome, y.outcome);
    assert PassedFlags(ChecksOf(a)) == PassedFlags(ChecksOf(b));
  }

  /**
   Storing and then showing a result that this daemon produced: shrinking changes nothing, and the verdict changes only
   where a recorded stop rewrites an outcome that was neither `cancelled` nor `cleanup_failed`.
   */
  method StoreAndShow(value: Json, view: Json, size: Json -> nat, fits: Json -> bool, stopped: bool,
                      ghost answer: Delivery.Answer, ghost records: seq<Delivery.CheckRecord>)
    returns (shown: Json)
    requires Describes(value, answer, records) && Produced(records) && view.Obj?
    ensures Describes(At(shown, FResult), StoredAnswer(answer, stopped), records)
    ensures VerdictOf(At(shown, FResult)) == VerdictOf(value) <==>
            !stopped || answer.outcome in {Delivery.OutCancelled, Delivery.OutCleanupFailed}
    ensures At(At(shown, FResult), FBrowserVerified) == Bool(true) ==> At(value, FBrowserVerified) == Bool(true)
  {
    var stored := StoredResult(value, size, stopped);
    StoredDescribes(value, size, stopped, answer, records);
    ProducedAreFew(records);
    var whole := Obj(view.fields[FResult := stored]);
    shown := CompactStatus(whole, fits);
    assert At(whole, FResult) == stored;
    assert Compactable(stored);
    SameVerdictDescribes(stored, At(shown, FResult), StoredAnswer(answer, stopped), records);
    DescribedVerdict(At(shown, FResult), value, StoredAnswer(answer, stopped), answer, records);
  }

  /** A stop recorded while the last check ran: the stored result says both `cancelled` and `checks_passed`. */
  lemma StoppedButChecksPassed(value: Json, size: Json -> nat, answer: Delivery.Answer,
                               records: seq<Delivery.CheckRecord>)
    requires Describes(value, answer, records) && Produced(records)
    requires answer.outcome == Delivery.OutCompleted && answer.delivery == Some(Delivery.DeliveredChecksPassed)
    ensures At(StoredResult(value, size, true), FOutcome) == Str("cancelled")
    ensures At(StoredResult(value, size, true), FDeliveryStatus) == Str("checks_passed")
  {
    StoredDescribes(value, size, true, answer, records);
  }

  /** A result made by this code with the same verdict reports the same answer. */
  lemma SameVerdictDescribes(a: Json, b: Json, answer: Delivery.Answer, records: seq<Delivery.CheckRecord>)
    requires Describes(a, answer, records) && VerdictOf(b) == VerdictOf(a)
    requires !At(b, FDeliveryStatus).Str? ==> At(b, FDeliveryStatus).Null?
    requires !At(At(b, FVerification), FStatus).Str? ==> At(At(b, FVerification), FStatus).Null?
    ensures Describes(b, answer, records)
  {
    assert |ChecksOf(b)| == |PassedFlags(ChecksOf(b))| == |records|;
    forall i | 0 <= i < |records| ensures At(ChecksOf(b)[i], FPassed) == Bool(records[i].passed) {
      assert PassedFlags(ChecksOf(b))[i] == PassedFlags(ChecksOf(a))[i];
    }
  }

  // ----- activity -----------------------------------------------------------------------------------------

  datatype Entry = Entry(sequence: nat, summary: string)

  /** Whether the stored activity is known to be incomplete. */
  predicate ActivityLimited(activity: seq<Entry>, expected: nat, notesDropped: nat)
  {
    || (activity != [] && activity[0].sequence > 1)
    || (exists i | 0 <= i < |activity| - 1 :: activity[i].sequence + 1 != activity[i + 1].sequence)
    || (if activity == [] then 0 else activity[|activity| - 1].sequence) < expected
    || notesDropped > 0
  }

  /** The flag is off exactly for a gapless record from 1 to at least the reported count, with no note dropped. */
  lemma ActivityFlagIsExact(activity: seq<Entry>, expected: nat, notesDropped: nat)
    requires activity != [] ==> activity[0].sequence >= 1
    ensures !ActivityLimited(activity, expected, notesDropped) <==>
            && (forall i | 0 <= i < |activity| :: activity[i].sequence == i + 1)
            && |activity| >= expected && notesDropped == 0
  {
    if !ActivityLimited(activity, expected, notesDropped) {
      forall i: nat | i < |activity| ensures activity[i].sequence == i + 1 {
        Numbered(activity, i);
      }
    }
  }

  lemma {:induction false} Numbered(activity: seq<Entry>, i: nat)
    requires i < |activity| && activity[0].sequence == 1
    requires forall j | 0 <= j < |activity| - 1 :: activity[j].sequence + 1 == activity[j + 1].sequence
    ensures activity[i].sequence == i + 1
  {
    if i > 0 {
      Numbered(activity, i - 1);
      assert activity[i - 1].sequence + 1 == activity[i].sequence;
    }
  }

  const ENTRIES_SHOWN := 4
  const SUMMARY_CHARS := 600

  /** The isolated text of a shown entry, or nothing when isolation refuses it and a fixed sentence stands in. */
  datatype ShownEntry = ShownEntry(sequence: nat, text: Option<string>)

  predicate LongAt(entries: seq<Entry>, i: int)
    requires 0 <= i < |entries|
  {
    |entries[i].summary| > SUMMARY_CHARS
  }

  function Show(entry: Entry, token: Token): (r: ShownEntry)
  {
    ShownEntry(entry.sequence, Isolated(Taken(entry.summary, SUMMARY_CHARS), token))
  }

  function LastEntries(activity: seq<Entry>): (r: seq<Entry>)
  {
    if |activity| > ENTRIES_SHOWN then activity[|activity| - ENTRIES_SHOWN..] else activity
  }

  function ShownActivity(activity: seq<Entry>, token: Token): (r: seq<ShownEntry>)
  {
    var entries := LastEntries(activity);
    seq(|entries|, i requires 0 <= i < |entries| => Show(entries[i], token))
  }

  /** The flag of the model's view. */
  predicate ViewLimited(activity: seq<Entry>, consoleLimited: bool)
  {
    consoleLimited || |activity| > ENTRIES_SHOWN || exists i | 0 <= i < |activity| :: LongAt(activity, i)
  }

  /** Cuts each entry to a bounded text and says whether any was cut. */
  method ShowEntries(entries: seq<Entry>, token: Token) returns (shown: seq<ShownEntry>, cut: bool)
    ensures |shown| == |entries| && forall i | 0 <= i < |shown| :: shown[i] == Show(entries[i], token)
    ensures cut <==> exists i | 0 <= i < |entries| :: LongAt(entries, i)
  {
    shown := [];
    cut := false;
    for n := 0 to |entries|
      invariant |shown| == n && forall i | 0 <= i < n :: shown[i] == Show(entries[i], token)
      invariant cut <==> exists i | 0 <= i < n :: LongAt(entries, i)
    {
      cut := cut || LongAt(entries, n);
      shown := shown + [Show(entries[n], token)];
    }
  }

  /** The model's view of the activity: the last entries, each cut to a bounded text. */
  method RenderActivity(activity: seq<Entry>, consoleLimited: bool, token: Token)
    returns (shown: seq<ShownEntry>, limited: bool)
    ensures shown == ShownActivity(activity, token)
    ensures |shown| == Min(|activity|, 4)
    ensures forall i | 0 <= i < |shown| ::
              var entry := activity[|activity| - |shown| + i];
              shown[i].sequence == entry.sequence && shown[i].text == Isolated(Taken(entry.summary, 600), token)
    ensures limited <==> ViewLimited(activity, consoleLimited)
    ensures limited <==>
            consoleLimited || |activity| > 4 || exists i | 0 <= i < |activity| :: |activity[i].summary| > 600
  {
    limited := consoleLimited;
    var entries := activity;
    if |entries| > ENTRIES_SHOWN {
      entries := entries[|entries| - ENTRIES_SHOWN..];
      limited := true;
    }
    var cut;
    shown, cut := ShowEntries(entries, token);
    limited := limited || cut;
    assert forall i | 0 <= i < |activity| :: LongAt(activity, i) <==> |activity[i].summary| > 600;
  }

  /** Every entry is in the view with all of its text. */
  predicate ShowsAll(activity: seq<Entry>, token: Token)
  {
    && |ShownActivity(activity, token)| == |activity|
    && forall i | 0 <= i < |activity| ::
         ShownActivity(activity, token)[i] == ShownEntry(activity[i].sequence, Some(activity[i].summary))
  }

  /** With the flag off no entry is left out; the whole text is shown if and only if isolation changes no summary. */
  lemma UnlimitedViewShowsAll(activity: seq<Entry>, consoleLimited: bool, token: Token)
    requires !ViewLimited(activity, consoleLimited)
    ensures |ShownActivity(activity, token)| == |activity|
    ensures ShowsAll(activity, token) <==> forall i | 0 <= i < |activity| :: Clean(activity[i].summary, token)
  {
    forall i | 0 <= i < |activity|
      ensures ShownActivity(activity, token)[i]
              == ShownEntry(activity[i].sequence, Isolated(activity[i].summary, token))
      ensures Isolated(activity[i].summary, token) == Some(activity[i].summary) <==> Clean(activity[i].summary, token)
    {
      assert !LongAt(activity, i);
      UnchangedExactlyWhenClean(activity[i].summary, token);
    }
  }

  /** The flag can be off with text missing: white space behind a clean summary is not shown. */
  lemma UnlimitedViewCanLoseText(summary: string, blanks: string, token: Token)
    requires Clean(summary, token) && Text.AllWhite(blanks) && blanks != [] && |summary + blanks| <= SUMMARY_CHARS
    requires forall i | 0 <= i < |blanks| :: Stays(blanks[i])
    ensures var activity := [Entry(1, summary + blanks)];
            && !ActivityLimited(activity, 1, 0) && !ViewLimited(activity, false)
            && ShownActivity(activity, token) == [ShownEntry(1, Some(summary))] && !ShowsAll(activity, token)
  {
    var activity := [Entry(1, summary + blanks)];
    TrailingSpaceIsLost(summary, blanks, token);
    assert !LongAt(activity, 0);
    assert ShownActivity(activity, token) == [Show(activity[0], token)];
  }
}
