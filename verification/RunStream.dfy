/**
 Rendering a run's event stream: a loop over frames that prints answer fragments, counts idle keep-alives, and stops
 at the first frame that settles the turn. Following a decided run replays the same stream from its start.
 */
module RunStream {
  import opened Options

  datatype ErrorCode =
    | Authentication | Authorization | Validation | Conflict | UnavailableCapability | Unsupported | RateLimited
    | Timeout | TransientUpstream | PermanentUpstream | ApprovalRequired | AmbiguousEffect | CodeCancelled
    | CodeInternal

  datatype ExitStatus =
    | Ok | Usage | Unavailable | Denied | Rejected | DoctorWarnings | DoctorFailed | RepairFailed
    | Cancelled | RunFailed | AwaitingApproval | Internal

  function FromCode(code: ErrorCode): (status: ExitStatus)
    ensures status !in {Ok, AwaitingApproval, Cancelled, RunFailed}
  {
    match code
    case Authentication => Denied
    case Authorization => Denied
    case Validation => Rejected
    case Conflict => Rejected
    case CodeInternal => Internal
    case _ => Unavailable
  }

  /** A failed request: refused by the daemon with a code, or never answered. */
  datatype ApiError = RefusedWith(code: ErrorCode) | Unreachable

  function ReportError(error: ApiError): (status: ExitStatus)
    ensures status !in {Ok, AwaitingApproval, Cancelled, RunFailed}
  {
    match error
    case RefusedWith(code) => FromCode(code)
    case Unreachable => Unavailable
  }

  /** The status of a failed request, by its code. */
  lemma ErrorStatusExactly(error: ApiError)
    ensures ReportError(error) == Denied <==> error.RefusedWith? && error.code in {Authentication, Authorization}
    ensures ReportError(error) == Rejected <==> error.RefusedWith? && error.code in {Validation, Conflict}
    ensures ReportError(error) == Internal <==> error.RefusedWith? && error.code == CodeInternal
    ensures ReportError(error) in {Denied, Rejected, Internal, Unavailable}
  {
  }

  /** A stream event as the client reads it, with the payload field that reading uses. */
  datatype Event =
    | OutputDelta(text: Option<string>)
    | OutputCompleted
    | StateChanged
    | Activity
    | ApprovalEvent(approval: Option<string>)
    | RunCompleted
    | RunFailedEvent
    | RunCancelled

  /** What `next_frame` gives; running off the end of the sequence is the stream closing. */
  datatype Frame = EventFrame(event: Event) | ErrorFrame(code: ErrorCode) | KeepAlive | Broken(error: ApiError)

  datatype RecordReply = Record | RecordUnreadable(error: ApiError)

  const MAX_IDLE_KEEP_ALIVES := 8

  predicate Terminal(event: Event)
  {
    event.RunCompleted? || event.RunFailedEvent? || event.RunCancelled?
  }

  /** An event that names an approval other than the skipped one. */
  predicate NamesOther(frame: Frame, skip: Option<string>)
  {
    && frame.EventFrame? && frame.event.ApprovalEvent?
    && frame.event.approval.Some? && frame.event.approval != skip
  }

  /** Frame `k` ends a run of eight keep-alives. */
  predicate Stalls(frames: seq<Frame>, k: nat)
  {
    && 7 <= k < |frames|
    && forall j | k - 8 < j <= k :: frames[j].KeepAlive?
  }

  /** Frame `k` by itself, or the stall it completes, is a reason to stop. */
  predicate Stops(frames: seq<Frame>, skip: Option<string>, k: nat)
    requires k < |frames|
  {
    || frames[k].ErrorFrame? || frames[k].Broken?
    || (frames[k].EventFrame? && Terminal(frames[k].event))
    || NamesOther(frames[k], skip)
    || Stalls(frames, k)
  }

  /** `k` is the first frame to stop at, or the length when none is. */
  ghost predicate FirstStop(frames: seq<Frame>, skip: Option<string>, k: nat)
  {
    && k <= |frames|
    && (forall j: nat | j < k :: !Stops(frames, skip, j))
    && (k < |frames| ==> Stops(frames, skip, k))
  }

  /** The status of stopping at frame `k`. */
  function StatusAt(frames: seq<Frame>, skip: Option<string>, record: RecordReply, k: nat): (status: ExitStatus)
    requires k <= |frames|
  {
    if k == |frames| || frames[k].KeepAlive? then Unavailable
    else match frames[k]
         case ErrorFrame(code) => FromCode(code)
         case Broken(error) => ReportError(error)
         case EventFrame(event) =>
           if !Terminal(event) then AwaitingApproval
           else if record.RecordUnreadable? then ReportError(record.error)
           else if event.RunCompleted? then Ok
           else if event.RunCancelled? then Cancelled
           else RunFailed
         case KeepAlive => Unavailable
  }

  /** The error that stopping at frame `k` meets: a broken stream, an error frame, or a record that cannot be read. */
  predicate Meets(frames: seq<Frame>, record: RecordReply, k: nat, error: ApiError)
  {
    && k < |frames|
    && match frames[k]
       case Broken(broken) => error == broken
       case ErrorFrame(code) => error == RefusedWith(code)
       case EventFrame(event) =>
         (event.RunCompleted? || event.RunFailedEvent? || event.RunCancelled?) && record == RecordUnreadable(error)
       case KeepAlive => false
  }

  /** The answer text of the first frames. */
  function Deltas(frames: seq<Frame>): (text: string)
  {
    if frames == [] then ""
    else
      var last := frames[|frames| - 1];
      Deltas(frames[..|frames| - 1])
      + (if last.EventFrame? && last.event.OutputDelta? && last.event.text.Some? then last.event.text.value else "")
  }

  /** The rendering loop, for every frame sequence. */
  method ConsumeTurn(frames: seq<Frame>, skip: Option<string>, record: RecordReply)
    returns (status: ExitStatus, printed: string, stop: nat)
    ensures FirstStop(frames, skip, stop)
    ensures status == StatusAt(frames, skip, record, stop)
    ensures printed == Deltas(frames[..stop])
    ensures status == Ok <==>
            stop < |frames| && frames[stop] == EventFrame(RunCompleted) && record.Record?
    ensures status == AwaitingApproval <==> stop < |frames| && NamesOther(frames[stop], skip)
    ensures status == RunFailed <==>
            stop < |frames| && frames[stop] == EventFrame(RunFailedEvent) && record.Record?
    ensures status == Cancelled <==>
            stop < |frames| && frames[stop] == EventFrame(RunCancelled) && record.Record?
    ensures forall error | Meets(frames, record, stop, error) :: status == ReportError(error)
    ensures stop == |frames| || frames[stop].KeepAlive? ==> status == Unavailable
  {
    var idle := 0;
    printed := "";
    stop := 0;
    while stop < |frames|
      invariant 0 <= stop <= |frames|
      invariant 0 <= idle < MAX_IDLE_KEEP_ALIVES && idle <= stop
      invariant forall j | stop - idle <= j < stop :: frames[j].KeepAlive?
      invariant idle < stop ==> !frames[stop - idle - 1].KeepAlive?
      invariant forall j: nat | j < stop :: !Stops(frames, skip, j)
      invariant printed == Deltas(frames[..stop])
    {
      assert frames[..stop + 1][..stop] == frames[..stop];
      match frames[stop] {
        case Broken(error) =>
          status := ReportError(error);
          return;
        case ErrorFrame(code) =>
          status := FromCode(code);
          return;
        case KeepAlive =>
          idle := idle + 1;
          if idle >= MAX_IDLE_KEEP_ALIVES {
            assert Stalls(frames, stop);
            status := Unavailable;
            return;
          }
          assert !Stalls(frames, stop) by {
            assert stop >= MAX_IDLE_KEEP_ALIVES - 1 ==> stop - idle > stop - MAX_IDLE_KEEP_ALIVES;
          }
        case EventFrame(event) =>
          idle := 0;
          assert !Stalls(frames, stop);
          match event {
            case OutputDelta(text) =>
              if text.Some? {
                printed := printed + text.value;
              }
            case ApprovalEvent(approval) =>
              if approval.Some? && approval != skip {
                status := AwaitingApproval;
                return;
              }
            case RunCompleted =>
              status := if record.Record? then Ok else ReportError(record.error);
              return;
            case RunFailedEvent =>
              status := if record.Record? then RunFailed else ReportError(record.error);
              return;
            case RunCancelled =>
              status := if record.Record? then Cancelled else ReportError(record.error);
              return;
            case OutputCompleted =>
            case StateChanged =>
            case Activity =>
          }
      }
      stop := stop + 1;
    }
    assert frames[..stop] == frames;
    status := Unavailable;
  }

  /** The first stopping frame is unique, so the loop's result is a function of the stream. */
  lemma FirstStopUnique(frames: seq<Frame>, skip: Option<string>, j: nat, k: nat)
    requires FirstStop(frames, skip, j) && FirstStop(frames, skip, k)
    ensures j == k
  {
  }

  // ----- following after a decision ------------------------------------------------------------------------

  /** The frames at which following stops whatever was decided. */
  predicate StopsAnyway(frames: seq<Frame>, k: nat)
    requires k < |frames|
  {
    || frames[k].ErrorFrame? || frames[k].Broken? || (frames[k].EventFrame? && Terminal(frames[k].event))
    || Stalls(frames, k)
  }

  predicate NamesAnother(frame: Frame, decided: string)
  {
    NamesOther(frame, Some(decided))
  }

  /** Following after deciding `decided` never stops at that approval, and stops at the first other named one. */
  lemma FollowStopsAtOthers(frames: seq<Frame>, decided: string, stop: nat)
    requires FirstStop(frames, Some(decided), stop)
    ensures stop < |frames| ==> frames[stop] != EventFrame(ApprovalEvent(Some(decided)))
    ensures forall j: nat | j < |frames| && NamesAnother(frames[j], decided) :: stop <= j
    ensures forall j: nat | j < |frames| && StopsAnyway(frames, j) :: stop <= j
    ensures stop < |frames| ==> NamesAnother(frames[stop], decided) || StopsAnyway(frames, stop)
  {
    forall j: nat | j < |frames| && NamesAnother(frames[j], decided) ensures stop <= j {
      assert Stops(frames, Some(decided), j);
    }
    forall j: nat | j < |frames| && StopsAnyway(frames, j) ensures stop <= j {
      assert Stops(frames, Some(decided), j);
    }
  }

  /**
   The replay reaches past every approval already in the log exactly when no other approval is named before the
   frame that ends the stream anyway. An older decided approval earlier in the log therefore stops it again.
   */
  lemma FollowReachesTheEnd(frames: seq<Frame>, decided: string, record: RecordReply, stop: nat, end: nat)
    requires FirstStop(frames, Some(decided), stop)
    requires end <= |frames| && (end < |frames| ==> StopsAnyway(frames, end))
    requires forall j: nat | j < end :: !StopsAnyway(frames, j)
    ensures stop == end <==> forall j: nat | j < end :: !NamesAnother(frames[j], decided)
    ensures StatusAt(frames, Some(decided), record, stop) == AwaitingApproval <==>
            exists j: nat :: j < end && NamesAnother(frames[j], decided)
  {
    FollowStopsAtOthers(frames, decided, stop);
    if stop < end {
      assert NamesAnother(frames[stop], decided);
    }
  }

  /** When the decided approval is the earliest named one, following stops at the next held action or at the end. */
  lemma FollowAfterEarliest(frames: seq<Frame>, decided: string, stop: nat, next: nat)
    requires FirstStop(frames, Some(decided), stop)
    requires next <= |frames| && (next < |frames| ==> NamesAnother(frames[next], decided) || StopsAnyway(frames, next))
    requires forall j: nat | j < next :: !NamesAnother(frames[j], decided) && !StopsAnyway(frames, j)
    ensures stop == next
  {
    FollowStopsAtOthers(frames, decided, stop);
  }
}
