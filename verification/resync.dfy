/** The default restart resynchronisation of jpeg_source_mgr, as a value:
    what resync_to_restart returns, which marker it leaves pending, how many
    markers it asks the marker reader for, and which diagnostics it issues.
    The marker reader (next_marker) is a script: the markers it will find,
    in order; once the script is exhausted it suspends. */
module Resync {
  import opened Markers
  import opened Recovery

  /** The two message codes resync_to_restart issues (JWRN_MUST_RESYNC and
      JTRC_RECOVERY_ACTION). */
  datatype MessageCode = MustResync | RecoveryActionTrace

  /** A diagnostic as WARNMS2 and TRACEMS2 issue it: code and two parameters,
      plus the level for a trace. */
  datatype Message =
    | Warning(code: MessageCode, p1: int, p2: int)
    | Trace(level: int, code: MessageCode, p1: int, p2: int)

  /** The trace level of the recovery-action message. */
  const RecoveryTraceLevel: int := 4

  /** What one call of resync_to_restart leaves behind: its return value, the
      pending marker code afterwards, how many markers it took from the
      marker reader, and the traces of its decision loop in order. */
  datatype Outcome = Outcome(ok: bool, unread: int, consumed: nat, traces: seq<Message>)

  /** The trace issued for one turn of the decision loop. */
  function RecoveryTrace(marker: int, desired: int): Message
  {
    Trace(RecoveryTraceLevel, RecoveryActionTrace, marker, Code(ChooseAction(marker, desired)))
  }

  /** The last marker code seen: the pending one if the reader found none. */
  function LastSeen(marker: int, upcoming: seq<int>): int
  {
    if upcoming == [] then marker else upcoming[|upcoming| - 1]
  }

  /** The decision loop of resync_to_restart, starting from pending marker
      `marker`, with `upcoming` the markers next_marker will find. */
  function ResyncLoop(marker: int, desired: int, upcoming: seq<int>): (r: Outcome)
    ensures r.consumed <= |upcoming| && |r.traces| == r.consumed + 1
    ensures !r.ok ==> r.consumed == |upcoming| && r.unread == LastSeen(marker, upcoming)
    ensures r.ok ==> r.unread == 0 || ChooseAction(r.unread, desired) == LeaveUnread
    decreases |upcoming|
  {
    var t := RecoveryTrace(marker, desired);
    match ChooseAction(marker, desired)
    case Discard => Outcome(true, 0, 0, [t])
    case LeaveUnread => Outcome(true, marker, 0, [t])
    case ScanForward =>
      if upcoming == [] then
        Outcome(false, marker, 0, [t])   // next_marker suspends
      else
        var r := ResyncLoop(upcoming[0], desired, upcoming[1..]);
        Outcome(r.ok, r.unread, r.consumed + 1, [t] + r.traces)
  }

  /** The outcome of the decision loop after `k` markers were taken from
      the reader and the traces `traced` issued, when `rest` is the outcome
      of the remaining turns. */
  function Resumed(rest: Outcome, k: nat, traced: seq<Message>): Outcome
  {
    Outcome(rest.ok, rest.unread, rest.consumed + k, traced + rest.traces)
  }

  /** A turn that scans forward and finds a marker hands the decision to
      the loop that starts from that marker. */
  lemma ResyncLoopAdvance(marker: int, desired: int, upcoming: seq<int>, k: nat, traced: seq<Message>)
    requires ChooseAction(marker, desired) == ScanForward && upcoming != []
    ensures Resumed(ResyncLoop(marker, desired, upcoming), k, traced)
            == Resumed(ResyncLoop(upcoming[0], desired, upcoming[1..]), k + 1, traced + [RecoveryTrace(marker, desired)])
  {
    var next := ResyncLoop(upcoming[0], desired, upcoming[1..]);
    assert traced + ([RecoveryTrace(marker, desired)] + next.traces)
           == traced + [RecoveryTrace(marker, desired)] + next.traces;
  }

  /** Every diagnostic of one call: the warning first, then the traces. */
  function ResyncMessages(marker: int, desired: int, upcoming: seq<int>): seq<Message>
  {
    [Warning(MustResync, marker, desired)] + ResyncLoop(marker, desired, upcoming).traces
  }

  function CountWarnings(log: seq<Message>): nat
  {
    if log == [] then 0 else (if log[0].Warning? then 1 else 0) + CountWarnings(log[1..])
  }

  function CountTraces(log: seq<Message>): nat
  {
    if log == [] then 0 else (if log[0].Trace? then 1 else 0) + CountTraces(log[1..])
  }

  /** The loop examines the pending marker and then the markers found, in
      order: it scans past every marker before the `consumed`-th, settles on
      that one if it is not to be scanned past, and fails only when it must
      scan past it and the reader has nothing more. */
  lemma {:induction false} ResyncClosedForm(marker: int, desired: int, upcoming: seq<int>)
    ensures var r := ResyncLoop(marker, desired, upcoming);
            var seen := [marker] + upcoming;
            && (forall j | 0 <= j < r.consumed :: ChooseAction(seen[j], desired) == ScanForward)
            && (r.ok <==> ChooseAction(seen[r.consumed], desired) != ScanForward)
            && (r.ok ==> r.unread == if ChooseAction(seen[r.consumed], desired) == Discard
                                     then 0 else seen[r.consumed])
    decreases |upcoming|
  {
    var seen := [marker] + upcoming;
    if ChooseAction(marker, desired) == ScanForward && upcoming != [] {
      ResyncClosedForm(upcoming[0], desired, upcoming[1..]);
      assert [upcoming[0]] + upcoming[1..] == upcoming;
      assert forall j | 1 <= j < |seen| :: seen[j] == upcoming[j - 1];
    }
  }

  /** resync_to_restart returns false exactly when every marker it could
      examine must be scanned past, i.e. when next_marker suspends. */
  lemma ResyncFailsOnlyOnSuspension(marker: int, desired: int, upcoming: seq<int>)
    ensures var seen := [marker] + upcoming;
            !ResyncLoop(marker, desired, upcoming).ok <==>
              forall j | 0 <= j < |seen| :: ChooseAction(seen[j], desired) == ScanForward
  {
    ResyncClosedForm(marker, desired, upcoming);
  }

  /** The j-th trace reports the j-th marker examined and the action chosen
      for it. */
  lemma {:induction false} ResyncTraceAt(marker: int, desired: int, upcoming: seq<int>, j: nat)
    requires j < |ResyncLoop(marker, desired, upcoming).traces|
    ensures j <= |upcoming|
    ensures ResyncLoop(marker, desired, upcoming).traces[j] == RecoveryTrace(([marker] + upcoming)[j], desired)
    decreases |upcoming|
  {
    if j > 0 {
      ResyncTraceAt(upcoming[0], desired, upcoming[1..], j - 1);
    }
  }

  lemma {:induction false} CountsOfTraces(traces: seq<Message>)
    requires forall j | 0 <= j < |traces| :: traces[j].Trace?
    ensures CountWarnings(traces) == 0 && CountTraces(traces) == |traces|
  {
    if traces != [] {
      CountsOfTraces(traces[1..]);
    }
  }

  /** One warning per call and one trace per turn of the decision loop; the
      loop turns once more than the number of markers it took from the
      reader. */
  lemma ResyncMessageCounts(marker: int, desired: int, upcoming: seq<int>)
    ensures var log := ResyncMessages(marker, desired, upcoming);
            CountWarnings(log) == 1 &&
            CountTraces(log) == ResyncLoop(marker, desired, upcoming).consumed + 1
  {
    var traces := ResyncLoop(marker, desired, upcoming).traces;
    forall j | 0 <= j < |traces| ensures traces[j].Trace? {
      ResyncTraceAt(marker, desired, upcoming, j);
    }
    CountsOfTraces(traces);
    var log := ResyncMessages(marker, desired, upcoming);
    assert log[1..] == traces;
  }

  /** A marker left pending is left pending again by the next call: it
      settles at once, taking nothing from the reader. */
  lemma ResyncSettled(marker: int, desired: int, upcoming: seq<int>, later: seq<int>)
    requires ResyncLoop(marker, desired, upcoming).ok
    ensures var u := ResyncLoop(marker, desired, upcoming).unread;
            u != 0 ==> ResyncLoop(u, desired, later) == Outcome(true, u, 0, [RecoveryTrace(u, desired)])
  {
  }

  /** A bogus code, then a restart marker two behind (RST1 when RST3 is
      desired), then the desired RST3: two scans, then a discard; three
      traces and one warning. */
  lemma TwoScansThenDiscard()
    ensures ResyncLoop(0x01, 3, [RST0 + 1, RST0 + 3]) == Outcome(true, 0, 2, [
              Trace(4, RecoveryActionTrace, 0x01, 2),
              Trace(4, RecoveryActionTrace, RST0 + 1, 2),
              Trace(4, RecoveryActionTrace, RST0 + 3, 1)])
    ensures |ResyncMessages(0x01, 3, [RST0 + 1, RST0 + 3])| == 4
  {
    var last := ResyncLoop(RST0 + 3, 3, []);
    assert last == Outcome(true, 0, 0, [Trace(4, RecoveryActionTrace, RST0 + 3, 1)]);
    assert [RST0 + 1, RST0 + 3][1..] == [RST0 + 3];
    assert ResyncLoop(RST0 + 1, 3, [RST0 + 3]) == Outcome(true, 0, 1, [Trace(4, RecoveryActionTrace, RST0 + 1, 2)] + last.traces);
  }
}
