/** The two goroutines of a protected local run: the caller that runs the work,
    and the monitor that re-checks priority, memory and envelope on every tick.
    They share a completion channel, a cancellable context, a tick channel and a
    result channel with one slot.  A run is any interleaving of their steps with
    ticks, a tick channel that closes at any time (the shipped time.Ticker never
    closes its channel, an injected tick source may), and cancellation by the
    parent context. */
module Monitor {

  datatype Cause = PriorityYield | MemoryReserve | EnvelopeChanged | TickerStopped

  /** What the monitor sends: nil, or the failure it observed. */
  datatype Report = Quiet | Failure(cause: Cause)

  datatype Slot = Vacant | Holding(report: Report)

  /** The caller: run the work, close the completion channel, stop the ticker,
      cancel the context, receive the report. */
  datatype CallerPc = Working | Closing | Stopping | Cancelling | Receiving | Returned

  datatype MonitorPc =
    | Selecting
    | Checking(cause: Cause)
    | Reporting(failure: Cause)
    | Sending(report: Report)
    | CancelAfterSend
    | Exited

  datatype State = State(
    caller: CallerPc,
    monitor: MonitorPc,
    workFinished: bool,
    contextCancelled: bool,
    tickerStopped: bool,
    ticksClosed: bool,
    pendingTicks: nat,
    slot: Slot,
    sends: nat,
    received: Slot)

  datatype Action =
    | Tick | TicksClose | ParentCancel
    | CallerStep
    | SelectFinished | SelectCancelled | SelectTick | SelectTicksClosed
    | CheckPasses | CheckFails
    | TestFinished | Send | Cancel

  const INITIAL := State(Working, Selecting, false, false, false, false, 0, Vacant, 0, Vacant)

  predicate Enabled(s: State, a: Action) {
    match a
    case Tick => !s.tickerStopped && !s.ticksClosed
    case TicksClose => !s.ticksClosed
    case ParentCancel => !s.contextCancelled
    case CallerStep => !s.caller.Returned? && (s.caller.Receiving? ==> s.slot.Holding?)
    case SelectFinished => s.monitor.Selecting? && s.workFinished
    case SelectCancelled => s.monitor.Selecting? && s.contextCancelled
    case SelectTick => s.monitor.Selecting? && s.pendingTicks > 0
    case SelectTicksClosed => s.monitor.Selecting? && s.pendingTicks == 0 && s.ticksClosed
    case CheckPasses => s.monitor.Checking?
    case CheckFails => s.monitor.Checking?
    case TestFinished => s.monitor.Reporting?
    case Send => s.monitor.Sending? && s.slot.Vacant?
    case Cancel => s.monitor.CancelAfterSend?
  }

  function AfterCaller(s: State): State {
    match s.caller
    case Working => s.(caller := Closing)
    case Closing => s.(caller := Stopping, workFinished := true)
    case Stopping => s.(caller := Cancelling, tickerStopped := true)
    case Cancelling => s.(caller := Receiving, contextCancelled := true)
    case Receiving => s.(caller := Returned, received := s.slot, slot := Vacant)
    case Returned => s
  }

  /** Priority first, then memory, then the envelope, then back to the select. */
  function AfterPass(cause: Cause): MonitorPc {
    match cause
    case PriorityYield => Checking(MemoryReserve)
    case MemoryReserve => Checking(EnvelopeChanged)
    case _ => Selecting
  }

  function Apply(s: State, a: Action): State
    requires Enabled(s, a)
  {
    match a
    case Tick => s.(pendingTicks := s.pendingTicks + 1)
    case TicksClose => s.(ticksClosed := true)
    case ParentCancel => s.(contextCancelled := true)
    case CallerStep => AfterCaller(s)
    case SelectFinished => s.(monitor := Sending(Quiet))
    case SelectCancelled => s.(monitor := Sending(Quiet))
    case SelectTick => s.(monitor := Checking(PriorityYield), pendingTicks := s.pendingTicks - 1)
    case SelectTicksClosed => s.(monitor := Sending(Failure(TickerStopped)))
    case CheckPasses => s.(monitor := AfterPass(s.monitor.cause))
    case CheckFails => s.(monitor := Reporting(s.monitor.cause))
    case TestFinished => s.(monitor := Sending(if s.workFinished then Quiet else Failure(s.monitor.failure)))
    case Send =>
      s.(slot := Holding(s.monitor.report), sends := s.sends + 1,
         monitor := if s.monitor.report.Failure? then CancelAfterSend else Exited)
    case Cancel => s.(monitor := Exited, contextCancelled := true)
  }

  ghost predicate Next(s: State, t: State) {
    exists a :: Enabled(s, a) && t == Apply(s, a)
  }

  ghost predicate Run(states: seq<State>) {
    && |states| > 0
    && states[0] == INITIAL
    && forall i :: 0 < i < |states| ==> StepAt(states, i)
  }

  ghost predicate StepAt(states: seq<State>, i: int)
    requires 0 < i < |states|
  {
    Next(states[i - 1], states[i])
  }

  predicate HasSent(s: State) {
    s.monitor.CancelAfterSend? || s.monitor.Exited?
  }

  /** The inductive invariant of the protocol. */
  ghost predicate Inv(s: State) {
    && s.workFinished == !(s.caller.Working? || s.caller.Closing?)
    && s.tickerStopped == (s.caller.Cancelling? || s.caller.Receiving? || s.caller.Returned?)
    && (s.caller.Receiving? || s.caller.Returned? ==> s.contextCancelled)
    && s.sends == (if HasSent(s) then 1 else 0)
    && (s.slot.Holding? <==> HasSent(s) && !s.caller.Returned?)
    && (s.received.Holding? <==> s.caller.Returned?)
    && (s.caller.Returned? ==> HasSent(s))
    && (s.monitor.Exited? ==> s.workFinished || s.contextCancelled)
    && (s.monitor == Sending(Quiet) ==> s.workFinished || s.contextCancelled)
    && (s.monitor.CancelAfterSend? && s.slot.Holding? ==> s.slot.report.Failure?)
    && (s.monitor.Exited? && !s.contextCancelled ==> s.slot == Holding(Quiet))
    && (s.monitor.Checking? || s.monitor.Reporting? ==>
          (if s.monitor.Checking? then s.monitor.cause else s.monitor.failure) != TickerStopped)
  }

  lemma StepKeepsInv(s: State, a: Action)
    requires Inv(s) && Enabled(s, a)
    ensures Inv(Apply(s, a))
  {
  }

  lemma {:induction false} RunKeepsInv(states: seq<State>, i: nat)
    requires Run(states) && i < |states|
    ensures Inv(states[i])
  {
    if i > 0 {
      RunKeepsInv(states, i - 1);
      assert StepAt(states, i);
      var a :| Enabled(states[i - 1], a) && states[i] == Apply(states[i - 1], a);
      StepKeepsInv(states[i - 1], a);
    }
  }

  /** Work never runs unwatched: while the work runs and its context is live the
      monitor has not returned, and once it has returned after a failure the
      context is cancelled. */
  lemma WorkIsNeverUnwatched(states: seq<State>, i: nat)
    requires Run(states) && i < |states|
    ensures states[i].caller.Working? && !states[i].contextCancelled ==> !states[i].monitor.Exited?
    ensures states[i].monitor.Exited? && states[i].slot.Holding? && states[i].slot.report.Failure? ==>
              states[i].contextCancelled
  {
    RunKeepsInv(states, i);
  }

  /** The monitor's one send never blocks, there is never a second one, and the
      caller returns with exactly the report that was sent. */
  lemma ExactlyOneReport(states: seq<State>, i: nat)
    requires Run(states) && i < |states|
    ensures states[i].monitor.Sending? ==> Enabled(states[i], Send)
    ensures states[i].sends <= 1
    ensures states[i].monitor.Exited? ==> states[i].sends == 1
    ensures states[i].caller.Returned? ==>
              states[i].sends == 1 && states[i].received.Holding? && states[i].slot.Vacant?
    ensures states[i].caller.Returned? ==>
              exists j :: 0 <= j < i && states[j].monitor.Sending? && states[i].received == Holding(states[j].monitor.report)
  {
    RunKeepsInv(states, i);
    if states[i].caller.Returned? {
      HeldReportWasSent(states, i);
      assert Holds(states[i], states[i].received.report);
    }
  }

  predicate Holds(s: State, report: Report) {
    s.slot == Holding(report) || s.received == Holding(report)
  }

  lemma HeldComesFromSending(s: State, a: Action, report: Report)
    requires Enabled(s, a) && Holds(Apply(s, a), report)
    ensures Holds(s, report) || s.monitor == Sending(report)
  {
  }

  /** A report in the channel, or received from it, is one the monitor was sending. */
  lemma {:induction false} HeldReportWasSent(states: seq<State>, i: nat)
    requires Run(states) && i < |states|
    ensures forall report :: Holds(states[i], report) ==>
              exists j :: 0 <= j < i && states[j].monitor == Sending(report)
  {
    if i > 0 {
      HeldReportWasSent(states, i - 1);
      assert StepAt(states, i);
      var a :| Enabled(states[i - 1], a) && states[i] == Apply(states[i - 1], a);
      forall report | Holds(states[i], report)
        ensures Holds(states[i - 1], report) || states[i - 1].monitor == Sending(report)
      {
        HeldComesFromSending(states[i - 1], a, report);
      }
    }
  }

  predicate Carries(s: State, cause: Cause) {
    || s.monitor == Sending(Failure(cause))
    || s.slot == Holding(Failure(cause))
    || s.received == Holding(Failure(cause))
  }

  /** A failed check is reported only if the work was still unfinished when the
      monitor looked, after the check had failed: a late failure cannot change
      the result of completed work. */
  lemma ReportedFailurePrecedesCompletion(states: seq<State>, i: nat, cause: Cause)
    requires Run(states) && i < |states| && cause != TickerStopped
    requires Carries(states[i], cause)
    ensures exists j :: 0 <= j < i && states[j].monitor == Reporting(cause) && !states[j].workFinished
  {
    CarriedWasTakenUp(states, i, cause);
    var j :| 0 < j <= i && TakesUp(states, j, cause);
    assert states[j - 1].monitor == Reporting(cause);
  }

  // ---- The ticker's failure is not filtered that way ----

  lemma TickerFailureComesFromClosing(s: State, a: Action)
    requires Inv(s) && Enabled(s, a) && Carries(Apply(s, a), TickerStopped)
    ensures Carries(s, TickerStopped) || s.ticksClosed
    ensures s.ticksClosed ==> Apply(s, a).ticksClosed
  {
  }

  lemma {:induction false} TickerFailureMeansClosedTicks(states: seq<State>, i: nat)
    requires Run(states) && i < |states| && Carries(states[i], TickerStopped)
    ensures states[i].ticksClosed
  {
    if i > 0 {
      RunKeepsInv(states, i - 1);
      assert StepAt(states, i);
      var a :| Enabled(states[i - 1], a) && states[i] == Apply(states[i - 1], a);
      TickerFailureComesFromClosing(states[i - 1], a);
      if Carries(states[i - 1], TickerStopped) {
        TickerFailureMeansClosedTicks(states, i - 1);
      }
    }
  }

  /** While the tick channel is open, every carried failure, whatever its cause,
      was found before the work completed. */
  lemma OpenTicksReportInTime(states: seq<State>, i: nat, cause: Cause)
    requires Run(states) && i < |states| && Carries(states[i], cause) && !states[i].ticksClosed
    ensures exists j :: 0 <= j < i && states[j].monitor == Reporting(cause) && !states[j].workFinished
  {
    if cause == TickerStopped {
      TickerFailureMeansClosedTicks(states, i);
    } else {
      ReportedFailurePrecedesCompletion(states, i, cause);
    }
  }

  /** The step into state i starts a failure report although the work is done. */
  predicate ReportsLate(states: seq<State>, i: int) {
    0 < i < |states| && states[i - 1].workFinished
    && !states[i - 1].monitor.Sending? && states[i].monitor.Sending? && states[i].monitor.report.Failure?
  }

  function Last(states: seq<State>): State
    requires states != []
  {
    states[|states| - 1]
  }

  lemma Extend(states: seq<State>, a: Action) returns (longer: seq<State>)
    requires Run(states) && Enabled(Last(states), a)
    ensures Run(longer) && states < longer && |longer| == |states| + 1 && Last(longer) == Apply(Last(states), a)
  {
    longer := states + [Apply(Last(states), a)];
    forall i | 0 < i < |longer| ensures StepAt(longer, i) {
      if i < |states| {
        assert StepAt(states, i);
      }
    }
  }

  predicate ClosedAfterWork(s: State) {
    s.ticksClosed && s.workFinished && s.monitor.Selecting?
  }

  /** The ticks that are still buffered pass their checks. */
  lemma {:induction false} DrainTicks(states: seq<State>) returns (longer: seq<State>)
    requires Run(states) && ClosedAfterWork(Last(states))
    ensures Run(longer) && states <= longer && ClosedAfterWork(Last(longer)) && Last(longer).pendingTicks == 0
    decreases Last(states).pendingTicks
  {
    longer := states;
    if Last(states).pendingTicks > 0 {
      longer := Extend(longer, SelectTick);
      longer := Extend(longer, CheckPasses);
      longer := Extend(longer, CheckPasses);
      longer := Extend(longer, CheckPasses);
      longer := DrainTicks(longer);
    }
  }

  lemma {:induction false} CallerReturns(states: seq<State>, report: Report) returns (longer: seq<State>)
    requires Run(states) && Last(states).slot == Holding(report) && !Last(states).caller.Returned?
    ensures Run(longer) && states < longer && Last(longer).caller.Returned? && Last(longer).received == Holding(report)
    ensures Last(longer).ticksClosed == Last(states).ticksClosed
    decreases CallerRank(Last(states).caller)
  {
    longer := Extend(states, CallerStep);
    if !Last(states).caller.Receiving? {
      longer := CallerReturns(longer, report);
    }
  }

  /** Wherever the channel has closed and the work is done while the monitor is
      selecting, the select may pick the closed channel, and the caller then
      returns that failure for completed work. */
  lemma ClosedTicksMayReportLate(states: seq<State>) returns (longer: seq<State>)
    requires Run(states) && ClosedAfterWork(Last(states))
    ensures Run(longer) && states <= longer && exists i :: |states| <= i && ReportsLate(longer, i)
    ensures Last(longer).caller.Returned? && Last(longer).received == Holding(Failure(TickerStopped))
  {
    var drained := DrainTicks(states);
    RunKeepsInv(drained, |drained| - 1);
    var late := Extend(drained, SelectTicksClosed);
    assert ReportsLate(late, |drained|);
    longer := Extend(late, Send);
    longer := CallerReturns(longer, Failure(TickerStopped));
    assert ReportsLate(longer, |drained|);
  }

  /** A run that does it: the channel closes, the work completes, and the caller
      returns the ticker's failure. */
  lemma TickerFailureMayOutliveTheWork() returns (states: seq<State>, i: nat)
    ensures Run(states) && ReportsLate(states, i)
    ensures Last(states).caller.Returned? && Last(states).received == Holding(Failure(TickerStopped))
  {
    states := [INITIAL];
    states := Extend(states, TicksClose);
    states := Extend(states, CallerStep);
    states := Extend(states, CallerStep);
    var longer := ClosedTicksMayReportLate(states);
    i :| |states| <= i && ReportsLate(longer, i);
    states := longer;
  }

  lemma LateReportMeansClosedTicks(states: seq<State>, i: nat)
    requires Run(states) && ReportsLate(states, i)
    ensures states[i].ticksClosed
  {
    assert StepAt(states, i);
  }

  /** The runs a tick source allows: one that never closes its channel, such as
      the shipped time.Ticker, rules out the states in which it is closed. */
  ghost predicate RunWith(closes: bool, states: seq<State>) {
    Run(states) && (!closes ==> forall i :: 0 <= i < |states| ==> !states[i].ticksClosed)
  }

  /** A failure that is found after the work has completed can be reported if
      and only if the tick source can close its channel. */
  lemma LateReportsNeedAClosingTicker(closes: bool)
    ensures (exists states, i :: RunWith(closes, states) && ReportsLate(states, i)) <==> closes
  {
    if closes {
      var states, i := TickerFailureMayOutliveTheWork();
      assert RunWith(closes, states) && ReportsLate(states, i);
    } else {
      forall states, i | RunWith(closes, states) && ReportsLate(states, i) ensures false {
        LateReportMeansClosedTicks(states, i);
      }
    }
  }

  // ---- When the caller returns a failure ----

  /** The step in which the monitor takes up a failed check: its test of the
      completion channel comes before the channel is closed. */
  predicate TestsInTime(s: State, t: State, cause: Cause) {
    s.monitor == Reporting(cause) && !s.workFinished && t.monitor == Sending(Failure(cause))
  }

  /** The step in which the select picks the closed tick channel. */
  predicate PicksClosedTicks(s: State, t: State) {
    s.monitor.Selecting? && s.ticksClosed && s.pendingTicks == 0 && t.monitor == Sending(Failure(TickerStopped))
  }

  predicate TakesUp(states: seq<State>, j: int, cause: Cause) {
    && 0 < j < |states|
    && (TestsInTime(states[j - 1], states[j], cause) || (cause == TickerStopped && PicksClosedTicks(states[j - 1], states[j])))
  }

  lemma CarriedFailureStays(s: State, a: Action, cause: Cause)
    requires Inv(s) && Enabled(s, a) && Carries(s, cause)
    ensures Carries(Apply(s, a), cause)
  {
  }

  lemma NewFailureIsTakenUp(s: State, a: Action, cause: Cause)
    requires Enabled(s, a) && !Carries(s, cause) && Carries(Apply(s, a), cause)
    ensures TestsInTime(s, Apply(s, a), cause) || (cause == TickerStopped && PicksClosedTicks(s, Apply(s, a)))
  {
  }

  lemma {:induction false} CarriedWasTakenUp(states: seq<State>, i: nat, cause: Cause)
    requires Run(states) && i < |states| && Carries(states[i], cause)
    ensures exists j :: 0 < j <= i && TakesUp(states, j, cause)
  {
    if i > 0 {
      assert StepAt(states, i);
      var a :| Enabled(states[i - 1], a) && states[i] == Apply(states[i - 1], a);
      if Carries(states[i - 1], cause) {
        CarriedWasTakenUp(states, i - 1, cause);
      } else {
        NewFailureIsTakenUp(states[i - 1], a, cause);
        assert TakesUp(states, i, cause);
      }
    }
  }

  lemma {:induction false} TakenUpIsCarried(states: seq<State>, j: nat, i: nat, cause: Cause)
    requires Run(states) && j <= i < |states| && TakesUp(states, j, cause)
    ensures Carries(states[i], cause)
    decreases i
  {
    if j < i {
      TakenUpIsCarried(states, j, i - 1, cause);
      RunKeepsInv(states, i - 1);
      assert StepAt(states, i);
      var a :| Enabled(states[i - 1], a) && states[i] == Apply(states[i - 1], a);
      CarriedFailureStays(states[i - 1], a, cause);
    }
  }

  /** However the run goes, the caller returns a failure exactly when the monitor
      took it up: its test preceded the close of the completion channel, or the
      select picked a closed tick channel.  When, and under what context, the
      work itself ended makes no difference. */
  lemma FailureIsReturnedIff(states: seq<State>, i: nat, cause: Cause)
    requires Run(states) && i < |states| && states[i].caller.Returned?
    ensures states[i].received == Holding(Failure(cause)) <==> exists j :: 0 < j <= i && TakesUp(states, j, cause)
  {
    RunKeepsInv(states, i);
    if states[i].received == Holding(Failure(cause)) {
      CarriedWasTakenUp(states, i, cause);
    }
    if j: nat :| 0 < j <= i && TakesUp(states, j, cause) {
      TakenUpIsCarried(states, j, i, cause);
    }
  }

  /** In step k the completion channel is closed after work that ended by
      itself: the context is still live. */
  predicate ClosesLive(states: seq<State>, k: int) {
    0 < k < |states| && states[k - 1].caller.Closing? && states[k].workFinished && !states[k].contextCancelled
  }

  /** So even with a tick source that never closes, work that ends by itself,
      under a live context, can be returned as failed: it ends between the
      monitor's test and its send. */
  lemma EndedWorkMayFail() returns (states: seq<State>, k: nat)
    ensures RunWith(false, states) && ClosesLive(states, k)
    ensures Last(states).caller.Returned? && Last(states).received == Holding(Failure(PriorityYield))
  {
    states := [INITIAL];
    states := Extend(states, Tick);
    states := Extend(states, SelectTick);
    states := Extend(states, CheckFails);
    states := Extend(states, TestFinished);
    states := Extend(states, CallerStep);
    k := |states|;
    states := Extend(states, CallerStep);
    assert ClosesLive(states, k);
    states := Extend(states, Send);
    states := CallerReturns(states, Failure(PriorityYield));
    OpenAtTheEnd(states);
  }

  lemma {:induction false} ClosedTicksStayClosed(states: seq<State>, i: nat, j: nat)
    requires Run(states) && i <= j < |states| && states[i].ticksClosed
    ensures states[j].ticksClosed
    decreases j
  {
    if i < j {
      ClosedTicksStayClosed(states, i, j - 1);
      assert StepAt(states, j);
    }
  }

  // ---- The three checks ----

  /** The checks before the given one pass. */
  lemma PassUpTo(states: seq<State>, cause: Cause) returns (longer: seq<State>)
    requires Run(states) && Last(states).monitor == Checking(PriorityYield) && cause != TickerStopped
    ensures Run(longer) && Last(longer) == Last(states).(monitor := Checking(cause))
  {
    longer := states;
    if cause != PriorityYield {
      longer := Extend(longer, CheckPasses);
      if cause == EnvelopeChanged {
        longer := Extend(longer, CheckPasses);
      }
    }
  }

  lemma CheckFailsInTime(cause: Cause) returns (states: seq<State>)
    requires cause != TickerStopped
    ensures Run(states) && Last(states) == INITIAL.(monitor := Reporting(cause))
  {
    states := Extend([INITIAL], Tick);
    states := Extend(states, SelectTick);
    states := PassUpTo(states, cause);
    states := Extend(states, CheckFails);
  }

  lemma TakenUpIsReturned(states: seq<State>, cause: Cause) returns (longer: seq<State>)
    requires Run(states) && Last(states) == INITIAL.(monitor := Reporting(cause))
    ensures Run(longer) && states <= longer && !Last(longer).ticksClosed
    ensures Last(longer).caller.Returned? && Last(longer).received == Holding(Failure(cause))
  {
    longer := Extend(states, TestFinished);
    longer := Extend(longer, Send);
    longer := CallerReturns(longer, Failure(cause));
  }

  /** Each of the three checks can be the one that fails, with a ticker that never
      closes and under a live context; the caller then returns exactly its failure. */
  lemma EachCheckCanFail(cause: Cause) returns (states: seq<State>, k: nat)
    requires cause != TickerStopped
    ensures RunWith(false, states) && k < |states| && states[k].caller.Working? && !states[k].contextCancelled
    ensures states[k].monitor == Reporting(cause)
    ensures Last(states).caller.Returned? && Last(states).received == Holding(Failure(cause))
  {
    var found := CheckFailsInTime(cause);
    k := |found| - 1;
    states := TakenUpIsReturned(found, cause);
    assert states[k] == found[k];
    OpenAtTheEnd(states);
  }

  lemma OpenAtTheEnd(states: seq<State>)
    requires Run(states) && !Last(states).ticksClosed
    ensures RunWith(false, states)
  {
    forall i | 0 <= i < |states| ensures !states[i].ticksClosed {
      if states[i].ticksClosed {
        ClosedTicksStayClosed(states, i, |states| - 1);
      }
    }
  }

  /** In the step to state n the check for the cause is made and passes. */
  predicate PassesAt(states: seq<State>, n: int, cause: Cause) {
    0 < n < |states| && states[n - 1].monitor == Checking(cause) && states[n].monitor != Checking(cause)
    && !states[n].monitor.Reporting?
  }

  ghost predicate Passed(states: seq<State>, j: int, k: int, cause: Cause) {
    exists n :: j < n <= k && PassesAt(states, n, cause)
  }

  ghost predicate PassedTwo(states: seq<State>, j: int, k: int) {
    exists n :: j < n <= k && PassesAt(states, n, MemoryReserve) && Passed(states, j, n - 1, PriorityYield)
  }

  ghost predicate PassedAll(states: seq<State>, j: int, k: int) {
    exists n :: j < n <= k && PassesAt(states, n, EnvelopeChanged) && PassedTwo(states, j, n - 1)
  }

  /** How far the checks of the tick taken at j have come by k. */
  ghost predicate ChecksSoFar(states: seq<State>, j: int, k: int)
    requires 0 <= k < |states|
  {
    match states[k].monitor
    case Selecting => PassedAll(states, j, k)
    case Checking(MemoryReserve) => Passed(states, j, k, PriorityYield)
    case Checking(EnvelopeChanged) => PassedTwo(states, j, k)
    case _ => true
  }

  lemma OneMoreState(states: seq<State>, j: int, k: int, a: Action)
    requires 0 < k < |states| && j < k && Enabled(states[k - 1], a) && states[k] == Apply(states[k - 1], a)
    requires ChecksSoFar(states, j, k - 1)
    requires states[k - 1].monitor.Checking? ==> states[k - 1].monitor.cause != TickerStopped
    ensures ChecksSoFar(states, j, k)
  {
    if a == CheckPasses {
      assert PassesAt(states, k, states[k - 1].monitor.cause);
    }
  }

  lemma {:induction false} ChecksComeInOrder(states: seq<State>, j: nat, k: nat)
    requires Run(states) && j <= k < |states| && states[j].monitor == Checking(PriorityYield)
    ensures ChecksSoFar(states, j, k)
    decreases k
  {
    if j < k {
      ChecksComeInOrder(states, j, k - 1);
      RunKeepsInv(states, k - 1);
      assert StepAt(states, k);
      var a :| Enabled(states[k - 1], a) && states[k] == Apply(states[k - 1], a);
      OneMoreState(states, j, k, a);
    }
  }

  /** If the monitor takes a tick and is selecting again later, each of the three
      checks was made and passed in between: priority, then memory, then the
      envelope. */
  lemma NoTickSkipsACheck(states: seq<State>, j: nat, k: nat)
    requires Run(states) && 0 < j < k < |states|
    requires states[j - 1].monitor.Selecting? && states[j].monitor.Checking? && states[k].monitor.Selecting?
    ensures PassedAll(states, j, k)
  {
    assert StepAt(states, j);
    ChecksComeInOrder(states, j, k);
  }

  /** The select waits until something is ready, and may then pick anything that
      is: a finished or cancelled run, a tick, or the closed tick channel. */
  lemma SelectMovesIff(s: State, t: State)
    requires s.monitor.Selecting? && !t.monitor.Selecting?
    ensures Next(s, t) <==>
            || ((s.workFinished || s.contextCancelled) && t == s.(monitor := Sending(Quiet)))
            || (s.pendingTicks > 0 && t == s.(monitor := Checking(PriorityYield), pendingTicks := s.pendingTicks - 1))
            || (s.pendingTicks == 0 && s.ticksClosed && t == s.(monitor := Sending(Failure(TickerStopped))))
  {
    assert (s.workFinished ==> Enabled(s, SelectFinished)) && (s.contextCancelled ==> Enabled(s, SelectCancelled));
    assert (s.pendingTicks > 0 ==> Enabled(s, SelectTick)) && (s.pendingTicks == 0 && s.ticksClosed ==> Enabled(s, SelectTicksClosed));
  }

  function NextCheck(cause: Cause): MonitorPc {
    match cause
    case PriorityYield => Checking(MemoryReserve)
    case MemoryReserve => Checking(EnvelopeChanged)
    case EnvelopeChanged => Selecting
    case TickerStopped => Selecting
  }

  /** A check passes or fails, at any time; the test of a failure then decides. */
  lemma CheckMovesIff(s: State, t: State)
    requires (s.monitor.Checking? || s.monitor.Reporting?) && t.monitor != s.monitor
    ensures Next(s, t) <==>
            if s.monitor.Checking? then
              t == s.(monitor := NextCheck(s.monitor.cause)) || t == s.(monitor := Reporting(s.monitor.cause))
            else t == s.(monitor := Sending(if s.workFinished then Quiet else Failure(s.monitor.failure)))
  {
    if s.monitor.Checking? {
      assert Enabled(s, CheckPasses) && Enabled(s, CheckFails);
    } else {
      assert Enabled(s, TestFinished);
    }
  }

  /** Once the parent cancels, the monitor can end its watch with nothing to
      report while the work is still running. */
  lemma CancelledParentEndsTheWatch(states: seq<State>) returns (longer: seq<State>)
    requires Run(states) && Last(states).monitor.Selecting? && Last(states).caller.Working? && !Last(states).contextCancelled
    ensures Run(longer) && states <= longer && Last(longer).caller.Working? && Last(longer).contextCancelled
    ensures Last(longer).monitor.Exited? && Last(longer).slot == Holding(Quiet)
  {
    RunKeepsInv(states, |states| - 1);
    longer := Extend(states, ParentCancel);
    longer := Extend(longer, SelectCancelled);
    longer := Extend(longer, Send);
  }

  /** Steps of the two goroutines, as opposed to their environment. */
  predicate IsOwnStep(a: Action) {
    !(a.Tick? || a.TicksClose? || a.ParentCancel?)
  }

  /** No deadlock: from every reachable state in which the caller has not
      returned, one of the two goroutines can move. */
  lemma NeverStuck(states: seq<State>, i: nat) returns (a: Action)
    requires Run(states) && i < |states| && !states[i].caller.Returned?
    ensures IsOwnStep(a) && Enabled(states[i], a)
  {
    RunKeepsInv(states, i);
    var s := states[i];
    if Enabled(s, CallerStep) {
      a := CallerStep;
    } else {
      a := match s.monitor
        case Selecting => SelectCancelled
        case Checking(_) => CheckPasses
        case Reporting(_) => TestFinished
        case Sending(_) => Send
        case _ => Cancel;
    }
  }

  function CallerRank(pc: CallerPc): nat {
    match pc
    case Working => 5
    case Closing => 4
    case Stopping => 3
    case Cancelling => 2
    case Receiving => 1
    case Returned => 0
  }

  function MonitorRank(pc: MonitorPc): nat {
    match pc
    case Selecting => 5
    case Checking(PriorityYield) => 8
    case Checking(MemoryReserve) => 7
    case Checking(_) => 6
    case Reporting(_) => 4
    case Sending(_) => 3
    case CancelAfterSend => 1
    case Exited => 0
  }

  /** What is left to do once no further tick can arrive. */
  function Remaining(s: State): nat {
    CallerRank(s.caller) + MonitorRank(s.monitor) + 4 * s.pendingTicks
    + (if s.contextCancelled then 0 else 1) + (if s.ticksClosed then 0 else 1)
  }

  lemma EveryStepMakesProgress(s: State, a: Action)
    requires Enabled(s, a) && s.tickerStopped
    ensures Remaining(Apply(s, a)) < Remaining(s)
    ensures Apply(s, a).tickerStopped
  {
  }

  /** After the ticker has stopped a run is at most `Remaining` steps longer,
      whatever the schedule; with NeverStuck this means the caller returns. */
  lemma {:induction false} RunsEndAfterTickerStops(states: seq<State>, i: nat, j: nat)
    requires Run(states) && i <= j < |states| && states[i].tickerStopped
    ensures states[j].tickerStopped && Remaining(states[j]) + (j - i) <= Remaining(states[i])
    decreases j
  {
    if i < j {
      RunsEndAfterTickerStops(states, i, j - 1);
      assert StepAt(states, j);
      var a :| Enabled(states[j - 1], a) && states[j] == Apply(states[j - 1], a);
      EveryStepMakesProgress(states[j - 1], a);
    }
  }
}
