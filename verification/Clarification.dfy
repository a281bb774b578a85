/** One clarification run: its states, its attempts, and what starting, cancelling, runtime events
    and retry claims do to it. */
module Clarification {
  import opened Protocol
  import DeliveryLedger

  const UNKNOWN_FAILURE := "execution_outcome_unknown"
  const DEFAULT_MAX_ATTEMPTS := 3
  const MAX_ACTIVITY_CHARS := 1000

  datatype State = Idle | Running | Retrying | Completed | Failed

  datatype FailureClass = RuntimeFailure | OutcomeUnknown | RetryExhausted | OwnerUnavailable | Cancelled

  datatype AttemptOutcome = AttemptCompleted | AttemptFailed(failureClass: FailureClass)

  datatype CommandKind = StartCommand | ResumeCommand

  datatype Attempt = Attempt(number: nat, commandId: Name, kind: CommandKind, outcome: Option<AttemptOutcome>)

  /** The session row of a run together with its attempt rows. An attempt id is a digest of the run
      and the attempt number, so the number stands for it. */
  datatype Run = Run(
    requirementId: Name,
    startMessageId: Name,
    daemonId: Option<Name>,
    state: State,
    runtimeId: Option<string>,
    cancelRequested: bool,
    attemptCount: nat,
    maxAttempts: nat,
    currentAttempt: Option<nat>,
    nextRetryAt: Option<nat>,
    failure: Option<FailureClass>,
    startCommandId: Option<Name>,
    cancelCommandId: Option<Name>,
    attempts: seq<Attempt>)

  predicate Terminal(r: Run) { r.state.Completed? || r.state.Failed? }

  /* ---- What a caller sees ---- */

  datatype Phase = AwaitingAssignment | Active | Ended

  datatype ViewStatus = Starting | InProgress | Unavailable | RetryPending | Done | Broken

  datatype View = View(phase: Phase, status: ViewStatus)

  /** The public view of a run, or nothing for a row no view describes. */
  function IntoRun(r: Run, connected: bool): Option<View> {
    match r.state
    case Completed => Some(View(Ended, Done))
    case Failed => Some(View(Ended, Broken))
    case Idle =>
      if r.daemonId.None? then Some(View(AwaitingAssignment, Unavailable))
      else Some(View(Active, if connected then Starting else Unavailable))
    case Running =>
      if r.daemonId.None? then None
      else if r.runtimeId.None? && r.currentAttempt.Some? && connected then Some(View(Active, Starting))
      else Some(View(Active, if connected then InProgress else Unavailable))
    case Retrying =>
      if r.daemonId.None? then None else Some(View(Active, RetryPending))
  }

  /* ---- Operations ---- */

  function WithAttempt(r: Run, commandId: Name, kind: CommandKind): Run {
    r.(attempts := r.attempts + [Attempt(r.attemptCount + 1, commandId, kind, None)],
       attemptCount := r.attemptCount + 1,
       currentAttempt := Some(r.attemptCount + 1))
  }

  /** A new run, with its first attempt if a daemon could be chosen at once. */
  function NewRun(requirementId: Name, startMessageId: Name, daemon: Option<Name>, commandId: Name): Run {
    var idle := Run(requirementId, startMessageId, daemon, Idle, None, false, 0, DEFAULT_MAX_ATTEMPTS,
                    None, None, None, None, None, []);
    if daemon.None? then idle else WithAttempt(idle.(startCommandId := Some(commandId)), commandId, StartCommand)
  }

  /** A repeated start finds the run waiting for a daemon and a daemon to give it. */
  function Assign(r: Run, daemon: Name, commandId: Name): Run {
    if r.state == Idle && r.daemonId.None? && !r.cancelRequested
    then WithAttempt(r.(daemonId := Some(daemon), startCommandId := Some(commandId)), commandId, StartCommand)
    else r
  }

  /** Without an open attempt a cancelled run ends at once; with one it waits for the runtime. */
  function Cancel(r: Run, commandId: Name): Run {
    if Terminal(r) then r
    else if r.currentAttempt.None? then
      r.(cancelRequested := true, state := Failed, nextRetryAt := None, failure := Some(Cancelled))
    else if r.daemonId.None? then r.(cancelRequested := true)
    else
      r.(cancelRequested := true,
         cancelCommandId := if r.cancelCommandId.Some? then r.cancelCommandId else Some(commandId))
  }

  /** Why an event is refused, if it is. */
  function Rejection(r: Run, event: Event): Option<string> {
    if Terminal(r) then Some("session_terminal")
    else if r.daemonId.None? then Some("session_unassigned")
    else if r.currentAttempt.None? then Some("attempt_not_active")
    else if event.SessionStarted? && r.state != Idle && !(r.state == Running && r.runtimeId.None?)
    then Some("session_already_started")
    else None
  }

  function LowerChar(c: char): char {
    if 'A' <= c <= 'Z' then ((c as int) - ('A' as int) + ('a' as int)) as char else c
  }

  function Lower(text: string): string {
    seq(|text|, i requires 0 <= i < |text| => LowerChar(text[i]))
  }

  predicate OccursAt(text: string, part: string, i: nat) {
    i + |part| <= |text| && text[i..i + |part|] == part
  }

  predicate Contains(text: string, part: string) {
    exists i | 0 <= i <= |text| :: OccursAt(text, part, i)
  }

  predicate IsUnknownFailure(reason: string) {
    Contains(Lower(reason), UNKNOWN_FAILURE)
  }

  /** How a reported failure is classed; only a plain runtime failure with attempts left and an
      owner still registered is tried again. */
  function FailureOf(r: Run, reason: string, ownerValid: bool): FailureClass {
    if r.cancelRequested then Cancelled
    else if IsUnknownFailure(reason) then OutcomeUnknown
    else if !ownerValid then OwnerUnavailable
    else if r.attemptCount >= r.maxAttempts then RetryExhausted
    else RuntimeFailure
  }

  predicate Open(r: Run, n: nat) {
    1 <= n <= |r.attempts| && r.attempts[n - 1].outcome.None?
  }

  function Close(r: Run, n: nat, outcome: AttemptOutcome): Run
    requires Open(r, n)
  {
    r.(attempts := r.attempts[n - 1 := r.attempts[n - 1].(outcome := Some(outcome))])
  }

  /** What an accepted event does to a run; nothing when the current attempt has no open row. */
  function Project(r: Run, event: Event, ownerValid: bool, retryAt: nat): Option<Run> {
    match event
    case SessionStarted(runtimeId) =>
      Some(r.(state := Running, runtimeId := Some(runtimeId), nextRetryAt := None, failure := None))
    case SessionCompleted(_) =>
      if r.currentAttempt.None? || !Open(r, r.currentAttempt.value) then None
      else
        Some(Close(r, r.currentAttempt.value, AttemptCompleted)
             .(state := Completed, currentAttempt := None, nextRetryAt := None, failure := None))
    case SessionFailed(_, reason) =>
      if r.currentAttempt.None? || !Open(r, r.currentAttempt.value) then None
      else
        var failureClass := FailureOf(r, reason, ownerValid);
        Some(Close(r, r.currentAttempt.value, AttemptFailed(failureClass))
             .(state := if failureClass.RuntimeFailure? then Retrying else Failed,
               runtimeId := None, currentAttempt := None, failure := Some(failureClass),
               nextRetryAt := if failureClass.RuntimeFailure? then Some(retryAt) else None))
    case _ => Some(r)
  }

  predicate Due(r: Run, now: nat) {
    r.state == Retrying && r.nextRetryAt.Some? && r.nextRetryAt.value <= now && r.currentAttempt.None?
  }

  /** A due run starts its next attempt, or ends. */
  function Claim(r: Run, ownerValid: bool, commandId: Name): Run {
    var failureClass :=
      if r.cancelRequested then Some(Cancelled)
      else if r.attemptCount >= r.maxAttempts then Some(RetryExhausted)
      else if r.daemonId.None? || !ownerValid then Some(OwnerUnavailable)
      else None;
    if failureClass.Some? then r.(state := Failed, nextRetryAt := None, currentAttempt := None, failure := failureClass)
    else
      var running := r.(state := Running, nextRetryAt := None, runtimeId := None, failure := None);
      WithAttempt(running, commandId, ResumeCommand)
  }

  /* ---- The lifecycle invariant ---- */

  /** Attempts are numbered 1..count within the budget, and the open one, if any, is the last. */
  predicate AttemptsExact(r: Run) {
    && |r.attempts| == r.attemptCount <= r.maxAttempts && r.maxAttempts >= 1
    && (forall i | 0 <= i < |r.attempts| ::
          && r.attempts[i].number == i + 1
          && (r.attempts[i].kind.StartCommand? <==> i == 0)
          && (r.attempts[i].outcome.None? <==> r.currentAttempt == Some(i + 1)))
    && (r.currentAttempt.Some? ==> r.currentAttempt.value == r.attemptCount >= 1)
  }

  /** An attempt is open exactly in an assigned idle run or a running one; a run between attempts
      has some left and is not cancelled; nothing is pending in a finished run. */
  predicate Lifecycle(r: Run) {
    && AttemptsExact(r)
    && (r.currentAttempt.Some? <==> (r.state == Idle && r.daemonId.Some?) || r.state == Running)
    && (r.nextRetryAt.Some? <==> r.state == Retrying)
    && (r.state == Running || r.state == Retrying ==> r.daemonId.Some?)
    && (r.state == Idle ==> r.runtimeId.None? && r.attemptCount == if r.daemonId.Some? then 1 else 0)
    && (r.state == Idle && r.daemonId.None? ==> !r.cancelRequested)
    && (r.state == Retrying ==> 1 <= r.attemptCount < r.maxAttempts && !r.cancelRequested)
    && (r.failure.Some? <==> r.state == Retrying || r.state == Failed)
    && (r.currentAttempt.Some? ==> (r.cancelRequested <==> r.cancelCommandId.Some?))
    && (r.cancelCommandId.Some? ==> r.cancelRequested)
    && r.startCommandId == if r.attempts == [] then None else Some(r.attempts[0].commandId)
  }

  lemma NewRunLifecycle(requirementId: Name, startMessageId: Name, daemon: Option<Name>, commandId: Name)
    ensures Lifecycle(NewRun(requirementId, startMessageId, daemon, commandId))
  {
  }

  datatype Step =
    | Assigning(daemon: Name, commandId: Name)
    | Cancelling(commandId: Name)
    | Projecting(event: Event, ownerValid: bool, retryAt: nat)
    | Claiming(now: nat, ownerValid: bool, commandId: Name)

  /** One operation on an existing run. */
  function Apply(r: Run, step: Step): Run {
    match step
    case Assigning(daemon, commandId) => Assign(r, daemon, commandId)
    case Cancelling(commandId) => Cancel(r, commandId)
    case Projecting(event, ownerValid, retryAt) =>
      if Rejection(r, event).Some? then r
      else
        var next := Project(r, event, ownerValid, retryAt);
        if next.Some? then next.value else r
    case Claiming(now, ownerValid, commandId) =>
      if Due(r, now) then Claim(r, ownerValid, commandId) else r
  }

  lemma ApplyLifecycle(r: Run, step: Step)
    requires Lifecycle(r)
    ensures Lifecycle(Apply(r, step))
  {
    if step.Projecting? && Rejection(r, step.event).None?
       && (step.event.SessionCompleted? || step.event.SessionFailed?) {
      assert Open(r, r.currentAttempt.value);
    }
  }

  /** An event that is not refused always finds the open attempt it needs. */
  lemma ProjectionSucceeds(r: Run, event: Event, ownerValid: bool, retryAt: nat)
    requires Lifecycle(r) && Rejection(r, event).None?
    ensures Project(r, event, ownerValid, retryAt).Some?
  {
    assert Open(r, r.currentAttempt.value);
  }

  /* ---- What events, claims, starts and cancellations amount to ---- */

  /** Why a run does not take an event, told by its state. */
  predicate RefusedFor(r: Run, event: Event, why: Option<string>) {
    match r.state
    case Completed => why == Some("session_terminal")
    case Failed => why == Some("session_terminal")
    case Idle => why == if r.daemonId.None? then Some("session_unassigned") else None
    case Retrying => why == Some("attempt_not_active")
    case Running =>
      why == if event.SessionStarted? && r.runtimeId.Some? then Some("session_already_started") else None
  }

  lemma RejectionByState(r: Run, event: Event)
    requires Lifecycle(r)
    ensures RefusedFor(r, event, Rejection(r, event))
  {
  }

  /** All that identifies a run, and what it may spend, is as before. */
  predicate SameRun(r: Run, next: Run) {
    && next.requirementId == r.requirementId && next.startMessageId == r.startMessageId
    && next.daemonId == r.daemonId && next.cancelRequested == r.cancelRequested
    && next.attemptCount == r.attemptCount && next.maxAttempts == r.maxAttempts
    && next.startCommandId == r.startCommandId && next.cancelCommandId == r.cancelCommandId
  }

  /** The open attempt, the last one, is closed with the outcome, and no other is touched. */
  predicate ClosesLast(r: Run, next: Run, outcome: AttemptOutcome) {
    && |r.attempts| > 0 && |next.attempts| == |r.attempts| && next.currentAttempt.None?
    && (forall i | 0 <= i < |r.attempts| - 1 :: next.attempts[i] == r.attempts[i])
    && var last, closed := r.attempts[|r.attempts| - 1], next.attempts[|r.attempts| - 1];
       && last.outcome.None? && closed.outcome == Some(outcome)
       && closed.number == last.number && closed.commandId == last.commandId && closed.kind == last.kind
  }

  /** Only a failure that is neither asked for nor of unknown outcome is tried again, and only for a
      registered owner with attempts left. What a failure is called follows the first of these that fails. */
  predicate FailsAs(r: Run, next: Run, reason: string, ownerValid: bool, retryAt: nat) {
    && SameRun(r, next) && next.runtimeId.None? && next.failure.Some?
    && ClosesLast(r, next, AttemptFailed(next.failure.value))
    && (next.state == Retrying <==>
          !r.cancelRequested && !IsUnknownFailure(reason) && ownerValid && r.attemptCount < r.maxAttempts)
    && (if next.state == Retrying then next.nextRetryAt == Some(retryAt) && next.failure.value == RuntimeFailure
        else next.state == Failed && next.nextRetryAt.None?)
    && (next.failure.value == Cancelled <==> r.cancelRequested)
    && (next.failure.value == OutcomeUnknown <==> !r.cancelRequested && IsUnknownFailure(reason))
    && (next.failure.value == OwnerUnavailable <==> !r.cancelRequested && !IsUnknownFailure(reason) && !ownerValid)
    && (next.failure.value == RetryExhausted <==>
          !r.cancelRequested && !IsUnknownFailure(reason) && ownerValid && r.attemptCount >= r.maxAttempts)
  }

  /** What an event that is taken makes of a run. */
  predicate Becomes(r: Run, next: Run, event: Event, ownerValid: bool, retryAt: nat) {
    match event
    case SessionStarted(runtimeId) =>
      && SameRun(r, next) && next.state == Running && next.runtimeId == Some(runtimeId)
      && next.attempts == r.attempts && next.currentAttempt == r.currentAttempt
      && next.nextRetryAt.None? && next.failure.None?
    case SessionCompleted(_) =>
      && SameRun(r, next) && next.state == Completed && next.runtimeId == r.runtimeId
      && ClosesLast(r, next, AttemptCompleted) && next.nextRetryAt.None? && next.failure.None?
    case SessionFailed(_, reason) => FailsAs(r, next, reason, ownerValid, retryAt)
    case _ => next == r
  }

  lemma ProjectionBecomes(r: Run, event: Event, ownerValid: bool, retryAt: nat)
    requires Lifecycle(r) && Rejection(r, event).None?
    ensures Becomes(r, Apply(r, Projecting(event, ownerValid, retryAt)), event, ownerValid, retryAt)
  {
    assert Open(r, r.currentAttempt.value);
  }

  /** A due run starts its next attempt exactly when its owner is registered, and ends otherwise. */
  predicate Retries(r: Run, next: Run, ownerValid: bool, commandId: Name) {
    && next.requirementId == r.requirementId && next.daemonId == r.daemonId && next.maxAttempts == r.maxAttempts
    && next.startMessageId == r.startMessageId && !next.cancelRequested && next.nextRetryAt.None?
    && if ownerValid then
         && next.state == Running && next.runtimeId.None? && next.failure.None?
         && next.attempts == r.attempts + [Attempt(|r.attempts| + 1, commandId, ResumeCommand, None)]
         && next.currentAttempt == Some(|next.attempts|) && next.attemptCount == |next.attempts|
       else
         && next.state == Failed && next.failure == Some(OwnerUnavailable)
         && next.attempts == r.attempts && next.attemptCount == r.attemptCount && next.currentAttempt.None?
  }

  lemma ClaimRetries(r: Run, now: nat, ownerValid: bool, commandId: Name)
    requires Lifecycle(r) && Due(r, now)
    ensures Retries(r, Claim(r, ownerValid, commandId), ownerValid, commandId)
  {
  }

  /** A run with its one attempt under way, or waiting for a daemon. */
  predicate Begins(r: Run, requirementId: Name, startMessageId: Name, daemon: Option<Name>, commandId: Name) {
    && r.requirementId == requirementId && r.startMessageId == startMessageId && r.daemonId == daemon
    && r.state == Idle && !r.cancelRequested
    && r.attempts == (if daemon.Some? then [Attempt(1, commandId, StartCommand, None)] else [])
    && r.currentAttempt == (if daemon.Some? then Some(1) else None)
    && r.startCommandId == if daemon.Some? then Some(commandId) else None
  }

  lemma NewRunBegins(requirementId: Name, startMessageId: Name, daemon: Option<Name>, commandId: Name)
    ensures Begins(NewRun(requirementId, startMessageId, daemon, commandId), requirementId, startMessageId, daemon,
                   commandId)
    ensures NewRun(requirementId, startMessageId, daemon, commandId).maxAttempts == 3
  {
  }

  /** A run that waits for a daemon gets one, with its first attempt; any other stays as it is. */
  predicate Assigned(r: Run, next: Run, daemon: Name, commandId: Name) {
    if r.state == Idle && r.daemonId.None?
    then Begins(next, r.requirementId, r.startMessageId, Some(daemon), commandId) && next.maxAttempts == r.maxAttempts
    else next == r
  }

  lemma AssignAssigns(r: Run, daemon: Name, commandId: Name)
    requires Lifecycle(r)
    ensures Assigned(r, Assign(r, daemon, commandId), daemon, commandId)
  {
  }

  /** A live run is marked, and ends at once if no attempt is open; a finished one stays as it is. */
  predicate Stopped(r: Run, next: Run) {
    if Terminal(r) then next == r
    else
      && next.cancelRequested && next.requirementId == r.requirementId && next.startMessageId == r.startMessageId
      && next.daemonId == r.daemonId && next.attempts == r.attempts && next.currentAttempt == r.currentAttempt
      && next.attemptCount == r.attemptCount && next.maxAttempts == r.maxAttempts && next.runtimeId == r.runtimeId
      && if r.currentAttempt.Some? then next.state == r.state && next.failure == r.failure
         else next.state == Failed && next.failure == Some(Cancelled) && next.nextRetryAt.None?
  }

  lemma CancelStops(r: Run, commandId: Name)
    requires Lifecycle(r)
    ensures Stopped(r, Cancel(r, commandId))
  {
  }

  /** What a view says of a run, read off its rows. */
  lemma ViewTells(r: Run, connected: bool)
    requires Lifecycle(r)
    ensures var v := IntoRun(r, connected).value;
      && IntoRun(r, connected).Some?
      && (v.phase == Ended <==> Terminal(r))
      && (v.phase == AwaitingAssignment <==> !Terminal(r) && r.daemonId.None?)
      && (v.status == Done <==> r.state == Completed) && (v.status == Broken <==> r.state == Failed)
      && (v.status == RetryPending <==> r.state == Retrying)
      && (v.status == Unavailable <==>
            !Terminal(r) && r.state != Retrying && (r.daemonId.None? || !connected))
      && (v.status == Starting <==>
            r.currentAttempt.Some? && connected && r.runtimeId.None?)
      && (v.status == InProgress <==> r.currentAttempt.Some? && connected && r.runtimeId.Some?)
  {
  }

  /** The view exists unless a run past assignment has lost its daemon, which no reachable run has. */
  lemma ViewExistsIff(r: Run, connected: bool)
    ensures IntoRun(r, connected).None? <==> (r.state == Running || r.state == Retrying) && r.daemonId.None?
    ensures Lifecycle(r) ==> IntoRun(r, connected).Some?
  {
  }

  /* ---- Every run ends ---- */

  function Rank(r: Run): nat {
    match r.state
    case Idle => 3
    case Running => if r.runtimeId.None? then 2 else 1
    case _ => 0
  }

  /** A measure no operation raises, and every change lowers. */
  function Measure(r: Run): nat {
    if Terminal(r) || r.attemptCount > r.maxAttempts then 0
    else 1 + 2 * (4 * (r.maxAttempts - r.attemptCount) + Rank(r)) + if r.cancelRequested then 0 else 1
  }

  lemma ChangeDescends(r: Run, step: Step)
    requires Lifecycle(r)
    ensures Apply(r, step) == r || Measure(Apply(r, step)) < Measure(r)
  {
    if step.Projecting? && Rejection(r, step.event).None?
       && (step.event.SessionCompleted? || step.event.SessionFailed?) {
      assert Open(r, r.currentAttempt.value);
    }
  }

  function History(r: Run, steps: seq<Step>): Run {
    if steps == [] then r else Apply(History(r, steps[..|steps| - 1]), steps[|steps| - 1])
  }

  /** How many of the operations changed the run. */
  function Changes(r: Run, steps: seq<Step>): nat {
    if steps == [] then 0
    else
      var prior := History(r, steps[..|steps| - 1]);
      Changes(r, steps[..|steps| - 1]) + if Apply(prior, steps[|steps| - 1]) != prior then 1 else 0
  }

  lemma {:induction false} HistoryLifecycle(r: Run, steps: seq<Step>)
    requires Lifecycle(r)
    ensures Lifecycle(History(r, steps))
    ensures Changes(r, steps) + Measure(History(r, steps)) <= Measure(r)
  {
    if steps != [] {
      var prior := History(r, steps[..|steps| - 1]);
      HistoryLifecycle(r, steps[..|steps| - 1]);
      ApplyLifecycle(prior, steps[|steps| - 1]);
      ChangeDescends(prior, steps[|steps| - 1]);
    }
  }

  /** Whatever is asked of a new run, in whatever order: it keeps the lifecycle rules, makes at most
      three attempts, and changes at most 32 times. */
  lemma RunBudget(requirementId: Name, startMessageId: Name, daemon: Option<Name>, commandId: Name, steps: seq<Step>)
    ensures var r := NewRun(requirementId, startMessageId, daemon, commandId);
      && Lifecycle(History(r, steps))
      && |History(r, steps).attempts| <= DEFAULT_MAX_ATTEMPTS
      && Changes(r, steps) + Measure(History(r, steps)) <= 32
  {
    var r := NewRun(requirementId, startMessageId, daemon, commandId);
    NewRunLifecycle(requirementId, startMessageId, daemon, commandId);
    HistoryLifecycle(r, steps);
    HistoryBudget(r, steps);
  }

  /** Something can always be done about a run that has not ended, and one step of it ends the run;
      nothing changes one that has. */
  lemma EndedIff(r: Run, name: Name)
    requires Lifecycle(r)
    ensures Terminal(r) <==> forall step :: Apply(r, step) == r
    ensures exists step :: Terminal(Apply(r, step))
  {
    var failing := Projecting(SessionFailed(false, ""), false, 0);
    if !Terminal(r) {
      if r.currentAttempt.Some? {
        assert Open(r, r.currentAttempt.value);
        assert Terminal(Apply(r, failing));
      } else {
        assert Terminal(Apply(r, Cancelling(name)));
      }
    } else {
      assert Apply(r, failing) == r;
    }
  }

  /** Each of the steps changes the run as long as it has not ended. */
  predicate Busy(r: Run, steps: seq<Step>) {
    forall n | 0 <= n < |steps| :: Moves(History(r, steps[..n]), steps[n])
  }

  predicate Moves(r: Run, step: Step) {
    Terminal(r) || Apply(r, step) != r
  }

  lemma {:induction false} BusyChanges(r: Run, steps: seq<Step>)
    requires Busy(r, steps)
    ensures Terminal(History(r, steps)) || Changes(r, steps) == |steps|
  {
    if steps != [] {
      var shorter, last := steps[..|steps| - 1], steps[|steps| - 1];
      forall n | 0 <= n < |shorter| ensures Moves(History(r, shorter[..n]), shorter[n]) {
        assert shorter[..n] == steps[..n];
      }
      BusyChanges(r, shorter);
      assert Moves(History(r, shorter), last);
      if Terminal(History(r, shorter)) {
        TerminalAbsorbs(History(r, shorter), last);
      }
    }
  }

  /** A new run that something happens to 32 times has ended. */
  lemma EveryRunEnds(requirementId: Name, startMessageId: Name, daemon: Option<Name>, commandId: Name, steps: seq<Step>)
    requires Busy(NewRun(requirementId, startMessageId, daemon, commandId), steps) && |steps| >= 32
    ensures Terminal(History(NewRun(requirementId, startMessageId, daemon, commandId), steps))
  {
    RunBudget(requirementId, startMessageId, daemon, commandId, steps);
    BusyChanges(NewRun(requirementId, startMessageId, daemon, commandId), steps);
  }

  lemma {:induction false} HistoryBudget(r: Run, steps: seq<Step>)
    ensures History(r, steps).maxAttempts == r.maxAttempts
  {
    if steps != [] {
      HistoryBudget(r, steps[..|steps| - 1]);
    }
  }

  /** A finished run stays as it is. */
  lemma TerminalAbsorbs(r: Run, step: Step)
    requires Terminal(r)
    ensures Apply(r, step) == r
  {
  }

  /** Once cancelled a run gains no further attempt, for any continuation, and stays cancelled. */
  lemma {:induction false} CancelledGainsNoAttempt(r: Run, steps: seq<Step>)
    requires Lifecycle(r) && r.cancelRequested
    ensures History(r, steps).cancelRequested && History(r, steps).attemptCount == r.attemptCount
  {
    if steps != [] {
      CancelledGainsNoAttempt(r, steps[..|steps| - 1]);
      HistoryLifecycle(r, steps[..|steps| - 1]);
    }
  }

  /** The reason the daemon prints when it cannot tell how a command ended is recognised. */
  lemma UnknownReasonRecognised(reason: string)
    ensures IsUnknownFailure(DeliveryLedger.UnknownReason(reason))
  {
    var reported := DeliveryLedger.UnknownReason(reason);
    assert UNKNOWN_FAILURE <= reported;
    LowerPrefix(reported, UNKNOWN_FAILURE);
  }

  lemma LowerPrefix(text: string, part: string)
    requires part <= text && forall c | c in part :: !('A' <= c <= 'Z')
    ensures Contains(Lower(text), part)
  {
    forall i | 0 <= i < |part| ensures Lower(text)[i] == part[i] {
      assert text[i] == part[i] && part[i] in part;
    }
    assert OccursAt(Lower(text), part, 0);
  }

  /** A failure that says the outcome is unknown is never tried again: if accepted, it ends the run, and
      no later operation starts an attempt. */
  lemma UnknownOutcomeNeverRetried(r: Run, event: Event, ownerValid: bool, retryAt: nat, steps: seq<Step>)
    requires Lifecycle(r) && Rejection(r, event).None? && event.SessionFailed? && IsUnknownFailure(event.reason)
    ensures var next := Apply(r, Projecting(event, ownerValid, retryAt));
      && next.state == Failed && History(next, steps) == next
      && next.failure == Some(if r.cancelRequested then Cancelled else OutcomeUnknown)
  {
    assert Open(r, r.currentAttempt.value);
    Settled(Apply(r, Projecting(event, ownerValid, retryAt)), steps);
  }

  lemma {:induction false} Settled(r: Run, steps: seq<Step>)
    requires Terminal(r)
    ensures History(r, steps) == r
  {
    if steps != [] {
      Settled(r, steps[..|steps| - 1]);
      TerminalAbsorbs(r, steps[|steps| - 1]);
    }
  }
}
