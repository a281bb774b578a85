/** The server's store of clarification runs. Each method is one transaction: it applies the run
    operations of Clarification and keeps one live run per requirement. */
module ClarificationStore {
  import opened Protocol
  import opened Clarification
  import opened ServerEvents

  datatype RunError =
    | InvalidContext
    | MessageNotFound
    | ExistingRunDifferentStart
    | RunNotEligible
    | StateVersionConflict
    | RunNotFound

  datatype Result<+T> = Ok(value: T) | Err(error: RunError)

  /** A start request with what the surrounding tables say about it. */
  datatype StartInput = StartInput(
    requirementId: Name, startMessageId: Name,
    contextValid: bool, messageExists: bool, versionCurrent: bool, repositoriesExist: bool)

  datatype Started = Started(runId: Name, commandId: Option<Name>, reused: bool)

  type Runs = map<Name, Run>

  predicate Occupies(runs: Runs, id: Name, q: Name) {
    id in runs && runs[id].requirementId == q && !Terminal(runs[id])
  }

  /** The live run of a requirement, if there is one. */
  ghost function Occupant(runs: Runs, q: Name): (r: Option<Name>)
    ensures r.Some? ==> Occupies(runs, r.value, q)
    ensures r.None? ==> forall id :: !Occupies(runs, id, q)
  {
    if id :| Occupies(runs, id, q) then Some(id) else None
  }

  predicate FinishedStart(runs: Runs, q: Name, m: Name) {
    exists id | id in runs :: runs[id].requirementId == q && runs[id].startMessageId == m && Terminal(runs[id])
  }

  ghost predicate OnePerRequirement(runs: Runs) {
    forall q, id, jd :: Occupies(runs, id, q) && Occupies(runs, jd, q) ==> id == jd
  }

  ghost predicate AllLive(runs: Runs) {
    forall id | id in runs :: Lifecycle(runs[id])
  }

  /** Changing one run to a later stage of itself keeps the store's rules. */
  lemma UpdateKeeps(runs: Runs, id: Name, next: Run)
    requires AllLive(runs) && OnePerRequirement(runs) && id in runs
    requires Lifecycle(next) && next.requirementId == runs[id].requirementId && (Terminal(runs[id]) ==> Terminal(next))
    ensures AllLive(runs[id := next]) && OnePerRequirement(runs[id := next])
  {
    var after := runs[id := next];
    forall q, jd, kd | Occupies(after, jd, q) && Occupies(after, kd, q) ensures jd == kd {
      assert Occupies(runs, jd, q) && Occupies(runs, kd, q);
    }
  }

  lemma ApplyKeeps(runs: Runs, id: Name, step: Step)
    requires AllLive(runs) && OnePerRequirement(runs) && id in runs
    ensures var next := runs[id := Apply(runs[id], step)]; AllLive(next) && OnePerRequirement(next)
  {
    ApplyLifecycle(runs[id], step);
    UpdateKeeps(runs, id, Apply(runs[id], step));
  }

  lemma InsertKeeps(runs: Runs, id: Name, r: Run)
    requires AllLive(runs) && OnePerRequirement(runs) && id !in runs && Lifecycle(r)
    requires forall jd :: !Occupies(runs, jd, r.requirementId)
    ensures AllLive(runs[id := r]) && OnePerRequirement(runs[id := r])
  {
    var after := runs[id := r];
    forall q, jd, kd | Occupies(after, jd, q) && Occupies(after, kd, q) ensures jd == kd {
      assert jd != id ==> Occupies(runs, jd, q);
      assert kd != id ==> Occupies(runs, kd, q);
    }
  }

  method FindOccupant(runs: Runs, q: Name) returns (r: Option<Name>)
    requires OnePerRequirement(runs)
    ensures r == Occupant(runs, q)
  {
    r := None;
    var todo := runs.Keys;
    while todo != {}
      invariant todo <= runs.Keys
      invariant r.Some? ==> Occupies(runs, r.value, q)
      invariant r.None? ==> forall id | id in runs && id !in todo :: !Occupies(runs, id, q)
      decreases todo
    {
      var id :| id in todo;
      if Occupies(runs, id, q) {
        r := Some(id);
      }
      todo := todo - {id};
    }
  }

  datatype Answer =
    | Receipted(receipt: Receipt, duplicate: bool)
    | NotClarification
    | ProjectionFailed
    | Refused
    | Gap(expected: nat, received: nat)

  predicate ValidActivity(event: Event) {
    event.AgentActivity? ==> !Blank(event.activity) && |event.activity| <= MAX_ACTIVITY_CHARS
  }

  function Status(rejection: Option<string>): EventAckStatus {
    if rejection.Some? then Rejected else Accepted
  }

  /** The events of a clarification run; an assessment is projected elsewhere. */
  type ProjectedEvent = e: Event | !e.RequirementAssessed? witness SessionStarted("")

  /** A fresh receipt says why its event is refused, if it is, and then no run has moved; otherwise its
      run has become what the event makes of it, and no other has moved. */
  ghost predicate Projected(before: Runs, runs: Runs, receipt: Receipt, ownerValid: bool, retryAt: nat) {
    var s, event, why := receipt.envelope.sessionId, receipt.envelope.event, receipt.reason;
    && s in before && runs.Keys == before.Keys && (forall id | id in runs && id != s :: runs[id] == before[id])
    && RefusedFor(before[s], event, why) && (receipt.status.Rejected? <==> why.Some?)
    && if why.Some? then runs[s] == before[s] else Becomes(before[s], runs[s], event, ownerValid, retryAt)
  }

  lemma ProjectionEffect(runs: Runs, receipt: Receipt, ownerValid: bool, retryAt: nat)
    requires AllLive(runs) && receipt.envelope.sessionId in runs
    requires receipt.reason == Rejection(runs[receipt.envelope.sessionId], receipt.envelope.event)
    requires receipt.status == Status(receipt.reason)
    ensures var s := receipt.envelope.sessionId;
      var step := Projecting(receipt.envelope.event, ownerValid, retryAt);
      var next := if receipt.reason.Some? then runs else runs[s := Apply(runs[s], step)];
      Projected(runs, next, receipt, ownerValid, retryAt)
  {
    var s, event := receipt.envelope.sessionId, receipt.envelope.event;
    RejectionByState(runs[s], event);
    if receipt.reason.None? {
      ProjectionBecomes(runs[s], event, ownerValid, retryAt);
    }
  }

  /** The retry budget of one poll of the store. */
  predicate ValidBatch(limit: nat) { 1 <= limit <= 1000 }

  /** What claiming the runs `ids` at time `now` does to the store. */
  ghost predicate Claimed(before: Runs, runs: Runs, ids: set<Name>, now: nat, owners: set<Name>,
                          freshId: Name -> Name) {
    && runs.Keys == before.Keys && ids <= before.Keys
    && forall id | id in before ::
         if id in ids then
           && Due(before[id], now) && !Due(runs[id], now)
           && runs[id] == Claim(before[id], OwnerValid(before[id], owners), freshId(id))
           && before[id].state == Retrying && before[id].nextRetryAt.Some? && before[id].nextRetryAt.value <= now
           && Retries(before[id], runs[id], before[id].daemonId.Some? && before[id].daemonId.value in owners,
                      freshId(id))
         else runs[id] == before[id]
  }

  lemma ClaimStep(before: Runs, runs: Runs, ids: set<Name>, now: nat, owners: set<Name>, freshId: Name -> Name,
                  id: Name)
    requires Claimed(before, runs, ids, now, owners, freshId) && id in before && id !in ids && Due(before[id], now)
    requires AllLive(before) && AllLive(runs) && OnePerRequirement(runs)
    ensures var next := runs[id := Claim(runs[id], OwnerValid(runs[id], owners), freshId(id))];
      && Claimed(before, next, ids + {id}, now, owners, freshId)
      && AllLive(next) && OnePerRequirement(next)
  {
    ApplyKeeps(runs, id, Claiming(now, OwnerValid(runs[id], owners), freshId(id)));
    ClaimRetries(before[id], now, OwnerValid(before[id], owners), freshId(id));
  }

  function DueRuns(runs: Runs, now: nat): set<Name> {
    set id | id in runs && Due(runs[id], now)
  }

  /** In the order of their due times, and of their ids among equals. */
  predicate NoLater(runs: Runs, id: Name, jd: Name) {
    && id in runs && jd in runs && runs[id].nextRetryAt.Some? && runs[jd].nextRetryAt.Some?
    && (runs[id].nextRetryAt.value < runs[jd].nextRetryAt.value
        || (runs[id].nextRetryAt.value == runs[jd].nextRetryAt.value && id <= jd))
  }

  /** What is claimed comes before what is left. */
  ghost predicate DueFirst(runs: Runs, claimed: set<Name>, left: set<Name>) {
    forall id, jd | id in claimed && jd in left :: NoLater(runs, id, jd)
  }

  lemma DueFirstStep(before: Runs, runs: Runs, claimed: set<Name>, left: set<Name>, id: Name)
    requires DueFirst(before, claimed, left) && id in left
    requires forall jd | jd in left :: jd in before && jd in runs && runs[jd] == before[jd] && NoLater(runs, id, jd)
    ensures DueFirst(before, claimed + {id}, left - {id})
  {
    forall jd | jd in left ensures NoLater(before, id, jd) {
      assert NoLater(runs, id, jd);
    }
  }

  /** The due run that has waited longest. */
  method Earliest(runs: Runs, todo: set<Name>) returns (id: Name)
    requires todo != {} && forall jd | jd in todo :: jd in runs && runs[jd].nextRetryAt.Some?
    ensures id in todo && forall jd | jd in todo :: NoLater(runs, id, jd)
  {
    id :| id in todo;
    var rest := todo - {id};
    while rest != {}
      invariant rest <= todo && id in todo && forall jd | jd in todo && jd !in rest :: NoLater(runs, id, jd)
      decreases rest
    {
      var jd :| jd in rest;
      if !NoLater(runs, id, jd) {
        id := jd;
      }
      rest := rest - {jd};
    }
  }

  predicate OwnerValid(r: Run, owners: set<Name>) {
    r.daemonId.Some? && r.daemonId.value in owners
  }

  /** These are the runs between attempts whose time has come. */
  ghost predicate OnTime(runs: Runs, ids: set<Name>, now: nat) {
    forall id | id in runs ::
      id in ids <==> runs[id].state == Retrying && runs[id].nextRetryAt.Some? && runs[id].nextRetryAt.value <= now
  }

  lemma AllClaimed(before: Runs, runs: Runs, ids: set<Name>, now: nat, owners: set<Name>, freshId: Name -> Name)
    requires Claimed(before, runs, ids, now, owners, freshId) && AllLive(before)
    ensures DueRuns(before, now) - ids == {} ==> ids == DueRuns(before, now) && OnTime(before, ids, now)
  {
    if DueRuns(before, now) - ids == {} {
      forall id | id in DueRuns(before, now) ensures id in ids {
        assert id !in DueRuns(before, now) - ids;
      }
    }
  }

  /** Claim runs, those due longest first, until none is due or the limit is reached. */
  method ClaimAll(runs: Runs, limit: nat, now: nat, owners: set<Name>, freshId: Name -> Name)
    returns (next: Runs, claimed: set<Name>)
    requires AllLive(runs) && OnePerRequirement(runs)
    ensures AllLive(next) && OnePerRequirement(next)
    ensures Claimed(runs, next, claimed, now, owners, freshId) && |claimed| <= limit
    ensures |claimed| < limit ==> claimed == DueRuns(runs, now)
    ensures |claimed| < limit ==> OnTime(runs, claimed, now)
    ensures DueFirst(runs, claimed, DueRuns(runs, now) - claimed)
  {
    next, claimed := runs, {};
    var todo := DueRuns(runs, now);
    while todo != {} && |claimed| < limit
      invariant AllLive(next) && OnePerRequirement(next) && |claimed| <= limit
      invariant todo == DueRuns(runs, now) - claimed
      invariant Claimed(runs, next, claimed, now, owners, freshId)
      invariant DueFirst(runs, claimed, todo)
      decreases todo
    {
      var id := Earliest(next, todo);
      DueFirstStep(runs, next, claimed, todo, id);
      ClaimStep(runs, next, claimed, now, owners, freshId, id);
      next := next[id := Claim(next[id], OwnerValid(next[id], owners), freshId(id))];
      todo, claimed := todo - {id}, claimed + {id};
    }
    AllClaimed(runs, next, claimed, now, owners, freshId);
  }

  class Store {
    var runs: Runs
    var ledger: Server
    var messages: set<Name>

    ghost predicate Valid()
      reads this
    {
      AllLive(runs) && OnePerRequirement(runs) && runs.Keys <= ledger.handled.Keys
    }

    constructor ()
      ensures Valid() && runs == map[]
    {
      runs, ledger, messages := map[], Server(map[], map[]), {};
    }

    /** Reuse the live run of the requirement, giving it a daemon if it still waits for one, or
        create a run. */
    method Start(input: StartInput, eligible: Option<Name>, runId: Name, commandId: Name) returns (r: Result<Started>)
      requires Valid() && runId !in ledger.handled
      modifies this
      ensures Valid()
      ensures !input.contextValid ==> r == Err(InvalidContext)
      ensures input.contextValid && !input.messageExists ==> r == Err(MessageNotFound)
      ensures r.Err? ==> runs == old(runs)
      ensures input.contextValid && input.messageExists ==>
        match Occupant(old(runs), input.requirementId)
        case Some(id) =>
          if old(runs)[id].startMessageId != input.startMessageId then r == Err(ExistingRunDifferentStart)
          else
            && runs == old(runs)[id := if eligible.None? then old(runs)[id]
                                       else Apply(old(runs)[id], Assigning(eligible.value, commandId))]
            && (eligible.Some? ==> Assigned(old(runs)[id], runs[id], eligible.value, commandId))
            && r == Ok(Started(id, if runs[id].state == Retrying || runs[id].attempts == [] then None
                                   else Some(runs[id].attempts[0].commandId), true))
        case None =>
          if FinishedStart(old(runs), input.requirementId, input.startMessageId) then r == Err(RunNotEligible)
          else if !input.versionCurrent then r == Err(StateVersionConflict)
          else if !input.repositoriesExist then r == Err(InvalidContext)
          else
            && runs == old(runs)[runId := NewRun(input.requirementId, input.startMessageId, eligible, commandId)]
            && Begins(runs[runId], input.requirementId, input.startMessageId, eligible, commandId)
            && runs[runId].maxAttempts == 3
            && r == Ok(Started(runId, if eligible.Some? then Some(commandId) else None, false))
    {
      if !input.contextValid {
        return Err(InvalidContext);
      }
      if !input.messageExists {
        return Err(MessageNotFound);
      }
      var occupant := FindOccupant(runs, input.requirementId);
      if occupant.Some? {
        var id := occupant.value;
        if runs[id].startMessageId != input.startMessageId {
          return Err(ExistingRunDifferentStart);
        }
        if eligible.Some? {
          AssignAssigns(runs[id], eligible.value, commandId);
          ApplyKeeps(runs, id, Assigning(eligible.value, commandId));
          runs := runs[id := Assign(runs[id], eligible.value, commandId)];
        }
        return Ok(Started(id, if runs[id].state == Retrying then None else runs[id].startCommandId, true));
      }
      if exists id | id in runs ::
           runs[id].requirementId == input.requirementId && runs[id].startMessageId == input.startMessageId
           && Terminal(runs[id]) {
        return Err(RunNotEligible);
      }
      if !input.versionCurrent {
        return Err(StateVersionConflict);
      }
      if !input.repositoriesExist {
        return Err(InvalidContext);
      }
      var run := NewRun(input.requirementId, input.startMessageId, eligible, commandId);
      NewRunBegins(input.requirementId, input.startMessageId, eligible, commandId);
      NewRunLifecycle(input.requirementId, input.startMessageId, eligible, commandId);
      InsertKeeps(runs, runId, run);
      runs, ledger := runs[runId := run], ledger.(handled := ledger.handled[runId := {}]);
      return Ok(Started(runId, run.startCommandId, false));
    }

    /** Ask for a run to stop. The answer names the command that tells the runtime so: the one already
        sent, or a new one, or none when the run ends without it. */
    method CancelRun(q: Name, id: Name, commandId: Name) returns (r: Result<Option<Name>>)
      requires Valid()
      modifies this
      ensures Valid() && ledger == old(ledger) && messages == old(messages)
      ensures r.Err? ==> runs == old(runs)
      ensures r == Err(RunNotFound) <==> id !in old(runs) || old(runs)[id].requirementId != q
      ensures r == Err(RunNotEligible) <==>
        id in old(runs) && old(runs)[id].requirementId == q && Terminal(old(runs)[id]) && !old(runs)[id].cancelRequested
      ensures r.Ok? ==> runs == old(runs)[id := Apply(old(runs)[id], Cancelling(commandId))] && runs[id].cancelRequested
      ensures r.Ok? ==> Stopped(old(runs)[id], runs[id])
      ensures r.Ok? ==>
        var open, sent := old(runs)[id].currentAttempt.Some?, old(runs)[id].cancelCommandId;
        && (r.value.None? <==> !open) && (r.value.None? ==> Terminal(runs[id]))
        && (open ==> r.value == (if sent.Some? then sent else Some(commandId)) && runs[id].cancelCommandId == r.value)
    {
      if id !in runs || runs[id].requirementId != q {
        return Err(RunNotFound);
      }
      if Terminal(runs[id]) {
        if !runs[id].cancelRequested {
          return Err(RunNotEligible);
        }
        assert runs[id := runs[id]] == runs;
        return Ok(None);
      }
      CancelStops(runs[id], commandId);
      ApplyKeeps(runs, id, Cancelling(commandId));
      var open := runs[id].currentAttempt.Some? && runs[id].daemonId.Some?;
      runs := runs[id := Cancel(runs[id], commandId)];
      return Ok(if open then runs[id].cancelCommandId else None);
    }

    /** Project one daemon event. Its receipt and its effect on the run are one transaction: a
        frame that is repeated, out of order or refused changes no run, and a fresh accepted one
        has its effect once. */
    method ProjectEvent(id: EventId, s: Name, n: nat, sentAt: string, event: ProjectedEvent,
                        ownerValid: bool, retryAt: nat)
      returns (answer: Answer)
      requires Valid()
      modifies this
      ensures Valid()
      ensures n == 0 ==> answer == Refused
      ensures n > 0 && !ValidActivity(event) ==> answer == ProjectionFailed
      ensures n > 0 && ValidActivity(event) && s !in old(runs) ==> answer == NotClarification
      ensures n == 0 || !ValidActivity(event) || s !in old(runs) ==> runs == old(runs) && ledger == old(ledger)
      ensures n > 0 && ValidActivity(event) && s in old(runs) ==>
        var rejection := Rejection(old(runs)[s], event);
        var (next, a) := Record(old(ledger), EventEnvelope(id, s, n, sentAt, event), Status(rejection), rejection);
        var recorded := a.Recorded? && !a.duplicate;
        && (answer.Receipted? && !answer.duplicate ==>
              recorded && ledger == next
              && runs == if rejection.Some? then old(runs)
                         else old(runs)[s := Apply(old(runs)[s], Projecting(event, ownerValid, retryAt))])
        && (!(answer.Receipted? && !answer.duplicate) ==> runs == old(runs) && ledger == old(ledger))
        && (a.Recorded? && a.duplicate ==> answer == Receipted(a.receipt, true))
        && (a.SequenceGap? ==> answer == Gap(a.expected, a.received))
        && (a.IntegrityError? || a.UnknownSession? ==> answer == Refused)
        && (recorded && rejection.None? && event.AgentMessage? && event.messageId in old(messages) ==>
              answer == Refused)
        && messages == old(messages) + (if answer.Receipted? && !answer.duplicate && rejection.None?
                                           && event.AgentMessage? then {event.messageId} else {})
        && (recorded && (rejection.None? && event.AgentMessage? ==> event.messageId !in old(messages)) ==>
              answer == Receipted(a.receipt, false))
      ensures answer.Receipted? && !answer.duplicate ==>
        && answer.receipt.envelope == EventEnvelope(id, s, n, sentAt, event)
        && Projected(old(runs), runs, answer.receipt, ownerValid, retryAt)
    {
      if n == 0 {
        return Refused;
      }
      if !ValidActivity(event) {
        return ProjectionFailed;
      }
      if s !in runs {
        return NotClarification;
      }
      var e := EventEnvelope(id, s, n, sentAt, event);
      var run := runs[e.sessionId];
      var rejection := Rejection(run, e.event);
      ProjectionEffect(runs, Receipt(e, Status(rejection), rejection), ownerValid, retryAt);
      var (next, a) := Record(ledger, e, Status(rejection), rejection);
      match a
      case IntegrityError => return Refused;
      case UnknownSession => return Refused;
      case SequenceGap(expected, received) => return Gap(expected, received);
      case Recorded(receipt, duplicate) =>
        if duplicate {
          return Receipted(receipt, true);
        }
        if rejection.None? {
          if e.event.AgentMessage? {
            if e.event.messageId in messages {
              return Refused;
            }
            messages := messages + {e.event.messageId};
          }
          ProjectionSucceeds(run, e.event, ownerValid, retryAt);
          ApplyKeeps(runs, e.sessionId, Projecting(e.event, ownerValid, retryAt));
          runs := runs[e.sessionId := Project(run, e.event, ownerValid, retryAt).value];
        }
        ledger := next;
        return Receipted(receipt, false);
    }

    /** Claim due retries, at most `limit` of them and those due longest first: each starts its next
        attempt or ends. */
    method ClaimDueRetries(limit: nat, now: nat, owners: set<Name>, freshId: Name -> Name)
      returns (r: Result<set<Name>>)
      requires Valid()
      modifies this
      ensures Valid() && ledger == old(ledger)
      ensures r.Err? <==> limit == 0 || limit > 1000
      ensures r.Err? ==> runs == old(runs)
      ensures r.Ok? ==> |r.value| <= limit && Claimed(old(runs), runs, r.value, now, owners, freshId)
      ensures r.Ok? && |r.value| < limit ==> r.value == DueRuns(old(runs), now)
      ensures r.Ok? && |r.value| < limit ==> OnTime(old(runs), r.value, now)
      ensures r.Ok? ==> DueFirst(old(runs), r.value, DueRuns(old(runs), now) - r.value)
    {
      if !ValidBatch(limit) {
        return Err(InvalidContext);
      }
      var claimed;
      runs, claimed := ClaimAll(runs, limit, now, owners, freshId);
      return Ok(claimed);
    }
  }
}
