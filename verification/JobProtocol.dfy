/**
 * The job queue as a concurrent protocol: producers, promoters and any number of deliveries, each a
 * sequence of single stored steps that may interleave in every way and stop at any point.
 */
module JobProtocol {
  import opened JobDispatcher
  import opened JobQueue
  import opened JobRecords
  import opened Outcome

  type DeliveryId = nat
  type PusherId = nat

  /** Where a delivery is in `dispatch`; the comments name what has been stored. */
  datatype Phase =
    | Given                                      // nothing yet
    | Started                                    // the running record
    | Executing(key: Option<string>)             // the claim, if the job has a key
    | Releasing(held: string, failure: Failure)  // as before: the code threw
    | Broken(failure: Failure)                   // the claim is given back; the catch block decides
    | Returned                                   // the claim stays, or the execution was skipped
    | Finished                                   // the completed record
    | Noted                                      // the retrying record
    | Rescheduled                                // the retrying record and its schedule entry
    | Buried                                     // the failed record
    | Settled                                    // all, and the acknowledgement
    | Dead                                       // whatever was stored before

  datatype Delivery = Delivery(entry: EntryId, envelope: Envelope, startedAt: Time, phase: Phase)

  /** A push in progress, or a promotion that leads to one. */
  datatype Pusher =
    | Removed(job: JobId)
    | Adding(envelope: Envelope)
    | Saving(envelope: Envelope, entry: EntryId)
    | Over

  /** What deliveries share. The last two are histories: the entry behind each record, and the keys of successes. */
  datatype Board = Board(
    records: map<JobId, JobRecord>,
    delayed: set<JobId>,
    pending: set<EntryId>,
    keys: set<string>,
    writer: map<JobId, EntryId>,
    succeeded: set<string>)

  /** The whole system; `origins` is a history of the jobs handed to the queue. */
  datatype State = State(
    entries: seq<Envelope>,
    delivered: nat,
    board: Board,
    deliveries: map<DeliveryId, Delivery>,
    pushers: map<PusherId, Pusher>,
    origins: set<Envelope>)

  /** One step of a delivery. A failing step may or may not have reached the store. */
  datatype Action =
    | SaveRunning(at: Time)
    | FindNoType
    | Refuse(failure: Failure)
    | ClaimKey(key: string)
    | ClaimKeyFails(key: string, applied: bool, failure: Failure)
    | RunWithoutKey
    | Return
    | Throw(failure: Failure)
    | Release
    | ReleaseFails(applied: bool, failure: Failure)
    | SaveCompleted(at: Time)
    | SaveCompletedFails(at: Time, applied: bool, failure: Failure)
    | SaveRetrying(at: Time)
    | Schedule
    | SaveFailed(at: Time)
    | Acknowledge
    | AcknowledgeFails(applied: bool, failure: Failure)
    | Die

  /** The steps of the system; `Push` and `Promote` are the same writes without an interruption. */
  datatype Step =
    | Enqueue(pusher: PusherId, envelope: Envelope)
    | Remove(pusher: PusherId, job: JobId)
    | Load(pusher: PusherId)
    | AddEntry(pusher: PusherId)
    | SaveQueued(pusher: PusherId, at: Time)
    | Abandon(pusher: PusherId)
    | Push(envelope: Envelope, at: Time)
    | Promote(job: JobId, at: Time)
    | Deliver(delivery: DeliveryId)
    | Reclaim(delivery: DeliveryId, entry: EntryId)
    | Act(delivery: DeliveryId, action: Action)

  predicate Live(d: Delivery) {
    !d.phase.Settled? && !d.phase.Dead?
  }

  /** A job's identity: everything an enqueue fixes. */
  function Origin(e: Envelope): Envelope {
    e.(attempt := 1, enqueuedBy := "")
  }

  // ----- deliveries -----

  /** Whether the code at this phase takes this step; an error the dispatcher cannot classify is unknown. */
  predicate CanAct(d: Delivery, a: Action) {
    match a
    case SaveRunning(_) => d.phase.Given?
    case FindNoType => d.phase.Started?
    case Refuse(_) => d.phase.Started?
    case ClaimKey(_) => d.phase.Started?
    case ClaimKeyFails(_, _, failure) => d.phase.Started? && failure.category == Unknown
    case RunWithoutKey => d.phase.Started?
    case Return => d.phase.Executing?
    case Throw(_) => d.phase.Executing?
    case Release => d.phase.Releasing?
    case ReleaseFails(_, failure) => d.phase.Releasing? && failure.category == Unknown
    case SaveCompleted(_) => d.phase.Returned?
    case SaveCompletedFails(_, _, failure) => d.phase.Returned? && failure.category == Unknown
    case SaveRetrying(_) => d.phase.Broken? && RetriesAfter(d.envelope, d.phase.failure)
    case Schedule => d.phase.Noted?
    case SaveFailed(_) => d.phase.Broken? && !RetriesAfter(d.envelope, d.phase.failure)
    case Acknowledge => d.phase.Finished? || d.phase.Rescheduled? || d.phase.Buried?
    case AcknowledgeFails(_, failure) => d.phase.Finished? && failure.category == Unknown
    case Die => Live(d)
  }

  function Advanced(b: Board, d: Delivery, a: Action): Delivery
    requires CanAct(d, a)
  {
    match a
    case SaveRunning(at) => d.(startedAt := at, phase := Started)
    case FindNoType => d.(phase := Broken(UnknownType(d.envelope)))
    case Refuse(failure) => d.(phase := Broken(failure))
    case ClaimKey(key) => d.(phase := if key in b.keys then Returned else Executing(Some(key)))
    case ClaimKeyFails(_, _, failure) => d.(phase := Broken(failure))
    case RunWithoutKey => d.(phase := Executing(None))
    case Return => d.(phase := Returned)
    case Throw(failure) =>
      d.(phase := if d.phase.key.Some? then Releasing(d.phase.key.value, failure) else Broken(failure))
    case Release => d.(phase := Broken(d.phase.failure))
    case ReleaseFails(_, failure) => d.(phase := Broken(failure))
    case SaveCompleted(_) => d.(phase := Finished)
    case SaveCompletedFails(_, _, failure) => d.(phase := Broken(failure))
    case SaveRetrying(_) => d.(phase := Noted)
    case Schedule => d.(phase := Rescheduled)
    case SaveFailed(_) => d.(phase := Buried)
    case Acknowledge => d.(phase := Settled)
    case AcknowledgeFails(_, failure) => d.(phase := Broken(failure))
    case Die => d.(phase := Dead)
  }

  /** A record stored on behalf of an entry. */
  function Written(b: Board, record: JobRecord, entry: EntryId): Board {
    b.(records := b.records[record.envelope.jobId := record], writer := b.writer[record.envelope.jobId := entry])
  }

  function Acted(b: Board, d: Delivery, a: Action): Board
    requires CanAct(d, a)
  {
    match a
    case SaveRunning(at) => Written(b, RunningRecord(d.envelope, at), d.entry)
    case ClaimKey(key) => b.(keys := b.keys + {key})
    case ClaimKeyFails(key, applied, _) => if applied then b.(keys := b.keys + {key}) else b
    case Return => if d.phase.key.Some? then b.(succeeded := b.succeeded + {d.phase.key.value}) else b
    case Release => b.(keys := b.keys - {d.phase.held})
    case ReleaseFails(applied, _) => if applied then b.(keys := b.keys - {d.phase.held}) else b
    case SaveCompleted(at) => Written(b, CompletedRecord(d.envelope, d.startedAt, at), d.entry)
    case SaveCompletedFails(at, applied, _) =>
      if applied then Written(b, CompletedRecord(d.envelope, d.startedAt, at), d.entry) else b
    case SaveRetrying(at) => Written(b, RetryingRecord(d.envelope, d.startedAt, at, d.phase.failure), d.entry)
    case Schedule => b.(delayed := b.delayed + {d.envelope.jobId})
    case SaveFailed(at) => Written(b, FailedRecord(d.envelope, d.startedAt, at, d.phase.failure), d.entry)
    case Acknowledge => b.(pending := b.pending - {d.entry})
    case AcknowledgeFails(applied, _) => if applied then b.(pending := b.pending - {d.entry}) else b
    case _ => b
  }

  // ----- the system -----

  predicate Enabled(s: State, step: Step) {
    match step
    case Enqueue(p, envelope) => p !in s.pushers && envelope.attempt == 1
    case Remove(p, job) => p !in s.pushers && job in s.board.delayed
    case Load(p) => p in s.pushers && s.pushers[p].Removed?
    case AddEntry(p) => p in s.pushers && s.pushers[p].Adding?
    case SaveQueued(p, _) => p in s.pushers && s.pushers[p].Saving?
    case Abandon(p) => p in s.pushers && !s.pushers[p].Over?
    case Push(envelope, _) => envelope.attempt == 1
    case Promote(job, _) => job in s.board.delayed
    case Deliver(d) => d !in s.deliveries && s.delivered < |s.entries|
    case Reclaim(d, entry) => d !in s.deliveries && entry in s.board.pending && entry < |s.entries|
    case Act(d, action) => d in s.deliveries && CanAct(s.deliveries[d], action)
  }

  /** What a promotion does with the record it loads. */
  function Loaded(b: Board, job: JobId): Pusher {
    if MayPromote(b, job) then Adding(NextAttempt(b.records[job])) else Over
  }

  predicate MayPromote(b: Board, job: JobId) {
    job in b.records && b.records[job].status == Retrying
  }

  function PushedAt(s: State, b: Board, envelope: Envelope, at: Time): State {
    s.(entries := s.entries + [envelope], board := Written(b, QueuedRecord(envelope, at), |s.entries|))
  }

  function After(s: State, step: Step): State
    requires Enabled(s, step)
  {
    match step
    case Enqueue(p, envelope) =>
      s.(pushers := s.pushers[p := Adding(envelope)], origins := s.origins + {Origin(envelope)})
    case Remove(p, job) =>
      s.(pushers := s.pushers[p := Removed(job)], board := s.board.(delayed := s.board.delayed - {job}))
    case Load(p) => s.(pushers := s.pushers[p := Loaded(s.board, s.pushers[p].job)])
    case AddEntry(p) =>
      var envelope := s.pushers[p].envelope;
      s.(entries := s.entries + [envelope], pushers := s.pushers[p := Saving(envelope, |s.entries|)])
    case SaveQueued(p, at) =>
      var pusher := s.pushers[p];
      s.(board := Written(s.board, QueuedRecord(pusher.envelope, at), pusher.entry), pushers := s.pushers[p := Over])
    case Abandon(p) => s.(pushers := s.pushers[p := Over])
    case Push(envelope, at) => PushedAt(s, s.board, envelope, at).(origins := s.origins + {Origin(envelope)})
    case Promote(job, at) =>
      var b := s.board.(delayed := s.board.delayed - {job});
      if MayPromote(b, job) then PushedAt(s, b, NextAttempt(b.records[job]), at) else s.(board := b)
    case Deliver(d) =>
      s.(deliveries := s.deliveries[d := Delivery(s.delivered, s.entries[s.delivered], 0, Given)],
         delivered := s.delivered + 1,
         board := s.board.(pending := s.board.pending + {s.delivered}))
    case Reclaim(d, entry) => s.(deliveries := s.deliveries[d := Delivery(entry, s.entries[entry], 0, Given)])
    case Act(d, action) =>
      s.(deliveries := s.deliveries[d := Advanced(s.board, s.deliveries[d], action)],
         board := Acted(s.board, s.deliveries[d], action))
  }

  const EmptyBoard := Board(map[], {}, {}, {}, map[], {})

  const Empty := State([], 0, EmptyBoard, map[], map[], {})

  /** A run of the system from nothing: each state follows from the one before by its step. */
  predicate IsExecution(states: seq<State>, steps: seq<Step>) {
    |states| == |steps| + 1 && states[0] == Empty
    && forall i :: 0 <= i < |steps| ==> Enabled(states[i], steps[i]) && states[i + 1] == After(states[i], steps[i])
  }

  lemma NthStep(states: seq<State>, steps: seq<Step>, i: nat)
    requires IsExecution(states, steps)
    ensures |states| == |steps| + 1 && states[0] == Empty
    ensures i < |steps| ==> Enabled(states[i], steps[i]) && states[i + 1] == After(states[i], steps[i])
  {
  }

  /** One more step of an execution. */
  lemma Go(states: seq<State>, steps: seq<Step>, step: Step, next: State)
    returns (states': seq<State>, steps': seq<Step>)
    requires IsExecution(states, steps)
    requires Enabled(states[|steps|], step)
    requires After(states[|steps|], step) == next
    ensures IsExecution(states', steps') && states' == states + [next] && steps' == steps + [step]
  {
    hide Enabled, After;
    states', steps' := states + [next], steps + [step];
  }

  /** Nothing shields a delivery: while it is neither settled nor dead it may die, leaving the board as it is. */
  lemma DeliveriesMayDie(s: State, id: DeliveryId)
    requires id in s.deliveries && s.deliveries[id].phase != Settled && s.deliveries[id].phase != Dead
    ensures Enabled(s, Act(id, Die))
    ensures After(s, Act(id, Die)) == s.(deliveries := s.deliveries[id := s.deliveries[id].(phase := Dead)])
  {
  }

  /**
   * The answers of the guard and of the queue may fail with or without the statement having taken effect, and
   * the dispatcher takes any such error for one it cannot classify.
   */
  lemma AnswersMayFail(b: Board, d: Delivery, key: string, at: Time, failure: Failure, applied: bool)
    requires failure.category == Unknown
    ensures d.phase.Started? ==>
              CanAct(d, ClaimKeyFails(key, applied, failure))
              && Acted(b, d, ClaimKeyFails(key, applied, failure)).keys == b.keys + (if applied then {key} else {})
    ensures d.phase.Releasing? ==>
              CanAct(d, ReleaseFails(applied, failure))
              && Acted(b, d, ReleaseFails(applied, failure)).keys == b.keys - (if applied then {d.phase.held} else {})
    ensures d.phase.Returned? ==> CanAct(d, SaveCompletedFails(at, applied, failure))
    ensures d.phase.Finished? ==> CanAct(d, AcknowledgeFails(applied, failure))
  {
  }

  /** A job's code may end in any way, a promoter may stop between its writes, and entries are taken over. */
  lemma EnvironmentIsFree(s: State, id: DeliveryId, entry: EntryId, pusher: PusherId, job: JobId, failure: Failure)
    ensures id in s.deliveries && s.deliveries[id].phase.Executing? ==>
              Enabled(s, Act(id, Return)) && Enabled(s, Act(id, Throw(failure)))
    ensures pusher in s.pushers && !s.pushers[pusher].Over? ==>
              Enabled(s, Abandon(pusher))
              && After(s, Abandon(pusher)) == s.(pushers := s.pushers[pusher := Over])
    ensures id !in s.deliveries && entry in s.board.pending && entry < |s.entries| ==>
              Enabled(s, Reclaim(id, entry))
              && After(s, Reclaim(id, entry)).deliveries[id] == Delivery(entry, s.entries[entry], 0, Given)
    ensures job in s.board.delayed && pusher !in s.pushers ==> Enabled(s, Remove(pusher, job))
  {
  }

  /** A dead delivery takes no further step. */
  lemma DeadIsSilent(s: State, id: DeliveryId, action: Action)
    requires Enabled(s, Act(id, action))
    ensures s.deliveries[id].phase != Dead && s.deliveries[id].phase != Settled
  {
  }
}
