/** Producing jobs, and executing one claimed job while recording its lifecycle. */
module JobDispatcher {
  import opened JobQueue
  import opened JobRecords
  import opened Outcome
  import opened RetryPolicy

  // ----- enqueueing -----

  datatype EnqueueJobInput = EnqueueJobInput(
    jobType: string,
    payload: string,
    correlationId: Option<string>,
    companyId: Option<string>,
    jobId: Option<string>,
    version: Option<int>,
    maxAttempts: Option<int>,
    enqueuedBy: Option<string>)

  /** What a registered definition fixes for its jobs. */
  datatype Defaults = Defaults(version: Option<int>, maxAttempts: Option<int>)

  /** The tenant scope a caller runs in, when it has one. */
  datatype Ambient = Ambient(tenantId: string, correlationId: Option<string>)

  /** The ids and the moment the environment supplies. */
  datatype Supply = Supply(jobId: string, correlationId: string, now: Time)

  function OrElse<T>(first: Option<T>, last: T): T {
    if first.Some? then first.value else last
  }

  class JobEnqueuer {
    const queue: RedisJobQueue
    const defaultMaxAttempts: int

    constructor (queue: RedisJobQueue, defaultMaxAttempts: int)
      ensures this.queue == queue && this.defaultMaxAttempts == defaultMaxAttempts
    {
      this.queue := queue;
      this.defaultMaxAttempts := defaultMaxAttempts;
    }

    /** Labels a job and pushes it as its first attempt; an explicit input value always wins. */
    method Enqueue(input: EnqueueJobInput, definition: Option<Defaults>, ambient: Option<Ambient>, supply: Supply)
      returns (envelope: Envelope)
      modifies queue
      ensures queue.State() == Pushed(old(queue.State()), envelope, supply.now)
      ensures envelope.attempt == 1 && envelope.jobType == input.jobType && envelope.payload == input.payload
      ensures envelope.createdAt == supply.now
      ensures envelope.jobId == if input.jobId.Some? then input.jobId.value else supply.jobId
      ensures input.companyId.Some? ==> envelope.companyId == input.companyId
      ensures input.companyId.None? ==>
                envelope.companyId == if ambient.Some? then Some(ambient.value.tenantId) else None
      ensures input.correlationId.Some? ==> envelope.correlationId == input.correlationId.value
      ensures input.correlationId.None? ==>
                envelope.correlationId ==
                  if ambient.Some? && ambient.value.correlationId.Some? then ambient.value.correlationId.value
                  else supply.correlationId
      ensures input.maxAttempts.Some? ==> envelope.maxAttempts == input.maxAttempts.value
      ensures input.maxAttempts.None? ==>
                envelope.maxAttempts ==
                  if definition.Some? && definition.value.maxAttempts.Some? then definition.value.maxAttempts.value
                  else defaultMaxAttempts
      ensures input.version.Some? ==> envelope.version == input.version.value
      ensures input.version.None? ==>
                envelope.version ==
                  if definition.Some? && definition.value.version.Some? then definition.value.version.value else 1
      ensures envelope.enqueuedBy == if input.enqueuedBy.Some? then input.enqueuedBy.value else "api"
    {
      var ambientCorrelation := if ambient.Some? then ambient.value.correlationId else None;
      var correlationId := OrElse(input.correlationId, OrElse(ambientCorrelation, supply.correlationId));
      var companyId :=
        if input.companyId.Some? then input.companyId
        else if ambient.Some? then Some(ambient.value.tenantId) else None;
      var version := if definition.Some? then definition.value.version else None;
      var maxAttempts := if definition.Some? then definition.value.maxAttempts else None;
      envelope := Envelope(
        OrElse(input.jobId, supply.jobId),
        input.jobType,
        OrElse(input.version, OrElse(version, 1)),
        input.payload,
        1,
        OrElse(input.maxAttempts, OrElse(maxAttempts, defaultMaxAttempts)),
        correlationId,
        companyId,
        supply.now,
        OrElse(input.enqueuedBy, "api"));
      queue.Push(envelope, supply.now);
    }
  }

  // ----- the idempotency guard -----

  class RedisIdempotencyGuard {
    var keys: set<string>

    constructor ()
      ensures keys == {}
    {
      keys := {};
    }

    /** Sets the key if it is absent; the first caller wins. */
    method Claim(key: string) returns (first: bool)
      modifies this
      ensures first <==> key !in old(keys)
      ensures keys == old(keys) + {key}
    {
      first := key !in keys;
      if first {
        keys := keys + {key};
      }
    }

    method Release(key: string)
      modifies this
      ensures keys == old(keys) - {key}
    {
      keys := keys - {key};
    }
  }

  // ----- dispatching -----

  /** How a job's own code ends. */
  datatype Ending = Returns | Throws(failure: Failure)

  /**
   * What the registry holds for the envelope's type, and how the job behaves on this envelope: whether
   * the payload names another tenant, which idempotency key it derives and how its code ends.
   */
  datatype Job = Job(tenantScoped: bool, contradictsOwner: bool, key: Option<string>, ending: Ending)

  /** How the execution of a registered job ended. */
  datatype Execution = Succeeded | Skipped | Broke(failure: Failure)

  const NO_TENANT := Failure(
    "TenantContextMissingError",
    "A tenant-scoped operation cannot run without an established tenant context; establish one from a trusted boundary first.",
    Unknown)

  const OTHER_TENANT := Failure("TenantIsolationViolationError", "The operation crossed the tenant boundary.", Unknown)

  function UnknownType(envelope: Envelope): Failure {
    Failure("UnknownJobTypeError", "No job definition is registered for type \"" + envelope.jobType + "\"", Terminal)
  }

  function Executed(job: Job, envelope: Envelope, keys: set<string>): Execution {
    if job.tenantScoped && envelope.companyId.None? then Broke(NO_TENANT)
    else if job.contradictsOwner then Broke(OTHER_TENANT)
    else if job.key.Some? && job.key.value in keys then Skipped
    else if job.ending.Returns? then Succeeded
    else Broke(job.ending.failure)
  }

  /** A success keeps its claim; any other end leaves the keys as they were. */
  function KeysAfter(job: Job, envelope: Envelope, keys: set<string>): set<string> {
    if Executed(job, envelope, keys).Succeeded? && job.key.Some? then keys + {job.key.value} else keys
  }

  predicate RetriesAfter(envelope: Envelope, failure: Failure) {
    failure.category == Retryable && HasAttemptsRemaining(envelope.attempt, envelope.maxAttempts)
  }

  /** The moments of one dispatch, and its jitter. */
  datatype Timing = Timing(startedAt: Time, endedAt: Time, random: real)

  function DueAt(envelope: Envelope, policy: Policy, t: Timing): Time
    requires envelope.attempt >= 1 && 0.0 <= t.random < 1.0
  {
    t.endedAt + BackoffDelayMs(envelope.attempt, policy, t.random)
  }

  /** The stored state after a failure was recorded and the entry acknowledged. */
  function AfterFailure(q: Store, claimed: ClaimedJob, failure: Failure, policy: Policy, t: Timing): Store
    requires claimed.envelope.attempt >= 1 && 0.0 <= t.random < 1.0
  {
    var envelope := claimed.envelope;
    if RetriesAfter(envelope, failure)
    then Acked(Scheduled(q, RetryingRecord(envelope, t.startedAt, t.endedAt, failure), DueAt(envelope, policy, t)),
               claimed.entry)
    else Acked(Saved(q, FailedRecord(envelope, t.startedAt, t.endedAt, failure)), claimed.entry)
  }

  function Dispatched(q: Store, keys: set<string>, claimed: ClaimedJob, job: Option<Job>, policy: Policy,
                      t: Timing): Store
    requires claimed.envelope.attempt >= 1 && 0.0 <= t.random < 1.0
  {
    if job.None? then
      Acked(Saved(q, FailedRecord(claimed.envelope, t.startedAt, t.endedAt, UnknownType(claimed.envelope))),
            claimed.entry)
    else match Executed(job.value, claimed.envelope, keys)
         case Broke(failure) => AfterFailure(q, claimed, failure, policy, t)
         case _ => Acked(Saved(q, CompletedRecord(claimed.envelope, t.startedAt, t.endedAt)), claimed.entry)
  }

  function StatusAfter(job: Option<Job>, envelope: Envelope, keys: set<string>): Status {
    if job.None? then Failed
    else match Executed(job.value, envelope, keys)
         case Broke(failure) => if RetriesAfter(envelope, failure) then Retrying else Failed
         case _ => Completed
  }

  class JobDispatcher {
    const queue: RedisJobQueue
    const idempotency: RedisIdempotencyGuard
    const policy: Policy

    constructor (queue: RedisJobQueue, idempotency: RedisIdempotencyGuard, policy: Policy)
      ensures this.queue == queue && this.idempotency == idempotency && this.policy == policy
    {
      this.queue := queue;
      this.idempotency := idempotency;
      this.policy := policy;
    }

    /** Runs one claimed job to its end: recorded as running, executed, settled, acknowledged. */
    method Dispatch(claimed: ClaimedJob, job: Option<Job>, t: Timing) returns (status: Status)
      requires claimed.envelope.attempt >= 1 && 0.0 <= t.random < 1.0
      modifies queue, idempotency
      ensures queue.State() == Dispatched(old(queue.State()), old(idempotency.keys), claimed, job, policy, t)
      ensures idempotency.keys ==
              if job.Some? then KeysAfter(job.value, claimed.envelope, old(idempotency.keys)) else old(idempotency.keys)
      ensures status == StatusAfter(job, claimed.envelope, old(idempotency.keys))
    {
      hide Executed, KeysAfter, BackoffDelayMs, Saved, Acked;
      var envelope := claimed.envelope;
      ghost var q := queue.State();
      var running := RunningRecord(envelope, t.startedAt);
      queue.SaveState(running);
      SavedOver(q, running);
      if job.None? {
        status := FailTerminally(claimed, running, t, UnknownType(envelope));
        return;
      }
      var execution := Execute(job.value, envelope);
      if execution.Broke? {
        var failure := execution.failure;
        if failure.category == Retryable && HasAttemptsRemaining(envelope.attempt, envelope.maxAttempts) {
          var retryDelayMs := BackoffDelayMs(envelope.attempt, policy.(maxAttempts := envelope.maxAttempts), t.random);
          SameDelay(envelope.attempt, policy, envelope.maxAttempts, t.random);
          queue.ScheduleRetry(running.(status := Retrying, lastError := Some(failure), updatedAt := t.endedAt),
                              retryDelayMs, t.endedAt);
          queue.Acknowledge(claimed);
          return Retrying;
        }
        status := FailTerminally(claimed, running, t, failure);
        return;
      }
      queue.SaveState(running.(status := Completed, completedAt := Some(t.endedAt), updatedAt := t.endedAt));
      queue.Acknowledge(claimed);
      status := Completed;
    }

    /** Claims the job's key, runs its code, and gives the key back unless the code returned. */
    method Execute(job: Job, envelope: Envelope) returns (execution: Execution)
      modifies idempotency
      ensures execution == Executed(job, envelope, old(idempotency.keys))
      ensures idempotency.keys == KeysAfter(job, envelope, old(idempotency.keys))
    {
      if job.tenantScoped && envelope.companyId.None? {
        return Broke(NO_TENANT);
      }
      if job.contradictsOwner {
        return Broke(OTHER_TENANT);
      }
      if job.key.Some? {
        var isFirst := idempotency.Claim(job.key.value);
        if !isFirst {
          return Skipped;
        }
      }
      match job.ending
      case Returns =>
        execution := Succeeded;
      case Throws(failure) =>
        if job.key.Some? {
          idempotency.Release(job.key.value);
        }
        execution := Broke(failure);
    }

    method FailTerminally(claimed: ClaimedJob, running: JobRecord, t: Timing, failure: Failure) returns (status: Status)
      requires running == RunningRecord(claimed.envelope, t.startedAt)
      modifies queue
      ensures queue.State() ==
              Acked(Saved(old(queue.State()), FailedRecord(claimed.envelope, t.startedAt, t.endedAt, failure)),
                    claimed.entry)
      ensures status == Failed
    {
      queue.SaveState(running.(status := Failed, completedAt := Some(t.endedAt), updatedAt := t.endedAt,
                               lastError := Some(failure)));
      queue.Acknowledge(claimed);
      status := Failed;
    }
  }

  /** A later record of the same job replaces an earlier one. */
  lemma SavedOver(q: Store, running: JobRecord)
    ensures forall last: JobRecord :: last.envelope == running.envelope ==>
              Saved(Saved(q, running), last) == Saved(q, last)
  {
  }

  /** The delay does not depend on the budget. */
  lemma SameDelay(attempt: int, policy: Policy, maxAttempts: int, random: real)
    requires attempt >= 1 && 0.0 <= random < 1.0 && maxAttempts >= 0
    ensures BackoffDelayMs(attempt, policy.(maxAttempts := maxAttempts), random)
            == BackoffDelayMs(attempt, policy, random)
  {
  }

  // ----- what a dispatch settles -----

  predicate Succeeds(job: Option<Job>, envelope: Envelope, keys: set<string>) {
    job.Some? && !Executed(job.value, envelope, keys).Broke?
  }

  /** Whether an attempt fails in a way that costs only this attempt. */
  predicate FailsForNow(job: Option<Job>, envelope: Envelope, keys: set<string>) {
    job.Some? && Executed(job.value, envelope, keys).Broke?
    && RetriesAfter(envelope, Executed(job.value, envelope, keys).failure)
  }

  /**
   * A dispatch ends in exactly one of three states, which it records with the envelope untouched: completed
   * when the code returned or was skipped; retrying, scheduled no later than the capped backoff, when it
   * failed for now; failed otherwise. Only its own entry is acknowledged, and no other job is affected.
   */
  lemma DispatchSettles(q: Store, keys: set<string>, claimed: ClaimedJob, job: Option<Job>, policy: Policy, t: Timing)
    requires claimed.envelope.attempt >= 1 && 0.0 <= t.random < 1.0
    ensures var after := Dispatched(q, keys, claimed, job, policy, t);
      var id := claimed.envelope.jobId;
      after.entries == q.entries && after.delivered == q.delivered && after.pending == q.pending - {claimed.entry}
      && id in after.records && after.records[id].envelope == claimed.envelope
      && after.records[id].status == StatusAfter(job, claimed.envelope, keys)
      && (after.records[id].status == Completed <==> Succeeds(job, claimed.envelope, keys))
      && (after.records[id].status == Retrying <==> FailsForNow(job, claimed.envelope, keys))
      && (job.Some? && Executed(job.value, claimed.envelope, keys).Broke? ==>
            (after.records[id].status == Retrying <==>
               Executed(job.value, claimed.envelope, keys).failure.category == Retryable
               && claimed.envelope.attempt < claimed.envelope.maxAttempts))
      && (IsTerminal(after.records[id]) || after.records[id].status == Retrying)
      && (after.records[id].status == Retrying ==>
            claimed.envelope.attempt < claimed.envelope.maxAttempts
            && id in after.delayed && t.endedAt <= after.delayed[id] <= t.endedAt + policy.maxDelayMs)
      && (IsTerminal(after.records[id]) ==> after.delayed == q.delayed)
      && (forall other <- q.records :: other != id ==>
            other in after.records && after.records[other] == q.records[other])
  {
    BackoffBounds(claimed.envelope.attempt, policy, t.random);
    hide BackoffDelayMs, Exponential, Executed;
  }

  /** Whether a job is registered and may run for the envelope's owner. */
  predicate IsAdmitted(job: Option<Job>, e: Envelope) {
    job.Some? && (job.value.tenantScoped ==> e.companyId.Some?) && !job.value.contradictsOwner
  }

  /** The failure of a dispatch whose job is not admitted or whose code throws. */
  function Breakage(job: Option<Job>, e: Envelope): Failure
    requires IsAdmitted(job, e) ==> job.value.ending.Throws?
  {
    if job.None? then UnknownType(e)
    else if job.value.tenantScoped && e.companyId.None? then NO_TENANT
    else if job.value.contradictsOwner then OTHER_TENANT
    else job.value.ending.failure
  }

  /** Whether a job ends well: it is admitted and is a duplicate or returns. */
  predicate Completes(job: Option<Job>, e: Envelope, keys: set<string>) {
    IsAdmitted(job, e) && ((job.value.key.Some? && job.value.key.value in keys) || job.value.ending.Returns?)
  }

  lemma ExecutionInFields(job: Option<Job>, e: Envelope, keys: set<string>)
    ensures Completes(job, e, keys) <==> job.Some? && !Executed(job.value, e, keys).Broke?
    ensures job.Some? && !Completes(job, e, keys) ==> Executed(job.value, e, keys) == Broke(Breakage(job, e))
    ensures !Completes(job, e, keys) && IsAdmitted(job, e) ==> job.value.ending.Throws?
    ensures job.None? ==> Breakage(job, e) == UnknownType(e) && UnknownType(e).category != Retryable
  {
  }

  lemma FailureInFields(q: Store, claimed: ClaimedJob, failure: Failure, policy: Policy, t: Timing)
    requires claimed.envelope.attempt >= 1 && 0.0 <= t.random < 1.0
    ensures var after, e := AfterFailure(q, claimed, failure, policy, t), claimed.envelope;
      after.pending == q.pending - {claimed.entry} && after.entries == q.entries && after.delivered == q.delivered
      && if failure.category == Retryable && e.attempt < e.maxAttempts then
           after.records ==
             q.records[e.jobId := JobRecord(e, Retrying, t.endedAt, Some(t.startedAt), None, Some(failure))]
           && after.delayed == q.delayed[e.jobId := t.endedAt + BackoffDelayMs(e.attempt, policy, t.random)]
         else
           after.records ==
             q.records[e.jobId := JobRecord(e, Failed, t.endedAt, Some(t.startedAt), Some(t.endedAt), Some(failure))]
           && after.delayed == q.delayed
  {
    hide BackoffDelayMs;
  }

  /**
   * A dispatch in the terms of the job. A job that is admitted and is a duplicate or returns is completed;
   * otherwise it waits for a retry exactly when what broke is retryable and an attempt is left, and fails
   * if not.
   */
  lemma DispatchInFields(q: Store, keys: set<string>, claimed: ClaimedJob, job: Option<Job>, policy: Policy, t: Timing)
    requires claimed.envelope.attempt >= 1 && 0.0 <= t.random < 1.0
    ensures var after, e := Dispatched(q, keys, claimed, job, policy, t), claimed.envelope;
      after.pending == q.pending - {claimed.entry} && after.entries == q.entries && after.delivered == q.delivered
      && if Completes(job, e, keys) then
           after.records ==
             q.records[e.jobId := JobRecord(e, Completed, t.endedAt, Some(t.startedAt), Some(t.endedAt), None)]
           && after.delayed == q.delayed
         else
           var failure := Breakage(job, e);
           if failure.category == Retryable && e.attempt < e.maxAttempts then
             after.records ==
               q.records[e.jobId := JobRecord(e, Retrying, t.endedAt, Some(t.startedAt), None, Some(failure))]
             && after.delayed == q.delayed[e.jobId := t.endedAt + BackoffDelayMs(e.attempt, policy, t.random)]
           else
             after.records ==
               q.records[e.jobId := JobRecord(e, Failed, t.endedAt, Some(t.startedAt), Some(t.endedAt), Some(failure))]
             && after.delayed == q.delayed
  {
    hide Executed, BackoffDelayMs, Breakage, UnknownType, IsAdmitted;
    var e := claimed.envelope;
    ExecutionInFields(job, e, keys);
    if !Completes(job, e, keys) {
      FailureInFields(q, claimed, Breakage(job, e), policy, t);
    }
    hide AfterFailure;
  }

  /** Only an execution that ran and returned keeps its key, and a dispatch reports the status it records. */
  lemma DispatchKeeps(q: Store, keys: set<string>, claimed: ClaimedJob, job: Option<Job>, policy: Policy, t: Timing)
    requires claimed.envelope.attempt >= 1 && 0.0 <= t.random < 1.0
    ensures job.Some? ==>
              KeysAfter(job.value, claimed.envelope, keys) ==
                if IsAdmitted(job, claimed.envelope) && job.value.ending.Returns? && job.value.key.Some?
                then keys + {job.value.key.value} else keys
    ensures var after := Dispatched(q, keys, claimed, job, policy, t);
      claimed.envelope.jobId in after.records
      && after.records[claimed.envelope.jobId].status == StatusAfter(job, claimed.envelope, keys)
  {
    hide BackoffDelayMs;
  }

  /** The failures of the dispatcher itself are never retried. */
  lemma OwnFailuresAreFinal(envelope: Envelope)
    ensures UnknownType(envelope).category == Terminal
    ensures NO_TENANT.category != Retryable && OTHER_TENANT.category != Retryable
  {
  }

  /** A retrying job comes back: once its delay has passed, a promotion queues the same job one attempt later. */
  lemma RetryComesBack(q: Store, keys: set<string>, claimed: ClaimedJob, job: Option<Job>, policy: Policy, t: Timing,
                       now: Time)
    requires claimed.envelope.attempt >= 1 && 0.0 <= t.random < 1.0
    requires FailsForNow(job, claimed.envelope, keys) && now >= t.endedAt + policy.maxDelayMs
    ensures var after := Dispatched(q, keys, claimed, job, policy, t);
      var next := claimed.envelope.(attempt := claimed.envelope.attempt + 1, enqueuedBy := "retry");
      claimed.envelope.jobId in after.delayed && after.delayed[claimed.envelope.jobId] <= now
      && next.attempt <= next.maxAttempts
      && Promoted(after, claimed.envelope.jobId, now).entries == after.entries + [Some(next)]
      && Promoted(after, claimed.envelope.jobId, now).records[claimed.envelope.jobId] == QueuedRecord(next, now)
  {
    DispatchSettles(q, keys, claimed, job, policy, t);
    hide BackoffDelayMs;
  }

  /** One execution of a job on an envelope. */
  datatype Attempt = Attempt(job: Job, envelope: Envelope)

  /** The keys after the first `n` of some attempts, one after another. */
  function KeysAfterAll(attempts: seq<Attempt>, keys: set<string>, n: nat): set<string>
    requires n <= |attempts|
  {
    if n == 0 then keys
    else KeysAfter(attempts[n - 1].job, attempts[n - 1].envelope, KeysAfterAll(attempts, keys, n - 1))
  }

  lemma {:induction false} KeysStay(attempts: seq<Attempt>, keys: set<string>, m: nat, n: nat)
    requires m <= n <= |attempts|
    ensures KeysAfterAll(attempts, keys, m) <= KeysAfterAll(attempts, keys, n)
    decreases n
  {
    if m < n {
      KeysStay(attempts, keys, m, n - 1);
    }
  }

  /**
   * In any sequence of attempts at most one succeeds under a key: once one has, every later one that
   * derives the key is skipped, unless it is refused before the key is asked for.
   */
  lemma DuplicateIsSkipped(attempts: seq<Attempt>, keys: set<string>, i: nat, j: nat)
    requires i < j < |attempts| && attempts[i].job.key.Some? && attempts[j].job.key == attempts[i].job.key
    requires Executed(attempts[i].job, attempts[i].envelope, KeysAfterAll(attempts, keys, i)).Succeeded?
    ensures var later := attempts[j];
      Executed(later.job, later.envelope, KeysAfterAll(attempts, keys, j)) ==
        if later.job.tenantScoped && later.envelope.companyId.None? then Broke(NO_TENANT)
        else if later.job.contradictsOwner then Broke(OTHER_TENANT)
        else Skipped
  {
    KeysStay(attempts, keys, i + 1, j);
  }
}
