/** What the job queue keeps in every interleaving: the attempt budget, job identities and idempotency. */
module JobSafety {
  import opened JobProtocol
  import opened JobRecords
  import opened Outcome

  // ----- attempts and identities -----

  predicate Sound(e: Envelope, origins: set<Envelope>) {
    e.attempt >= 1 && (e.attempt == 1 || e.attempt <= e.maxAttempts) && Origin(e) in origins
  }

  predicate EntriesSound(s: State) {
    s.delivered <= |s.entries| && forall k :: 0 <= k < |s.entries| ==> Sound(s.entries[k], s.origins)
  }

  predicate RecordsSound(b: Board, origins: set<Envelope>) {
    forall job <- b.records ::
      Sound(b.records[job].envelope, origins) && b.records[job].envelope.jobId == job
      && (b.records[job].status == Retrying ==> b.records[job].envelope.attempt < b.records[job].envelope.maxAttempts)
  }

  predicate DeliveryMatches(s: State, d: Delivery) {
    d.entry < s.delivered <= |s.entries| && s.entries[d.entry] == d.envelope
  }

  predicate PusherSound(s: State, p: Pusher) {
    match p
    case Adding(envelope) => Sound(envelope, s.origins)
    case Saving(envelope, entry) => entry < |s.entries| && s.entries[entry] == envelope && Sound(envelope, s.origins)
    case _ => true
  }

  predicate AllSound(s: State) {
    EntriesSound(s)
    && RecordsSound(s.board, s.origins)
    && (forall d <- s.deliveries :: DeliveryMatches(s, s.deliveries[d]))
    && (forall p <- s.pushers :: PusherSound(s, s.pushers[p]))
    && (forall e <- s.board.pending :: e < s.delivered)
  }

  lemma NextAttemptIsSound(r: JobRecord, origins: set<Envelope>)
    requires Sound(r.envelope, origins) && r.envelope.attempt < r.envelope.maxAttempts
    ensures Sound(NextAttempt(r), origins) && NextAttempt(r).jobId == r.envelope.jobId
  {
  }

  /** The stream and the enqueued jobs only grow. */
  predicate Grows(s: State, t: State) {
    s.origins <= t.origins && |s.entries| <= |t.entries| && t.entries[..|s.entries|] == s.entries
    && s.delivered <= t.delivered
  }

  lemma StepsGrow(s: State, step: Step)
    requires Enabled(s, step)
    ensures Grows(s, After(s, step))
  {
    hide Acted, Advanced, CanAct;
  }

  lemma EntriesStaySound(s: State, step: Step)
    requires Enabled(s, step) && AllSound(s)
    ensures EntriesSound(After(s, step))
  {
    hide Acted, Advanced, CanAct;
    if step.Promote? && MayPromote(s.board, step.job) {
      NextAttemptIsSound(s.board.records[step.job], s.origins);
    }
    if step.AddEntry? {
      assert PusherSound(s, s.pushers[step.pusher]);
    }
  }

  /** A delivery writes nothing but its own envelope, and a retrying record only while attempts remain. */
  lemma ActKeepsRecordsSound(b: Board, d: Delivery, a: Action, origins: set<Envelope>)
    requires CanAct(d, a) && RecordsSound(b, origins) && Sound(d.envelope, origins)
    ensures RecordsSound(Acted(b, d, a), origins)
  {
  }

  lemma RecordsStaySound(s: State, step: Step)
    requires Enabled(s, step) && AllSound(s)
    ensures RecordsSound(After(s, step).board, After(s, step).origins)
  {
    hide Acted, Advanced, CanAct;
    if step.Act? {
      var d := s.deliveries[step.delivery];
      assert DeliveryMatches(s, d);
      ActKeepsRecordsSound(s.board, d, step.action, s.origins);
    }
    if step.Promote? && MayPromote(s.board, step.job) {
      NextAttemptIsSound(s.board.records[step.job], s.origins);
    }
    if step.SaveQueued? {
      assert PusherSound(s, s.pushers[step.pusher]);
    }
  }

  lemma MatchesLater(s: State, t: State, d: Delivery)
    requires DeliveryMatches(s, d) && Grows(s, t) && t.delivered <= |t.entries|
    ensures DeliveryMatches(t, d)
  {
    assert t.entries[d.entry] == t.entries[..|s.entries|][d.entry];
  }

  lemma ActKeepsEnvelope(b: Board, d: Delivery, a: Action)
    requires CanAct(d, a)
    ensures Advanced(b, d, a).entry == d.entry && Advanced(b, d, a).envelope == d.envelope
    ensures Acted(b, d, a).pending <= b.pending
  {
  }

  /** A step gives out entries of the stream with their envelopes, and otherwise changes no delivery's entry. */
  lemma DeliveriesAfter(s: State, step: Step, d: DeliveryId)
    requires Enabled(s, step) && AllSound(s) && d in After(s, step).deliveries
    ensures var t := After(s, step); var after := t.deliveries[d];
      if d in s.deliveries then after.entry == s.deliveries[d].entry && after.envelope == s.deliveries[d].envelope
      else after.entry < t.delivered && after.entry < |s.entries| && after.envelope == s.entries[after.entry]
  {
    hide Acted, Advanced, CanAct, RecordsSound, PusherSound, Sound;
    if step.Act? {
      ActKeepsEnvelope(s.board, s.deliveries[step.delivery], step.action);
    }
  }

  lemma PendingStaysDelivered(s: State, step: Step)
    requires Enabled(s, step) && AllSound(s)
    ensures forall e <- After(s, step).board.pending :: e < After(s, step).delivered
  {
    hide Acted, Advanced, CanAct, RecordsSound, PusherSound, Sound, DeliveryMatches;
    if step.Act? {
      ActKeepsEnvelope(s.board, s.deliveries[step.delivery], step.action);
    }
  }

  lemma DeliveriesStayMatched(s: State, step: Step)
    requires Enabled(s, step) && AllSound(s)
    ensures var t := After(s, step);
      (forall d <- t.deliveries :: DeliveryMatches(t, t.deliveries[d]))
      && forall e <- t.board.pending :: e < t.delivered
  {
    var t := After(s, step);
    StepsGrow(s, step);
    EntriesStaySound(s, step);
    PendingStaysDelivered(s, step);
    hide After, Enabled, RecordsSound, PusherSound, Sound;
    forall d | d in t.deliveries ensures DeliveryMatches(t, t.deliveries[d]) {
      DeliveriesAfter(s, step, d);
      if d in s.deliveries {
        assert DeliveryMatches(s, s.deliveries[d]);
        MatchesLater(s, t, s.deliveries[d]);
      } else {
        assert t.entries[..|s.entries|][t.deliveries[d].entry] == s.entries[t.deliveries[d].entry];
      }
    }
  }

  lemma PushersStaySound(s: State, step: Step)
    requires Enabled(s, step) && AllSound(s)
    ensures var t := After(s, step); forall p <- t.pushers :: PusherSound(t, t.pushers[p])
  {
    hide Acted, Advanced, CanAct;
    var t := After(s, step);
    StepsGrow(s, step);
    if step.Load? && MayPromote(s.board, s.pushers[step.pusher].job) {
      NextAttemptIsSound(s.board.records[s.pushers[step.pusher].job], s.origins);
    }
    forall p | p in t.pushers ensures PusherSound(t, t.pushers[p]) {
      if p in s.pushers {
        assert PusherSound(s, s.pushers[p]);
        if s.pushers[p].Saving? {
          assert t.entries[s.pushers[p].entry] == t.entries[..|s.entries|][s.pushers[p].entry];
        }
      }
    }
  }

  lemma SoundStep(s: State, step: Step)
    requires Enabled(s, step) && AllSound(s)
    ensures AllSound(After(s, step))
  {
    EntriesStaySound(s, step);
    RecordsStaySound(s, step);
    DeliveriesStayMatched(s, step);
    PushersStaySound(s, step);
    hide After, Enabled, EntriesSound, RecordsSound, DeliveryMatches, PusherSound;
  }

  lemma {:induction false} SoundAlways(states: seq<State>, steps: seq<Step>, i: nat)
    requires IsExecution(states, steps) && i < |states|
    ensures AllSound(states[i])
  {
    NthStep(states, steps, if i == 0 then 0 else i - 1);
    if i > 0 {
      hide *;
      SoundAlways(states, steps, i - 1);
      SoundStep(states[i - 1], steps[i - 1]);
    }
  }

  /** Whether a step hands a job of this identity to the queue. */
  predicate Enqueues(step: Step, origin: Envelope) {
    match step
    case Enqueue(_, envelope) => Origin(envelope) == origin
    case Push(envelope, _) => Origin(envelope) == origin
    case _ => false
  }

  predicate WasEnqueued(steps: seq<Step>, n: nat, origin: Envelope)
    requires n <= |steps|
  {
    exists k :: 0 <= k < n && Enqueues(steps[k], origin)
  }

  lemma OriginsAfter(s: State, step: Step, origin: Envelope)
    requires Enabled(s, step) && origin in After(s, step).origins
    ensures origin in s.origins || Enqueues(step, origin)
  {
  }

  lemma WasEnqueuedLater(steps: seq<Step>, n: nat, origin: Envelope)
    requires n < |steps| && (WasEnqueued(steps, n, origin) || Enqueues(steps[n], origin))
    ensures WasEnqueued(steps, n + 1, origin)
  {
    if WasEnqueued(steps, n, origin) {
      var k :| 0 <= k < n && Enqueues(steps[k], origin);
    }
  }

  lemma {:induction false} OriginsWereEnqueued(states: seq<State>, steps: seq<Step>, i: nat, origin: Envelope)
    requires IsExecution(states, steps) && i < |states| == |steps| + 1 && origin in states[i].origins
    ensures WasEnqueued(steps, i, origin)
  {
    NthStep(states, steps, if i == 0 then 0 else i - 1);
    if i > 0 {
      hide *;
      OriginsAfter(states[i - 1], steps[i - 1], origin);
      if origin in states[i - 1].origins {
        OriginsWereEnqueued(states, steps, i - 1, origin);
      }
      WasEnqueuedLater(steps, i - 1, origin);
    }
  }

  /**
   * An attempt is within its budget exactly when the budget allows any; one that allows none still has a first
   * attempt.
   */
  predicate WithinAttempts(e: Envelope) {
    (1 <= e.attempt <= e.maxAttempts <==> e.maxAttempts >= 1) && (e.maxAttempts < 1 ==> e.attempt == 1)
  }

  /**
   * An attempt of a job that the first `n` steps enqueued with this type, payload, owner, correlation and
   * creation time.
   */
  predicate OfEnqueuedJob(steps: seq<Step>, n: nat, e: Envelope)
    requires n <= |steps|
  {
    WithinAttempts(e) && exists k :: 0 <= k < n && Enqueued(steps[k]).Some? && SameJob(Enqueued(steps[k]).value, e)
  }

  /** The envelope a step hands to the queue. */
  function Enqueued(step: Step): Option<Envelope> {
    match step
    case Enqueue(_, envelope) => Some(envelope)
    case Push(envelope, _) => Some(envelope)
    case _ => None
  }

  /** Attempts of one job agree on everything but the attempt's number and who queued it. */
  predicate SameJob(a: Envelope, b: Envelope) {
    a.jobId == b.jobId && a.jobType == b.jobType && a.version == b.version && a.payload == b.payload
    && a.maxAttempts == b.maxAttempts && a.correlationId == b.correlationId && a.companyId == b.companyId
    && a.createdAt == b.createdAt
  }

  lemma EnqueuesTheJob(step: Step, e: Envelope)
    requires Enqueues(step, Origin(e))
    ensures Enqueued(step).Some? && SameJob(Enqueued(step).value, e)
  {
  }

  lemma SoundIsEnqueued(states: seq<State>, steps: seq<Step>, i: nat, e: Envelope)
    requires IsExecution(states, steps) && i < |states| == |steps| + 1 && Sound(e, states[i].origins)
    ensures OfEnqueuedJob(steps, i, e)
  {
    hide IsExecution;
    OriginsWereEnqueued(states, steps, i, Origin(e));
    var k :| 0 <= k < i && Enqueues(steps[k], Origin(e));
    EnqueuesTheJob(steps[k], e);
  }

  /**
   * Whatever interleaves, is delivered twice or dies: every entry of the stream, every execution, every
   * record and every push under way is an attempt, within the budget if and only if the budget allows
   * one, of a job that was enqueued with exactly that identity; and a record only ever waits for a retry
   * strictly below the budget.
   */
  lemma AttemptsAreOfEnqueuedJobs(states: seq<State>, steps: seq<Step>, i: nat)
    requires IsExecution(states, steps) && i < |states| == |steps| + 1
    ensures forall k :: 0 <= k < |states[i].entries| ==> OfEnqueuedJob(steps, i, states[i].entries[k])
    ensures forall d <- states[i].deliveries :: OfEnqueuedJob(steps, i, states[i].deliveries[d].envelope)
    ensures forall job <- states[i].board.records ::
              var r := states[i].board.records[job];
              r.envelope.jobId == job && OfEnqueuedJob(steps, i, r.envelope)
              && (r.status == Retrying ==> r.envelope.attempt < r.envelope.maxAttempts)
    ensures forall p <- states[i].pushers ::
              states[i].pushers[p].Adding? || states[i].pushers[p].Saving? ==>
                OfEnqueuedJob(steps, i, states[i].pushers[p].envelope)
  {
    SoundAlways(states, steps, i);
    var s := states[i];
    hide IsExecution, OfEnqueuedJob, Sound;
    forall k | 0 <= k < |s.entries| ensures OfEnqueuedJob(steps, i, s.entries[k]) {
      SoundIsEnqueued(states, steps, i, s.entries[k]);
    }
    forall d | d in s.deliveries ensures OfEnqueuedJob(steps, i, s.deliveries[d].envelope) {
      assert DeliveryMatches(s, s.deliveries[d]);
      SoundIsEnqueued(states, steps, i, s.deliveries[d].envelope);
    }
    forall job | job in s.board.records ensures OfEnqueuedJob(steps, i, s.board.records[job].envelope) {
      SoundIsEnqueued(states, steps, i, s.board.records[job].envelope);
    }
    forall p | p in s.pushers && (s.pushers[p].Adding? || s.pushers[p].Saving?)
      ensures OfEnqueuedJob(steps, i, s.pushers[p].envelope)
    {
      assert PusherSound(s, s.pushers[p]);
      SoundIsEnqueued(states, steps, i, s.pushers[p].envelope);
    }
  }

  // ----- idempotency -----

  /** A delivery holds a key from its claim until it returns or gives the key back. */
  predicate Holds(d: Delivery, key: string) {
    match d.phase
    case Executing(k) => k == Some(key)
    case Releasing(held, _) => held == key
    case _ => false
  }

  ghost predicate HolderIsAlone(deliveries: map<DeliveryId, Delivery>) {
    forall a, b, key |
      a in deliveries && b in deliveries && Holds(deliveries[a], key) && Holds(deliveries[b], key) :: a == b
  }

  ghost predicate HeldIsClaimed(b: Board, deliveries: map<DeliveryId, Delivery>) {
    forall d, key | d in deliveries && Holds(deliveries[d], key) :: key in b.keys && key !in b.succeeded
  }

  ghost predicate KeysGuard(s: State) {
    HolderIsAlone(s.deliveries) && HeldIsClaimed(s.board, s.deliveries) && s.board.succeeded <= s.board.keys
  }

  /** A step takes a key only if it is free, and frees a key only if it held it. */
  lemma ActOnKeys(b: Board, d: Delivery, a: Action, key: string)
    requires CanAct(d, a) && (Holds(d, key) ==> key in b.keys)
    ensures Holds(Advanced(b, d, a), key) ==> Holds(d, key) || key !in b.keys
    ensures Holds(Advanced(b, d, a), key) ==> key in Acted(b, d, a).keys
    ensures key in b.keys && key !in Acted(b, d, a).keys ==> Holds(d, key)
    ensures key in Acted(b, d, a).succeeded && key !in b.succeeded ==>
              Holds(d, key) && !Holds(Advanced(b, d, a), key) && key in Acted(b, d, a).keys
    ensures Holds(Advanced(b, d, a), key) ==> (key in Acted(b, d, a).succeeded ==> key in b.succeeded)
    ensures b.succeeded <= Acted(b, d, a).succeeded
  {
  }

  lemma ActKeepsGuard(s: State, id: DeliveryId, a: Action)
    requires Enabled(s, Act(id, a)) && KeysGuard(s)
    ensures KeysGuard(After(s, Act(id, a)))
  {
    var t := After(s, Act(id, a));
    hide CanAct, Advanced, Acted, Holds;
    forall x, y, key
      | x in t.deliveries && y in t.deliveries && Holds(t.deliveries[x], key) && Holds(t.deliveries[y], key)
      ensures x == y
    {
      ActOnKeys(s.board, s.deliveries[id], a, key);
    }
    forall d, key | d in t.deliveries && Holds(t.deliveries[d], key)
      ensures key in t.board.keys && key !in t.board.succeeded
    {
      ActOnKeys(s.board, s.deliveries[id], a, key);
    }
    forall key | key in t.board.succeeded ensures key in t.board.keys {
      ActOnKeys(s.board, s.deliveries[id], a, key);
    }
  }

  lemma GuardStep(s: State, step: Step)
    requires Enabled(s, step) && KeysGuard(s)
    ensures KeysGuard(After(s, step))
  {
    if step.Act? {
      ActKeepsGuard(s, step.delivery, step.action);
    } else {
      hide CanAct, Advanced, Acted;
    }
  }

  lemma {:induction false} GuardAlways(states: seq<State>, steps: seq<Step>, i: nat)
    requires IsExecution(states, steps) && i < |states|
    ensures KeysGuard(states[i])
  {
    NthStep(states, steps, if i == 0 then 0 else i - 1);
    if i > 0 {
      hide *;
      GuardAlways(states, steps, i - 1);
      GuardStep(states[i - 1], steps[i - 1]);
    }
  }

  /** No two executions of the same key ever overlap. */
  lemma ExecutionsNeverOverlap(states: seq<State>, steps: seq<Step>, i: nat, a: DeliveryId, b: DeliveryId, key: string)
    requires IsExecution(states, steps) && i < |states|
    requires a in states[i].deliveries && states[i].deliveries[a].phase == Executing(Some(key))
    requires b in states[i].deliveries && states[i].deliveries[b].phase == Executing(Some(key))
    ensures a == b
  {
    GuardAlways(states, steps, i);
    hide IsExecution;
    assert Holds(states[i].deliveries[a], key) && Holds(states[i].deliveries[b], key);
  }

  /** Whether a step is the return of an execution under a key. */
  predicate SucceedsUnder(s: State, step: Step, key: string) {
    step.Act? && step.action.Return? && step.delivery in s.deliveries
    && s.deliveries[step.delivery].phase == Executing(Some(key))
  }

  lemma SuccessIsKept(s: State, step: Step, key: string)
    requires Enabled(s, step)
    ensures s.board.succeeded <= After(s, step).board.succeeded
    ensures SucceedsUnder(s, step, key) ==> key in After(s, step).board.succeeded
  {
  }

  lemma {:induction false} SuccessStays(states: seq<State>, steps: seq<Step>, i: nat, j: nat, key: string)
    requires IsExecution(states, steps) && i <= j < |states| && key in states[i].board.succeeded
    ensures key in states[j].board.succeeded
    decreases j
  {
    hide *;
    if i < j {
      NthStep(states, steps, j - 1);
      SuccessStays(states, steps, i, j - 1, key);
      SuccessIsKept(states[j - 1], steps[j - 1], key);
    }
  }

  /** At most one execution under a key ever succeeds. */
  lemma OneSuccess(states: seq<State>, steps: seq<Step>, i: nat, j: nat, key: string)
    requires IsExecution(states, steps) && i < |steps| && j < |steps| && |states| == |steps| + 1
    requires SucceedsUnder(states[i], steps[i], key) && SucceedsUnder(states[j], steps[j], key)
    ensures i == j
  {
    if i != j {
      hide *;
      var first, last := if i < j then i else j, if i < j then j else i;
      NthStep(states, steps, first);
      SuccessIsKept(states[first], steps[first], key);
      GuardAlways(states, steps, last);
      SuccessIsNew(states[last], steps[last], key);
      SuccessStays(states, steps, first + 1, last, key);
    }
  }

  lemma SuccessIsNew(s: State, step: Step, key: string)
    requires KeysGuard(s) && SucceedsUnder(s, step, key)
    ensures key !in s.board.succeeded
  {
    assert Holds(s.deliveries[step.delivery], key);
  }

  // ----- what a skipped execution means -----

  /** A step that leaves a key claimed with nobody to give it back. A failed claim of a taken key changes nothing. */
  predicate Loses(s: State, step: Step, key: string) {
    step.Act? && step.delivery in s.deliveries
    && match step.action
       case Die => Holds(s.deliveries[step.delivery], key)
       case ClaimKeyFails(k, applied, _) => k == key && applied && key !in s.board.keys
       case ReleaseFails(applied, _) => !applied && Holds(s.deliveries[step.delivery], key)
       case _ => false
  }

  predicate IsHeld(s: State, key: string) {
    exists d :: d in s.deliveries && Holds(s.deliveries[d], key)
  }

  /** Behind a claimed key stands an execution that succeeded or one under way. */
  predicate ClaimMeansEffect(s: State, key: string) {
    key in s.board.keys ==> key in s.board.succeeded || IsHeld(s, key)
  }

  lemma ActKeepsMeaning(b: Board, d: Delivery, a: Action, key: string)
    requires CanAct(d, a)
    requires !(a.Die? && Holds(d, key)) && !(a.ClaimKeyFails? && a.key == key && a.applied && key !in b.keys)
    requires !(a.ReleaseFails? && !a.applied && Holds(d, key))
    ensures Holds(d, key) ==>
              Holds(Advanced(b, d, a), key) || key in Acted(b, d, a).succeeded || key !in Acted(b, d, a).keys
    ensures key !in b.keys && key in Acted(b, d, a).keys ==> Holds(Advanced(b, d, a), key)
  {
  }

  lemma MeaningStep(s: State, step: Step, key: string)
    requires Enabled(s, step) && !Loses(s, step, key) && ClaimMeansEffect(s, key)
    ensures ClaimMeansEffect(After(s, step), key)
  {
    var t := After(s, step);
    if step.Act? {
      var id := step.delivery;
      ActKeepsMeaning(s.board, s.deliveries[id], step.action, key);
      SuccessIsKept(s, step, key);
      hide CanAct, Advanced, Acted, Holds;
      if key in t.board.keys && key !in t.board.succeeded {
        if key in s.board.keys {
          var d :| d in s.deliveries && Holds(s.deliveries[d], key);
          assert Holds(t.deliveries[if d == id then id else d], key);
        } else {
          assert Holds(t.deliveries[id], key);
        }
      }
    } else {
      hide CanAct, Advanced, Acted, Holds;
      if key in s.board.keys && key !in s.board.succeeded {
        var d :| d in s.deliveries && Holds(s.deliveries[d], key);
        assert Holds(t.deliveries[d], key);
      }
    }
  }

  /** Losing a key is losing its effect: it stays claimed, nothing succeeded under it and nobody is at work on it. */
  lemma LossEndsMeaning(s: State, step: Step, key: string)
    requires Enabled(s, step) && KeysGuard(s) && Loses(s, step, key)
    ensures !ClaimMeansEffect(After(s, step), key)
  {
    var t := After(s, step);
    var id := step.delivery;
    assert t.deliveries == s.deliveries[id := t.deliveries[id]] && !Holds(t.deliveries[id], key);
    assert key in t.board.keys && key !in t.board.succeeded;
    hide CanAct, Advanced, Acted, After, Enabled;
    forall d | d in t.deliveries ensures !Holds(t.deliveries[d], key) {
      if d != id {
        assert !Holds(s.deliveries[d], key);
      }
    }
  }

  lemma NobodyHolds(s: State, key: string)
    requires !ClaimMeansEffect(s, key)
    ensures key in s.board.keys && key !in s.board.succeeded && forall d <- s.deliveries :: !Holds(s.deliveries[d], key)
  {
  }

  /** No later step gives a lost key its meaning back. */
  lemma LossIsKept(s: State, step: Step, key: string)
    requires Enabled(s, step) && !ClaimMeansEffect(s, key)
    ensures !ClaimMeansEffect(After(s, step), key)
  {
    NobodyHolds(s, key);
    var t := After(s, step);
    if step.Act? {
      ActOnKeys(s.board, s.deliveries[step.delivery], step.action, key);
    }
    hide CanAct, Advanced, Acted, Holds;
    assert key in t.board.keys && key !in t.board.succeeded;
    forall d | d in t.deliveries ensures !Holds(t.deliveries[d], key) {
      if d !in s.deliveries {
        GivenHoldsNothing(t.deliveries[d], key);
      }
    }
  }

  lemma GivenHoldsNothing(d: Delivery, key: string)
    requires d.phase.Given?
    ensures !Holds(d, key)
  {
  }

  /** Some step among the first `n` loses the key. */
  predicate LostBy(states: seq<State>, steps: seq<Step>, n: nat, key: string)
    requires n <= |steps| <= |states|
  {
    exists k :: 0 <= k < n && Loses(states[k], steps[k], key)
  }

  lemma LostByNext(states: seq<State>, steps: seq<Step>, n: nat, key: string)
    requires n < |steps| <= |states|
    ensures LostBy(states, steps, n + 1, key) <==> LostBy(states, steps, n, key) || Loses(states[n], steps[n], key)
  {
    if LostBy(states, steps, n, key) {
      var k :| 0 <= k < n && Loses(states[k], steps[k], key);
    }
  }

  lemma NothingLostYet(states: seq<State>, steps: seq<Step>, key: string)
    requires IsExecution(states, steps) && |states| == |steps| + 1
    ensures ClaimMeansEffect(states[0], key) && !LostBy(states, steps, 0, key)
  {
  }

  /**
   * At every moment of every execution: a claimed key means that an execution under it succeeded or is
   * still under way, which may yet throw, if and only if no holder of the key died and no answer of the
   * guard about it was lost so far.
   */
  lemma SkipMeansEffect(states: seq<State>, steps: seq<Step>, i: nat, key: string)
    requires IsExecution(states, steps) && i < |states| == |steps| + 1
    ensures ClaimMeansEffect(states[i], key) <==> forall k :: 0 <= k < i ==> !Loses(states[k], steps[k], key)
  {
    MeaningUntilLost(states, steps, i, key);
    hide IsExecution, ClaimMeansEffect, Loses;
  }

  lemma {:induction false} MeaningUntilLost(states: seq<State>, steps: seq<Step>, i: nat, key: string)
    requires IsExecution(states, steps) && i < |states| == |steps| + 1
    ensures ClaimMeansEffect(states[i], key) <==> !LostBy(states, steps, i, key)
  {
    hide *;
    if i == 0 {
      NothingLostYet(states, steps, key);
    } else {
      var s, step := states[i - 1], steps[i - 1];
      NthStep(states, steps, i - 1);
      GuardAlways(states, steps, i - 1);
      MeaningUntilLost(states, steps, i - 1, key);
      LostByNext(states, steps, i - 1, key);
      if Loses(s, step, key) {
        LossEndsMeaning(s, step, key);
      } else if ClaimMeansEffect(s, key) {
        MeaningStep(s, step, key);
      } else {
        LossIsKept(s, step, key);
      }
    }
  }

  /** Whether a step asks for a key that is taken, so that the job is completed without running. */
  predicate Skips(s: State, step: Step, key: string) {
    Enabled(s, step) && step.Act? && step.action == ClaimKey(key) && key in s.board.keys
  }

  /** A held key has not succeeded, so a claimed one that means an effect succeeded exactly when nobody holds it. */
  lemma SucceededOrHeld(s: State, key: string)
    requires KeysGuard(s) && key in s.board.keys
    ensures key in s.board.succeeded <==> ClaimMeansEffect(s, key) && !IsHeld(s, key)
  {
    hide Holds;
  }

  lemma SkipFindsKeyTaken(s: State, step: Step, key: string)
    requires Skips(s, step, key)
    ensures key in s.board.keys && Advanced(s.board, s.deliveries[step.delivery], step.action).phase.Returned?
  {
  }

  /**
   * The rule for skipping, at the skip itself, in every execution: the job is skipped because an execution
   * under its key completed if and only if none is under way at that moment and the key was never lost.
   */
  lemma SkipIsRight(states: seq<State>, steps: seq<Step>, i: nat, key: string)
    requires IsExecution(states, steps) && i < |steps| < |states| && Skips(states[i], steps[i], key)
    ensures key in states[i].board.succeeded
       <==> !IsHeld(states[i], key) && forall k :: 0 <= k < i ==> !Loses(states[k], steps[k], key)
    ensures After(states[i], steps[i]).deliveries[steps[i].delivery].phase.Returned?
  {
    NthStep(states, steps, i);
    SkipMeansEffect(states, steps, i, key);
    GuardAlways(states, steps, i);
    SkipFindsKeyTaken(states[i], steps[i], key);
    SucceededOrHeld(states[i], key);
    hide IsExecution, ClaimMeansEffect, Loses, IsHeld, KeysGuard, Advanced, Acted, CanAct;
  }

  /** Whether a step claims the key for an execution that then runs. */
  predicate RunsUnder(s: State, step: Step, key: string) {
    Enabled(s, step) && step.Act? && step.action == ClaimKey(key)
    && After(s, step).deliveries[step.delivery].phase == Executing(Some(key))
  }

  lemma LostKeyIsTaken(s: State, step: Step, key: string)
    requires !ClaimMeansEffect(s, key)
    ensures !RunsUnder(s, step, key) && !SucceedsUnder(s, step, key)
  {
    NobodyHolds(s, key);
    if SucceedsUnder(s, step, key) {
      SuccessHolds(s, step, key);
    }
  }

  lemma SuccessHolds(s: State, step: Step, key: string)
    requires SucceedsUnder(s, step, key)
    ensures Holds(s.deliveries[step.delivery], key)
  {
  }

  lemma LossBeforeSuccess(s: State, step: Step, key: string)
    requires KeysGuard(s) && Loses(s, step, key)
    ensures key !in s.board.succeeded
  {
  }

  /**
   * A key that was lost is skipped for good: no execution under it starts afterwards, and none succeeds
   * at any moment of the whole execution, although every later delivery that derives it is completed.
   */
  lemma LostKeyIsSkippedForGood(states: seq<State>, steps: seq<Step>, k: nat, j: nat, key: string)
    requires IsExecution(states, steps) && k < |steps| && j < |steps| && |states| == |steps| + 1
    requires Loses(states[k], steps[k], key)
    ensures !SucceedsUnder(states[j], steps[j], key)
    ensures j > k ==> !RunsUnder(states[j], steps[j], key)
  {
    hide *;
    if j > k {
      LostByThen(states, steps, k, j, key);
      MeaningUntilLost(states, steps, j, key);
      LostKeyIsTaken(states[j], steps[j], key);
    } else {
      GuardAlways(states, steps, k);
      LossBeforeSuccess(states[k], steps[k], key);
      if j == k {
        LossIsNoSuccess(states[k], steps[k], key);
      } else if SucceedsUnder(states[j], steps[j], key) {
        NthStep(states, steps, j);
        SuccessIsKept(states[j], steps[j], key);
        SuccessStays(states, steps, j + 1, k, key);
      }
    }
  }

  lemma LossIsNoSuccess(s: State, step: Step, key: string)
    requires Loses(s, step, key)
    ensures !SucceedsUnder(s, step, key)
  {
  }

  lemma LostByThen(states: seq<State>, steps: seq<Step>, k: nat, n: nat, key: string)
    requires k < n <= |steps| <= |states| && Loses(states[k], steps[k], key)
    ensures LostBy(states, steps, n, key)
  {
  }
}
