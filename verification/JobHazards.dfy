/** Why each condition of the job queue's guarantees is needed: an execution that breaks it and loses the job. */
module JobHazards {
  import opened JobConservation
  import opened JobProtocol
  import opened JobQueue
  import opened JobRecords
  import opened JobSafety
  import opened Outcome

  const JOB := Envelope("job", "type", 1, "payload", 1, 3, "correlation", None, 0, "api")

  const TIMEOUT := Failure("RetryableJobError", "timeout", Retryable)

  /** One job with one entry, as one delivery after another left it. */
  function Shared(r: JobRecord, delayed: set<JobId>, pending: set<EntryId>, keys: set<string>): Board {
    Board(map["job" := r], delayed, pending, keys, map["job" := 0], {})
  }

  function At(b: Board, deliveries: map<DeliveryId, Delivery>, pushers: map<PusherId, Pusher>): State {
    State([JOB], 1, b, deliveries, pushers, {Origin(JOB)})
  }

  function By(phase: Phase): Delivery {
    Delivery(0, JOB, 0, phase)
  }

  function RunningJob(): JobRecord {
    RunningRecord(JOB, 0)
  }

  function RetryingJob(): JobRecord {
    RetryingRecord(JOB, 0, 0, TIMEOUT)
  }

  /** Of two deliveries one moves on. */
  lemma Reached(x: Delivery, y: Delivery, other: Delivery)
    ensures map[0 := x, 1 := other][0 := y] == map[0 := y, 1 := other]
  {
  }

  lemma Reached2(x: Delivery, y: Delivery, other: Delivery)
    ensures map[0 := other, 1 := x][1 := y] == map[0 := other, 1 := y]
  {
  }

  lemma ReachedAlone(x: Delivery, y: Delivery)
    ensures map[0 := x][0 := y] == map[0 := y]
  {
  }

  lemma WrittenOver(r: JobRecord, next: JobRecord, delayed: set<JobId>, pending: set<EntryId>, keys: set<string>)
    requires next.envelope.jobId == "job"
    ensures Written(Shared(r, delayed, pending, keys), next, 0) == Shared(next, delayed, pending, keys)
  {
  }

  lemma EmptyExecution()
    ensures IsExecution([Empty], [])
  {
  }

  lemma JobStarts() returns (states: seq<State>, steps: seq<Step>)
    ensures IsExecution(states, steps) && steps != [] && steps[0] == Push(JOB, 0)
    ensures states[|steps|] == At(Shared(RunningJob(), {}, {0}, {}), map[0 := By(Started)], map[])
    ensures IsCarefulExecution(states, steps)
  {
    hide IsExecution, IsCarefulExecution;
    EmptyExecution();
    EmptyIsCareful();
    states, steps := GoCarefully([Empty], [], Push(JOB, 0),
                                 State([JOB], 0, Shared(QueuedRecord(JOB, 0), {}, {}, {}), map[], map[],
                                       {Origin(JOB)}));
    states, steps := GoCarefully(states, steps, Deliver(0),
                                 At(Shared(QueuedRecord(JOB, 0), {}, {0}, {}), map[0 := By(Given)], map[]));
    states, steps := GoCarefully(states, steps, Act(0, SaveRunning(0)),
                                 At(Shared(RunningJob(), {}, {0}, {}), map[0 := By(Started)], map[]));
  }

  lemma EmptyIsCareful()
    ensures IsCarefulExecution([Empty], [])
  {
  }

  lemma GoCarefully(states: seq<State>, steps: seq<Step>, step: Step, next: State)
    returns (states': seq<State>, steps': seq<Step>)
    requires IsCarefulExecution(states, steps) && |states| == |steps| + 1
    requires Enabled(states[|steps|], step) && Careful(states[|steps|], step)
    requires After(states[|steps|], step) == next
    ensures IsCarefulExecution(states', steps') && IsExecution(states', steps')
    ensures states' == states + [next] && steps' == steps + [step]
  {
    hide Enabled, After, Careful;
    states', steps' := Go(states, steps, step, next);
  }

  /** The job fails for now and its delivery has stored the retrying record. */
  lemma JobIsNoted() returns (states: seq<State>, steps: seq<Step>)
    ensures IsCarefulExecution(states, steps) && steps != [] && steps[0] == Push(JOB, 0) && |states| == |steps| + 1
    ensures states[|steps|] == At(Shared(RetryingJob(), {}, {0}, {}), map[0 := By(Noted)], map[])
  {
    hide IsExecution, IsCarefulExecution;
    var b := Shared(RunningJob(), {}, {0}, {});
    states, steps := JobStarts();
    LengthsAgree(states, steps);
    states, steps := GoCarefully(states, steps, Act(0, RunWithoutKey), At(b, map[0 := By(Executing(None))], map[]));
    states, steps := GoCarefully(states, steps, Act(0, Throw(TIMEOUT)), At(b, map[0 := By(Broken(TIMEOUT))], map[]));
    states, steps := GoCarefully(states, steps, Act(0, SaveRetrying(0)),
                                 At(Shared(RetryingJob(), {}, {0}, {}), map[0 := By(Noted)], map[]));
  }

  lemma LengthsAgree(states: seq<State>, steps: seq<Step>)
    requires IsExecution(states, steps)
    ensures |states| == |steps| + 1
  {
  }

  lemma JobIsRescheduled() returns (states: seq<State>, steps: seq<Step>)
    ensures IsCarefulExecution(states, steps) && steps != [] && steps[0] == Push(JOB, 0) && |states| == |steps| + 1
    ensures states[|steps|] == At(Shared(RetryingJob(), {"job"}, {}, {}), map[0 := By(Settled)], map[])
  {
    hide IsExecution, IsCarefulExecution;
    states, steps := JobIsNoted();
    states, steps := GoCarefully(states, steps, Act(0, Schedule),
                                 At(Shared(RetryingJob(), {"job"}, {0}, {}), map[0 := By(Rescheduled)], map[]));
    states, steps := GoCarefully(states, steps, Act(0, Acknowledge),
                                 At(Shared(RetryingJob(), {"job"}, {}, {}), map[0 := By(Settled)], map[]));
  }

  lemma CarefulIsExecution(states: seq<State>, steps: seq<Step>)
    requires IsCarefulExecution(states, steps)
    ensures IsExecution(states, steps)
  {
  }

  /** A promoter that dies between removing the schedule entry and pushing loses a job no dispatch failed to handle. */
  lemma InterruptedPromotionLosesJob() returns (states: seq<State>, steps: seq<Step>)
    ensures IsExecution(states, steps) && |states| == |steps| + 1 && steps != [] && steps[0] == Push(JOB, 0)
    ensures !Kept(states[|steps|], "job")
  {
    hide IsExecution, IsCarefulExecution;
    states, steps := JobIsRescheduled();
    CarefulIsExecution(states, steps);
    var b := Shared(RetryingJob(), {}, {}, {});
    states, steps := Go(states, steps, Remove(0, "job"), At(b, map[0 := By(Settled)], map[0 := Removed("job")]));
    states, steps := Go(states, steps, Abandon(0), At(b, map[0 := By(Settled)], map[0 := Over]));
  }

  /** A worker that outruns the producer's second write: the finished job's record goes back to queued for good. */
  lemma InterruptedPushHidesEnd() returns (states: seq<State>, steps: seq<Step>)
    ensures IsExecution(states, steps) && |states| == |steps| + 1 && steps != [] && steps[0] == Enqueue(0, JOB)
    ensures "job" in states[|steps|].board.records && states[|steps|].board.records["job"].status == Queued
    ensures !Kept(states[|steps|], "job")
  {
    hide IsExecution;
    states, steps := WorkerOutrunsProducer();
    var done := map[0 := By(Settled)];
    states, steps := Go(states, steps, SaveQueued(0, 0),
                        At(Shared(QueuedRecord(JOB, 0), {}, {}, {}), done, map[0 := Over]));
  }

  lemma WorkerOutrunsProducer() returns (states: seq<State>, steps: seq<Step>)
    ensures IsExecution(states, steps) && |states| == |steps| + 1 && steps != [] && steps[0] == Enqueue(0, JOB)
    ensures states[|steps|]
            == At(Shared(CompletedRecord(JOB, 0, 0), {}, {}, {}), map[0 := By(Settled)], map[0 := Saving(JOB, 0)])
  {
    hide IsExecution;
    var saving := map[0 := Saving(JOB, 0)];
    EmptyExecution();
    states, steps := Go([Empty], [], Enqueue(0, JOB),
                        State([], 0, EmptyBoard, map[], map[0 := Adding(JOB)], {Origin(JOB)}));
    states, steps := Go(states, steps, AddEntry(0), State([JOB], 0, EmptyBoard, map[], saving, {Origin(JOB)}));
    states, steps := Go(states, steps, Deliver(0), At(EmptyBoard.(pending := {0}), map[0 := By(Given)], saving));
    states, steps := WorkerRuns(states, steps);
    states, steps := WorkerFinishes(states, steps);
  }

  lemma WorkerRuns(states: seq<State>, steps: seq<Step>) returns (states': seq<State>, steps': seq<Step>)
    requires IsExecution(states, steps) && |states| == |steps| + 1
    requires states[|steps|] == At(EmptyBoard.(pending := {0}), map[0 := By(Given)], map[0 := Saving(JOB, 0)])
    ensures IsExecution(states', steps') && |states'| == |steps'| + 1 && steps <= steps'
    ensures states'[|steps'|] == At(Shared(RunningJob(), {}, {0}, {}), map[0 := By(Returned)], map[0 := Saving(JOB, 0)])
  {
    hide IsExecution;
    var saving := map[0 := Saving(JOB, 0)];
    var b := Shared(RunningJob(), {}, {0}, {});
    states', steps' := Go(states, steps, Act(0, SaveRunning(0)), At(b, map[0 := By(Started)], saving));
    states', steps' := Go(states', steps', Act(0, RunWithoutKey), At(b, map[0 := By(Executing(None))], saving));
    states', steps' := Go(states', steps', Act(0, Return), At(b, map[0 := By(Returned)], saving));
  }

  lemma WorkerFinishes(states: seq<State>, steps: seq<Step>) returns (states': seq<State>, steps': seq<Step>)
    requires IsExecution(states, steps) && |states| == |steps| + 1
    requires states[|steps|] == At(Shared(RunningJob(), {}, {0}, {}), map[0 := By(Returned)], map[0 := Saving(JOB, 0)])
    ensures IsExecution(states', steps') && |states'| == |steps'| + 1 && steps <= steps'
    ensures states'[|steps'|]
            == At(Shared(CompletedRecord(JOB, 0, 0), {}, {}, {}), map[0 := By(Settled)], map[0 := Saving(JOB, 0)])
  {
    hide IsExecution;
    WrittenOver(RunningJob(), CompletedRecord(JOB, 0, 0), {}, {0}, {});
    ReachedAlone(By(Returned), By(Finished));
    ReachedAlone(By(Finished), By(Settled));
    hide Written;
    var saving := map[0 := Saving(JOB, 0)];
    var last := Shared(CompletedRecord(JOB, 0, 0), {}, {0}, {});
    states', steps' := Go(states, steps, Act(0, SaveCompleted(0)), At(last, map[0 := By(Finished)], saving));
    states', steps' := Go(states', steps', Act(0, Acknowledge),
                          At(last.(pending := {}), map[0 := By(Settled)], saving));
  }

  /** A second delivery of an entry whose first one lives. */
  lemma HastyReclaim() returns (states: seq<State>, steps: seq<Step>)
    ensures IsExecution(states, steps) && |states| == |steps| + 1 && steps != [] && steps[0] == Push(JOB, 0)
    ensures states[|steps|] == At(Shared(RetryingJob(), {}, {0}, {}), map[0 := By(Noted), 1 := By(Given)], map[])
  {
    hide IsExecution, IsCarefulExecution;
    states, steps := JobIsNoted();
    CarefulIsExecution(states, steps);
    states, steps := Go(states, steps, Reclaim(1, 0),
                        At(Shared(RetryingJob(), {}, {0}, {}), map[0 := By(Noted), 1 := By(Given)], map[]));
  }

  /** The first delivery goes on to settle the entry. */
  lemma FirstSettles() returns (states: seq<State>, steps: seq<Step>)
    ensures IsExecution(states, steps) && |states| == |steps| + 1 && steps != [] && steps[0] == Push(JOB, 0)
    ensures states[|steps|] == At(Shared(RetryingJob(), {"job"}, {}, {}), map[0 := By(Settled), 1 := By(Given)], map[])
  {
    hide IsExecution;
    states, steps := HastyReclaim();
    Reached(By(Noted), By(Rescheduled), By(Given));
    Reached(By(Rescheduled), By(Settled), By(Given));
    var b := Shared(RetryingJob(), {"job"}, {0}, {});
    states, steps := Go(states, steps, Act(0, Schedule), At(b, map[0 := By(Rescheduled), 1 := By(Given)], map[]));
    states, steps := Go(states, steps, Act(0, Acknowledge),
                        At(b.(pending := {}), map[0 := By(Settled), 1 := By(Given)], map[]));
  }

  lemma HiddenRetryIsLost(deliveries: map<DeliveryId, Delivery>)
    ensures !Kept(At(Shared(RunningJob(), {"job"}, {}, {}), deliveries, map[]), "job")
  {
  }

  /**
   * An entry taken over from a delivery that still lives: the first settles it, the second hides the retry and
   * dies.
   */
  lemma HastyReclaimLosesJob() returns (states: seq<State>, steps: seq<Step>)
    ensures IsExecution(states, steps) && |states| == |steps| + 1 && steps != [] && steps[0] == Push(JOB, 0)
    ensures !Kept(states[|steps|], "job")
  {
    hide IsExecution, Kept;
    states, steps := FirstSettles();
    Reached2(By(Given), By(Started), By(Settled));
    Reached2(By(Started), By(Dead), By(Settled));
    var b, last := Shared(RunningJob(), {"job"}, {}, {}), map[0 := By(Settled), 1 := By(Dead)];
    states, steps := Go(states, steps, Act(1, SaveRunning(0)), At(b, map[0 := By(Settled), 1 := By(Started)], map[]));
    states, steps := Go(states, steps, Act(1, Die), At(b, last, map[]));
    HiddenRetryIsLost(last);
  }

  /** What the board shows once the skipped job is recorded. */
  function Skipped(pending: set<EntryId>): Board {
    Shared(CompletedRecord(JOB, 0, 0), {}, pending, {"key"})
  }

  lemma SkippedIsRecorded() returns (states: seq<State>, steps: seq<Step>)
    ensures IsCarefulExecution(states, steps) && |states| == |steps| + 1 && steps != [] && steps[0] == Push(JOB, 0)
    ensures states[|steps|] == At(Skipped({0}), map[0 := By(Dead), 1 := By(Finished)], map[])
  {
    hide IsExecution, IsCarefulExecution;
    states, steps := JobIsSkipped();
    WrittenOver(RunningJob(), CompletedRecord(JOB, 0, 0), {}, {0}, {"key"});
    Reached2(By(Returned), By(Finished), By(Dead));
    hide Written;
    states, steps := GoCarefully(states, steps, Act(1, SaveCompleted(0)),
                                 At(Skipped({0}), map[0 := By(Dead), 1 := By(Finished)], map[]));
  }

  /**
   * A holder that dies keeps its claim: the redelivered job is skipped, recorded as completed and
   * acknowledged, although no execution under its key ever returned.
   */
  lemma DeadHolderSkipsJob() returns (states: seq<State>, steps: seq<Step>)
    ensures IsCarefulExecution(states, steps) && |states| == |steps| + 1 && steps != [] && steps[0] == Push(JOB, 0)
    ensures "job" in states[|steps|].board.records && states[|steps|].board.records["job"].status == Completed
    ensures states[|steps|].board.pending == {} && states[|steps|].delivered == |states[|steps|].entries|
    ensures "key" in states[|steps|].board.keys && states[|steps|].board.succeeded == {}
  {
    hide IsExecution, IsCarefulExecution;
    states, steps := SkippedIsRecorded();
    Reached2(By(Finished), By(Settled), By(Dead));
    states, steps := GoCarefully(states, steps, Act(1, Acknowledge),
                                 At(Skipped({}), map[0 := By(Dead), 1 := By(Settled)], map[]));
  }

  lemma JobIsSkipped() returns (states: seq<State>, steps: seq<Step>)
    ensures IsCarefulExecution(states, steps) && |states| == |steps| + 1 && steps != [] && steps[0] == Push(JOB, 0)
    ensures states[|steps|] == At(Shared(RunningJob(), {}, {0}, {"key"}), map[0 := By(Dead), 1 := By(Returned)], map[])
  {
    hide IsExecution, IsCarefulExecution;
    states, steps := HolderDies();
    var b := Shared(RunningJob(), {}, {0}, {"key"});
    states, steps := GoCarefully(states, steps, Act(1, SaveRunning(0)),
                                 At(b, map[0 := By(Dead), 1 := By(Started)], map[]));
    states, steps := GoCarefully(states, steps, Act(1, ClaimKey("key")),
                                 At(b, map[0 := By(Dead), 1 := By(Returned)], map[]));
  }

  lemma HolderDies() returns (states: seq<State>, steps: seq<Step>)
    ensures IsCarefulExecution(states, steps) && |states| == |steps| + 1 && steps != [] && steps[0] == Push(JOB, 0)
    ensures states[|steps|] == At(Shared(RunningJob(), {}, {0}, {"key"}), map[0 := By(Dead), 1 := By(Given)], map[])
  {
    hide IsExecution, IsCarefulExecution;
    states, steps := JobStarts();
    LengthsAgree(states, steps);
    var b := Shared(RunningJob(), {}, {0}, {"key"});
    states, steps := GoCarefully(states, steps, Act(0, ClaimKey("key")),
                                 At(b, map[0 := By(Executing(Some("key")))], map[]));
    states, steps := GoCarefully(states, steps, Act(0, Die), At(b, map[0 := By(Dead)], map[]));
    states, steps := GoCarefully(states, steps, Reclaim(1, 0), At(b, map[0 := By(Dead), 1 := By(Given)], map[]));
  }

  /** An enqueue may state a budget of no attempt at all, and the first attempt is delivered all the same. */
  lemma BudgetlessJobIsDelivered() returns (states: seq<State>, steps: seq<Step>)
    ensures IsCarefulExecution(states, steps) && |states| == |steps| + 1
    ensures 0 in states[|steps|].deliveries
    ensures var e := states[|steps|].deliveries[0].envelope; e.attempt == 1 > 0 == e.maxAttempts
  {
    hide IsExecution, IsCarefulExecution;
    EmptyIsCareful();
    var job := JOB.(maxAttempts := 0);
    var b := Shared(QueuedRecord(job, 0), {}, {}, {});
    states, steps := GoCarefully([Empty], [], Push(job, 0), State([job], 0, b, map[], map[], {Origin(job)}));
    states, steps := GoCarefully(states, steps, Deliver(0),
                                 State([job], 1, b.(pending := {0}), map[0 := Delivery(0, job, 0, Given)], map[],
                                       {Origin(job)}));
  }

  // ----- a skip beside an execution that later throws -----

  const OTHER := JOB.(jobId := "other")

  const REFUSAL := Failure("ApplicationError", "refused", Terminal)

  /** Two jobs with one key and one entry each; no step of either loses the key. */
  function Pair(job: JobRecord, other: JobRecord, pending: set<EntryId>, keys: set<string>): Board {
    Board(map["job" := job, "other" := other], {}, pending, keys, map["job" := 0, "other" := 1], {})
  }

  lemma PairWritten(job: JobRecord, other: JobRecord, next: JobRecord, pending: set<EntryId>, keys: set<string>)
    requires next.envelope.jobId == "job"
    ensures Written(Pair(job, other, pending, keys), next, 0) == Pair(next, other, pending, keys)
  {
  }

  function OfOther(phase: Phase): Delivery {
    Delivery(1, OTHER, 0, phase)
  }

  function Both(b: Board, first: Phase, second: Phase): State {
    State([JOB, OTHER], 2, b, map[0 := By(first), 1 := OfOther(second)], map[], {Origin(JOB), Origin(OTHER)})
  }

  lemma FirstGoes(states: seq<State>, steps: seq<Step>, b: Board, first: Phase, second: Phase,
                  action: Action, b': Board, next: Phase)
    returns (states': seq<State>, steps': seq<Step>)
    requires IsCarefulExecution(states, steps) && |states| == |steps| + 1 && states[|steps|] == Both(b, first, second)
    requires CanAct(By(first), action) && Advanced(b, By(first), action) == By(next)
             && Acted(b, By(first), action) == b'
    ensures IsCarefulExecution(states', steps')
    ensures states' == states + [Both(b', next, second)] && steps' == steps + [Act(0, action)]
  {
    hide IsExecution, IsCarefulExecution, CanAct, Advanced, Acted;
    Reached(By(first), By(next), OfOther(second));
    states', steps' := GoCarefully(states, steps, Act(0, action), Both(b', next, second));
  }

  lemma SecondGoes(states: seq<State>, steps: seq<Step>, b: Board, first: Phase, second: Phase,
                   action: Action, b': Board, next: Phase)
    returns (states': seq<State>, steps': seq<Step>)
    requires IsCarefulExecution(states, steps) && |states| == |steps| + 1 && states[|steps|] == Both(b, first, second)
    requires CanAct(OfOther(second), action) && Advanced(b, OfOther(second), action) == OfOther(next)
    requires Acted(b, OfOther(second), action) == b'
    ensures IsCarefulExecution(states', steps')
    ensures states' == states + [Both(b', first, next)] && steps' == steps + [Act(1, action)]
  {
    hide IsExecution, IsCarefulExecution, CanAct, Advanced, Acted;
    Reached2(OfOther(second), OfOther(next), By(first));
    states', steps' := GoCarefully(states, steps, Act(1, action), Both(b', first, next));
  }

  function RunningOther(): JobRecord {
    RunningRecord(OTHER, 0)
  }

  function CompletedOther(): JobRecord {
    CompletedRecord(OTHER, 0, 0)
  }

  function FailedJob(): JobRecord {
    FailedRecord(JOB, 0, 0, REFUSAL)
  }

  lemma BothAreGiven() returns (states: seq<State>, steps: seq<Step>)
    ensures IsCarefulExecution(states, steps) && |states| == |steps| + 1
    ensures states[|steps|] == Both(Pair(QueuedRecord(JOB, 0), QueuedRecord(OTHER, 0), {0, 1}, {}), Given, Given)
  {
    hide IsExecution, IsCarefulExecution;
    EmptyIsCareful();
    var job, other := QueuedRecord(JOB, 0), QueuedRecord(OTHER, 0);
    var origins := {Origin(JOB), Origin(OTHER)};
    var one := Delivery(0, JOB, 0, Given);
    states, steps := GoCarefully([Empty], [], Push(JOB, 0),
                                 State([JOB], 0, Shared(job, {}, {}, {}), map[], map[], {Origin(JOB)}));
    states, steps := GoCarefully(states, steps, Push(OTHER, 0),
                                 State([JOB, OTHER], 0, Pair(job, other, {}, {}), map[], map[], origins));
    states, steps := GoCarefully(states, steps, Deliver(0),
                                 State([JOB, OTHER], 1, Pair(job, other, {0}, {}), map[0 := one], map[], origins));
    states, steps := GoCarefully(states, steps, Deliver(1), Both(Pair(job, other, {0, 1}, {}), Given, Given));
  }

  lemma OneRuns() returns (states: seq<State>, steps: seq<Step>)
    ensures IsCarefulExecution(states, steps) && |states| == |steps| + 1
    ensures states[|steps|] == Both(Pair(RunningJob(), QueuedRecord(OTHER, 0), {0, 1}, {}), Started, Given)
  {
    hide IsExecution, IsCarefulExecution, Both, After, Enabled, Written, Pair;
    states, steps := BothAreGiven();
    var job, other := QueuedRecord(JOB, 0), QueuedRecord(OTHER, 0);
    PairWritten(job, other, RunningJob(), {0, 1}, {});
    var first := Pair(RunningJob(), other, {0, 1}, {});
    states, steps := FirstGoes(states, steps, Pair(job, other, {0, 1}, {}), Given, Given,
                               SaveRunning(0), first, Started);
  }

  lemma OneRunsTheKey() returns (states: seq<State>, steps: seq<Step>)
    ensures IsCarefulExecution(states, steps) && |states| == |steps| + 1
    ensures states[|steps|]
            == Both(Pair(RunningJob(), RunningOther(), {0, 1}, {"key"}), Executing(Some("key")), Started)
  {
    hide IsExecution, IsCarefulExecution, Both, After, Enabled, RunningJob;
    states, steps := OneRuns();
    var other := QueuedRecord(OTHER, 0);
    var first := Pair(RunningJob(), other, {0, 1}, {});
    var second, executing := Pair(RunningJob(), other, {0, 1}, {"key"}), Executing(Some("key"));
    states, steps := FirstGoes(states, steps, first, Started, Given, ClaimKey("key"), second, executing);
    var third := Pair(RunningJob(), RunningOther(), {0, 1}, {"key"});
    states, steps := SecondGoes(states, steps, second, executing, Given, SaveRunning(0), third, Started);
  }

  lemma OtherIsSkipped() returns (states: seq<State>, steps: seq<Step>, skip: nat)
    ensures IsCarefulExecution(states, steps) && |states| == |steps| + 1
    ensures states[|steps|] == Both(Pair(RunningJob(), CompletedOther(), {0}, {"key"}), Executing(Some("key")), Settled)
    ensures skip < |steps| && steps[skip] == Act(1, ClaimKey("key"))
    ensures states[skip] == Both(Pair(RunningJob(), RunningOther(), {0, 1}, {"key"}), Executing(Some("key")), Started)
  {
    hide IsExecution, IsCarefulExecution, Both, After, Enabled;
    states, steps := OneRunsTheKey();
    var before, executing := Pair(RunningJob(), RunningOther(), {0, 1}, {"key"}), Executing(Some("key"));
    skip := |steps|;
    states, steps := SecondGoes(states, steps, before, executing, Started, ClaimKey("key"), before, Returned);
    var done := Pair(RunningJob(), CompletedOther(), {0, 1}, {"key"});
    states, steps := SecondGoes(states, steps, before, executing, Returned, SaveCompleted(0), done, Finished);
    var settled := Pair(RunningJob(), CompletedOther(), {0}, {"key"});
    states, steps := SecondGoes(states, steps, done, executing, Finished, Acknowledge, settled, Settled);
  }

  lemma OneReleases(states: seq<State>, steps: seq<Step>) returns (states': seq<State>, steps': seq<Step>)
    requires IsCarefulExecution(states, steps) && |states| == |steps| + 1
    requires states[|steps|]
             == Both(Pair(RunningJob(), CompletedOther(), {0}, {"key"}), Executing(Some("key")), Settled)
    ensures IsCarefulExecution(states', steps') && |states'| == |steps'| + 1 && states < states' && steps < steps'
    ensures states'[|steps'|] == Both(Pair(RunningJob(), CompletedOther(), {0}, {}), Broken(REFUSAL), Settled)
  {
    hide IsExecution, IsCarefulExecution, Both, After, Enabled, RunningJob, CompletedOther;
    var held, free := Pair(RunningJob(), CompletedOther(), {0}, {"key"}), Pair(RunningJob(), CompletedOther(), {0}, {});
    states', steps' := FirstGoes(states, steps, held, Executing(Some("key")), Settled, Throw(REFUSAL), held,
                                 Releasing("key", REFUSAL));
    states', steps' := FirstGoes(states', steps', held, Releasing("key", REFUSAL), Settled, Release, free,
                                 Broken(REFUSAL));
  }

  lemma OneIsBuried(states: seq<State>, steps: seq<Step>) returns (states': seq<State>, steps': seq<Step>)
    requires IsCarefulExecution(states, steps) && |states| == |steps| + 1
    requires states[|steps|] == Both(Pair(RunningJob(), CompletedOther(), {0}, {}), Broken(REFUSAL), Settled)
    ensures IsCarefulExecution(states', steps') && |states'| == |steps'| + 1 && states < states' && steps < steps'
    ensures states'[|steps'|] == Both(Pair(FailedJob(), CompletedOther(), {}, {}), Settled, Settled)
  {
    hide IsExecution, IsCarefulExecution, Both, After, Enabled, CompletedOther, Written;
    var free, failed := Pair(RunningJob(), CompletedOther(), {0}, {}), Pair(FailedJob(), CompletedOther(), {0}, {});
    PairWritten(RunningJob(), CompletedOther(), FailedJob(), {0}, {});
    var settled := Pair(FailedJob(), CompletedOther(), {}, {});
    states', steps' := FirstGoes(states, steps, free, Broken(REFUSAL), Settled, SaveFailed(0), failed, Buried);
    states', steps' := FirstGoes(states', steps', failed, Buried, Settled, Acknowledge, settled, Settled);
  }

  /**
   * A job skipped beside an execution under its key that later throws: no step loses the key, both jobs are
   * settled and the skipped one is recorded as completed, but nothing ever succeeded under the key, which
   * is free again.
   */
  lemma SkipBesideFailureCompletesJob() returns (states: seq<State>, steps: seq<Step>, skip: nat)
    ensures IsCarefulExecution(states, steps) && skip < |steps| == |states| - 1
    ensures Skips(states[skip], steps[skip], "key")
    ensures forall k :: 0 <= k < |steps| ==> !Loses(states[k], steps[k], "key")
    ensures var last := states[|steps|].board;
      "other" in last.records && last.records["other"].status == Completed
      && "job" in last.records && last.records["job"].status == Failed
      && last.pending == {} && last.keys == {} && last.succeeded == {}
    ensures states[|steps|].delivered == |states[|steps|].entries|
  {
    hide IsExecution, IsCarefulExecution, Loses;
    states, steps, skip := OtherIsSkipped();
    assert Skips(states[skip], steps[skip], "key");
    var before := states;
    states, steps := OneReleases(states, steps);
    states, steps := OneIsBuried(states, steps);
    assert states[skip] == before[skip];
    CarefulIsExecution(states, steps);
    SkipMeansEffect(states, steps, |steps|, "key");
  }
}
