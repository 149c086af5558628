/** The dispatch method seen from the protocol, when nothing interrupts it. */
module JobDispatchRun {
  import opened JobDispatcher
  import opened JobProtocol
  import opened JobQueue
  import opened JobRecords
  import opened Outcome
  import opened RetryPolicy

  /** The board shows what the queue and the guard store. */
  predicate Shows(b: Board, q: Store, keys: set<string>) {
    b.records == q.records && b.delayed == q.delayed.Keys && b.pending == q.pending.Keys && b.keys == keys
  }

  // ----- several actions of one delivery -----

  predicate CanRun(b: Board, d: Delivery, actions: seq<Action>)
    decreases |actions|
  {
    actions == [] || (CanAct(d, actions[0])
                      && CanRun(Acted(b, d, actions[0]), Advanced(b, d, actions[0]), actions[1..]))
  }

  function RunAll(b: Board, d: Delivery, actions: seq<Action>): (Board, Delivery)
    requires CanRun(b, d, actions)
    decreases |actions|
  {
    if actions == [] then (b, d)
    else RunAll(Acted(b, d, actions[0]), Advanced(b, d, actions[0]), actions[1..])
  }

  lemma RunsOne(b: Board, d: Delivery, a: Action)
    requires CanAct(d, a)
    ensures CanRun(b, d, [a]) && RunAll(b, d, [a]) == (Acted(b, d, a), Advanced(b, d, a))
  {
    assert [a][1..] == [];
  }

  lemma RunsTwo(b: Board, d: Delivery, a: Action, x: Action)
    requires CanAct(d, a) && CanAct(Advanced(b, d, a), x)
    ensures CanRun(b, d, [a, x])
    ensures RunAll(b, d, [a, x])
         == (Acted(Acted(b, d, a), Advanced(b, d, a), x), Advanced(Acted(b, d, a), Advanced(b, d, a), x))
  {
    hide CanAct, Acted, Advanced;
    RunsOne(Acted(b, d, a), Advanced(b, d, a), x);
    assert [a, x][1..] == [x];
  }

  lemma RunsThree(b: Board, d: Delivery, a: Action, x: Action, y: Action)
    requires CanAct(d, a) && CanAct(Advanced(b, d, a), x)
    requires CanAct(Advanced(Acted(b, d, a), Advanced(b, d, a), x), y)
    ensures CanRun(b, d, [a, x, y])
    ensures RunAll(b, d, [a, x, y]) == RunAll(Acted(b, d, a), Advanced(b, d, a), [x, y])
  {
    hide CanAct, Acted, Advanced;
    RunsTwo(Acted(b, d, a), Advanced(b, d, a), x, y);
    assert [a, x, y][1..] == [x, y];
  }

  /** Uninterrupted, the actions of a delivery extend any execution. */
  lemma {:induction false} ActionsExtend(states: seq<State>, steps: seq<Step>, id: DeliveryId, actions: seq<Action>)
    returns (states': seq<State>, steps': seq<Step>)
    requires IsExecution(states, steps) && |states| == |steps| + 1 && id in states[|steps|].deliveries
    requires CanRun(states[|steps|].board, states[|steps|].deliveries[id], actions)
    ensures IsExecution(states', steps') && states <= states' && |states'| == |steps'| + 1
    ensures id in states'[|steps'|].deliveries
    ensures (states'[|steps'|].board, states'[|steps'|].deliveries[id])
         == RunAll(states[|steps|].board, states[|steps|].deliveries[id], actions)
    decreases |actions|
  {
    hide IsExecution, CanAct, Acted, Advanced;
    if actions == [] {
      states', steps' := states, steps;
    } else {
      var s := states[|steps|];
      states', steps' := Go(states, steps, Act(id, actions[0]), After(s, Act(id, actions[0])));
      states', steps' := ActionsExtend(states', steps', id, actions[1..]);
    }
  }

  // ----- the steps of a dispatch -----

  /** The steps of `execute` for a started delivery. */
  function ExecuteSteps(job: Option<Job>, envelope: Envelope, keys: set<string>): seq<Action> {
    if job.None? then [FindNoType]
    else match Executed(job.value, envelope, keys)
         case Skipped => [ClaimKey(job.value.key.value)]
         case Succeeded =>
           if job.value.key.Some? then [ClaimKey(job.value.key.value), Return] else [RunWithoutKey, Return]
         case Broke(failure) =>
           if (job.value.tenantScoped && envelope.companyId.None?) || job.value.contradictsOwner then [Refuse(failure)]
           else if job.value.key.Some? then [ClaimKey(job.value.key.value), Throw(failure), Release]
           else [RunWithoutKey, Throw(failure)]
  }

  /** How the execution failed, if it did. */
  function FailureOf(job: Option<Job>, envelope: Envelope, keys: set<string>): Option<Failure> {
    if job.None? then Some(UnknownType(envelope))
    else match Executed(job.value, envelope, keys)
         case Broke(failure) => Some(failure)
         case _ => None
  }

  function SettleSteps(failure: Option<Failure>, envelope: Envelope, t: Timing): seq<Action> {
    match failure
    case None => [SaveCompleted(t.endedAt), Acknowledge]
    case Some(f) =>
      if RetriesAfter(envelope, f) then [SaveRetrying(t.endedAt), Schedule, Acknowledge]
      else [SaveFailed(t.endedAt), Acknowledge]
  }

  function PhaseAfter(failure: Option<Failure>): Phase {
    if failure.Some? then Broken(failure.value) else Returned
  }

  /** A throwing execution claims its key, runs, and gives the key back. */
  lemma ThrowGivesKeyBack(b: Board, d: Delivery, key: string, failure: Failure)
    requires d.phase.Started? && key !in b.keys
    ensures CanRun(b, d, [ClaimKey(key), Throw(failure), Release])
    ensures RunAll(b, d, [ClaimKey(key), Throw(failure), Release]) == (b, d.(phase := Broken(failure)))
  {
    RunsThree(b, d, ClaimKey(key), Throw(failure), Release);
    RunsTwo(Acted(b, d, ClaimKey(key)), Advanced(b, d, ClaimKey(key)), Throw(failure), Release);
    hide CanRun, RunAll;
    assert b.keys + {key} - {key} == b.keys;
  }

  lemma ExecutionRuns(b: Board, d: Delivery, job: Option<Job>)
    requires d.phase.Started?
    ensures var actions := ExecuteSteps(job, d.envelope, b.keys);
      CanRun(b, d, actions)
      && var (after, last) := RunAll(b, d, actions);
         last == d.(phase := PhaseAfter(FailureOf(job, d.envelope, b.keys)))
         && after.records == b.records && after.delayed == b.delayed && after.pending == b.pending
         && after.keys == if job.Some? then KeysAfter(job.value, d.envelope, b.keys) else b.keys
  {
    var actions := ExecuteSteps(job, d.envelope, b.keys);
    if |actions| == 1 {
      RunsOne(b, d, actions[0]);
      assert actions == [actions[0]];
    } else if |actions| == 2 {
      RunsTwo(b, d, actions[0], actions[1]);
      assert actions == [actions[0], actions[1]];
    } else {
      ThrowGivesKeyBack(b, d, job.value.key.value, job.value.ending.failure);
    }
  }

  function EndRecord(failure: Option<Failure>, d: Delivery, t: Timing): JobRecord {
    match failure
    case None => CompletedRecord(d.envelope, d.startedAt, t.endedAt)
    case Some(f) =>
      if RetriesAfter(d.envelope, f) then RetryingRecord(d.envelope, d.startedAt, t.endedAt, f)
      else FailedRecord(d.envelope, d.startedAt, t.endedAt, f)
  }

  /** The board once a delivery has recorded its end and acknowledged its entry. */
  function SettledBoard(b: Board, d: Delivery, failure: Option<Failure>, t: Timing): Board {
    var written := Written(b, EndRecord(failure, d, t), d.entry);
    written.(pending := b.pending - {d.entry},
             delayed := if EndRecord(failure, d, t).status == Retrying then b.delayed + {d.envelope.jobId}
                        else b.delayed)
  }

  lemma CompletionRuns(b: Board, d: Delivery, t: Timing)
    requires d.phase.Returned?
    ensures CanRun(b, d, SettleSteps(None, d.envelope, t))
    ensures RunAll(b, d, SettleSteps(None, d.envelope, t)) == (SettledBoard(b, d, None, t), d.(phase := Settled))
  {
    RunsTwo(b, d, SaveCompleted(t.endedAt), Acknowledge);
    hide CanRun, RunAll;
  }

  lemma BurialRuns(b: Board, d: Delivery, f: Failure, t: Timing)
    requires d.phase == Broken(f) && !RetriesAfter(d.envelope, f)
    ensures CanRun(b, d, SettleSteps(Some(f), d.envelope, t))
    ensures RunAll(b, d, SettleSteps(Some(f), d.envelope, t)) == (SettledBoard(b, d, Some(f), t), d.(phase := Settled))
  {
    RunsTwo(b, d, SaveFailed(t.endedAt), Acknowledge);
    hide CanRun, RunAll, RetriesAfter;
  }

  lemma RetryRuns(b: Board, d: Delivery, f: Failure, t: Timing)
    requires d.phase == Broken(f) && RetriesAfter(d.envelope, f)
    ensures CanRun(b, d, SettleSteps(Some(f), d.envelope, t))
    ensures RunAll(b, d, SettleSteps(Some(f), d.envelope, t)) == (SettledBoard(b, d, Some(f), t), d.(phase := Settled))
  {
    var noted := SaveRetrying(t.endedAt);
    RunsThree(b, d, noted, Schedule, Acknowledge);
    RunsTwo(Acted(b, d, noted), Advanced(b, d, noted), Schedule, Acknowledge);
    hide CanRun, RunAll, RetriesAfter;
  }

  lemma SettlementRuns(b: Board, d: Delivery, failure: Option<Failure>, t: Timing)
    requires d.phase == PhaseAfter(failure)
    ensures CanRun(b, d, SettleSteps(failure, d.envelope, t))
    ensures RunAll(b, d, SettleSteps(failure, d.envelope, t)) == (SettledBoard(b, d, failure, t), d.(phase := Settled))
  {
    hide CanRun, RunAll, SettledBoard, SettleSteps;
    if failure.None? {
      CompletionRuns(b, d, t);
    } else if RetriesAfter(d.envelope, failure.value) {
      RetryRuns(b, d, failure.value, t);
    } else {
      BurialRuns(b, d, failure.value, t);
    }
  }

  /** What the queue stores after a dispatch is what the settled board shows. */
  lemma SettledBoardShows(b: Board, d: Delivery, q: Store, keys: set<string>, job: Option<Job>, policy: Policy,
                          t: Timing)
    requires d.envelope.attempt >= 1 && 0.0 <= t.random < 1.0 && d.startedAt == t.startedAt
    requires b.records == q.records[d.envelope.jobId := RunningRecord(d.envelope, t.startedAt)]
    requires b.delayed == q.delayed.Keys && b.pending == q.pending.Keys
    ensures var after := SettledBoard(b, d, FailureOf(job, d.envelope, keys), t);
      var stored := Dispatched(q, keys, ClaimedJob(d.entry, d.envelope), job, policy, t);
      after.records == stored.records && after.delayed == stored.delayed.Keys && after.pending == stored.pending.Keys
      && after.keys == b.keys
  {
    var claimed := ClaimedJob(d.entry, d.envelope);
    var failure := FailureOf(job, d.envelope, keys);
    var end := EndRecord(failure, d, t);
    assert (q.pending - {d.entry}).Keys == q.pending.Keys - {d.entry};
    assert q.records[d.envelope.jobId := RunningRecord(d.envelope, t.startedAt)][d.envelope.jobId := end]
        == q.records[d.envelope.jobId := end];
    DispatchedInParts(q, keys, claimed, job, policy, t);
    hide Dispatched, FailureOf, BackoffDelayMs, RetriesAfter;
    if failure.Some? && RetriesAfter(d.envelope, failure.value) {
      assert Scheduled(q, end, DueAt(d.envelope, policy, t)).delayed.Keys == q.delayed.Keys + {d.envelope.jobId};
    }
  }

  lemma DispatchedInParts(q: Store, keys: set<string>, claimed: ClaimedJob, job: Option<Job>, policy: Policy, t: Timing)
    requires claimed.envelope.attempt >= 1 && 0.0 <= t.random < 1.0
    ensures var failure := FailureOf(job, claimed.envelope, keys);
      Dispatched(q, keys, claimed, job, policy, t) ==
        if failure.Some? then AfterFailure(q, claimed, failure.value, policy, t)
        else Acked(Saved(q, CompletedRecord(claimed.envelope, t.startedAt, t.endedAt)), claimed.entry)
  {
    hide BackoffDelayMs, Executed;
  }

  lemma StartRuns(b: Board, d: Delivery, t: Timing)
    requires d.phase.Given?
    ensures CanRun(b, d, [SaveRunning(t.startedAt)])
    ensures RunAll(b, d, [SaveRunning(t.startedAt)])
         == (Written(b, RunningRecord(d.envelope, t.startedAt), d.entry),
             d.(startedAt := t.startedAt, phase := Started))
  {
    RunsOne(b, d, SaveRunning(t.startedAt));
  }

  /**
   * What the dispatch method leaves in the queue and the guard is what a delivery of the protocol leaves
   * when nothing interleaves with its steps, so every property of executions covers the method.
   */
  lemma DispatchIsARun(states: seq<State>, steps: seq<Step>, id: DeliveryId, q: Store, keys: set<string>,
                       job: Option<Job>, policy: Policy, t: Timing)
    returns (states': seq<State>, steps': seq<Step>)
    requires IsExecution(states, steps) && |states| == |steps| + 1
    requires Shows(states[|steps|].board, q, keys)
    requires id in states[|steps|].deliveries && states[|steps|].deliveries[id].phase.Given?
    requires states[|steps|].deliveries[id].envelope.attempt >= 1 && 0.0 <= t.random < 1.0
    ensures IsExecution(states', steps') && |states'| == |steps'| + 1 && states <= states'
    ensures id in states'[|steps'|].deliveries && states'[|steps'|].deliveries[id].phase.Settled?
    ensures var d := states[|steps|].deliveries[id];
      Shows(states'[|steps'|].board, Dispatched(q, keys, ClaimedJob(d.entry, d.envelope), job, policy, t),
            if job.Some? then KeysAfter(job.value, d.envelope, keys) else keys)
  {
    hide IsExecution, CanRun, RunAll, ExecuteSteps, SettleSteps, FailureOf, KeysAfter, Dispatched, SettledBoard, CanAct;
    var b, d := states[|steps|].board, states[|steps|].deliveries[id];
    var start := Written(b, RunningRecord(d.envelope, t.startedAt), d.entry);
    var started := d.(startedAt := t.startedAt, phase := Started);
    StartRuns(b, d, t);
    states', steps' := ActionsExtend(states, steps, id, [SaveRunning(t.startedAt)]);
    ExecutionRuns(start, started, job);
    var failure := FailureOf(job, d.envelope, keys);
    states', steps' := ActionsExtend(states', steps', id, ExecuteSteps(job, d.envelope, keys));
    var ran, ended := states'[|steps'|].board, states'[|steps'|].deliveries[id];
    SettlementRuns(ran, ended, failure, t);
    states', steps' := ActionsExtend(states', steps', id, SettleSteps(failure, d.envelope, t));
    SettledBoardShows(ran, ended, q, keys, job, policy, t);
  }
}
