/** The publisher's batch seen from the protocol: one run whose steps nothing interrupts. */
module OutboxBatchRun {
  import opened OutboxProtocol
  import opened OutboxPublisher
  import opened OutboxRows
  import opened RetryPolicy

  function Entries(stream: seq<Copy>): seq<StreamEntry> {
    seq(|stream|, i requires 0 <= i < |stream| => stream[i].entry)
  }

  /** The state once a run has settled the head of its records. */
  function HeadSettled(config: Config, s: State, run: ClaimId, a: Attempt): State
    requires run in s.runs && Todo(s.runs[run]) != []
    requires Todo(s.runs[run])[0].row.attemptCount >= 1 && Possible(a)
  {
    var r := s.runs[run];
    var record := Todo(r)[0];
    s.(rows := s.rows[record.id := Settle(record.row, a, r.now, config.policy)],
       stream := s.stream + (if a.appended then [Copy(EntryOf(record.row.event), record.id, run)] else []),
       runs := s.runs[run := Run(r.now, Working(Todo(r)[1..]))])
  }

  predicate HeadReady(s: State, run: ClaimId) {
    run in s.runs && s.runs[run].phase.Working? && Todo(s.runs[run]) != []
    && var record := Todo(s.runs[run])[0];
       record.id in s.rows && s.rows[record.id] == record.row && record.row.attemptCount >= 1
  }

  /** Publishing a record and marking it by the answer are two steps, or three when the first mark fails. */
  lemma HeadIsSettled(config: Config, states: seq<State>, steps: seq<Step>, run: ClaimId, a: Attempt)
    returns (states': seq<State>, steps': seq<Step>)
    requires IsExecution(config, states, steps)
    requires HeadReady(states[|steps|], run) && Possible(a)
    ensures IsExecution(config, states', steps') && states <= states'
    ensures states'[|steps'|] == HeadSettled(config, states[|steps|], run, a)
  {
    var s := states[|steps|];
    var next := HeadSettled(config, s, run, a);
    var sent := After(config, s, Publish(run, a.answer, a.appended));
    states', steps' := Go(config, states, steps, Publish(run, a.answer, a.appended), sent);
    if a.answer.Accepted? && !a.markFails {
      SentIsSettled(config, s, run, a);
      hide *;
      states', steps' := Go(config, states', steps', MarkSent(run), next);
    } else if a.answer.Accepted? {
      var refused := After(config, sent, MarkSentFails(run, false));
      FailedMarkIsSettled(config, s, run, a);
      hide *;
      states', steps' := Go(config, states', steps', MarkSentFails(run, false), refused);
      states', steps' := Go(config, states', steps', MarkRefused(run, a.failure, a.random), next);
    } else {
      RefusalIsSettled(config, s, run, a);
      hide *;
      states', steps' := Go(config, states', steps', MarkRefused(run, a.failure, a.random), next);
    }
  }

  lemma SentIsSettled(config: Config, s: State, run: ClaimId, a: Attempt)
    requires HeadReady(s, run) && Possible(a) && a.answer.Accepted? && !a.markFails
    ensures Enabled(config, s, Publish(run, a.answer, a.appended))
    ensures var sent := After(config, s, Publish(run, a.answer, a.appended));
      Enabled(config, sent, MarkSent(run)) && After(config, sent, MarkSent(run)) == HeadSettled(config, s, run, a)
  {
    var sent := After(config, s, Publish(run, a.answer, a.appended));
    assert After(config, sent, MarkSent(run)).runs == HeadSettled(config, s, run, a).runs;
  }

  lemma FailedMarkIsSettled(config: Config, s: State, run: ClaimId, a: Attempt)
    requires HeadReady(s, run) && Possible(a) && a.answer.Accepted? && a.markFails
    ensures Enabled(config, s, Publish(run, a.answer, a.appended))
    ensures var sent := After(config, s, Publish(run, a.answer, a.appended));
      Enabled(config, sent, MarkSentFails(run, false))
      && var refused := After(config, sent, MarkSentFails(run, false));
         Enabled(config, refused, MarkRefused(run, a.failure, a.random))
         && After(config, refused, MarkRefused(run, a.failure, a.random)) == HeadSettled(config, s, run, a)
  {
    hide BackoffDelayMs;
    var sent := After(config, s, Publish(run, a.answer, a.appended));
    var refused := After(config, sent, MarkSentFails(run, false));
    assert After(config, refused, MarkRefused(run, a.failure, a.random)).runs == HeadSettled(config, s, run, a).runs;
  }

  lemma RefusalIsSettled(config: Config, s: State, run: ClaimId, a: Attempt)
    requires HeadReady(s, run) && Possible(a) && !a.answer.Accepted?
    ensures Enabled(config, s, Publish(run, a.answer, a.appended))
    ensures var sent := After(config, s, Publish(run, a.answer, a.appended));
      Enabled(config, sent, MarkRefused(run, a.failure, a.random))
      && After(config, sent, MarkRefused(run, a.failure, a.random)) == HeadSettled(config, s, run, a)
  {
    hide BackoffDelayMs;
    var sent := After(config, s, Publish(run, a.answer, a.appended));
    assert After(config, sent, MarkRefused(run, a.failure, a.random)).runs == HeadSettled(config, s, run, a).runs;
  }

  /** A claimed batch: the table as claimed, the rows in claim order and the environment's decisions. */
  datatype Batch = Batch(claimed: Rows, order: seq<RowId>, attempts: seq<Attempt>, now: Time)

  predicate ValidBatch(b: Batch) {
    Settleable(b.claimed, b.order, b.attempts) && Distinct(b.order)
  }

  /** A run that has settled the first `n` records of its batch, having started from the stream `base`. */
  predicate Midway(config: Config, s: State, run: ClaimId, b: Batch, base: seq<StreamEntry>, n: nat)
    requires ValidBatch(b) && n <= |b.order|
  {
    s.rows == SettleFirst(b.claimed, b.order, b.attempts, b.now, config.policy, n)
    && run in s.runs && s.runs[run] == Run(b.now, Working(Records(b.claimed, b.order)[n..]))
    && Entries(s.stream) == base + Appended(b.claimed, b.order, b.attempts, n)
  }

  lemma MidwayIsReady(config: Config, s: State, run: ClaimId, b: Batch, base: seq<StreamEntry>, n: nat)
    requires ValidBatch(b) && n < |b.order| && Midway(config, s, run, b, base, n)
    ensures HeadReady(s, run) && n < |b.attempts| && Possible(b.attempts[n])
    ensures Todo(s.runs[run])[0] == Record(b.order[n], b.claimed[b.order[n]])
  {
    hide Settle, Appended;
    UnsettledIsClaimed(b.claimed, b.order, b.attempts, b.now, config.policy, n);
  }

  lemma EntriesGrow(stream: seq<Copy>, more: seq<Copy>)
    ensures Entries(stream + more) == Entries(stream) + Entries(more)
  {
  }

  lemma MidwayAdvances(config: Config, s: State, run: ClaimId, b: Batch, base: seq<StreamEntry>, n: nat)
    requires ValidBatch(b) && n < |b.order| && Midway(config, s, run, b, base, n)
    requires HeadReady(s, run) && n < |b.attempts| && Possible(b.attempts[n])
    ensures Midway(config, HeadSettled(config, s, run, b.attempts[n]), run, b, base, n + 1)
  {
    hide Settle;
    MidwayIsReady(config, s, run, b, base, n);
    var a, record := b.attempts[n], Todo(s.runs[run])[0];
    var more := if a.appended then [Copy(EntryOf(record.row.event), record.id, run)] else [];
    EntriesGrow(s.stream, more);
    assert Entries(more) == if a.appended then [EntryOf(record.row.event)] else [];
    assert Records(b.claimed, b.order)[n..][1..] == Records(b.claimed, b.order)[n + 1..];
  }

  lemma {:induction false} RecordsAreSettled(config: Config, states: seq<State>, steps: seq<Step>, run: ClaimId,
                                             b: Batch, base: seq<StreamEntry>, n: nat)
    returns (states': seq<State>, steps': seq<Step>)
    requires IsExecution(config, states, steps) && |states| == |steps| + 1
    requires ValidBatch(b) && n <= |b.order| && Midway(config, states[|steps|], run, b, base, n)
    ensures IsExecution(config, states', steps') && states <= states' && |states'| == |steps'| + 1
    ensures Midway(config, states'[|steps'|], run, b, base, |b.order|)
    decreases |b.order| - n
  {
    hide *;
    if n == |b.order| {
      states', steps' := states, steps;
    } else {
      MidwayIsReady(config, states[|steps|], run, b, base, n);
      states', steps' := HeadIsSettled(config, states, steps, run, b.attempts[n]);
      NthStep(config, states', steps', 0);
      MidwayAdvances(config, states[|steps|], run, b, base, n);
      states', steps' := RecordsAreSettled(config, states', steps', run, b, base, n + 1);
    }
  }

  lemma TakeStartsBatch(config: Config, s: State, run: ClaimId, order: seq<RowId>, attempts: seq<Attempt>)
    requires run in s.runs && s.runs[run].phase.Swept?
    requires IsOldestDue(s.rows, order, config.batchSize, s.runs[run].now)
    requires Settleable(WithClaim(s.rows, order, run, s.runs[run].now), order, attempts)
    ensures Enabled(config, s, Take(run, order))
    ensures var b := Batch(WithClaim(s.rows, order, run, s.runs[run].now), order, attempts, s.runs[run].now);
      ValidBatch(b) && Midway(config, After(config, s, Take(run, order)), run, b, Entries(s.stream), 0)
  {
    hide SettleFirst, WithClaim;
    var claimed := WithClaim(s.rows, order, run, s.runs[run].now);
    assert SettleFirst(claimed, order, attempts, s.runs[run].now, config.policy, 0) == claimed by {
      UnsettledIsClaimed(claimed, order, attempts, s.runs[run].now, config.policy, 0);
    }
  }

  lemma RunSweepsFirst(config: Config, s: State, run: ClaimId)
    requires run !in s.runs
    ensures Enabled(config, s, Begin(run)) && Enabled(config, After(config, s, Begin(run)), Sweep(run))
    ensures var swept := After(config, After(config, s, Begin(run)), Sweep(run));
      swept.rows == Recovered(config, s.rows, s.clock) && swept.stream == s.stream
      && run in swept.runs && swept.runs[run] == Run(s.clock, Swept)
  {
  }

  /**
   * What the publisher's batch does to the table and the stream is what one run of the protocol does
   * when nothing interleaves with it, so every property of executions covers the method.
   */
  lemma BatchIsARun(config: Config, states: seq<State>, steps: seq<Step>, run: ClaimId, after: Rows,
                    order: seq<RowId>, attempts: seq<Attempt>)
    returns (states': seq<State>, steps': seq<Step>)
    requires IsExecution(config, states, steps) && |states| == |steps| + 1
    requires run !in states[|steps|].runs
    requires IsBatch(config, states[|steps|].rows, after, states[|steps|].clock, run, order, attempts)
    ensures IsExecution(config, states', steps') && states <= states' && |states'| == |steps'| + 1
    ensures states'[|steps'|].rows == after
    ensures var s := states[|steps|];
      var claimed := WithClaim(Recovered(config, s.rows, s.clock), order, run, s.clock);
      |order| <= |attempts| && Settleable(claimed, order, attempts)
      && Entries(states'[|steps'|].stream) == Entries(s.stream) + Appended(claimed, order, attempts, |order|)
  {
    var s := states[|steps|];
    RunSweepsFirst(config, s, run);
    var begun := After(config, s, Begin(run));
    var swept := After(config, begun, Sweep(run));
    hide IsExecution, After, Midway, IsOldestDue, SettleFirst, Appended, Settleable, WithClaim, Recovered, Entries;
    var claimed := WithClaim(swept.rows, order, run, s.clock);
    TakeStartsBatch(config, swept, run, order, attempts);
    var b := Batch(claimed, order, attempts, s.clock);
    states', steps' := Go(config, states, steps, Begin(run), begun);
    states', steps' := Go(config, states', steps', Sweep(run), swept);
    states', steps' := Go(config, states', steps', Take(run, order), After(config, swept, Take(run, order)));
    states', steps' := RecordsAreSettled(config, states', steps', run, b, Entries(s.stream), 0);
    BatchEnds(config, states'[|steps'|], run, b, Entries(s.stream));
  }

  lemma BatchEnds(config: Config, s: State, run: ClaimId, b: Batch, base: seq<StreamEntry>)
    requires ValidBatch(b) && Midway(config, s, run, b, base, |b.order|)
    ensures s.rows == SettleFirst(b.claimed, b.order, b.attempts, b.now, config.policy, |b.order|)
    ensures Entries(s.stream) == base + Appended(b.claimed, b.order, b.attempts, |b.order|)
    ensures Enabled(config, s, Finish(run))
  {
  }
}
