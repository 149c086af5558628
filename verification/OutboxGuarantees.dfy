/**
 * The outbox's guarantees in every interleaving, each with the exact steps that end it: who owns a row,
 * how long a published row stays published, and how many attempts a row costs.
 */
module OutboxGuarantees {
  import opened OutboxProtocol
  import opened OutboxPublisher
  import opened OutboxRows
  import opened Outcome
  import opened RetryPolicy

  // ----- which rows a step touches -----

  function Head(s: State, run: ClaimId): RowId
    requires run in s.runs && Todo(s.runs[run]) != []
  {
    Todo(s.runs[run])[0].id
  }

  predicate IsHead(s: State, run: ClaimId, id: RowId) {
    run in s.runs && Todo(s.runs[run]) != [] && Head(s, run) == id
  }

  predicate Touches(s: State, step: Step, id: RowId)
    requires id in s.rows
  {
    match step
    case Sweep(run) => run in s.runs && Stale(s.rows[id], s.runs[run].now - PUBLISHING_VISIBILITY_MS)
    case Take(_, order) => id in order
    case MarkSent(run) => IsHead(s, run, id)
    case MarkSentFails(run, applied) => applied && IsHead(s, run, id)
    case MarkRefused(run, _, _) => IsHead(s, run, id)
    case Retry(row) => row == id && s.rows[id].state == Failed
    case _ => false
  }

  lemma UntouchedIsSame(config: Config, s: State, step: Step, id: RowId)
    requires Enabled(config, s, step) && id in s.rows && !Touches(s, step, id)
    ensures id in After(config, s, step).rows && After(config, s, step).rows[id] == s.rows[id]
  {
    hide IsOldestDue, BackoffDelayMs;
  }

  /** A record still listed after a step was listed before it, and is not the one the step settled. */
  lemma ListedBefore(config: Config, s: State, step: Step, run: ClaimId, k: nat)
    requires Enabled(config, s, step) && run in s.runs && !(step.Take? && step.run == run)
    requires run in After(config, s, step).runs && k < |Todo(After(config, s, step).runs[run])|
    ensures After(config, s, step).runs[run].now == s.runs[run].now && Live(s.runs[run])
    ensures var i := if (step.MarkSent? || step.MarkRefused?) && step.run == run then k + 1 else k;
      i < |Todo(s.runs[run])| && Todo(s.runs[run])[i] == Todo(After(config, s, step).runs[run])[k]
  {
    hide WithClaim, Recovered, WithPublished, WithRequeued, MarkedRefused, IsOldestDue, NewRow, Records, Counted;
  }

  // ----- who owns a row -----

  /** The table still shows a record exactly as the run claimed it. */
  predicate Owns(rows: Rows, run: ClaimId, now: Time, record: Record) {
    record.id in rows && rows[record.id] == record.row
    && record.row.state == Publishing && record.row.claimId == Some(run) && record.row.lastAttemptAt == Some(now)
  }

  predicate OwnsAll(rows: Rows, run: ClaimId, r: Run) {
    forall k :: 0 <= k < |Todo(r)| ==> Owns(rows, run, r.now, Todo(r)[k])
  }

  /** Every row a run still lists is the run's alone, as it claimed it. */
  predicate AllOwned(s: State) {
    forall run <- s.runs :: OwnsAll(s.rows, run, s.runs[run])
  }

  /**
   * A step that takes a row from the run that lists it: a sweep past its timeout, or its own mark, applied but
   * reported failed.
   */
  predicate Usurps(s: State, step: Step) {
    match step
    case Sweep(run) =>
      run in s.runs
      && exists other :: other in s.runs && Todo(s.runs[other]) != []
                         && s.runs[other].now <= s.runs[run].now - PUBLISHING_VISIBILITY_MS
    case MarkSentFails(_, applied) => applied
    case _ => false
  }

  lemma TakenIsOwned(rows: Rows, order: seq<RowId>, run: ClaimId, now: Time, limit: nat)
    requires IsOldestDue(rows, order, limit, now)
    ensures var claimed := WithClaim(rows, order, run, now);
      OwnsAll(claimed, run, Run(now, Working(Records(claimed, order))))
  {
  }

  /** An owned row is touched by its owner alone, when it settles it. */
  lemma OwnedIsTouchedByOwner(config: Config, s: State, step: Step, run: ClaimId, k: nat)
    requires Enabled(config, s, step) && AllOwned(s) && !Usurps(s, step)
    requires run in s.runs && k < |Todo(s.runs[run])| && Todo(s.runs[run])[k].id in s.rows
    requires Touches(s, step, Todo(s.runs[run])[k].id)
    ensures (step.MarkSent? || step.MarkRefused?) && step.run == run && Head(s, run) == Todo(s.runs[run])[k].id
  {
    hide RunMatches, BackoffDelayMs;
    assert OwnsAll(s.rows, run, s.runs[run]) && Owns(s.rows, run, s.runs[run].now, Todo(s.runs[run])[k]);
    if Actor(step).Some? && step.run in s.runs && Todo(s.runs[step.run]) != [] {
      assert OwnsAll(s.rows, step.run, s.runs[step.run]);
    }
  }

  lemma OwnedStaysOwned(config: Config, s: State, step: Step, run: ClaimId, k: nat)
    requires Enabled(config, s, step) && AllOwned(s) && !Usurps(s, step)
    requires run in s.runs && RunMatches(s.rows, s.runs[run]) && !(step.Take? && step.run == run)
    requires run in After(config, s, step).runs && k < |Todo(After(config, s, step).runs[run])|
    ensures var t := After(config, s, step); Owns(t.rows, run, t.runs[run].now, Todo(t.runs[run])[k])
  {
    assert OwnsAll(s.rows, run, s.runs[run]);
    ListedBefore(config, s, step, run, k);
    var i := if (step.MarkSent? || step.MarkRefused?) && step.run == run then k + 1 else k;
    var record := Todo(s.runs[run])[i];
    assert Owns(s.rows, run, s.runs[run].now, record);
    hide After, Enabled, AllOwned, Touches, Todo, Usurps, OwnsAll;
    if Touches(s, step, record.id) {
      OwnedIsTouchedByOwner(config, s, step, run, i);
    } else {
      UntouchedIsSame(config, s, step, record.id);
    }
  }

  lemma OwnersStay(config: Config, s: State, step: Step)
    requires Enabled(config, s, step) && Safe(s) && AllOwned(s) && !Usurps(s, step)
    ensures AllOwned(After(config, s, step))
  {
    var t := After(config, s, step);
    forall run | run in t.runs ensures OwnsAll(t.rows, run, t.runs[run]) {
      if step.Take? && step.run == run {
        TakenIsOwned(s.rows, step.order, run, s.runs[run].now, config.batchSize);
      } else if run in s.runs {
        assert RunMatches(s.rows, s.runs[run]);
        hide After, Enabled, Safe, AllOwned, Usurps, RunMatches;
        forall k | 0 <= k < |Todo(t.runs[run])| ensures Owns(t.rows, run, t.runs[run].now, Todo(t.runs[run])[k]) {
          OwnedStaysOwned(config, s, step, run, k);
        }
      }
    }
  }

  lemma SweepUsurps(config: Config, s: State, run: ClaimId, other: ClaimId)
    requires Enabled(config, s, Sweep(run)) && other in s.runs
    requires OwnsAll(s.rows, other, s.runs[other]) && Todo(s.runs[other]) != []
    requires s.runs[other].now <= s.runs[run].now - PUBLISHING_VISIBILITY_MS
    ensures !AllOwned(After(config, s, Sweep(run)))
  {
    var t := After(config, s, Sweep(run));
    var record := Todo(s.runs[other])[0];
    assert Owns(s.rows, other, s.runs[other].now, record);
    assert t.runs[other] == s.runs[other] && t.rows[record.id] != record.row;
    assert !Owns(t.rows, other, t.runs[other].now, Todo(t.runs[other])[0]);
  }

  lemma AppliedMarkUsurps(config: Config, s: State, run: ClaimId)
    requires Enabled(config, s, MarkSentFails(run, true)) && OwnsAll(s.rows, run, s.runs[run])
    ensures !AllOwned(After(config, s, MarkSentFails(run, true)))
  {
    var t := After(config, s, MarkSentFails(run, true));
    var record := Todo(s.runs[run])[0];
    assert Owns(s.rows, run, s.runs[run].now, record);
    assert t.rows[record.id].state == Published && Todo(t.runs[run])[0] == record;
    assert !Owns(t.rows, run, t.runs[run].now, Todo(t.runs[run])[0]);
  }

  lemma UsurpedIsNotOwned(config: Config, s: State, step: Step)
    requires Enabled(config, s, step) && AllOwned(s) && Usurps(s, step)
    ensures !AllOwned(After(config, s, step))
  {
    if step.Sweep? {
      var other :| other in s.runs && Todo(s.runs[other]) != []
                   && s.runs[other].now <= s.runs[step.run].now - PUBLISHING_VISIBILITY_MS;
      SweepUsurps(config, s, step.run, other);
    } else {
      AppliedMarkUsurps(config, s, step.run);
    }
  }

  predicate OwnedThrough(states: seq<State>, i: nat)
    requires i < |states|
  {
    forall k :: 0 <= k <= i ==> AllOwned(states[k])
  }

  predicate NoneUsurps(states: seq<State>, steps: seq<Step>, i: nat)
    requires i <= |steps| <= |states|
  {
    forall k :: 0 <= k < i ==> !Usurps(states[k], steps[k])
  }

  lemma OwnedThroughNext(states: seq<State>, steps: seq<Step>, i: nat)
    requires i < |steps| < |states|
    ensures OwnedThrough(states, i + 1) <==> OwnedThrough(states, i) && AllOwned(states[i + 1])
    ensures NoneUsurps(states, steps, i + 1) <==> NoneUsurps(states, steps, i) && !Usurps(states[i], steps[i])
    ensures OwnedThrough(states, i) ==> AllOwned(states[i])
  {
    hide AllOwned, Usurps;
  }

  lemma OwnedAtFirst(config: Config, states: seq<State>, steps: seq<Step>)
    requires IsExecution(config, states, steps) && |states| == |steps| + 1
    ensures OwnedThrough(states, 0) && NoneUsurps(states, steps, 0)
  {
  }

  /**
   * In every execution: all rows that runs list are theirs alone, as they claimed them, up to a moment if
   * and only if no step before it usurped. Between them the two kinds of usurping steps are all there is.
   */
  lemma {:induction false} OwnedUntilUsurped(config: Config, states: seq<State>, steps: seq<Step>, i: nat)
    requires IsExecution(config, states, steps) && i < |states| == |steps| + 1
    ensures OwnedThrough(states, i) <==> NoneUsurps(states, steps, i)
  {
    hide *;
    if i == 0 {
      OwnedAtFirst(config, states, steps);
    } else {
      NthStep(config, states, steps, i - 1);
      SafeAlways(config, states, steps, i - 1);
      OwnedUntilUsurped(config, states, steps, i - 1);
      OwnedThroughNext(states, steps, i - 1);
      if OwnedThrough(states, i - 1) {
        if Usurps(states[i - 1], steps[i - 1]) {
          UsurpedIsNotOwned(config, states[i - 1], steps[i - 1]);
        } else {
          OwnersStay(config, states[i - 1], steps[i - 1]);
        }
      }
    }
  }

  /** Until a step usurps, a listed row is publishing under its lister's token, and no other run lists it. */
  lemma OwnersAreAlone(config: Config, states: seq<State>, steps: seq<Step>, i: nat, a: ClaimId, b: ClaimId, k: nat,
                       j: nat)
    requires IsExecution(config, states, steps) && i < |states| == |steps| + 1 && NoneUsurps(states, steps, i)
    requires a in states[i].runs && k < |Todo(states[i].runs[a])|
    requires b in states[i].runs && j < |Todo(states[i].runs[b])|
    ensures var record := Todo(states[i].runs[a])[k];
      record.id in states[i].rows && states[i].rows[record.id] == record.row
      && record.row.state == Publishing && record.row.claimId == Some(a)
      && record.row.lastAttemptAt == Some(states[i].runs[a].now)
    ensures Todo(states[i].runs[a])[k].id == Todo(states[i].runs[b])[j].id ==> a == b && k == j
  {
    OwnedUntilUsurped(config, states, steps, i);
    SafeAlways(config, states, steps, i);
    hide IsExecution, NoneUsurps, EventsAreUnique, StreamMatches, PublishedWasSent, CopiesAreClaimed;
    var s := states[i];
    assert AllOwned(s);
    assert RunMatches(s.rows, s.runs[a]);
    assert OwnsAll(s.rows, a, s.runs[a]) && OwnsAll(s.rows, b, s.runs[b]);
    assert Owns(s.rows, a, s.runs[a].now, Todo(s.runs[a])[k]) && Owns(s.rows, b, s.runs[b].now, Todo(s.runs[b])[j]);
  }

  // ----- how long a published row stays published -----

  /** A refusal of the record a run has at its head, whatever the row shows by then. */
  predicate Retracts(s: State, step: Step, id: RowId) {
    step.MarkRefused? && IsHead(s, step.run, id)
  }

  lemma PublishedAfter(config: Config, s: State, step: Step, id: RowId)
    requires Enabled(config, s, step) && id in s.rows && s.rows[id].state == Published
    ensures id in After(config, s, step).rows
    ensures After(config, s, step).rows[id].state == Published <==> !Retracts(s, step, id)
  {
    hide BackoffDelayMs;
  }

  predicate IsPublished(s: State, id: RowId) {
    id in s.rows && s.rows[id].state == Published
  }

  predicate PublishedThrough(states: seq<State>, i: nat, j: nat, id: RowId)
    requires i <= j < |states|
  {
    forall k :: i <= k <= j ==> IsPublished(states[k], id)
  }

  predicate NoneRetracts(states: seq<State>, steps: seq<Step>, i: nat, j: nat, id: RowId)
    requires i <= j <= |steps| <= |states|
  {
    forall k :: i <= k < j ==> !Retracts(states[k], steps[k], id)
  }

  lemma PublishedThroughNext(states: seq<State>, steps: seq<Step>, i: nat, j: nat, id: RowId)
    requires i <= j <= |steps| < |states|
    ensures i == j ==>
              (PublishedThrough(states, i, j, id) <==> IsPublished(states[i], id))
              && NoneRetracts(states, steps, i, j, id)
    ensures i < j ==>
              (PublishedThrough(states, i, j, id)
               <==> PublishedThrough(states, i, j - 1, id) && IsPublished(states[j], id))
              && (NoneRetracts(states, steps, i, j, id)
                  <==> NoneRetracts(states, steps, i, j - 1, id) && !Retracts(states[j - 1], steps[j - 1], id))
              && (PublishedThrough(states, i, j - 1, id) ==> IsPublished(states[j - 1], id))
  {
    hide IsPublished, Retracts;
  }

  /**
   * In every execution a published row stays published up to a moment if and only if no run whose head it
   * is refuses it before. Sweeps, claims, requeues and other marks never take a publication back.
   */
  lemma {:induction false} PublishedUntilRefused(config: Config, states: seq<State>, steps: seq<Step>, i: nat, j: nat,
                                                 id: RowId)
    requires IsExecution(config, states, steps) && i <= j < |states| == |steps| + 1 && IsPublished(states[i], id)
    ensures PublishedThrough(states, i, j, id) <==> NoneRetracts(states, steps, i, j, id)
    decreases j
  {
    hide *;
    PublishedThroughNext(states, steps, i, j, id);
    if i < j {
      NthStep(config, states, steps, j - 1);
      PublishedUntilRefused(config, states, steps, i, j - 1, id);
      if PublishedThrough(states, i, j - 1, id) {
        PublishedNext(config, states[j - 1], steps[j - 1], id);
      }
    }
  }

  lemma PublishedNext(config: Config, s: State, step: Step, id: RowId)
    requires Enabled(config, s, step) && IsPublished(s, id)
    ensures IsPublished(After(config, s, step), id) <==> !Retracts(s, step, id)
  {
    PublishedAfter(config, s, step, id);
  }

  // ----- how many attempts a row costs -----

  predicate WithinBudget(r: Row, maxAttempts: nat) {
    r.attemptCount <= maxAttempts
    && (r.state == Pending ==> r.attemptCount == 0)
    && (r.state == Retrying ==> r.attemptCount < maxAttempts)
  }

  predicate AllWithin(config: Config, s: State) {
    forall id <- s.rows :: WithinBudget(s.rows[id], config.policy.maxAttempts)
  }

  /** A refusal that retries, by the attempts its record shows, a row that has spent its budget since. */
  predicate Overdraws(config: Config, s: State, step: Step) {
    step.MarkRefused? && step.run in s.runs && s.runs[step.run].phase.Refused? && s.runs[step.run].phase.todo != []
    && var record := s.runs[step.run].phase.todo[0];
       !s.runs[step.run].phase.permanent && record.row.attemptCount < config.policy.maxAttempts
       && record.id in s.rows && s.rows[record.id].attemptCount >= config.policy.maxAttempts
  }

  lemma RowStaysWithin(config: Config, s: State, step: Step, id: RowId)
    requires Enabled(config, s, step) && config.policy.maxAttempts >= 1 && AllWithin(config, s)
             && !Overdraws(config, s, step)
    requires id in After(config, s, step).rows
    ensures WithinBudget(After(config, s, step).rows[id], config.policy.maxAttempts)
  {
    hide BackoffDelayMs;
    if id in s.rows {
      assert WithinBudget(s.rows[id], config.policy.maxAttempts);
    }
  }

  lemma BudgetStays(config: Config, s: State, step: Step)
    requires Enabled(config, s, step) && config.policy.maxAttempts >= 1 && AllWithin(config, s)
             && !Overdraws(config, s, step)
    ensures AllWithin(config, After(config, s, step))
  {
    var t := After(config, s, step);
    hide After, Enabled, Overdraws, WithinBudget;
    forall id | id in t.rows ensures WithinBudget(t.rows[id], config.policy.maxAttempts) {
      RowStaysWithin(config, s, step, id);
    }
  }

  lemma OverdrawnIsOver(config: Config, s: State, step: Step)
    requires Enabled(config, s, step) && Overdraws(config, s, step)
    ensures !AllWithin(config, After(config, s, step))
  {
    hide BackoffDelayMs;
    var record := s.runs[step.run].phase.todo[0];
    assert !WithinBudget(After(config, s, step).rows[record.id], config.policy.maxAttempts);
  }

  predicate WithinThrough(config: Config, states: seq<State>, i: nat)
    requires i < |states|
  {
    forall k :: 0 <= k <= i ==> AllWithin(config, states[k])
  }

  predicate NoneOverdraws(config: Config, states: seq<State>, steps: seq<Step>, i: nat)
    requires i <= |steps| <= |states|
  {
    forall k :: 0 <= k < i ==> !Overdraws(config, states[k], steps[k])
  }

  lemma WithinThroughNext(config: Config, states: seq<State>, steps: seq<Step>, i: nat)
    requires i < |steps| < |states|
    ensures WithinThrough(config, states, i + 1)
            <==> WithinThrough(config, states, i) && AllWithin(config, states[i + 1])
    ensures NoneOverdraws(config, states, steps, i + 1)
            <==> NoneOverdraws(config, states, steps, i) && !Overdraws(config, states[i], steps[i])
    ensures WithinThrough(config, states, i) ==> AllWithin(config, states[i])
  {
    hide AllWithin, Overdraws;
  }

  lemma WithinAtFirst(config: Config, states: seq<State>, steps: seq<Step>)
    requires IsExecution(config, states, steps) && |states| == |steps| + 1
    ensures WithinThrough(config, states, 0) && NoneOverdraws(config, states, steps, 0)
  {
  }

  /**
   * In every execution all rows keep their budget, the claimable ones with an attempt to spare, up to a
   * moment if and only if no refusal before it overdraws one.
   */
  lemma {:induction false} BudgetUntilOverdrawn(config: Config, states: seq<State>, steps: seq<Step>, i: nat)
    requires config.policy.maxAttempts >= 1 && IsExecution(config, states, steps) && i < |states| == |steps| + 1
    ensures WithinThrough(config, states, i) <==> NoneOverdraws(config, states, steps, i)
  {
    hide *;
    if i == 0 {
      WithinAtFirst(config, states, steps);
    } else {
      NthStep(config, states, steps, i - 1);
      BudgetUntilOverdrawn(config, states, steps, i - 1);
      WithinThroughNext(config, states, steps, i - 1);
      if WithinThrough(config, states, i - 1) {
        if Overdraws(config, states[i - 1], steps[i - 1]) {
          OverdrawnIsOver(config, states[i - 1], steps[i - 1]);
        } else {
          BudgetStays(config, states[i - 1], steps[i - 1]);
        }
      }
    }
  }

  /** Whether a step puts a failed row back to its first attempt. */
  predicate Requeues(s: State, step: Step, id: RowId) {
    step == Retry(id) && id in s.rows && s.rows[id].state == Failed
  }

  /** The moments among the first `n` steps at which a failed row was requeued. */
  function Requeuings(states: seq<State>, steps: seq<Step>, n: nat, id: RowId): set<nat>
    requires n <= |steps| <= |states|
  {
    set j: nat | j < n && Requeues(states[j], steps[j], id)
  }

  lemma AttemptsAfter(config: Config, s: State, step: Step, id: RowId)
    requires Enabled(config, s, step)
    ensures Takes(step, id) ==> id in s.rows
    ensures var t := After(config, s, step);
      if id in s.rows then
        id in t.rows
        && t.rows[id].attemptCount ==
             if Requeues(s, step, id) then 0 else s.rows[id].attemptCount + if Takes(step, id) then 1 else 0
      else id in t.rows ==> t.rows[id].attemptCount == 0
  {
    hide BackoffDelayMs;
  }

  function Attempts(rows: Rows, id: RowId): nat {
    if id in rows then rows[id].attemptCount else 0
  }

  /** The budget as it stands: `max` for each requeue so far, and what the row shows now. */
  predicate Spent(config: Config, rows: Rows, id: RowId, claimings: nat, requeuings: nat) {
    claimings <= config.policy.maxAttempts * requeuings + Attempts(rows, id)
  }

  lemma SpentAfter(config: Config, s: State, step: Step, id: RowId, claimings: nat, requeuings: nat)
    requires Enabled(config, s, step) && AllWithin(config, s) && Spent(config, s.rows, id, claimings, requeuings)
    ensures Spent(config, After(config, s, step).rows, id,
                  claimings + (if Takes(step, id) then 1 else 0), requeuings + if Requeues(s, step, id) then 1 else 0)
  {
    AttemptsAfter(config, s, step, id);
    hide After, Enabled;
    OneMoreRequeue(config.policy.maxAttempts, requeuings);
  }

  lemma OneMoreRequeue(max: nat, requeuings: nat)
    ensures max * (requeuings + 1) == max * requeuings + max
  {
  }

  lemma RequeuingsGrow(states: seq<State>, steps: seq<Step>, n: nat, id: RowId)
    requires n < |steps| <= |states|
    ensures |Requeuings(states, steps, n + 1, id)|
         == |Requeuings(states, steps, n, id)| + if Requeues(states[n], steps[n], id) then 1 else 0
  {
    assert n !in Requeuings(states, steps, n, id);
    assert Requeuings(states, steps, n + 1, id)
        == Requeuings(states, steps, n, id) + if Requeues(states[n], steps[n], id) then {n} else {};
  }

  lemma ClaimingsCounted(steps: seq<Step>, n: nat, id: RowId)
    requires n < |steps|
    ensures |Claimings(steps, n + 1, id)| == |Claimings(steps, n, id)| + if Takes(steps[n], id) then 1 else 0
  {
    ClaimingsGrow(steps, n, id);
  }

  lemma NothingSpentYet(config: Config, states: seq<State>, steps: seq<Step>, id: RowId)
    requires |states| == |steps| + 1
    ensures Spent(config, states[0].rows, id, |Claimings(steps, 0, id)|, |Requeuings(states, steps, 0, id)|)
  {
    assert Claimings(steps, 0, id) == {} && Requeuings(states, steps, 0, id) == {};
  }

  lemma {:induction false} SpentAlways(config: Config, states: seq<State>, steps: seq<Step>, i: nat, id: RowId)
    requires IsExecution(config, states, steps) && i < |states| == |steps| + 1 && WithinThrough(config, states, i)
    ensures Spent(config, states[i].rows, id, |Claimings(steps, i, id)|, |Requeuings(states, steps, i, id)|)
  {
    hide *;
    if i == 0 {
      NothingSpentYet(config, states, steps, id);
    } else {
      NthStep(config, states, steps, i - 1);
      WithinThroughNext(config, states, steps, i - 1);
      SpentAlways(config, states, steps, i - 1, id);
      SpentAfter(config, states[i - 1], steps[i - 1], id,
                 |Claimings(steps, i - 1, id)|, |Requeuings(states, steps, i - 1, id)|);
      ClaimingsCounted(steps, i - 1, id);
      RequeuingsGrow(states, steps, i - 1, id);
    }
  }

  /**
   * What an execution without overdrawing refusals spends: no row shows more attempts than allowed, a row
   * that can be claimed shows fewer, and a row is claimed, hence its event sent, at most the budget times
   * one more than the requeues an operator asked for.
   */
  lemma SpendingIsBounded(config: Config, states: seq<State>, steps: seq<Step>, i: nat, id: RowId)
    requires config.policy.maxAttempts >= 1 && IsExecution(config, states, steps) && i < |states| == |steps| + 1
    requires NoneOverdraws(config, states, steps, i) && id in states[i].rows
    ensures states[i].rows[id].attemptCount <= config.policy.maxAttempts
    ensures states[i].rows[id].state == Pending || states[i].rows[id].state == Retrying ==>
              states[i].rows[id].attemptCount < config.policy.maxAttempts
    ensures |Positions(states[i].stream, states[i].rows[id].event.eventId)|
         <= |Claimings(steps, i, id)|
         <= config.policy.maxAttempts * (1 + |Requeuings(states, steps, i, id)|)
  {
    BudgetUntilOverdrawn(config, states, steps, i);
    hide IsExecution, NoneOverdraws, Claimings, Requeuings, Positions;
    assert AllWithin(config, states[i]);
    OutboxIsSafe(config, states, steps, i);
    SpentAlways(config, states, steps, i, id);
    OneMoreRequeue(config.policy.maxAttempts, |Requeuings(states, steps, i, id)|);
  }
}
