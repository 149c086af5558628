/**
 * What the outbox adds when every live run settles its records before the visibility timeout: one owner
 * per row, the attempt budget, and every row ends.
 */
module OutboxTimed {
  import opened OutboxGuarantees
  import opened OutboxProtocol
  import opened OutboxPublisher
  import opened OutboxRows
  import opened Outcome
  import opened RetryPolicy

  /** The clock never passes a live run's timeout. */
  predicate Prompt(s: State, step: Step) {
    step.Tick? ==>
      forall run <- s.runs :: Live(s.runs[run]) ==> step.clock < s.runs[run].now + PUBLISHING_VISIBILITY_MS
  }

  ghost predicate IsPromptExecution(config: Config, states: seq<State>, steps: seq<Step>) {
    config.policy.maxAttempts >= 1 && IsExecution(config, states, steps)
    && forall i :: 0 <= i < |steps| ==> Prompt(states[i], steps[i])
  }

  predicate OnTime(s: State) {
    forall run <- s.runs ::
      s.runs[run].now <= s.clock && (Live(s.runs[run]) ==> s.clock < s.runs[run].now + PUBLISHING_VISIBILITY_MS)
  }

  /**
   * A listed record's row is as the run claimed it; only at the head of the catch block may it show the
   * run's own mark already, when that was applied but reported failed.
   */
  predicate Holds(rows: Rows, run: ClaimId, r: Run, k: nat)
    requires k < |Todo(r)|
  {
    var record := Todo(r)[k];
    record.id in rows
    && record.row.state == Publishing && record.row.claimId == Some(run) && record.row.lastAttemptAt == Some(r.now)
    && (rows[record.id] == record.row
        || (k == 0 && r.phase.Refused? && rows[record.id] == PublishedRow(record.row, r.now)))
  }

  predicate HoldsAll(rows: Rows, run: ClaimId, r: Run) {
    forall k :: 0 <= k < |Todo(r)| ==> Holds(rows, run, r, k)
  }

  /** Two runs' lists with no row in common. */
  predicate Apart(x: seq<Record>, y: seq<Record>) {
    forall i, j :: 0 <= i < |x| && 0 <= j < |y| ==> x[i].id != y[j].id
  }

  /** No two runs list the same row. */
  predicate Exclusive(runs: map<ClaimId, Run>) {
    forall a, b :: a in runs && b in runs && a != b ==> Apart(Todo(runs[a]), Todo(runs[b]))
  }

  predicate Orderly(config: Config, s: State) {
    config.policy.maxAttempts >= 1 && Safe(s) && OnTime(s) && Exclusive(s.runs) && AllWithin(config, s)
    && forall run <- s.runs :: HoldsAll(s.rows, run, s.runs[run])
  }

  // ----- one step -----

  lemma StaysOnTime(config: Config, s: State, step: Step)
    requires Enabled(config, s, step) && Prompt(s, step) && OnTime(s)
    ensures OnTime(After(config, s, step))
  {
    hide WithClaim, Recovered, WithPublished, WithRequeued, MarkedRefused, IsOldestDue, NewRow, Records, Counted;
  }

  /** What Orderly says about one listed record. */
  lemma ListedIsHeld(config: Config, s: State, run: ClaimId, k: nat)
    requires Orderly(config, s) && run in s.runs && k < |Todo(s.runs[run])|
    ensures Holds(s.rows, run, s.runs[run], k) && s.clock < s.runs[run].now + PUBLISHING_VISIBILITY_MS
  {
    hide Safe, Exclusive, AllWithin;
    assert HoldsAll(s.rows, run, s.runs[run]);
  }

  lemma HeadIsHolders(config: Config, s: State, run: ClaimId, k: nat, actor: ClaimId)
    requires Orderly(config, s) && run in s.runs && k < |Todo(s.runs[run])|
    requires IsHead(s, actor, Todo(s.runs[run])[k].id)
    ensures actor == run && k == 0
  {
    hide AllWithin, HoldsAll, OnTime, EventsAreUnique, StreamMatches, PublishedWasSent, CopiesAreClaimed, Apart;
    assert RunMatches(s.rows, s.runs[run]);
    if actor != run {
      SharedIsNotApart(Todo(s.runs[actor]), Todo(s.runs[run]), 0, k);
    }
  }

  lemma SharedIsNotApart(x: seq<Record>, y: seq<Record>, i: nat, j: nat)
    requires i < |x| && j < |y| && x[i].id == y[j].id
    ensures !Apart(x, y)
  {
  }

  lemma SweepersAreOnTime(config: Config, s: State, run: ClaimId)
    requires Orderly(config, s) && run in s.runs
    ensures s.runs[run].now <= s.clock
  {
    hide Safe, Exclusive, AllWithin, HoldsAll;
  }

  /** A held row is touched by its holder alone, when it marks it. */
  lemma HeldIsTouchedByHolder(config: Config, s: State, step: Step, run: ClaimId, k: nat)
    requires Enabled(config, s, step) && Orderly(config, s)
    requires run in s.runs && k < |Todo(s.runs[run])| && Todo(s.runs[run])[k].id in s.rows
    requires Touches(s, step, Todo(s.runs[run])[k].id)
    ensures (step.MarkSent? || step.MarkRefused? || (step.MarkSentFails? && step.applied)) && step.run == run && k == 0
  {
    ListedIsHeld(config, s, run, k);
    if step.MarkSent? || step.MarkRefused? || (step.MarkSentFails? && step.applied) {
      HeadIsHolders(config, s, run, k, step.run);
    } else if step.Sweep? {
      SweepersAreOnTime(config, s, step.run);
      hide *;
      SweepTouchesStale(s, step, Todo(s.runs[run])[k].id);
      HeldIsNotStale(s.rows, run, s.runs[run], k, s.clock, s.runs[step.run].now);
    } else {
      hide *;
      HeldIsNotDue(config, s, step, run, k);
    }
  }

  lemma SweepTouchesStale(s: State, step: Step, id: RowId)
    requires step.Sweep? && step.run in s.runs && id in s.rows && Touches(s, step, id)
    ensures Stale(s.rows[id], s.runs[step.run].now - PUBLISHING_VISIBILITY_MS)
  {
  }

  lemma HeldIsNotStale(rows: Rows, run: ClaimId, r: Run, k: nat, clock: Time, now: Time)
    requires k < |Todo(r)| && Holds(rows, run, r, k) && clock < r.now + PUBLISHING_VISIBILITY_MS && now <= clock
    ensures Todo(r)[k].id in rows && !Stale(rows[Todo(r)[k].id], now - PUBLISHING_VISIBILITY_MS)
  {
  }

  lemma HeldIsNotDue(config: Config, s: State, step: Step, run: ClaimId, k: nat)
    requires Enabled(config, s, step) && !step.Sweep? && !step.MarkSent? && !step.MarkRefused?
    requires !(step.MarkSentFails? && step.applied)
    requires run in s.runs && k < |Todo(s.runs[run])| && Holds(s.rows, run, s.runs[run], k)
    ensures Todo(s.runs[run])[k].id in s.rows && !Touches(s, step, Todo(s.runs[run])[k].id)
  {
  }

  lemma HeldStaysHeld(config: Config, s: State, step: Step, run: ClaimId, k: nat)
    requires Enabled(config, s, step) && Orderly(config, s) && run in s.runs && !(step.Take? && step.run == run)
    requires run in After(config, s, step).runs && k < |Todo(After(config, s, step).runs[run])|
    ensures var t := After(config, s, step); Holds(t.rows, run, t.runs[run], k)
  {
    hide *;
    ListedBefore(config, s, step, run, k);
    var t := After(config, s, step);
    var i := if (step.MarkSent? || step.MarkRefused?) && step.run == run then k + 1 else k;
    ListedIsHeld(config, s, run, i);
    var id := Todo(s.runs[run])[i].id;
    HeldIsPresent(s.rows, run, s.runs[run], i);
    if s.runs[run].phase.Refused? {
      RefusedMovesByRefusing(config, s, step, run);
    }
    if Touches(s, step, id) {
      HeldIsTouchedByHolder(config, s, step, run, i);
      AppliedMarkIsHeld(config, s, run);
    } else {
      UntouchedIsSame(config, s, step, id);
      HeldMoves(s.rows, t.rows, run, s.runs[run], t.runs[run], i, k);
    }
  }

  lemma HeldIsPresent(rows: Rows, run: ClaimId, r: Run, k: nat)
    requires k < |Todo(r)| && Holds(rows, run, r, k)
    ensures Todo(r)[k].id in rows
  {
  }

  lemma HeldMoves(before: Rows, after: Rows, run: ClaimId, r: Run, r': Run, i: nat, k: nat)
    requires i < |Todo(r)| && k < |Todo(r')| && Todo(r)[i] == Todo(r')[k] && r.now == r'.now && k <= i
    requires Holds(before, run, r, i)
    requires Todo(r)[i].id in after && after[Todo(r)[i].id] == before[Todo(r)[i].id]
    requires r.phase.Refused? && i == 0 ==> r' == r
    ensures Holds(after, run, r', k)
  {
  }

  /** A mark that is applied although it is reported failed leaves the head of the catch block marked. */
  lemma AppliedMarkIsHeld(config: Config, s: State, run: ClaimId)
    requires run in s.runs && Todo(s.runs[run]) != [] && Holds(s.rows, run, s.runs[run], 0)
    ensures Enabled(config, s, MarkSentFails(run, true)) ==>
              var t := After(config, s, MarkSentFails(run, true)); Holds(t.rows, run, t.runs[run], 0)
  {
  }

  lemma RefusedMovesByRefusing(config: Config, s: State, step: Step, run: ClaimId)
    requires Enabled(config, s, step) && run in s.runs && run in After(config, s, step).runs
             && s.runs[run].phase.Refused?
    ensures (step.MarkRefused? && step.run == run) || After(config, s, step).runs[run] == s.runs[run]
            || Todo(After(config, s, step).runs[run]) == []
  {
    hide WithClaim, Recovered, WithPublished, WithRequeued, MarkedRefused, IsOldestDue, NewRow, Records, Counted;
  }

  lemma TakenIsHeld(rows: Rows, order: seq<RowId>, run: ClaimId, now: Time, limit: nat)
    requires IsOldestDue(rows, order, limit, now)
    ensures var claimed := WithClaim(rows, order, run, now);
      HoldsAll(claimed, run, Run(now, Working(Records(claimed, order))))
  {
  }

  lemma HoldersStay(config: Config, s: State, step: Step)
    requires Enabled(config, s, step) && Orderly(config, s)
    ensures var t := After(config, s, step); forall run <- t.runs :: HoldsAll(t.rows, run, t.runs[run])
  {
    var t := After(config, s, step);
    forall run | run in t.runs ensures HoldsAll(t.rows, run, t.runs[run]) {
      if step.Take? && step.run == run {
        TakenIsHeld(s.rows, step.order, run, s.runs[run].now, config.batchSize);
      } else if run in s.runs {
        hide After, Enabled, Orderly, Holds;
        forall k | 0 <= k < |Todo(t.runs[run])| ensures Holds(t.rows, run, t.runs[run], k) {
          HeldStaysHeld(config, s, step, run, k);
        }
      }
    }
  }

  /** A row a run claims is listed by no other. */
  lemma TakenIsApart(config: Config, s: State, run: ClaimId, order: seq<RowId>, other: ClaimId)
    requires Enabled(config, s, Take(run, order)) && Orderly(config, s) && other in s.runs
    ensures Apart(Records(WithClaim(s.rows, order, run, s.runs[run].now), order), Todo(s.runs[other]))
  {
    var taken := Records(WithClaim(s.rows, order, run, s.runs[run].now), order);
    forall i, j | 0 <= i < |taken| && 0 <= j < |Todo(s.runs[other])| ensures taken[i].id != Todo(s.runs[other])[j].id {
      ListedIsHeld(config, s, other, j);
      hide Orderly;
      assert order[i] in order;
    }
  }

  lemma FewerStayApart(x: seq<Record>, y: seq<Record>, x': seq<Record>, y': seq<Record>)
    requires Apart(x, y) && IsRestOf(x', x) && IsRestOf(y', y)
    ensures Apart(x', y')
  {
  }

  /** The same records, all but the first, or none. */
  predicate IsRestOf(x': seq<Record>, x: seq<Record>) {
    x' == x || (x != [] && x' == x[1..]) || x' == []
  }

  lemma RunsListFewer(config: Config, s: State, step: Step, run: ClaimId)
    requires Enabled(config, s, step) && run in After(config, s, step).runs && !(step.Take? && step.run == run)
    ensures IsRestOf(Todo(After(config, s, step).runs[run]), if run in s.runs then Todo(s.runs[run]) else [])
  {
    hide WithClaim, Recovered, WithPublished, WithRequeued, MarkedRefused, IsOldestDue, NewRow, Records, Counted;
  }

  lemma TakeLists(config: Config, s: State, run: ClaimId, order: seq<RowId>)
    requires Enabled(config, s, Take(run, order))
    ensures var t := After(config, s, Take(run, order));
      run in t.runs && Todo(t.runs[run]) == Records(WithClaim(s.rows, order, run, s.runs[run].now), order)
  {
  }

  lemma ApartAfter(config: Config, s: State, step: Step, a: ClaimId, b: ClaimId)
    requires Enabled(config, s, step) && Orderly(config, s) && a != b
    requires a in After(config, s, step).runs && b in After(config, s, step).runs && !(step.Take? && step.run == b)
    ensures var t := After(config, s, step); Apart(Todo(t.runs[a]), Todo(t.runs[b]))
  {
    RunsListFewer(config, s, step, b);
    var t := After(config, s, step);
    var before := if b in s.runs then Todo(s.runs[b]) else [];
    if step.Take? && step.run == a {
      TakeLists(config, s, a, step.order);
      if b in s.runs {
        TakenIsApart(config, s, a, step.order, b);
      }
      hide *;
      FewerStayApart(Todo(t.runs[a]), before, Todo(t.runs[a]), Todo(t.runs[b]));
    } else {
      RunsListFewer(config, s, step, a);
      ExclusiveRuns(config, s, a, b);
      hide *;
      FewerStayApart(if a in s.runs then Todo(s.runs[a]) else [], before, Todo(t.runs[a]), Todo(t.runs[b]));
    }
  }

  lemma ExclusiveRuns(config: Config, s: State, a: ClaimId, b: ClaimId)
    requires Orderly(config, s) && a != b
    ensures Apart(if a in s.runs then Todo(s.runs[a]) else [], if b in s.runs then Todo(s.runs[b]) else [])
  {
    hide Safe, OnTime, AllWithin, HoldsAll;
  }

  lemma ApartIsSymmetric(x: seq<Record>, y: seq<Record>)
    requires Apart(x, y)
    ensures Apart(y, x)
  {
  }

  lemma StaysExclusive(config: Config, s: State, step: Step)
    requires Enabled(config, s, step) && Orderly(config, s)
    ensures Exclusive(After(config, s, step).runs)
  {
    var t := After(config, s, step);
    hide After, Enabled, Orderly, Apart, Todo;
    forall a, b | a in t.runs && b in t.runs && a != b ensures Apart(Todo(t.runs[a]), Todo(t.runs[b])) {
      if step.Take? && step.run == b {
        ApartAfter(config, s, step, b, a);
        ApartIsSymmetric(Todo(t.runs[b]), Todo(t.runs[a]));
      } else {
        ApartAfter(config, s, step, a, b);
      }
    }
  }

  /** A run refuses by the attempts its row still shows, so no refusal overdraws. */
  lemma PromptNeverOverdraws(config: Config, s: State, step: Step)
    requires Enabled(config, s, step) && Orderly(config, s)
    ensures !Overdraws(config, s, step)
  {
    if step.MarkRefused? {
      ListedIsHeld(config, s, step.run, 0);
    }
    hide Orderly, BackoffDelayMs;
  }

  lemma OrderlyStep(config: Config, s: State, step: Step)
    requires Enabled(config, s, step) && Prompt(s, step) && Orderly(config, s)
    ensures Orderly(config, After(config, s, step))
  {
    SafeStep(config, s, step);
    StaysOnTime(config, s, step);
    HoldersStay(config, s, step);
    StaysExclusive(config, s, step);
    PromptNeverOverdraws(config, s, step);
    BudgetStays(config, s, step);
    hide After, Enabled, Safe, OnTime, HoldsAll, Exclusive, AllWithin, Overdraws;
  }

  // ----- whole executions -----

  lemma OrderlyAtFirst(config: Config, states: seq<State>, steps: seq<Step>)
    requires IsPromptExecution(config, states, steps) && |states| == |steps| + 1
    ensures Orderly(config, states[0])
  {
    SafeAlways(config, states, steps, 0);
  }

  lemma NthPromptStep(config: Config, states: seq<State>, steps: seq<Step>, i: nat)
    requires IsPromptExecution(config, states, steps)
    ensures |states| == |steps| + 1 && IsExecution(config, states, steps)
    ensures i < |steps| ==>
              Enabled(config, states[i], steps[i]) && Prompt(states[i], steps[i])
              && states[i + 1] == After(config, states[i], steps[i])
  {
    hide Enabled, After, Prompt;
  }

  lemma {:induction false} OrderlyAlways(config: Config, states: seq<State>, steps: seq<Step>, i: nat)
    requires IsPromptExecution(config, states, steps) && i < |states| == |steps| + 1
    ensures Orderly(config, states[i])
  {
    hide *;
    if i == 0 {
      OrderlyAtFirst(config, states, steps);
    } else {
      NthPromptStep(config, states, steps, i - 1);
      OrderlyAlways(config, states, steps, i - 1);
      OrderlyStep(config, states[i - 1], steps[i - 1]);
    }
  }

  lemma PromptStep(config: Config, states: seq<State>, steps: seq<Step>, i: nat)
    requires IsPromptExecution(config, states, steps) && |states| == |steps| + 1 && i < |steps|
    ensures Enabled(config, states[i], steps[i]) && Prompt(states[i], steps[i]) && Orderly(config, states[i])
    ensures states[i + 1] == After(config, states[i], steps[i])
  {
    hide *;
    NthPromptStep(config, states, steps, i);
    OrderlyAlways(config, states, steps, i);
  }

  /** One owner per row: no two runs ever list the same row. */
  lemma OneOwner(config: Config, states: seq<State>, steps: seq<Step>, i: nat)
    requires IsPromptExecution(config, states, steps) && i < |states| == |steps| + 1
    ensures forall a, b :: a in states[i].runs && b in states[i].runs && a != b ==>
              Apart(Todo(states[i].runs[a]), Todo(states[i].runs[b]))
  {
    OrderlyAlways(config, states, steps, i);
    hide IsPromptExecution, Safe, OnTime, AllWithin, HoldsAll, Apart;
  }

  /** A mark that took effect although it reported an error. */
  predicate IsLostReply(step: Step) {
    step.MarkSentFails? && step.applied
  }

  predicate NoReplyIsLost(steps: seq<Step>, i: nat)
    requires i <= |steps|
  {
    forall k :: 0 <= k < i ==> !IsLostReply(steps[k])
  }

  /** On time no sweep takes a row from its run, so only a lost reply usurps. */
  lemma OnlyLostRepliesUsurp(config: Config, s: State, step: Step)
    requires Orderly(config, s)
    ensures Usurps(s, step) <==> IsLostReply(step)
  {
    if step.Sweep? && Usurps(s, step) {
      var other :| other in s.runs && Todo(s.runs[other]) != []
                   && s.runs[other].now <= s.runs[step.run].now - PUBLISHING_VISIBILITY_MS;
      SweepersAreOnTime(config, s, step.run);
      ListedIsHeld(config, s, other, 0);
    }
    hide Orderly;
  }

  /**
   * Every listed row is publishing under its lister's token, as it was claimed, until and only until a reply is
   * lost.
   */
  lemma OwnedUntilReplyIsLost(config: Config, states: seq<State>, steps: seq<Step>, i: nat)
    requires IsPromptExecution(config, states, steps) && i < |states| == |steps| + 1
    ensures OwnedThrough(states, i) <==> NoReplyIsLost(steps, i)
  {
    NthPromptStep(config, states, steps, 0);
    OwnedUntilUsurped(config, states, steps, i);
    hide IsPromptExecution, IsExecution, OwnedThrough, Usurps, IsLostReply;
    forall k | 0 <= k < i ensures Usurps(states[k], steps[k]) <==> IsLostReply(steps[k]) {
      OrderlyAlways(config, states, steps, k);
      OnlyLostRepliesUsurp(config, states[k], steps[k]);
    }
  }

  // ----- settled rows -----

  /** The row at a run's head is publishing, or published while the run is in the catch block. */
  lemma HeadIsInHand(config: Config, s: State, run: ClaimId)
    requires Orderly(config, s) && run in s.runs && Todo(s.runs[run]) != []
    ensures Head(s, run) in s.rows
    ensures var state := s.rows[Head(s, run)].state;
      state == Publishing || (state == Published && s.runs[run].phase.Refused?)
  {
    ListedIsHeld(config, s, run, 0);
    hide Orderly;
  }

  lemma TerminalIsUnmarked(config: Config, s: State, step: Step, id: RowId)
    requires Enabled(config, s, step) && Orderly(config, s) && id in s.rows && Terminal(s.rows[id])
    requires step.MarkSent? || step.MarkRefused? || step.MarkSentFails?
    requires s.rows[id].state == Published ==> !Retracts(s, step, id)
    ensures !Touches(s, step, id)
  {
    MarkersPhase(config, s, step);
    HeadIsInHand(config, s, step.run);
    hide Orderly, Enabled;
  }

  lemma MarkersPhase(config: Config, s: State, step: Step)
    requires Enabled(config, s, step) && (step.MarkSent? || step.MarkRefused? || step.MarkSentFails?)
    ensures step.run in s.runs && Todo(s.runs[step.run]) != []
    ensures s.runs[step.run].phase.Refused? <==> step.MarkRefused?
  {
  }

  /** A settled row is touched by a refusal of a published head and by a requeue of a failed one alone. */
  lemma TerminalIsUntouched(config: Config, s: State, step: Step, id: RowId)
    requires Enabled(config, s, step) && Orderly(config, s) && id in s.rows && Terminal(s.rows[id])
    requires if s.rows[id].state == Published then !Retracts(s, step, id) else step != Retry(id)
    ensures !Touches(s, step, id)
  {
    hide Orderly, IsOldestDue, Todo;
    if step.MarkSent? || step.MarkRefused? || step.MarkSentFails? {
      TerminalIsUnmarked(config, s, step, id);
    } else if step.Take? {
      DueIsNotTerminal(s.rows, step.order, config.batchSize, s.runs[step.run].now);
    }
  }

  lemma DueIsNotTerminal(rows: Rows, order: seq<RowId>, limit: nat, now: Time)
    requires IsOldestDue(rows, order, limit, now)
    ensures forall id <- order :: id in rows && !Terminal(rows[id])
  {
  }

  /** No step between two moments requeues the row. */
  predicate NotRequeued(steps: seq<Step>, i: nat, j: nat, id: RowId)
    requires i <= j <= |steps|
  {
    forall k :: i <= k < j ==> steps[k] != Retry(id)
  }

  /** What may end a settled row does not happen: no refusal of a published one, no requeue of a failed one. */
  predicate LeftAlone(states: seq<State>, steps: seq<Step>, i: nat, j: nat, id: RowId)
    requires i <= j <= |steps| <= |states| && i < |states|
  {
    if IsPublished(states[i], id) then NoneRetracts(states, steps, i, j, id) else NotRequeued(steps, i, j, id)
  }

  lemma LeftAloneBefore(states: seq<State>, steps: seq<Step>, i: nat, j: nat, id: RowId)
    requires i < j <= |steps| < |states| && LeftAlone(states, steps, i, j, id)
    ensures LeftAlone(states, steps, i, j - 1, id)
    ensures if IsPublished(states[i], id) then !Retracts(states[j - 1], steps[j - 1], id) else steps[j - 1] != Retry(id)
  {
    hide IsPublished, Retracts;
  }

  /** A settled row that is left alone never changes again. */
  lemma {:induction false} TerminalIsFinal(config: Config, states: seq<State>, steps: seq<Step>, i: nat, j: nat,
                                           id: RowId)
    requires IsPromptExecution(config, states, steps) && i <= j < |states| == |steps| + 1
    requires id in states[i].rows && LeftAlone(states, steps, i, j, id)
    requires states[i].rows[id].state == Published || states[i].rows[id].state == Failed
    ensures id in states[j].rows && states[j].rows[id] == states[i].rows[id]
    decreases j
  {
    hide *;
    if i < j {
      LeftAloneBefore(states, steps, i, j, id);
      TerminalIsFinal(config, states, steps, i, j - 1, id);
      PromptStep(config, states, steps, j - 1);
      PublishedIsAState(states[i], id);
      TerminalIsAState(states[i].rows[id]);
      TerminalIsUntouched(config, states[j - 1], steps[j - 1], id);
      UntouchedIsSame(config, states[j - 1], steps[j - 1], id);
    }
  }

  lemma TerminalIsAState(r: Row)
    ensures Terminal(r) <==> r.state == Published || r.state == Failed
  {
  }

  lemma PublishedIsAState(s: State, id: RowId)
    requires id in s.rows
    ensures IsPublished(s, id) <==> s.rows[id].state == Published
  {
  }

  predicate UnchangedThrough(states: seq<State>, i: nat, j: nat, id: RowId)
    requires i <= j < |states|
  {
    id in states[i].rows
    && forall k :: i <= k <= j ==> id in states[k].rows && states[k].rows[id] == states[i].rows[id]
  }

  /** A published row stays exactly as it is until and only until the run that lists it at its head refuses it. */
  lemma PublishedIsFinal(config: Config, states: seq<State>, steps: seq<Step>, i: nat, j: nat, id: RowId)
    requires IsPromptExecution(config, states, steps) && i <= j < |states| == |steps| + 1 && IsPublished(states[i], id)
    ensures UnchangedThrough(states, i, j, id) <==> NoneRetracts(states, steps, i, j, id)
  {
    NthPromptStep(config, states, steps, 0);
    PublishedUntilRefused(config, states, steps, i, j, id);
    hide IsPromptExecution, IsExecution, Retracts;
    if NoneRetracts(states, steps, i, j, id) {
      forall k | i <= k <= j ensures id in states[k].rows && states[k].rows[id] == states[i].rows[id] {
        assert LeftAlone(states, steps, i, k, id);
        TerminalIsFinal(config, states, steps, i, k, id);
      }
    }
  }

  /** While no reply is lost, no published row is refused, so publication is final. */
  lemma {:induction false} PublishedIsFinalIfRepliesArrive(config: Config, states: seq<State>, steps: seq<Step>, i: nat,
                                                           j: nat, id: RowId)
    requires IsPromptExecution(config, states, steps) && i <= j < |states| == |steps| + 1 && IsPublished(states[i], id)
    requires NoReplyIsLost(steps, j)
    ensures UnchangedThrough(states, i, j, id)
    decreases j
  {
    hide *;
    PublishedIsFinal(config, states, steps, i, j, id);
    PublishedThroughNext(states, steps, i, j, id);
    if i < j {
      FewerRepliesAreLost(steps, j - 1, j);
      PublishedIsFinalIfRepliesArrive(config, states, steps, i, j - 1, id);
      UnchangedIsPublished(states, i, j - 1, id);
      PublishedIsFinal(config, states, steps, i, j - 1, id);
      OwnedUntilReplyIsLost(config, states, steps, j - 1);
      OwnedAt(states, j - 1);
      PromptStep(config, states, steps, j - 1);
      OwnedIsNotRetracted(config, states[j - 1], steps[j - 1], id);
    }
  }

  lemma FewerRepliesAreLost(steps: seq<Step>, i: nat, j: nat)
    requires i <= j <= |steps| && NoReplyIsLost(steps, j)
    ensures NoReplyIsLost(steps, i)
  {
  }

  lemma UnchangedIsPublished(states: seq<State>, i: nat, j: nat, id: RowId)
    requires i <= j < |states| && IsPublished(states[i], id) && UnchangedThrough(states, i, j, id)
    ensures IsPublished(states[j], id)
  {
  }

  lemma OwnedAt(states: seq<State>, i: nat)
    requires i < |states| && OwnedThrough(states, i)
    ensures AllOwned(states[i])
  {
    hide AllOwned;
  }

  lemma OwnedIsNotRetracted(config: Config, s: State, step: Step, id: RowId)
    requires AllOwned(s) && IsPublished(s, id)
    ensures !Retracts(s, step, id)
  {
    if Retracts(s, step, id) {
      OwnedHeadIsPublishing(s, step.run);
    }
  }

  lemma OwnedHeadIsPublishing(s: State, run: ClaimId)
    requires AllOwned(s) && run in s.runs && Todo(s.runs[run]) != []
    ensures Head(s, run) in s.rows && s.rows[Head(s, run)].state == Publishing
  {
    assert OwnsAll(s.rows, run, s.runs[run]);
  }

  // ----- the attempt budget -----

  /**
   * The attempt budget: no row ever shows more attempts than allowed, a row that can be claimed shows
   * fewer, and over a whole execution a row is claimed, hence its event sent, at most the budget times
   * one more than the requeues an operator asked for.
   */
  lemma BudgetHolds(config: Config, states: seq<State>, steps: seq<Step>, i: nat, id: RowId)
    requires IsPromptExecution(config, states, steps) && i < |states| == |steps| + 1 && id in states[i].rows
    ensures states[i].rows[id].attemptCount <= config.policy.maxAttempts
    ensures states[i].rows[id].state == Pending || states[i].rows[id].state == Retrying ==>
              states[i].rows[id].attemptCount < config.policy.maxAttempts
    ensures |Positions(states[i].stream, states[i].rows[id].event.eventId)|
         <= |Claimings(steps, i, id)|
         <= config.policy.maxAttempts * (1 + |Requeuings(states, steps, i, id)|)
  {
    BudgetIsPositive(config, states, steps);
    NthPromptStep(config, states, steps, 0);
    hide IsPromptExecution, IsExecution, Overdraws, Claimings, Requeuings, Positions;
    forall k | 0 <= k < i ensures !Overdraws(config, states[k], steps[k]) {
      PromptStep(config, states, steps, k);
      PromptNeverOverdraws(config, states[k], steps[k]);
    }
    SpendingIsBounded(config, states, steps, i, id);
  }

  lemma BudgetIsPositive(config: Config, states: seq<State>, steps: seq<Step>)
    requires IsPromptExecution(config, states, steps)
    ensures config.policy.maxAttempts >= 1
  {
  }

  // ----- progress -----

  /** A published row whose run is in the catch block and about to mark it again. */
  predicate InDoubt(s: State, id: RowId) {
    IsPublished(s, id) && exists run :: run in s.runs && s.runs[run].phase.Refused? && IsHead(s, run, id)
  }

  /** The table with every row in doubt seen as still being published. */
  function Reopened(s: State): (rows: Rows)
    ensures rows.Keys == s.rows.Keys
  {
    map id | id in s.rows :: if InDoubt(s, id) then s.rows[id].(state := Publishing) else s.rows[id]
  }

  /** The attempts a row may still cost, those of a row in doubt included. */
  function Remaining(config: Config, s: State, id: RowId): nat
    requires id in s.rows
  {
    Weight(Reopened(s)[id], config.policy.maxAttempts)
  }

  lemma RefusedBefore(config: Config, s: State, step: Step, run: ClaimId, id: RowId)
    requires Enabled(config, s, step) && run in After(config, s, step).runs
    requires After(config, s, step).runs[run].phase.Refused? && IsHead(After(config, s, step), run, id)
    ensures IsHead(s, run, id)
    ensures s.runs[run].phase.Refused? || ((step.Publish? || step.MarkSentFails?) && step.run == run)
  {
    hide WithClaim, Recovered, WithPublished, WithRequeued, MarkedRefused, IsOldestDue, NewRow, Records, Counted;
  }

  /** A row becomes published by a mark of a run that has sent it. */
  lemma MarkPublishes(config: Config, s: State, step: Step, id: RowId)
    requires Enabled(config, s, step) && IsPublished(After(config, s, step), id) && !IsPublished(s, id)
    ensures step.MarkSent? || IsLostReply(step)
    ensures IsHead(s, step.run, id) && s.runs[step.run].phase.Sent?
  {
    hide BackoffDelayMs;
  }

  /** A row comes into doubt by a lost reply alone. */
  lemma DoubtBegins(config: Config, s: State, step: Step, id: RowId)
    requires Enabled(config, s, step) && Orderly(config, s)
    requires InDoubt(After(config, s, step), id) && !InDoubt(s, id)
    ensures IsLostReply(step) && IsHead(s, step.run, id)
  {
    var t := After(config, s, step);
    var run :| run in t.runs && t.runs[run].phase.Refused? && IsHead(t, run, id);
    RefusedBefore(config, s, step, run, id);
    HeadIsInHand(config, s, run);
    hide After, Enabled, Orderly;
    MarkPublishes(config, s, step, id);
    HeadIsHolders(config, s, run, 0, step.run);
  }

  /** A step that neither adds a row nor revives a failed one never raises what a row may still cost. */
  lemma RemainingAfter(config: Config, s: State, step: Step, id: RowId)
    requires Enabled(config, s, step) && Orderly(config, s) && id in s.rows && !Requeues(s, step, id)
    ensures var t := After(config, s, step);
      id in t.rows && Remaining(config, t, id) <= Remaining(config, s, id) - if Takes(step, id) then 1 else 0
  {
    if Touches(s, step, id) {
      TouchedIsNotHeavier(config, s, step, id);
    } else {
      UntouchedIsSame(config, s, step, id);
      var t := After(config, s, step);
      UntouchedIsNotTaken(s, step, id);
      if InDoubt(t, id) && !InDoubt(s, id) {
        DoubtBegins(config, s, step, id);
      }
      hide After, Enabled, Orderly, InDoubt, Touches, Takes;
    }
  }

  lemma UntouchedIsNotTaken(s: State, step: Step, id: RowId)
    requires id in s.rows && !Touches(s, step, id)
    ensures !Takes(step, id) && !(IsLostReply(step) && IsHead(s, step.run, id))
  {
  }

  /** An open row weighs no less than any row of as many attempts, and more than any of one attempt more. */
  lemma OpenIsHeaviest(r: Row, r': Row, maxAttempts: nat)
    requires !Terminal(r)
    ensures r'.attemptCount == r.attemptCount ==> Weight(r', maxAttempts) <= Weight(r, maxAttempts)
    ensures r'.attemptCount == r.attemptCount + 1 <= maxAttempts ==>
              Weight(r', maxAttempts) <= Weight(r, maxAttempts) - 1
  {
  }

  lemma ReopenedRow(s: State, id: RowId)
    requires id in s.rows
    ensures Reopened(s)[id].attemptCount == s.rows[id].attemptCount
    ensures !Terminal(Reopened(s)[id]) <==> !Terminal(s.rows[id]) || InDoubt(s, id)
  {
    hide InDoubt;
    if InDoubt(s, id) {
      DoubtIsOfPublished(s, id);
    }
  }

  lemma DoubtIsOfPublished(s: State, id: RowId)
    requires InDoubt(s, id)
    ensures IsPublished(s, id)
  {
  }

  lemma HeadIsOpen(config: Config, s: State, run: ClaimId, id: RowId)
    requires Orderly(config, s) && IsHead(s, run, id)
    ensures id in s.rows && (!Terminal(s.rows[id]) || InDoubt(s, id))
  {
    HeadIsInHand(config, s, run);
    hide Orderly;
  }

  /** A step touches open rows, rows in doubt included, or revives a failed one. */
  lemma TouchedWasOpen(config: Config, s: State, step: Step, id: RowId)
    requires Enabled(config, s, step) && Orderly(config, s) && id in s.rows && Touches(s, step, id)
             && !Requeues(s, step, id)
    ensures !Terminal(s.rows[id]) || InDoubt(s, id)
  {
    hide Orderly, InDoubt, IsOldestDue, IsHead;
    if step.MarkSent? || step.MarkRefused? || step.MarkSentFails? {
      HeadIsOpen(config, s, step.run, id);
    } else if step.Take? {
      DueIsNotTerminal(s.rows, step.order, config.batchSize, s.runs[step.run].now);
    }
  }

  lemma TakenHasBudget(config: Config, s: State, step: Step, id: RowId)
    requires Enabled(config, s, step) && Orderly(config, s) && Takes(step, id)
    ensures id in s.rows && s.rows[id].attemptCount < config.policy.maxAttempts
  {
    hide Safe, OnTime, Exclusive, HoldsAll;
    AttemptsAfter(config, s, step, id);
    assert WithinBudget(s.rows[id], config.policy.maxAttempts);
  }

  lemma TouchedIsNotHeavier(config: Config, s: State, step: Step, id: RowId)
    requires Enabled(config, s, step) && Orderly(config, s) && id in s.rows && Touches(s, step, id)
             && !Requeues(s, step, id)
    ensures var t := After(config, s, step);
      id in t.rows && Remaining(config, t, id) <= Remaining(config, s, id) - if Takes(step, id) then 1 else 0
  {
    hide After, Enabled, Orderly, Touches, Takes, InDoubt, Requeues, Terminal, Weight, Reopened;
    var t := After(config, s, step);
    AttemptsAfter(config, s, step, id);
    TouchedWasOpen(config, s, step, id);
    ReopenedRow(s, id);
    ReopenedRow(t, id);
    if Takes(step, id) {
      TakenHasBudget(config, s, step, id);
    }
    OpenIsHeaviest(Reopened(s)[id], Reopened(t)[id], config.policy.maxAttempts);
  }

  /** A step that adds no row and revives no failed one. */
  predicate AddsNothing(s: State, step: Step) {
    !step.Commit? && forall id <- s.rows :: !Requeues(s, step, id)
  }

  /** No row is added and no failed row revived by the steps from `i` up to `j`. */
  predicate Closed(states: seq<State>, steps: seq<Step>, i: nat, j: nat)
    requires i <= j <= |steps| <= |states|
  {
    forall k :: i <= k < j ==> AddsNothing(states[k], steps[k])
  }

  lemma ClosedBefore(states: seq<State>, steps: seq<Step>, i: nat, j: nat)
    requires i < j <= |steps| <= |states| && Closed(states, steps, i, j)
    ensures Closed(states, steps, i, j - 1)
    ensures AddsNothing(states[j - 1], steps[j - 1])
  {
  }

  lemma NothingIsAdded(s: State, step: Step)
    requires AddsNothing(s, step)
    ensures !step.Commit? && forall id <- s.rows :: !Requeues(s, step, id)
  {
  }

  /** How many claims between two moments won at least one row. */
  function Wins(steps: seq<Step>, i: nat, j: nat): nat
    requires i <= j <= |steps|
    decreases j
  {
    if i == j then 0
    else Wins(steps, i, j - 1) + if steps[j - 1].Take? && steps[j - 1].order != [] then 1 else 0
  }

  lemma OneMoreWin(steps: seq<Step>, i: nat, j: nat)
    requires i <= j <= |steps|
    ensures i == j ==> Wins(steps, i, j) == 0
    ensures i < j ==>
              Wins(steps, i, j)
              == Wins(steps, i, j - 1) + if steps[j - 1].Take? && steps[j - 1].order != [] then 1 else 0
  {
  }

  lemma WinTakesARow(config: Config, s: State, step: Step)
    requires Enabled(config, s, step) && step.Take? && step.order != []
    ensures step.order[0] in s.rows && Takes(step, step.order[0])
  {
    AttemptsAfter(config, s, step, step.order[0]);
  }

  /** What all rows together may still cost. */
  ghost function TotalRemaining(config: Config, s: State): nat {
    TotalWeight(Reopened(s), s.rows.Keys, config.policy.maxAttempts)
  }

  lemma RemainingFallsAtClaims(config: Config, s: State, step: Step)
    requires Enabled(config, s, step) && Orderly(config, s) && AddsNothing(s, step)
    ensures var t := After(config, s, step);
      t.rows.Keys == s.rows.Keys
      && TotalRemaining(config, t) <= TotalRemaining(config, s) - if step.Take? && step.order != [] then 1 else 0
  {
    hide After, Enabled, Orderly, AddsNothing, Requeues, Takes, Weight, TotalWeight, Reopened;
    NothingIsAdded(s, step);
    RowsKept(config, s, step);
    if step.Take? && step.order != [] {
      WinTakesARow(config, s, step);
    }
    var t := After(config, s, step);
    forall id | id in s.rows
      ensures Weight(Reopened(t)[id], config.policy.maxAttempts)
              <= Weight(Reopened(s)[id], config.policy.maxAttempts) - if Takes(step, id) then 1 else 0
    {
      RemainingAfter(config, s, step, id);
    }
    WeightsFall(Reopened(s), Reopened(t), s.rows.Keys, config.policy.maxAttempts);
  }

  /**
   * Without new rows and requeues, only as many claims can win a row as the summed remaining budget
   * of the table allows, in whatever way runs overlap and crash and replies are lost.
   */
  lemma {:induction false} ClaimsRunOut(config: Config, states: seq<State>, steps: seq<Step>, i: nat, j: nat)
    requires IsPromptExecution(config, states, steps) && i <= j < |states| == |steps| + 1 && Closed(states, steps, i, j)
    ensures states[j].rows.Keys == states[i].rows.Keys
    ensures Wins(steps, i, j) + TotalRemaining(config, states[j]) <= TotalRemaining(config, states[i])
    decreases j
  {
    hide *;
    OneMoreWin(steps, i, j);
    if i < j {
      ClosedBefore(states, steps, i, j);
      ClaimsRunOut(config, states, steps, i, j - 1);
      PromptStep(config, states, steps, j - 1);
      RemainingFallsAtClaims(config, states[j - 1], steps[j - 1]);
    }
  }

  /** Every row is settled and none is in doubt. */
  predicate AllSettled(s: State) {
    forall id <- s.rows :: Terminal(s.rows[id]) && !InDoubt(s, id)
  }

  /** A claim with something to find, or with nothing left to do. */
  predicate HasChance(s: State, step: Step) {
    step.Take? && step.run in s.runs && (Due(s.rows, s.runs[step.run].now) != {} || AllSettled(s))
  }

  /** How many claims between two moments had a chance. */
  function Chances(states: seq<State>, steps: seq<Step>, i: nat, j: nat): nat
    requires i <= j <= |steps| <= |states|
    decreases j
  {
    if i == j then 0
    else Chances(states, steps, i, j - 1) + if HasChance(states[j - 1], steps[j - 1]) then 1 else 0
  }

  lemma OneMoreChance(states: seq<State>, steps: seq<Step>, i: nat, j: nat)
    requires i <= j <= |steps| <= |states|
    ensures i == j ==> Chances(states, steps, i, j) == 0
    ensures i < j ==>
              Chances(states, steps, i, j)
              == Chances(states, steps, i, j - 1) + if HasChance(states[j - 1], steps[j - 1]) then 1 else 0
    ensures i < j && HasChance(states[j - 1], steps[j - 1]) ==> steps[j - 1].Take?
  {
  }

  /** While a row is unsettled, a claim with a chance wins. */
  lemma ChanceIsTaken(config: Config, s: State, step: Step)
    requires Enabled(config, s, step) && HasChance(s, step) && config.batchSize >= 1
    ensures step.order != [] || AllSettled(s)
  {
    hide AllSettled;
    if step.order == [] {
      EmptyClaimFindsNothing(s.rows, config.batchSize, s.runs[step.run].now);
    }
  }

  lemma EmptyClaimFindsNothing(rows: Rows, limit: nat, now: Time)
    requires IsOldestDue(rows, [], limit, now) && limit >= 1
    ensures Due(rows, now) == {}
  {
    assert forall id <- Due(rows, now) :: id !in [];
  }

  /** A run that sweeps when every wait has elapsed and no row is in doubt, and then claims, has a chance. */
  lemma ReadyRunHasChance(config: Config, s: State, run: ClaimId, order: seq<RowId>)
    requires Enabled(config, s, Sweep(run)) && Ready(s.rows, s.runs[run].now)
    requires forall other <- s.runs :: !s.runs[other].phase.Refused?
    ensures HasChance(After(config, s, Sweep(run)), Take(run, order))
  {
    var swept := After(config, s, Sweep(run));
    if !AllSettled(swept) {
      var id :| id in swept.rows && !(Terminal(swept.rows[id]) && !InDoubt(swept, id));
      assert id in Due(swept.rows, s.runs[run].now);
    }
  }

  lemma SettledStays(config: Config, s: State, step: Step)
    requires Enabled(config, s, step) && Orderly(config, s) && AllSettled(s) && AddsNothing(s, step)
    ensures AllSettled(After(config, s, step))
  {
    var t := After(config, s, step);
    NothingIsAdded(s, step);
    RowsKept(config, s, step);
    hide After, Enabled, Orderly, Terminal, Touches, InDoubt, Requeues;
    forall id | id in t.rows ensures Terminal(t.rows[id]) && !InDoubt(t, id) {
      SettledRowStays(config, s, step, id);
    }
  }

  lemma SettledRowStays(config: Config, s: State, step: Step, id: RowId)
    requires Enabled(config, s, step) && Orderly(config, s) && !Requeues(s, step, id)
    requires id in s.rows && Terminal(s.rows[id]) && !InDoubt(s, id)
    ensures var t := After(config, s, step); id in t.rows && Terminal(t.rows[id]) && !InDoubt(t, id)
  {
    hide After, Enabled, Orderly, Terminal, InDoubt, Requeues, Touches, IsLostReply;
    if Touches(s, step, id) {
      TouchedWasOpen(config, s, step, id);
    } else {
      UntouchedIsSame(config, s, step, id);
      UntouchedIsNotTaken(s, step, id);
      if InDoubt(After(config, s, step), id) {
        DoubtBegins(config, s, step, id);
      }
    }
  }

  /** Until every row is settled, each chance is a win. */
  lemma {:induction false} ChancesAreWins(config: Config, states: seq<State>, steps: seq<Step>, i: nat, j: nat)
    requires IsPromptExecution(config, states, steps) && i <= j < |states| == |steps| + 1
    requires Closed(states, steps, i, j) && config.batchSize >= 1
    ensures Chances(states, steps, i, j) <= Wins(steps, i, j) || AllSettled(states[j])
    decreases j
  {
    hide *;
    OneMoreChance(states, steps, i, j);
    OneMoreWin(steps, i, j);
    if i < j {
      var s, step := states[j - 1], steps[j - 1];
      PromptStep(config, states, steps, j - 1);
      ClosedBefore(states, steps, i, j);
      ChancesAreWins(config, states, steps, i, j - 1);
      if AllSettled(s) {
        SettledStays(config, s, step);
      } else if HasChance(s, step) {
        ChanceIsTaken(config, s, step);
      }
    }
  }

  lemma SettledIfNothingRemains(config: Config, s: State)
    requires TotalRemaining(config, s) == 0
    ensures AllSettled(s)
  {
    NoWeightIsTerminal(Reopened(s), s.rows.Keys, config.policy.maxAttempts);
    hide TotalWeight, Reopened, Terminal, InDoubt;
    forall id | id in s.rows ensures Terminal(s.rows[id]) && !InDoubt(s, id) {
      ReopenedRow(s, id);
    }
  }

  /**
   * Every row ends published or failed, and in no doubt: without new rows and requeues, once as many claims
   * had a chance as the summed remaining budget allows, no row is left, in whatever way runs overlap, fail
   * and crash and replies are lost.
   */
  lemma EveryRowEnds(config: Config, states: seq<State>, steps: seq<Step>, i: nat, j: nat)
    requires IsPromptExecution(config, states, steps) && i <= j < |states| == |steps| + 1
    requires Closed(states, steps, i, j) && config.batchSize >= 1
    requires Chances(states, steps, i, j) >= TotalRemaining(config, states[i])
    ensures states[j].rows.Keys == states[i].rows.Keys
    ensures forall id <- states[j].rows ::
              (states[j].rows[id].state == Published || states[j].rows[id].state == Failed) && !InDoubt(states[j], id)
  {
    hide IsPromptExecution, Closed, Chances, Wins, TotalRemaining;
    ChancesAreWins(config, states, steps, i, j);
    ClaimsRunOut(config, states, steps, i, j);
    if TotalRemaining(config, states[j]) == 0 {
      SettledIfNothingRemains(config, states[j]);
    }
  }
}
