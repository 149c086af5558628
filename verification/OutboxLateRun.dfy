/**
 * What ends the outbox's guarantees: a run that outlives its visibility timeout, and a mark that takes
 * effect although it reports an error.
 */
module OutboxLateRun {
  import opened OutboxGuarantees
  import opened OutboxProtocol
  import opened OutboxPublisher
  import opened OutboxRows
  import opened OutboxTimed
  import opened RetryPolicy

  const LATE := Config(1, Policy(2, 1, 1))

  const EVENT := Event("event", "type", 1, "payload")

  lemma OneRowIsOldestDue(r: Row, now: Time)
    requires Claimable(r, now)
    ensures IsOldestDue(map[0 := r], [0], 1, now)
  {
  }

  lemma OneRowClaimed(r: Row, claimId: ClaimId, now: Time)
    ensures WithClaim(map[0 := r], [0], claimId, now) == map[0 := ClaimRow(r, claimId, now)]
    ensures Records(map[0 := ClaimRow(r, claimId, now)], [0]) == [Record(0, ClaimRow(r, claimId, now))]
  {
  }

  // The row as run 1 claims it, as run 2 claims it again, and as run 1's late refusal leaves it.

  function FirstClaim(): Row {
    ClaimRow(NewRow(EVENT, 0), 1, 0)
  }

  function SecondClaim(): Row {
    ClaimRow(ReleasedRow(FirstClaim(), 2), 2, 60_000)
  }

  function Refusal(): Row {
    RetryingRow(PublishedRow(SecondClaim(), 60_000), "late", BackoffDelayMs(1, LATE.policy, 0.0))
  }

  function Sent1(): Run {
    Run(0, Sent([Record(0, FirstClaim())]))
  }

  function Claimed1(): Run {
    Run(0, Working([Record(0, FirstClaim())]))
  }

  function Claimed2(): Run {
    Run(60_000, Working([Record(0, SecondClaim())]))
  }

  function CopyOf(run: ClaimId): Copy {
    Copy(EntryOf(EVENT), 0, run)
  }

  /** Run 1 has sent the event and stalled until its timeout. */
  function Stalled(): State {
    State(map[0 := FirstClaim()], [CopyOf(1)], map[1 := Sent1()], 60_000, map[0 := 1])
  }

  /** Run 2 has claimed the same row, sent the event again and marked it. */
  function Overtaken(): State {
    State(map[0 := PublishedRow(SecondClaim(), 60_000)], [CopyOf(1), CopyOf(2)],
          map[1 := Sent1(), 2 := Run(60_000, Working([]))], 60_000, map[0 := 2])
  }

  lemma EmptyIsPrompt()
    ensures IsPromptExecution(LATE, [Empty], [])
  {
  }

  lemma GoPromptly(states: seq<State>, steps: seq<Step>, step: Step, next: State)
    returns (states': seq<State>, steps': seq<Step>)
    requires IsPromptExecution(LATE, states, steps) && |states| == |steps| + 1
    requires Enabled(LATE, states[|steps|], step) && Prompt(states[|steps|], step)
    requires After(LATE, states[|steps|], step) == next
    ensures IsPromptExecution(LATE, states', steps') && IsExecution(LATE, states', steps')
    ensures states' == states + [next] && steps' == steps + [step]
  {
    hide Enabled, After, Prompt;
    states', steps' := Go(LATE, states, steps, step, next);
  }

  lemma RunOneClaims() returns (states: seq<State>, steps: seq<Step>)
    ensures IsExecution(LATE, states, steps) && |states| == |steps| + 1 && IsPromptExecution(LATE, states, steps)
    ensures states[|steps|] == State(map[0 := FirstClaim()], [], map[1 := Claimed1()], 0, map[0 := 1])
  {
    hide IsExecution, IsPromptExecution, IsOldestDue, WithClaim, Records;
    var row, claims := NewRow(EVENT, 0), map[0 := 0];
    EmptyIsPrompt();
    states, steps := GoPromptly([Empty], [], Commit(0, EVENT, 0), State(map[0 := row], [], map[], 0, claims));
    states, steps := GoPromptly(states, steps, Begin(1), State(map[0 := row], [], map[1 := Run(0, Begun)], 0, claims));
    states, steps := GoPromptly(states, steps, Sweep(1), State(map[0 := row], [], map[1 := Run(0, Swept)], 0, claims));
    OneRowIsOldestDue(row, 0);
    OneRowClaimed(row, 1, 0);
    states, steps := GoPromptly(states, steps, Take(1, [0]),
                        State(map[0 := FirstClaim()], [], map[1 := Claimed1()], 0, map[0 := 1]));
  }

  lemma RunOneSends(states: seq<State>, steps: seq<Step>) returns (states': seq<State>, steps': seq<Step>)
    requires IsPromptExecution(LATE, states, steps) && |states| == |steps| + 1
    requires states[|steps|] == State(map[0 := FirstClaim()], [], map[1 := Claimed1()], 0, map[0 := 1])
    ensures IsPromptExecution(LATE, states', steps') && IsExecution(LATE, states', steps') && |states'| == |steps'| + 1
    ensures states'[|steps'|] == State(map[0 := FirstClaim()], [CopyOf(1)], map[1 := Sent1()], 0, map[0 := 1])
  {
    hide IsExecution, IsPromptExecution;
    states', steps' := GoPromptly(states, steps, Publish(1, Accepted, true),
                                  State(map[0 := FirstClaim()], [CopyOf(1)], map[1 := Sent1()], 0, map[0 := 1]));
  }

  lemma RunOneStalls() returns (states: seq<State>, steps: seq<Step>)
    ensures IsExecution(LATE, states, steps) && |states| == |steps| + 1 && states[|steps|] == Stalled()
  {
    hide IsExecution, IsPromptExecution;
    states, steps := RunOneClaims();
    states, steps := RunOneSends(states, steps);
    states, steps := Go(LATE, states, steps, Tick(60_000), Stalled());
  }

  lemma RunTwoSweeps() returns (states: seq<State>, steps: seq<Step>)
    ensures IsExecution(LATE, states, steps) && |states| == |steps| + 1
    ensures states[|steps|] == State(map[0 := ReleasedRow(FirstClaim(), 2)], [CopyOf(1)],
                                     map[1 := Sent1(), 2 := Run(60_000, Swept)], 60_000, map[0 := 1])
  {
    hide IsExecution;
    states, steps := RunOneStalls();
    var released := ReleasedRow(FirstClaim(), 2);
    states, steps := Go(LATE, states, steps, Begin(2),
                        Stalled().(runs := map[1 := Sent1(), 2 := Run(60_000, Begun)]));
    states, steps := Go(LATE, states, steps, Sweep(2),
                        State(map[0 := released], [CopyOf(1)], map[1 := Sent1(), 2 := Run(60_000, Swept)], 60_000,
                              map[0 := 1]));
  }

  lemma RunTwoClaims() returns (states: seq<State>, steps: seq<Step>)
    ensures IsExecution(LATE, states, steps) && |states| == |steps| + 1
    ensures states[|steps|] == State(map[0 := SecondClaim()], [CopyOf(1)],
                                     map[1 := Sent1(), 2 := Claimed2()], 60_000, map[0 := 2])
  {
    hide IsExecution, IsOldestDue, WithClaim, Records;
    states, steps := RunTwoSweeps();
    var released := ReleasedRow(FirstClaim(), 2);
    OneRowIsOldestDue(released, 60_000);
    OneRowClaimed(released, 2, 60_000);
    states, steps := Go(LATE, states, steps, Take(2, [0]),
                        State(map[0 := SecondClaim()], [CopyOf(1)],
                              map[1 := Sent1(), 2 := Claimed2()], 60_000, map[0 := 2]));
  }

  lemma RunTwoPublishes() returns (states: seq<State>, steps: seq<Step>, shared: nat)
    ensures IsExecution(LATE, states, steps) && |states| == |steps| + 1 && states[|steps|] == Overtaken()
    ensures shared < |steps| && IsHead(states[shared], 1, 0) && IsHead(states[shared], 2, 0)
  {
    hide IsExecution, IsHead;
    states, steps := RunTwoClaims();
    shared := |steps|;
    var before := states[shared];
    RunTwoSharesTheRow(before);
    states, steps := Go(LATE, states, steps, Publish(2, Accepted, true),
                        State(map[0 := SecondClaim()], [CopyOf(1), CopyOf(2)],
                              map[1 := Sent1(), 2 := Run(60_000, Sent([Record(0, SecondClaim())]))], 60_000,
                              map[0 := 2]));
    assert [Record(0, SecondClaim())][1..] == [];
    states, steps := Go(LATE, states, steps, MarkSent(2), Overtaken());
    assert states[shared] == before;
  }

  /** The row's delay, computed from the first attempt, has long passed. */
  lemma RefusalIsDue()
    ensures Claimable(Refusal(), 60_000)
    ensures LATE.policy.maxAttempts == 2 && Refusal().attemptCount == 2
  {
    BackoffBounds(1, LATE.policy, 0.0);
    hide BackoffDelayMs;
  }

  lemma RunOneRefuses(states: seq<State>, steps: seq<Step>) returns (states': seq<State>, steps': seq<Step>)
    requires IsExecution(LATE, states, steps) && |states| == |steps| + 1 && states[|steps|] == Overtaken()
    ensures IsExecution(LATE, states', steps') && |states'| == |steps'| + 1 && states < states'
    ensures states'[|steps'|] == Overtaken().(rows := map[0 := Refusal()], runs := Idle())
  {
    hide IsExecution, BackoffDelayMs;
    states', steps' := Go(LATE, states, steps, MarkSentFails(1, false),
                          Overtaken().(runs := map[1 := Run(0, Refused([Record(0, FirstClaim())], false)),
                                                   2 := Run(60_000, Working([]))]));
    assert [Record(0, FirstClaim())][1..] == [];
    states', steps' := Go(LATE, states', steps', MarkRefused(1, "late", 0.0),
                          Overtaken().(rows := map[0 := Refusal()], runs := Idle()));
  }

  function Idle(): map<ClaimId, Run> {
    map[1 := Run(0, Working([])), 2 := Run(60_000, Working([]))]
  }

  lemma RefusalIsNotStale()
    ensures Recovered(LATE, map[0 := Refusal()], 60_000) == map[0 := Refusal()]
  {
  }

  lemma RunThreeSweeps(states: seq<State>, steps: seq<Step>) returns (states': seq<State>, steps': seq<Step>)
    requires IsExecution(LATE, states, steps) && |states| == |steps| + 1
    requires states[|steps|] == Overtaken().(rows := map[0 := Refusal()], runs := Idle())
    ensures IsExecution(LATE, states', steps') && |states'| == |steps'| + 1 && states < states'
    ensures states'[|steps'|] == states[|steps|].(runs := Idle()[3 := Run(60_000, Swept)])
  {
    hide IsExecution, Refusal;
    var s := states[|steps|];
    states', steps' := Go(LATE, states, steps, Begin(3), s.(runs := Idle()[3 := Run(60_000, Begun)]));
    RefusalIsNotStale();
    states', steps' := Go(LATE, states', steps', Sweep(3), s.(runs := Idle()[3 := Run(60_000, Swept)]));
  }

  lemma RunThreeClaims(states: seq<State>, steps: seq<Step>) returns (states': seq<State>, steps': seq<Step>)
    requires IsExecution(LATE, states, steps) && |states| == |steps| + 1
    requires states[|steps|] == Overtaken().(rows := map[0 := Refusal()], runs := Idle())
    ensures IsExecution(LATE, states', steps') && |states'| == |steps'| + 1 && states < states'
    ensures states'[|steps'|].rows == map[0 := ClaimRow(Refusal(), 3, 60_000)]
  {
    hide IsExecution, IsOldestDue, WithClaim, Records, Refusal;
    var s, third := states[|steps|], ClaimRow(Refusal(), 3, 60_000);
    states', steps' := RunThreeSweeps(states, steps);
    RefusalIsDue();
    OneRowIsOldestDue(Refusal(), 60_000);
    OneRowClaimed(Refusal(), 3, 60_000);
    states', steps' := Go(LATE, states', steps', Take(3, [0]),
                          State(map[0 := third], s.stream, Idle()[3 := Run(60_000, Working([Record(0, third)]))],
                                60_000, map[0 := 3]));
  }

  lemma RunTwoSharesTheRow(s: State)
    requires s.runs == map[1 := Sent1(), 2 := Claimed2()]
    ensures IsHead(s, 1, 0) && IsHead(s, 2, 0)
  {
  }

  /**
   * Past the timeout two runs list one row at once. Then a published row goes back to retrying, is claimed
   * again, and shows more attempts than the budget allows.
   */
  lemma LateRunBreaksBudget() returns (states: seq<State>, steps: seq<Step>, shared: nat, i: nat)
    ensures IsExecution(LATE, states, steps) && shared < i < |steps| == |states| - 1
    ensures IsHead(states[shared], 1, 0) && IsHead(states[shared], 2, 0)
    ensures IsPublished(states[i], 0)
    ensures 0 in states[|steps|].rows && states[|steps|].rows[0].state == Publishing
    ensures states[|steps|].rows[0].attemptCount > LATE.policy.maxAttempts
  {
    hide IsExecution, Refusal, SecondClaim, IsHead;
    states, steps, shared := RunTwoPublishes();
    i := |steps|;
    var before := states;
    states, steps := RunOneRefuses(states, steps);
    assert states[i] == before[i] && states[shared] == before[shared] && i < |steps|;
    before := states;
    states, steps := RunThreeClaims(states, steps);
    assert states[i] == before[i] && states[shared] == before[shared];
    OvertakenIsPublished();
    RefusalIsDue();
  }

  lemma OvertakenIsPublished()
    ensures IsPublished(Overtaken(), 0)
  {
  }

  /** A run that settles in the last millisecond before its timeout publishes its row, and is on time. */
  lemma PunctualRunPublishes() returns (states: seq<State>, steps: seq<Step>)
    ensures IsPromptExecution(LATE, states, steps) && |states| == |steps| + 1
    ensures states[|steps|].rows == map[0 := PublishedRow(FirstClaim(), 0)] && states[|steps|].clock == 59_999
  {
    hide IsExecution, IsPromptExecution;
    states, steps := RunOneClaims();
    states, steps := RunOneSends(states, steps);
    states, steps := GoPromptly(states, steps, Tick(59_999),
                                State(map[0 := FirstClaim()], [CopyOf(1)], map[1 := Sent1()], 59_999, map[0 := 1]));
    assert [Record(0, FirstClaim())][1..] == [];
    states, steps := GoPromptly(states, steps, MarkSent(1),
                                State(map[0 := PublishedRow(FirstClaim(), 0)], [CopyOf(1)],
                                      map[1 := Run(0, Working([]))], 59_999, map[0 := 1]));
  }

  /**
   * Even on time, a mark that is applied although it reports an error is followed by a second mark, which
   * takes the publication back.
   */
  lemma LostReplyUnpublishes() returns (states: seq<State>, steps: seq<Step>, i: nat)
    ensures IsPromptExecution(LATE, states, steps) && i < |steps| == |states| - 1
    ensures states[i].rows == map[0 := PublishedRow(FirstClaim(), 0)]
    ensures 0 in states[|steps|].rows && states[|steps|].rows[0].state == Retrying
  {
    hide IsExecution, IsPromptExecution, BackoffDelayMs;
    states, steps := RunOneClaims();
    states, steps := RunOneSends(states, steps);
    var published := PublishedRow(FirstClaim(), 0);
    var refused := Run(0, Refused([Record(0, FirstClaim())], false));
    states, steps := GoPromptly(states, steps, MarkSentFails(1, true),
                                State(map[0 := published], [CopyOf(1)], map[1 := refused], 0, map[0 := 1]));
    i := |steps|;
    var retrying := RetryingRow(published, "late", BackoffDelayMs(1, LATE.policy, 0.0));
    assert [Record(0, FirstClaim())][1..] == [];
    states, steps := GoPromptly(states, steps, MarkRefused(1, "late", 0.0),
                                State(map[0 := retrying], [CopyOf(1)], map[1 := Run(0, Working([]))], 0, map[0 := 1]));
  }
}
