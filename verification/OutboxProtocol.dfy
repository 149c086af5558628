/**
 * The outbox as a concurrent protocol: any number of publisher runs, each a sequence of atomic
 * statements, interleaved with commits of new rows, crashes, requeues and the passing of time.
 */
module OutboxProtocol {
  import opened OutboxPublisher
  import opened OutboxRows
  import opened Outcome
  import opened RetryPolicy

  /** A row as the run's claim returned it. */
  datatype Record = Record(id: RowId, row: Row)

  /** Where a run is: `Sent` once the head of its records is on the stream, `Refused` in the catch block. */
  datatype Phase =
    | Begun
    | Swept
    | Working(todo: seq<Record>)
    | Sent(todo: seq<Record>)
    | Refused(todo: seq<Record>, permanent: bool)
    | Finished
    | Crashed

  datatype Run = Run(now: Time, phase: Phase)

  /** A stream entry, with the row and the run it came from recorded for the proofs. */
  datatype Copy = Copy(entry: StreamEntry, id: RowId, run: ClaimId)

  /** The whole system; `claims` is a history no program reads. */
  datatype State = State(
    rows: Rows,
    stream: seq<Copy>,
    runs: map<ClaimId, Run>,
    clock: Time,
    claims: map<RowId, nat>)

  datatype Step =
    | Commit(id: RowId, event: Event, createdAt: Time)
    | Begin(run: ClaimId)
    | Sweep(run: ClaimId)
    | Take(run: ClaimId, order: seq<RowId>)
    | Publish(run: ClaimId, answer: Answer, appended: bool)
    | MarkSent(run: ClaimId)
    | MarkSentFails(run: ClaimId, applied: bool)
    | MarkRefused(run: ClaimId, failure: string, random: real)
    | Finish(run: ClaimId)
    | Crash(run: ClaimId)
    | Retry(id: RowId)
    | Tick(clock: Time)

  predicate Live(r: Run) {
    !r.phase.Finished? && !r.phase.Crashed?
  }

  function Todo(r: Run): seq<Record> {
    match r.phase
    case Working(todo) => todo
    case Sent(todo) => todo
    case Refused(todo, _) => todo
    case _ => []
  }

  function Moved(s: State, run: ClaimId, phase: Phase): map<ClaimId, Run>
    requires run in s.runs
  {
    s.runs[run := s.runs[run].(phase := phase)]
  }

  function Records(rows: Rows, order: seq<RowId>): (r: seq<Record>)
    requires forall id <- order :: id in rows
    ensures |r| == |order|
  {
    seq(|order|, i requires 0 <= i < |order| => Record(order[i], rows[order[i]]))
  }

  function Counted(claims: map<RowId, nat>, order: seq<RowId>): map<RowId, nat> {
    map id | id in claims :: if id in order then claims[id] + 1 else claims[id]
  }

  ghost predicate Enabled(config: Config, s: State, step: Step) {
    match step
    case Commit(id, event, _) => Admissible(s.rows, id, event)
    case Begin(run) => run !in s.runs
    case Sweep(run) => run in s.runs && s.runs[run].phase.Begun?
    case Take(run, order) =>
      run in s.runs && s.runs[run].phase.Swept? && IsOldestDue(s.rows, order, config.batchSize, s.runs[run].now)
    case Publish(run, answer, appended) =>
      run in s.runs && s.runs[run].phase.Working? && s.runs[run].phase.todo != [] && (answer.Accepted? ==> appended)
    case MarkSent(run) => run in s.runs && s.runs[run].phase.Sent? && s.runs[run].phase.todo != []
    case MarkSentFails(run, _) => run in s.runs && s.runs[run].phase.Sent? && s.runs[run].phase.todo != []
    case MarkRefused(run, _, random) =>
      run in s.runs && s.runs[run].phase.Refused? && s.runs[run].phase.todo != []
      && s.runs[run].phase.todo[0].row.attemptCount >= 1 && 0.0 <= random < 1.0
    case Finish(run) => run in s.runs && s.runs[run].phase == Working([])
    case Crash(run) => run in s.runs && Live(s.runs[run])
    case Retry(_) => true
    case Tick(clock) => clock >= s.clock
  }

  /** The state after an enabled step. */
  function After(config: Config, s: State, step: Step): State
    requires Enabled(config, s, step)
  {
    match step
    case Commit(id, event, createdAt) =>
      s.(rows := s.rows[id := NewRow(event, createdAt)], claims := s.claims[id := 0])
    case Begin(run) => s.(runs := s.runs[run := Run(s.clock, Begun)])
    case Sweep(run) =>
      s.(rows := Recovered(config, s.rows, s.runs[run].now), runs := Moved(s, run, Swept))
    case Take(run, order) =>
      var rows := WithClaim(s.rows, order, run, s.runs[run].now);
      s.(rows := rows, runs := Moved(s, run, Working(Records(rows, order))), claims := Counted(s.claims, order))
    case Publish(run, answer, appended) =>
      var todo := s.runs[run].phase.todo;
      s.(stream := s.stream + (if appended then [Copy(EntryOf(todo[0].row.event), todo[0].id, run)] else []),
         runs := Moved(s, run, if answer.Accepted? then Sent(todo) else Refused(todo, answer.Permanent?)))
    case MarkSent(run) =>
      var todo := s.runs[run].phase.todo;
      s.(rows := WithPublished(s.rows, todo[0].id, s.runs[run].now), runs := Moved(s, run, Working(todo[1..])))
    case MarkSentFails(run, applied) =>
      var todo := s.runs[run].phase.todo;
      s.(rows := if applied then WithPublished(s.rows, todo[0].id, s.runs[run].now) else s.rows,
         runs := Moved(s, run, Refused(todo, false)))
    case MarkRefused(run, failure, random) =>
      var todo := s.runs[run].phase.todo;
      s.(rows := MarkedRefused(config, s, run, failure, random), runs := Moved(s, run, Working(todo[1..])))
    case Finish(run) => s.(runs := Moved(s, run, Finished))
    case Crash(run) => s.(runs := Moved(s, run, Crashed))
    case Retry(id) => s.(rows := WithRequeued(s.rows, id))
    case Tick(clock) => s.(clock := clock)
  }

  /** The mark of the catch block, decided by the attempts the claimed record shows. */
  function MarkedRefused(config: Config, s: State, run: ClaimId, failure: string, random: real): Rows
    requires run in s.runs && s.runs[run].phase.Refused? && s.runs[run].phase.todo != []
    requires s.runs[run].phase.todo[0].row.attemptCount >= 1 && 0.0 <= random < 1.0
  {
    var record := s.runs[run].phase.todo[0];
    if s.runs[run].phase.permanent || record.row.attemptCount >= config.policy.maxAttempts
    then WithFailed(s.rows, record.id, failure)
    else WithRetrying(s.rows, record.id, failure,
                      s.runs[run].now + BackoffDelayMs(record.row.attemptCount, config.policy, random))
  }

  const Empty := State(map[], [], map[], 0, map[])

  /** A run of the system from the empty table: each state follows from the one before by its step. */
  ghost predicate IsExecution(config: Config, states: seq<State>, steps: seq<Step>) {
    |states| == |steps| + 1 && states[0] == Empty
    && forall i :: 0 <= i < |steps| ==>
         Enabled(config, states[i], steps[i]) && states[i + 1] == After(config, states[i], steps[i])
  }

  /** One more step of an execution. */
  lemma Go(config: Config, states: seq<State>, steps: seq<Step>, step: Step, next: State)
    returns (states': seq<State>, steps': seq<Step>)
    requires IsExecution(config, states, steps)
    requires Enabled(config, states[|steps|], step)
    requires After(config, states[|steps|], step) == next
    ensures IsExecution(config, states', steps') && states' == states + [next] && steps' == steps + [step]
  {
    hide Enabled, After;
    states', steps' := states + [next], steps + [step];
  }

  // ----- what the environment may do -----

  /**
   * Nothing shields a run: while it is neither finished nor crashed it may crash, leaving table and stream as
   * they are; its transport may refuse an event with or without appending it, and its mark may fail with or
   * without taking effect. A failed row may be requeued and the clock may move at any time.
   */
  lemma EnvironmentIsFree(config: Config, s: State, run: ClaimId, id: RowId, clock: Time)
    ensures run in s.runs && s.runs[run].phase != Finished && s.runs[run].phase != Crashed ==>
              Enabled(config, s, Crash(run))
              && After(config, s, Crash(run)) == s.(runs := s.runs[run := Run(s.runs[run].now, Crashed)])
    ensures run in s.runs && s.runs[run].phase.Working? && s.runs[run].phase.todo != [] ==>
              Enabled(config, s, Publish(run, Accepted, true))
              && forall answer: Answer, appended :: !answer.Accepted? ==>
                   Enabled(config, s, Publish(run, answer, appended))
    ensures run in s.runs && s.runs[run].phase.Sent? && s.runs[run].phase.todo != [] ==>
              Enabled(config, s, MarkSent(run))
              && Enabled(config, s, MarkSentFails(run, true)) && Enabled(config, s, MarkSentFails(run, false))
    ensures run !in s.runs ==> Enabled(config, s, Begin(run))
    ensures id in s.rows && s.rows[id].state == Failed ==>
              Enabled(config, s, Retry(id)) && After(config, s, Retry(id)).rows[id].state == Pending
    ensures clock >= s.clock ==> Enabled(config, s, Tick(clock)) && After(config, s, Tick(clock)) == s.(clock := clock)
  {
  }

  /** A crashed run takes no further step. */
  lemma CrashedIsSilent(config: Config, s: State, step: Step)
    requires Enabled(config, s, step) && Actor(step).Some? && Actor(step).value in s.runs
    ensures s.runs[Actor(step).value].phase != Crashed
  {
  }

  // ----- what every interleaving keeps -----

  /** How many stream entries came from a row. */
  function Copies(stream: seq<Copy>, id: RowId): nat {
    if stream == [] then 0
    else Copies(stream[..|stream| - 1], id) + if stream[|stream| - 1].id == id then 1 else 0
  }

  /** The records a run may still append to the stream. */
  function Unsent(r: Run): seq<Record> {
    match r.phase
    case Working(todo) => todo
    case Sent(todo) => if todo == [] then [] else todo[1..]
    case Refused(todo, _) => if todo == [] then [] else todo[1..]
    case _ => []
  }

  predicate Lists(records: seq<Record>, id: RowId) {
    exists i :: 0 <= i < |records| && records[i].id == id
  }

  /** The runs that may still append a copy of a row. */
  function Senders(runs: map<ClaimId, Run>, id: RowId): set<ClaimId> {
    set run | run in runs && Lists(Unsent(runs[run]), id)
  }

  predicate RunMatches(rows: Rows, r: Run) {
    (forall i :: 0 <= i < |Todo(r)| ==>
       Todo(r)[i].id in rows && Todo(r)[i].row.event == rows[Todo(r)[i].id].event && Todo(r)[i].row.attemptCount >= 1)
    && (forall i, j :: 0 <= i < j < |Todo(r)| ==> Todo(r)[i].id != Todo(r)[j].id)
    && (r.phase.Sent? || r.phase.Refused? ==> r.phase.todo != [])
  }

  predicate EventsAreUnique(rows: Rows) {
    forall a <- rows, b <- rows :: rows[a].event.eventId == rows[b].event.eventId ==> a == b
  }

  predicate StreamMatches(rows: Rows, stream: seq<Copy>) {
    forall k :: 0 <= k < |stream| ==>
      stream[k].id in rows && stream[k].entry == EntryOf(rows[stream[k].id].event)
  }

  predicate PublishedWasSent(s: State) {
    (forall id <- s.rows :: s.rows[id].state == Published ==> Copies(s.stream, id) >= 1)
    && (forall run <- s.runs :: s.runs[run].phase.Sent? && s.runs[run].phase.todo != [] ==>
          Copies(s.stream, s.runs[run].phase.todo[0].id) >= 1)
  }

  predicate CopiesAreClaimed(s: State) {
    s.claims.Keys == s.rows.Keys
    && forall id <- s.rows :: Copies(s.stream, id) + |Senders(s.runs, id)| <= s.claims[id]
  }

  predicate Safe(s: State) {
    EventsAreUnique(s.rows)
    && StreamMatches(s.rows, s.stream)
    && (forall run <- s.runs :: RunMatches(s.rows, s.runs[run]))
    && PublishedWasSent(s)
    && CopiesAreClaimed(s)
  }

  /** Nothing committed is taken back: rows stay, with their event, and the stream only grows. */
  predicate Keeps(s: State, t: State) {
    (forall id <- s.rows :: id in t.rows && t.rows[id].event == s.rows[id].event)
    && |s.stream| <= |t.stream| && t.stream[..|s.stream|] == s.stream
  }

  // ----- one step -----

  lemma RowsKept(config: Config, s: State, step: Step)
    requires Enabled(config, s, step)
    ensures Keeps(s, After(config, s, step))
    ensures !step.Commit? ==> After(config, s, step).rows.Keys == s.rows.Keys
  {
    hide IsOldestDue, BackoffDelayMs;
  }

  lemma EventsStayUnique(config: Config, s: State, step: Step)
    requires Enabled(config, s, step) && EventsAreUnique(s.rows)
    ensures EventsAreUnique(After(config, s, step).rows)
  {
    RowsKept(config, s, step);
    if step.Commit? {
      assert After(config, s, step).rows == s.rows[step.id := NewRow(step.event, step.createdAt)];
    } else {
      hide After, Enabled;
      var t := After(config, s, step);
      forall a <- t.rows, b <- t.rows | t.rows[a].event.eventId == t.rows[b].event.eventId ensures a == b {
        assert a in s.rows && b in s.rows;
      }
    }
  }

  lemma StreamStaysMatched(config: Config, s: State, step: Step)
    requires Enabled(config, s, step) && StreamMatches(s.rows, s.stream)
    requires forall run <- s.runs :: RunMatches(s.rows, s.runs[run])
    ensures StreamMatches(After(config, s, step).rows, After(config, s, step).stream)
  {
    hide WithClaim, Recovered, WithPublished, WithRequeued, MarkedRefused, IsOldestDue, NewRow;
    RowsKept(config, s, step);
    var t := After(config, s, step);
    if step.Publish? {
      assert RunMatches(s.rows, s.runs[step.run]);
      assert Todo(s.runs[step.run])[0].id in s.rows;
    }
    forall k | 0 <= k < |t.stream|
      ensures t.stream[k].id in t.rows && t.stream[k].entry == EntryOf(t.rows[t.stream[k].id].event)
    {
      if k < |s.stream| {
        assert t.stream[k] == t.stream[..|s.stream|][k];
      }
    }
  }

  /** A run that only advanced through its records still matches the table, whatever happened to the rows. */
  lemma AdvancedMatches(s: State, t: State, before: Run, after: Run)
    requires Keeps(s, t) && RunMatches(s.rows, before)
    requires Todo(after) == Todo(before) || (Todo(before) != [] && Todo(after) == Todo(before)[1..])
             || Todo(after) == []
    requires after == before || !(after.phase.Sent? || after.phase.Refused?) || after.phase.todo != []
    ensures RunMatches(t.rows, after)
  {
    forall i | 0 <= i < |Todo(after)|
      ensures exists k :: 0 <= k < |Todo(before)| && Todo(before)[k] == Todo(after)[i]
    {
      assert Todo(before)[if Todo(after) == Todo(before) then i else i + 1] == Todo(after)[i];
    }
  }

  lemma TakenMatches(rows: Rows, order: seq<RowId>, run: ClaimId, now: Time, limit: nat)
    requires IsOldestDue(rows, order, limit, now)
    ensures var claimed := WithClaim(rows, order, run, now);
      RunMatches(claimed, Run(now, Working(Records(claimed, order))))
  {
  }

  lemma RunsStayMatched(config: Config, s: State, step: Step)
    requires Enabled(config, s, step) && forall run <- s.runs :: RunMatches(s.rows, s.runs[run])
    ensures var t := After(config, s, step); forall run <- t.runs :: RunMatches(t.rows, t.runs[run])
  {
    hide WithClaim, Recovered, WithPublished, WithRequeued, MarkedRefused, IsOldestDue, NewRow, RunMatches, Keeps;
    RowsKept(config, s, step);
    var t := After(config, s, step);
    forall run | run in t.runs ensures RunMatches(t.rows, t.runs[run]) {
      if run !in s.runs {
        FreshRunMatches(t.rows, t.runs[run]);
      } else if step.Take? && step.run == run {
        TakenMatches(s.rows, step.order, run, s.runs[run].now, config.batchSize);
      } else {
        AdvancedMatches(s, t, s.runs[run], t.runs[run]);
      }
    }
  }

  lemma FreshRunMatches(rows: Rows, r: Run)
    requires r.phase.Begun?
    ensures RunMatches(rows, r)
  {
  }

  lemma {:induction false} CopiesOfLonger(stream: seq<Copy>, copy: Copy, id: RowId)
    ensures Copies(stream + [copy], id) == Copies(stream, id) + if copy.id == id then 1 else 0
  {
    assert (stream + [copy])[..|stream|] == stream;
  }

  lemma CopiesAfter(config: Config, s: State, step: Step, id: RowId)
    requires Enabled(config, s, step)
    ensures Copies(After(config, s, step).stream, id) == Copies(s.stream, id)
      + if step.Publish? && step.appended && s.runs[step.run].phase.todo[0].id == id then 1 else 0
  {
    hide WithClaim, Recovered, WithPublished, WithRequeued, MarkedRefused, IsOldestDue, NewRow, Copies;
    if step.Publish? {
      var head := s.runs[step.run].phase.todo[0];
      CopiesOfLonger(s.stream, Copy(EntryOf(head.row.event), head.id, step.run), id);
      assert s.stream + [] == s.stream;
    }
  }

  /** Only a mark of a record whose copy is on the stream makes a row published. */
  lemma PublishedBecauseMarked(config: Config, s: State, step: Step, id: RowId)
    requires Enabled(config, s, step) && id in After(config, s, step).rows
    requires After(config, s, step).rows[id].state == Published
    ensures (id in s.rows && s.rows[id].state == Published)
         || ((step.MarkSent? || step.MarkSentFails?) && s.runs[step.run].phase.todo[0].id == id)
  {
    hide IsOldestDue, BackoffDelayMs;
  }

  lemma PublishedStaysSent(config: Config, s: State, step: Step)
    requires Enabled(config, s, step) && PublishedWasSent(s)
    ensures PublishedWasSent(After(config, s, step))
  {
    var t := After(config, s, step);
    hide WithClaim, Recovered, WithPublished, WithRequeued, MarkedRefused, IsOldestDue, NewRow, Copies;
    forall id | id in t.rows && t.rows[id].state == Published ensures Copies(t.stream, id) >= 1 {
      PublishedBecauseMarked(config, s, step, id);
      CopiesAfter(config, s, step, id);
    }
    forall run | run in t.runs && t.runs[run].phase.Sent? && t.runs[run].phase.todo != []
      ensures Copies(t.stream, t.runs[run].phase.todo[0].id) >= 1
    {
      CopiesAfter(config, s, step, t.runs[run].phase.todo[0].id);
    }
  }

  /** Changing one run changes who may still send a row by that run alone. */
  lemma SendersMoved(runs: map<ClaimId, Run>, run: ClaimId, r: Run, id: RowId)
    ensures |Senders(runs[run := r], id)|
         == |Senders(runs, id)|
            - (if run in runs && Lists(Unsent(runs[run]), id) then 1 else 0)
            + (if Lists(Unsent(r), id) then 1 else 0)
  {
    hide Lists, Unsent;
    var rest := Senders(runs, id) - {run};
    assert Senders(runs[run := r], id) - {run} == rest;
    assert Senders(runs, id) == if run in Senders(runs, id) then rest + {run} else rest;
    assert Senders(runs[run := r], id) == if run in Senders(runs[run := r], id) then rest + {run} else rest;
  }

  /** The one run a step concerns, if any. */
  function Actor(step: Step): Option<ClaimId> {
    match step
    case Commit(_, _, _) => None
    case Retry(_) => None
    case Tick(_) => None
    case _ => Some(step.run)
  }

  predicate Takes(step: Step, id: RowId) {
    step.Take? && id in step.order
  }

  predicate Sends(s: State, step: Step, id: RowId) {
    step.Publish? && step.run in s.runs && Todo(s.runs[step.run]) != [] && Todo(s.runs[step.run])[0].id == id
  }

  /** Taking a row makes its run a sender of it; sending it ends that; nothing else creates a sender. */
  lemma ActorSends(config: Config, s: State, step: Step, id: RowId)
    requires Enabled(config, s, step) && Actor(step).Some?
    requires forall run <- s.runs :: RunMatches(s.rows, s.runs[run])
    ensures var run := Actor(step).value;
      var before := run in s.runs && Lists(Unsent(s.runs[run]), id);
      var t := After(config, s, step);
      run in t.runs && t.runs == s.runs[run := t.runs[run]]
      && (Lists(Unsent(t.runs[run]), id) ==> before || Takes(step, id))
      && (Sends(s, step, id) ==> before && !Lists(Unsent(t.runs[run]), id))
  {
    hide WithClaim, Recovered, WithPublished, WithRequeued, MarkedRefused, IsOldestDue, NewRow;
    var run := Actor(step).value;
    if run in s.runs {
      assert RunMatches(s.rows, s.runs[run]);
      var todo := Todo(s.runs[run]);
      if Sends(s, step, id) {
        assert Unsent(s.runs[run])[0].id == id;
      }
      var t := After(config, s, step);
      if Lists(Unsent(t.runs[run]), id) && !step.Take? {
        var i :| 0 <= i < |Unsent(t.runs[run])| && Unsent(t.runs[run])[i].id == id;
        assert Unsent(t.runs[run])[i] == Unsent(s.runs[run])[if step.Publish? then i + 1 else i];
      }
    }
  }

  lemma {:induction false} NeverSent(stream: seq<Copy>, id: RowId)
    requires forall k :: 0 <= k < |stream| ==> stream[k].id != id
    ensures Copies(stream, id) == 0
  {
    if stream != [] {
      NeverSent(stream[..|stream| - 1], id);
    }
  }

  lemma AbsentRowHasNoSender(s: State, id: RowId)
    requires id !in s.rows && StreamMatches(s.rows, s.stream)
    requires forall run <- s.runs :: RunMatches(s.rows, s.runs[run])
    ensures Copies(s.stream, id) == 0 && Senders(s.runs, id) == {}
  {
    NeverSent(s.stream, id);
    forall run | run in s.runs ensures !Lists(Unsent(s.runs[run]), id) {
      var r := s.runs[run];
      assert RunMatches(s.rows, r);
      assert forall i :: 0 <= i < |Unsent(r)| ==>
        Unsent(r)[i] == Todo(r)[if r.phase.Sent? || r.phase.Refused? then i + 1 else i];
    }
  }

  lemma ClaimsAfter(config: Config, s: State, step: Step, id: RowId)
    requires Enabled(config, s, step) && id in s.rows && s.claims.Keys == s.rows.Keys
    ensures var t := After(config, s, step);
      t.claims.Keys == t.rows.Keys
      && t.claims[id] == s.claims[id] + if Takes(step, id) then 1 else 0
  {
    hide IsOldestDue, BackoffDelayMs;
  }

  lemma CountersCoverRows(config: Config, s: State, step: Step)
    requires Enabled(config, s, step) && s.claims.Keys == s.rows.Keys
    ensures var t := After(config, s, step); t.claims.Keys == t.rows.Keys
  {
    hide IsOldestDue, BackoffDelayMs;
  }

  lemma AbsentIsCommitted(config: Config, s: State, step: Step)
    requires Enabled(config, s, step)
    ensures var t := After(config, s, step);
      forall id <- t.rows :: id !in s.rows ==>
        id in t.claims && t.claims[id] == 0 && t.stream == s.stream && t.runs == s.runs
  {
    hide IsOldestDue, BackoffDelayMs;
  }

  lemma CopiesStayClaimed(config: Config, s: State, step: Step)
    requires Enabled(config, s, step) && StreamMatches(s.rows, s.stream) && CopiesAreClaimed(s)
    requires forall run <- s.runs :: RunMatches(s.rows, s.runs[run])
    ensures CopiesAreClaimed(After(config, s, step))
  {
    var t := After(config, s, step);
    CountersCoverRows(config, s, step);
    AbsentIsCommitted(config, s, step);
    hide After, Enabled, RunMatches, StreamMatches, Copies, Senders;
    forall id | id in t.rows ensures Copies(t.stream, id) + |Senders(t.runs, id)| <= t.claims[id] {
      if id in s.rows {
        RowCopiesStayClaimed(config, s, step, id);
      } else {
        AbsentRowHasNoSender(s, id);
      }
    }
  }

  /** A step of no run leaves the runs alone; a publication of a row is a sending of it by its run. */
  lemma SendIsAnAct(config: Config, s: State, step: Step, id: RowId)
    requires Enabled(config, s, step)
    ensures Actor(step).None? ==> After(config, s, step).runs == s.runs && !step.Publish?
    ensures step.Publish? && s.runs[step.run].phase.todo[0].id == id ==> Sends(s, step, id)
  {
    hide WithClaim, Recovered, WithPublished, WithRequeued, MarkedRefused, IsOldestDue, NewRow;
  }

  lemma RowCopiesStayClaimed(config: Config, s: State, step: Step, id: RowId)
    requires Enabled(config, s, step) && CopiesAreClaimed(s) && id in s.rows
    requires forall run <- s.runs :: RunMatches(s.rows, s.runs[run])
    ensures var t := After(config, s, step);
      id in t.claims && Copies(t.stream, id) + |Senders(t.runs, id)| <= t.claims[id]
  {
    hide After, Enabled, Copies, Senders, RunMatches, Sends, Takes;
    RowsKept(config, s, step);
    CopiesAfter(config, s, step, id);
    ClaimsAfter(config, s, step, id);
    var t := After(config, s, step);
    SendIsAnAct(config, s, step, id);
    if Actor(step).Some? {
      var run := Actor(step).value;
      ActorSends(config, s, step, id);
      SendersMoved(s.runs, run, t.runs[run], id);
    }
  }

  // ----- whole executions -----

  lemma SafeStep(config: Config, s: State, step: Step)
    requires Enabled(config, s, step) && Safe(s)
    ensures Safe(After(config, s, step))
  {
    EventsStayUnique(config, s, step);
    StreamStaysMatched(config, s, step);
    RunsStayMatched(config, s, step);
    PublishedStaysSent(config, s, step);
    CopiesStayClaimed(config, s, step);
    hide EventsAreUnique, StreamMatches, RunMatches, PublishedWasSent, CopiesAreClaimed, After, Enabled;
  }

  lemma NthStep(config: Config, states: seq<State>, steps: seq<Step>, i: nat)
    requires IsExecution(config, states, steps)
    ensures |states| == |steps| + 1 && states[0] == Empty
    ensures i < |steps| ==> Enabled(config, states[i], steps[i]) && states[i + 1] == After(config, states[i], steps[i])
  {
  }

  lemma {:induction false} SafeAlways(config: Config, states: seq<State>, steps: seq<Step>, i: nat)
    requires IsExecution(config, states, steps) && i < |states|
    ensures Safe(states[i])
  {
    NthStep(config, states, steps, if i == 0 then 0 else i - 1);
    if i > 0 {
      hide *;
      SafeAlways(config, states, steps, i - 1);
      SafeStep(config, states[i - 1], steps[i - 1]);
    }
  }

  lemma KeepsItself(s: State)
    ensures Keeps(s, s)
  {
  }

  lemma KeepsIsTransitive(a: State, b: State, c: State)
    requires Keeps(a, b) && Keeps(b, c)
    ensures Keeps(a, c)
  {
    assert c.stream[..|a.stream|] == c.stream[..|b.stream|][..|a.stream|];
  }

  /** Rows, their events and the stream's past are never lost between any two moments of an execution. */
  lemma {:induction false} NothingIsLost(config: Config, states: seq<State>, steps: seq<Step>, i: nat, j: nat)
    requires IsExecution(config, states, steps) && i <= j < |states|
    ensures Keeps(states[i], states[j])
    decreases j
  {
    hide *;
    if i == j {
      KeepsItself(states[i]);
    } else {
      NthStep(config, states, steps, j - 1);
      NothingIsLost(config, states, steps, i, j - 1);
      RowsKept(config, states[j - 1], steps[j - 1]);
      KeepsIsTransitive(states[i], states[j - 1], states[j]);
    }
  }

  /** The positions of the stream that hold an event. */
  function Positions(stream: seq<Copy>, eventId: string): set<nat> {
    set k: nat | k < |stream| && stream[k].entry.eventId == eventId
  }

  /** The moments of an execution's first `n` steps at which a row was claimed. */
  function Claimings(steps: seq<Step>, n: nat, id: RowId): set<nat>
    requires n <= |steps|
  {
    set j: nat | j < n && Takes(steps[j], id)
  }

  /** An entry that carries a stored event field by field. */
  predicate Carries(entry: StreamEntry, event: Event) {
    entry.eventId == event.eventId && entry.eventType == event.eventType && entry.payload == event.payload
  }

  lemma {:induction false} CopiesArePositions(rows: Rows, stream: seq<Copy>, id: RowId)
    requires StreamMatches(rows, stream) && EventsAreUnique(rows) && id in rows
    ensures Copies(stream, id) == |Positions(stream, rows[id].event.eventId)|
  {
    if stream != [] {
      hide Positions;
      CopiesArePositions(rows, stream[..|stream| - 1], id);
      PositionsGrow(stream, rows[id].event.eventId);
    } else {
      assert Positions(stream, rows[id].event.eventId) == {};
    }
  }

  lemma PositionsGrow(stream: seq<Copy>, eventId: string)
    requires stream != []
    ensures var n := |stream| - 1;
      |Positions(stream, eventId)|
      == |Positions(stream[..n], eventId)| + if stream[n].entry.eventId == eventId then 1 else 0
  {
    var n := |stream| - 1;
    assert n !in Positions(stream[..n], eventId);
    assert Positions(stream, eventId)
        == Positions(stream[..n], eventId) + if stream[n].entry.eventId == eventId then {n} else {};
  }

  predicate ClaimsCounted(s: State, claimings: set<nat>, id: RowId) {
    s.claims.Keys == s.rows.Keys
    && (if id in s.rows then s.claims[id] == |claimings| else claimings == {})
  }

  lemma ClaimingsGrow(steps: seq<Step>, n: nat, id: RowId)
    requires n < |steps|
    ensures n !in Claimings(steps, n, id)
    ensures Claimings(steps, n + 1, id) == Claimings(steps, n, id) + if Takes(steps[n], id) then {n} else {}
  {
  }

  lemma NothingClaimedYet(steps: seq<Step>, id: RowId)
    ensures ClaimsCounted(Empty, Claimings(steps, 0, id), id)
  {
    assert Claimings(steps, 0, id) == {};
  }

  lemma ClaimCounted(config: Config, s: State, step: Step, id: RowId, claimings: set<nat>, now: nat)
    requires Enabled(config, s, step) && Safe(s)
    requires ClaimsCounted(s, claimings, id) && now !in claimings
    ensures ClaimsCounted(After(config, s, step), claimings + if Takes(step, id) then {now} else {}, id)
  {
    hide After, Enabled, RunMatches, StreamMatches, PublishedWasSent, EventsAreUnique, Takes, Copies, Senders;
    RowsKept(config, s, step);
    CountersCoverRows(config, s, step);
    if id in s.rows {
      ClaimsAfter(config, s, step, id);
      assert |claimings + {now}| == |claimings| + 1;
    } else {
      AbsentIsCommitted(config, s, step);
      AbsentIsNotTaken(config, s, step, id);
      assert claimings + {} == {};
    }
  }

  lemma AbsentIsNotTaken(config: Config, s: State, step: Step, id: RowId)
    requires Enabled(config, s, step) && id !in s.rows
    ensures !Takes(step, id)
  {
  }

  lemma {:induction false} ClaimsAreClaimings(config: Config, states: seq<State>, steps: seq<Step>, i: nat, id: RowId)
    requires IsExecution(config, states, steps)
    requires i < |states| == |steps| + 1
    ensures ClaimsCounted(states[i], Claimings(steps, i, id), id)
  {
    hide *;
    if i == 0 {
      NthStep(config, states, steps, 0);
      NothingClaimedYet(steps, id);
    } else {
      NthStep(config, states, steps, i - 1);
      SafeAlways(config, states, steps, i - 1);
      ClaimsAreClaimings(config, states, steps, i - 1, id);
      ClaimingsGrow(steps, i - 1, id);
      ClaimCounted(config, states[i - 1], steps[i - 1], id, Claimings(steps, i - 1, id), i - 1);
    }
  }

  /**
   * What holds at every moment of every interleaving, with no assumption on timing: a published row's
   * event is on the stream; every entry is the one stored event of a committed row; and the stream
   * never holds more copies of an event than its row was claimed.
   */
  lemma OutboxIsSafe(config: Config, states: seq<State>, steps: seq<Step>, i: nat)
    requires IsExecution(config, states, steps) && i < |states|
    ensures forall id <- states[i].rows :: states[i].rows[id].state == Published ==>
              Positions(states[i].stream, states[i].rows[id].event.eventId) != {}
    ensures forall copy <- states[i].stream ::
              copy.id in states[i].rows && Carries(copy.entry, states[i].rows[copy.id].event)
    ensures forall id <- states[i].rows, copy <- states[i].stream ::
              copy.entry.eventId == states[i].rows[id].event.eventId ==>
                copy.id == id && Carries(copy.entry, states[i].rows[id].event)
    ensures forall id <- states[i].rows ::
              |Positions(states[i].stream, states[i].rows[id].event.eventId)| <= |Claimings(steps, i, id)|
  {
    var s := states[i];
    SafeAlways(config, states, steps, i);
    hide IsExecution;
    forall id | id in s.rows
      ensures s.rows[id].state == Published ==> Positions(s.stream, s.rows[id].event.eventId) != {}
      ensures |Positions(s.stream, s.rows[id].event.eventId)| <= |Claimings(steps, i, id)|
    {
      CopiesArePositions(s.rows, s.stream, id);
      ClaimsAreClaimings(config, states, steps, i, id);
    }
  }
}
