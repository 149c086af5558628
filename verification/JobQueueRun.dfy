/** The queue's methods seen from the protocol, when nothing interrupts them. */
module JobQueueRun {
  import opened JobDispatchRun
  import opened JobProtocol
  import opened JobQueue
  import opened JobRecords
  import opened Outcome

  /** The whole state shows what the queue and the guard store, malformed entries aside. */
  predicate ShowsAll(s: State, q: Store, keys: set<string>) {
    Shows(s.board, q, keys) && s.delivered == q.delivered && |s.entries| == |q.entries|
    && forall k :: 0 <= k < |s.entries| ==> q.entries[k] == Some(s.entries[k])
  }

  /** A push is the protocol's push, and the two writes of a producer that nothing interrupts make the same state. */
  lemma PushIsAStep(s: State, q: Store, keys: set<string>, pusher: PusherId, envelope: Envelope, at: Time)
    requires ShowsAll(s, q, keys) && envelope.attempt == 1
    ensures ShowsAll(After(s, Push(envelope, at)), Pushed(q, envelope, at), keys)
    ensures pusher in s.pushers && s.pushers[pusher] == Adding(envelope) ==>
              Enabled(After(s, AddEntry(pusher)), SaveQueued(pusher, at))
              && ShowsAll(After(After(s, AddEntry(pusher)), SaveQueued(pusher, at)), Pushed(q, envelope, at), keys)
  {
  }

  lemma PromotionDrops(s: State, q: Store, keys: set<string>, job: JobId)
    requires ShowsAll(s, q, keys) && job in s.board.delayed
    ensures ShowsAll(s.(board := s.board.(delayed := s.board.delayed - {job})), q.(delayed := q.delayed - {job}), keys)
  {
    assert (q.delayed - {job}).Keys == q.delayed.Keys - {job};
  }

  lemma PushShows(s: State, q: Store, keys: set<string>, envelope: Envelope, at: Time)
    requires ShowsAll(s, q, keys)
    ensures ShowsAll(PushedAt(s, s.board, envelope, at), Pushed(q, envelope, at), keys)
  {
  }

  /** One promotion is the protocol's promotion. */
  lemma PromotionIsAStep(s: State, q: Store, keys: set<string>, job: JobId, at: Time)
    requires ShowsAll(s, q, keys) && job in s.board.delayed
    ensures ShowsAll(After(s, Promote(job, at)), Promoted(q, job, at), keys)
  {
    PromotionDrops(s, q, keys, job);
    if MayPromote(s.board, job) {
      var b := s.board.(delayed := s.board.delayed - {job});
      PushShows(s.(board := b), q.(delayed := q.delayed - {job}), keys, NextAttempt(s.board.records[job]), at);
    }
    hide ShowsAll, Pushed, NextAttempt;
    assert Shows(s.board, q, keys) by { ShowsBoard(s, q, keys); }
  }

  lemma ShowsBoard(s: State, q: Store, keys: set<string>)
    requires ShowsAll(s, q, keys)
    ensures Shows(s.board, q, keys)
  {
  }

  /** The writes of a promoter that nothing interrupts make what the promotion makes. */
  lemma PromotionInWrites(s: State, pusher: PusherId, job: JobId, at: Time)
    requires job in s.board.delayed && pusher !in s.pushers
    ensures var whole := After(s, Promote(job, at));
      var loaded := After(After(s, Remove(pusher, job)), Load(pusher));
      if loaded.pushers[pusher].Over? then loaded == whole.(pushers := loaded.pushers)
      else Enabled(loaded, AddEntry(pusher))
           && var added := After(loaded, AddEntry(pusher));
              Enabled(added, SaveQueued(pusher, at))
              && var saved := After(added, SaveQueued(pusher, at));
                 saved == whole.(pushers := saved.pushers)
  {
  }

  // ----- promotions -----

  /** Promotions leave the jobs they have not reached on the schedule. */
  lemma {:induction false} StillScheduled(q: Store, due: seq<JobId>, limit: nat, now: Time, n: nat)
    requires IsEarliestDue(q, due, limit, now) && n < |due|
    ensures forall k :: n <= k < |due| ==> due[k] in PromotedFirst(q, due, now, n).delayed
    decreases n
  {
    if n > 0 {
      StillScheduled(q, due, limit, now, n - 1);
    }
  }

  /** A promotion of due jobs, up to any point of its loop, is as many promotions of the protocol in that order. */
  lemma {:induction false} PromoteDueIsARun(states: seq<State>, steps: seq<Step>, q: Store, keys: set<string>,
                                            due: seq<JobId>, limit: nat, now: Time, n: nat)
    returns (states': seq<State>, steps': seq<Step>)
    requires IsExecution(states, steps) && |states| == |steps| + 1 && ShowsAll(states[|steps|], q, keys)
    requires IsEarliestDue(q, due, limit, now) && n <= |due|
    ensures IsExecution(states', steps') && states <= states' && |states'| == |steps'| + 1
    ensures steps' == steps + seq(n, k requires 0 <= k < n => Promote(due[k], now))
    ensures ShowsAll(states'[|steps'|], PromotedFirst(q, due, now, n), keys)
    decreases n
  {
    hide IsExecution, ShowsAll, Promoted, IsEarliestDue, After;
    if n == 0 {
      states', steps' := states, steps;
    } else {
      states', steps' := PromoteDueIsARun(states, steps, q, keys, due, limit, now, n - 1);
      StillScheduled(q, due, limit, now, n - 1);
      var s, job := states'[|steps'|], due[n - 1];
      ShowsSchedule(s, PromotedFirst(q, due, now, n - 1), keys, job);
      PromotionIsAStep(s, PromotedFirst(q, due, now, n - 1), keys, job, now);
      states', steps' := Go(states', steps', Promote(job, now), After(s, Promote(job, now)));
    }
  }

  lemma ShowsSchedule(s: State, q: Store, keys: set<string>, job: JobId)
    requires ShowsAll(s, q, keys) && job in q.delayed
    ensures job in s.board.delayed
  {
  }

  // ----- deliveries of a claim or a takeover -----

  /** The ids from `first` on are free for `n` new deliveries. */
  predicate AreFree(deliveries: map<DeliveryId, Delivery>, first: DeliveryId, n: nat) {
    forall d <- deliveries :: !(first <= d < first + n)
  }

  predicate IsGiven(deliveries: map<DeliveryId, Delivery>, id: DeliveryId, job: ClaimedJob) {
    id in deliveries && deliveries[id] == Delivery(job.entry, job.envelope, 0, Given)
  }

  /** New deliveries from `first` on are those of the jobs a call returned, in order; the others stay. */
  predicate Gives(before: map<DeliveryId, Delivery>, after: map<DeliveryId, Delivery>, first: DeliveryId,
                  claimed: seq<ClaimedJob>)
  {
    (forall d <- before :: d in after && after[d] == before[d])
    && (forall k :: 0 <= k < |claimed| ==> IsGiven(after, first + k, claimed[k]))
    && forall d <- after :: d in before || first <= d < first + |claimed|
  }

  lemma GivesKeeps(before: map<DeliveryId, Delivery>, after: map<DeliveryId, Delivery>, first: DeliveryId,
                   claimed: seq<ClaimedJob>, d: DeliveryId)
    requires Gives(before, after, first, claimed) && d in before
    ensures d in after && after[d] == before[d]
  {
  }

  lemma GivesOneMore(before: map<DeliveryId, Delivery>, after: map<DeliveryId, Delivery>, first: DeliveryId,
                     claimed: seq<ClaimedJob>, job: ClaimedJob)
    requires Gives(before, after, first, claimed) && AreFree(before, first, |claimed| + 1)
    ensures first + |claimed| !in after
    ensures Gives(before, after[first + |claimed| := Delivery(job.entry, job.envelope, 0, Given)], first,
                  claimed + [job])
  {
    var n, all := |claimed|, claimed + [job];
    assert first + n !in before;
    var more := after[first + n := Delivery(job.entry, job.envelope, 0, Given)];
    forall k | 0 <= k < |all| ensures IsGiven(more, first + k, all[k]) {
      if k < n {
        assert all[k] == claimed[k] && IsGiven(after, first + k, claimed[k]);
      }
    }
    forall d | d in before ensures d in more && more[d] == before[d] {
      GivesKeeps(before, after, first, claimed, d);
    }
  }

  predicate AllParse(entries: seq<Option<Envelope>>) {
    forall k :: 0 <= k < |entries| ==> entries[k].Some?
  }

  lemma NoneIsMalformed(entries: seq<Option<Envelope>>, ids: seq<EntryId>)
    requires AllParse(entries) && Within(ids, |entries|)
    ensures Malformed(entries, ids) == {}
  {
  }

  lemma OneMoreWellFormed(entries: seq<Option<Envelope>>, ids: seq<EntryId>, e: EntryId)
    requires AllParse(entries) && Within(ids, |entries|) && e < |entries|
    ensures Within(ids + [e], |entries|)
    ensures WellFormed(entries, ids + [e]) == WellFormed(entries, ids) + [ClaimedJob(e, entries[e].value)]
  {
    assert (ids + [e])[..|ids|] == ids;
  }

  /** An entry given to a consumer. */
  function Held(q: Store, e: EntryId, consumer: string, now: Time): Store {
    q.(pending := q.pending[e := Holding(consumer, now)])
  }

  function Holdings(ids: seq<EntryId>, h: Holding): map<EntryId, Holding> {
    map e | e in ids :: h
  }

  lemma GivenIs(q: Store, ids: seq<EntryId>, consumer: string, now: Time)
    requires AllParse(q.entries) && Within(ids, |q.entries|)
    ensures JobQueue.Given(q, ids, consumer, now) == q.(pending := q.pending + Holdings(ids, Holding(consumer, now)))
  {
    NoneIsMalformed(q.entries, ids);
    hide Malformed, AllParse;
    var all := q.pending + Holdings(ids, Holding(consumer, now));
    assert all - {} == all;
  }

  lemma HoldingsGrow(pending: map<EntryId, Holding>, ids: seq<EntryId>, e: EntryId, h: Holding)
    ensures pending + Holdings(ids + [e], h) == (pending + Holdings(ids, h))[e := h]
  {
  }

  lemma GivenOneMore(q: Store, ids: seq<EntryId>, e: EntryId, consumer: string, now: Time)
    requires AllParse(q.entries) && Within(ids, |q.entries|) && e < |q.entries|
    ensures Within(ids + [e], |q.entries|)
    ensures JobQueue.Given(q, ids + [e], consumer, now) == Held(JobQueue.Given(q, ids, consumer, now), e, consumer, now)
  {
    hide JobQueue.Given, AllParse, Holdings;
    assert Within(ids + [e], |q.entries|);
    GivenIs(q, ids, consumer, now);
    GivenIs(q, ids + [e], consumer, now);
    HoldingsGrow(q.pending, ids, e, Holding(consumer, now));
  }

  lemma GivenNone(q: Store, consumer: string, now: Time)
    ensures JobQueue.Given(q, [], consumer, now) == q
  {
    var none := map x: EntryId | x in [] :: Holding(consumer, now);
    assert none == map[] && q.pending + none - {} == q.pending;
    assert Malformed(q.entries, []) == {};
  }

  /** The ids of a read grow by the next entry while there is one. */
  lemma NextIdsGrow(q: Store, count: nat)
    requires q.delivered <= |q.entries|
    ensures q.delivered + count + 1 <= |q.entries| ==>
              |NextIds(q, count)| == count && NextIds(q, count + 1) == NextIds(q, count) + [q.delivered + count]
    ensures q.delivered + count + 1 > |q.entries| ==> NextIds(q, count + 1) == NextIds(q, count)
  {
  }

  lemma ClaimedOneMore(q: Store, count: nat, consumer: string, now: Time)
    requires AllParse(q.entries) && q.delivered + count + 1 <= |q.entries|
    ensures var e, before := q.delivered + count, Claimed(q, count, consumer, now);
      before.entries == q.entries && before.delivered == e
      && Claimed(q, count + 1, consumer, now) == Held(before, e, consumer, now).(delivered := e + 1)
  {
    hide AllParse, NextIds, JobQueue.Given;
    NextIdsGrow(q, count);
    GivenOneMore(q, NextIds(q, count), q.delivered + count, consumer, now);
    GivenKeepsEntries(q, NextIds(q, count), consumer, now);
  }

  lemma ClaimedNoMore(q: Store, count: nat, consumer: string, now: Time)
    requires q.delivered <= |q.entries| < q.delivered + count + 1
    ensures Claimed(q, count + 1, consumer, now) == Claimed(q, count, consumer, now)
  {
    NextIdsGrow(q, count);
    hide NextIds, JobQueue.Given;
  }

  lemma GivenKeepsEntries(q: Store, ids: seq<EntryId>, consumer: string, now: Time)
    requires Within(ids, |q.entries|)
    ensures JobQueue.Given(q, ids, consumer, now).entries == q.entries
  {
  }

  lemma ShownParse(s: State, q: Store, keys: set<string>)
    requires ShowsAll(s, q, keys)
    ensures AllParse(q.entries) && |q.entries| == |s.entries| && q.delivered == s.delivered
    ensures forall e :: 0 <= e < |q.entries| ==> q.entries[e].value == s.entries[e]
  {
  }

  lemma DeliverShows(s: State, q: Store, keys: set<string>, id: DeliveryId, consumer: string, now: Time)
    requires ShowsAll(s, q, keys) && id !in s.deliveries && q.delivered < |q.entries|
    ensures Enabled(s, Deliver(id))
    ensures ShowsAll(After(s, Deliver(id)), Held(q, q.delivered, consumer, now).(delivered := q.delivered + 1), keys)
    ensures After(s, Deliver(id)).deliveries
         == s.deliveries[id := Delivery(q.delivered, q.entries[q.delivered].value, 0, Given)]
  {
  }

  lemma ReclaimShows(s: State, q: Store, keys: set<string>, id: DeliveryId, e: EntryId, consumer: string, now: Time)
    requires ShowsAll(s, q, keys) && id !in s.deliveries && e in q.pending && e < |q.entries|
    ensures Enabled(s, Reclaim(id, e))
    ensures ShowsAll(After(s, Reclaim(id, e)), Held(q, e, consumer, now), keys)
    ensures After(s, Reclaim(id, e)).deliveries == s.deliveries[id := Delivery(e, q.entries[e].value, 0, Given)]
  {
  }

  /** What a claim of `count` entries has done to the state it began in. */
  predicate HasClaimed(s: State, t: State, q: Store, keys: set<string>, first: DeliveryId, count: nat,
                       consumer: string, now: Time)
  {
    q.delivered <= |q.entries| && ShowsAll(t, Claimed(q, count, consumer, now), keys)
    && |WellFormed(q.entries, NextIds(q, count))| == |NextIds(q, count)|
    && Gives(s.deliveries, t.deliveries, first, WellFormed(q.entries, NextIds(q, count)))
  }

  lemma OneMoreClaimed(s: State, t: State, q: Store, keys: set<string>, first: DeliveryId, count: nat,
                       consumer: string, now: Time)
    requires HasClaimed(s, t, q, keys, first, count, consumer, now) && AreFree(s.deliveries, first, count + 1)
    requires AllParse(q.entries)
    ensures q.delivered + count + 1 > |q.entries| ==> HasClaimed(s, t, q, keys, first, count + 1, consumer, now)
    ensures q.delivered + count + 1 <= |q.entries| ==>
              Enabled(t, Deliver(first + count))
              && HasClaimed(s, After(t, Deliver(first + count)), q, keys, first, count + 1, consumer, now)
  {
    hide ShowsAll, After, Enabled, AreFree, Gives, NextIds, Claimed, WellFormed, Held;
    NextIdsGrow(q, count);
    if q.delivered + count + 1 <= |q.entries| {
      var e, claimed := q.delivered + count, WellFormed(q.entries, NextIds(q, count));
      ClaimedOneMore(q, count, consumer, now);
      OneMoreWellFormed(q.entries, NextIds(q, count), e);
      GivesOneMore(s.deliveries, t.deliveries, first, claimed, ClaimedJob(e, q.entries[e].value));
      DeliverShows(t, Claimed(q, count, consumer, now), keys, first + count, consumer, now);
    } else {
      ClaimedNoMore(q, count, consumer, now);
    }
  }

  lemma NothingIsClaimed(s: State, q: Store, keys: set<string>, first: DeliveryId, consumer: string, now: Time)
    requires q.delivered <= |q.entries| && ShowsAll(s, q, keys)
    ensures HasClaimed(s, s, q, keys, first, 0, consumer, now)
  {
    hide ShowsAll;
    assert NextIds(q, 0) == [];
    GivenNone(q, consumer, now);
  }

  /** A claim is as many deliveries of the protocol as it reads entries, of exactly the jobs it returns, in order. */
  lemma {:induction false} ClaimIsARun(states: seq<State>, steps: seq<Step>, q: Store, keys: set<string>,
                                       first: DeliveryId, count: nat, consumer: string, now: Time)
    returns (states': seq<State>, steps': seq<Step>)
    requires IsExecution(states, steps) && |states| == |steps| + 1 && ShowsAll(states[|steps|], q, keys)
    requires q.delivered <= |q.entries| && AreFree(states[|steps|].deliveries, first, count)
    ensures IsExecution(states', steps') && states <= states' && |states'| == |steps'| + 1
    ensures steps' == steps + seq(|NextIds(q, count)|, k requires 0 <= k => Deliver(first + k))
    ensures HasClaimed(states[|steps|], states'[|steps'|], q, keys, first, count, consumer, now)
    decreases count
  {
    hide IsExecution, ShowsAll, After, Enabled, AreFree, AllParse, HasClaimed;
    if count == 0 {
      states', steps' := states, steps;
      NothingIsClaimed(states[|steps|], q, keys, first, consumer, now);
    } else {
      FewerAreFree(states[|steps|].deliveries, first, count - 1);
      states', steps' := ClaimIsARun(states, steps, q, keys, first, count - 1, consumer, now);
      ShownParse(states[|steps|], q, keys);
      NextIdsGrow(q, count - 1);
      var s, step := states'[|steps'|], Deliver(first + count - 1);
      OneMoreClaimed(states[|steps|], s, q, keys, first, count - 1, consumer, now);
      if q.delivered + count <= |q.entries| {
        states', steps' := Go(states', steps', step, After(s, step));
      }
    }
  }

  // ----- takeovers -----

  lemma IdleArePending(q: Store, ids: seq<EntryId>, minIdleMs: int, count: nat, now: Time)
    requires Consistent(q) && IsFirstIdle(q, ids, minIdleMs, count, now)
    ensures Within(ids, |q.entries|) && forall k :: 0 <= k < |ids| ==> ids[k] in q.pending
  {
  }

  lemma GivenStayPending(q: Store, ids: seq<EntryId>, consumer: string, now: Time)
    requires AllParse(q.entries) && Within(ids, |q.entries|)
    ensures var after := JobQueue.Given(q, ids, consumer, now);
      after.entries == q.entries && q.pending.Keys <= after.pending.Keys
  {
    NoneIsMalformed(q.entries, ids);
  }

  /** Taking over any pending entries. */
  lemma {:induction false} TakeoversExtend(states: seq<State>, steps: seq<Step>, q: Store, keys: set<string>,
                                           first: DeliveryId, ids: seq<EntryId>, consumer: string, now: Time)
    returns (states': seq<State>, steps': seq<Step>)
    requires IsExecution(states, steps) && |states| == |steps| + 1 && ShowsAll(states[|steps|], q, keys)
    requires Within(ids, |q.entries|) && (forall k :: 0 <= k < |ids| ==> ids[k] in q.pending)
    requires AreFree(states[|steps|].deliveries, first, |ids|)
    ensures IsExecution(states', steps') && states <= states' && |states'| == |steps'| + 1
    ensures steps' == steps + seq(|ids|, k requires 0 <= k < |ids| => Reclaim(first + k, ids[k]))
    ensures ShowsAll(states'[|steps'|], JobQueue.Given(q, ids, consumer, now), keys)
    ensures Gives(states[|steps|].deliveries, states'[|steps'|].deliveries, first, WellFormed(q.entries, ids))
    ensures |WellFormed(q.entries, ids)| == |ids|
    decreases |ids|
  {
    hide IsExecution, ShowsAll, After, Enabled, AreFree, Gives, AllParse, JobQueue.Given;
    GivenNone(q, consumer, now);
    if ids == [] {
      states', steps' := states, steps;
      GivesNothing(states[|steps|].deliveries, first);
    } else {
      var n := |ids| - 1;
      var before, e := ids[..n], ids[n];
      assert ids == before + [e];
      FewerAreFree(states[|steps|].deliveries, first, n);
      states', steps' := TakeoversExtend(states, steps, q, keys, first, before, consumer, now);
      ShownParse(states[|steps|], q, keys);
      GivenStayPending(q, before, consumer, now);
      GivenOneMore(q, before, e, consumer, now);
      OneMoreWellFormed(q.entries, before, e);
      var s := states'[|steps'|];
      GivesOneMore(states[|steps|].deliveries, s.deliveries, first, WellFormed(q.entries, before),
                   ClaimedJob(e, q.entries[e].value));
      ReclaimShows(s, JobQueue.Given(q, before, consumer, now), keys, first + n, e, consumer, now);
      states', steps' := Go(states', steps', Reclaim(first + n, e), After(s, Reclaim(first + n, e)));
    }
  }

  /** A takeover of stale entries is as many reclaims of the protocol, of exactly the jobs it returns, in order. */
  lemma ReclaimIsARun(states: seq<State>, steps: seq<Step>, q: Store, keys: set<string>, first: DeliveryId,
                      ids: seq<EntryId>, consumer: string, minIdleMs: int, count: nat, now: Time)
    returns (states': seq<State>, steps': seq<Step>)
    requires IsExecution(states, steps) && |states| == |steps| + 1 && ShowsAll(states[|steps|], q, keys)
    requires Consistent(q) && IsFirstIdle(q, ids, minIdleMs, count, now) && Within(ids, |q.entries|)
    requires AreFree(states[|steps|].deliveries, first, |ids|)
    ensures IsExecution(states', steps') && states <= states' && |states'| == |steps'| + 1
    ensures steps' == steps + seq(|ids|, k requires 0 <= k < |ids| => Reclaim(first + k, ids[k]))
    ensures ShowsAll(states'[|steps'|], JobQueue.Given(q, ids, consumer, now), keys)
    ensures Gives(states[|steps|].deliveries, states'[|steps'|].deliveries, first, WellFormed(q.entries, ids))
  {
    IdleArePending(q, ids, minIdleMs, count, now);
    hide IsExecution, ShowsAll, AreFree, Gives, IsFirstIdle, JobQueue.Given, WellFormed;
    states', steps' := TakeoversExtend(states, steps, q, keys, first, ids, consumer, now);
  }

  lemma GivesNothing(deliveries: map<DeliveryId, Delivery>, first: DeliveryId)
    ensures Gives(deliveries, deliveries, first, [])
  {
  }

  lemma FewerAreFree(deliveries: map<DeliveryId, Delivery>, first: DeliveryId, n: nat)
    requires AreFree(deliveries, first, n + 1)
    ensures AreFree(deliveries, first, n)
  {
  }
}
