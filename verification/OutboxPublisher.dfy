/** One run of the outbox dispatcher: recover, claim, publish and settle a batch. */
module OutboxPublisher {
  import opened OutboxRows
  import opened Outcome
  import opened RetryPolicy

  const PUBLISHING_VISIBILITY_MS := 60_000

  datatype Config = Config(batchSize: nat, policy: Policy)

  datatype StreamEntry = StreamEntry(eventId: string, eventType: string, payload: string)

  /** What the transport answered; an error may hide an entry that was appended all the same. */
  datatype Answer = Accepted | Transient | Permanent

  /** Everything the environment decides about one attempt. */
  datatype Attempt = Attempt(answer: Answer, appended: bool, markFails: bool, failure: string, random: real)

  predicate Possible(a: Attempt) {
    (a.answer.Accepted? ==> a.appended) && 0.0 <= a.random < 1.0
  }

  datatype FailureReport = FailureReport(id: RowId, attempt: nat, outcome: RowState, failure: string)

  datatype Summary = Summary(
    released: nat, claimed: nat, published: nat, retrying: nat, failed: nat, failures: seq<FailureReport>)

  function EntryOf(event: Event): StreamEntry {
    StreamEntry(event.eventId, event.eventType, event.payload)
  }

  /** The next state of a claimed row after one attempt: exactly one of the three settlements. */
  function Settle(claimed: Row, a: Attempt, now: Time, policy: Policy): Row
    requires claimed.attemptCount >= 1 && Possible(a)
  {
    if a.answer.Accepted? && !a.markFails then PublishedRow(claimed, now)
    else if a.answer.Permanent? || claimed.attemptCount >= policy.maxAttempts then FailedRow(claimed, a.failure)
    else RetryingRow(claimed, a.failure, now + BackoffDelayMs(claimed.attemptCount, policy, a.random))
  }

  /** Rows a run may settle in turn: present, and claimed at least once. */
  predicate Settleable(rows: Rows, order: seq<RowId>, attempts: seq<Attempt>) {
    |order| <= |attempts| && (forall a <- attempts :: Possible(a))
    && forall id <- order :: id in rows && rows[id].attemptCount >= 1
  }

  /** How attempt `i` leaves its row. */
  function Settled(claimed: Rows, order: seq<RowId>, attempts: seq<Attempt>, now: Time, policy: Policy, i: nat): Row
    requires Settleable(claimed, order, attempts) && i < |order|
  {
    Settle(claimed[order[i]], attempts[i], now, policy)
  }

  /** The claimed table after its first `n` records are settled in turn. */
  function SettleFirst(claimed: Rows, order: seq<RowId>, attempts: seq<Attempt>, now: Time, policy: Policy,
                       n: nat): Rows
    requires Settleable(claimed, order, attempts) && n <= |order|
  {
    if n == 0 then claimed
    else
      SettleFirst(claimed, order, attempts, now, policy, n - 1)
        [order[n - 1] := Settled(claimed, order, attempts, now, policy, n - 1)]
  }

  /** The entries the first `n` attempts appended. */
  function Appended(claimed: Rows, order: seq<RowId>, attempts: seq<Attempt>, n: nat): seq<StreamEntry>
    requires Settleable(claimed, order, attempts) && n <= |order|
  {
    if n == 0 then []
    else Appended(claimed, order, attempts, n - 1)
         + if attempts[n - 1].appended then [EntryOf(claimed[order[n - 1]].event)] else []
  }

  /** How many of the first `n` attempts end in a state. */
  function CountIn(claimed: Rows, order: seq<RowId>, attempts: seq<Attempt>, now: Time, policy: Policy,
                   state: RowState, n: nat): nat
    requires Settleable(claimed, order, attempts) && n <= |order|
  {
    if n == 0 then 0
    else CountIn(claimed, order, attempts, now, policy, state, n - 1)
         + if Settled(claimed, order, attempts, now, policy, n - 1).state == state then 1 else 0
  }

  /** One report for each of the first `n` attempts that did not publish, in order. */
  function Reports(claimed: Rows, order: seq<RowId>, attempts: seq<Attempt>, now: Time, policy: Policy,
                   n: nat): seq<FailureReport>
    requires Settleable(claimed, order, attempts) && n <= |order|
  {
    if n == 0 then []
    else
      var r := Settled(claimed, order, attempts, now, policy, n - 1);
      Reports(claimed, order, attempts, now, policy, n - 1)
      + if r.state == Published then []
        else [FailureReport(order[n - 1], r.attemptCount, r.state, attempts[n - 1].failure)]
  }

  function Recovered(config: Config, before: Rows, now: Time): Rows {
    WithReleased(before, now - PUBLISHING_VISIBILITY_MS, config.policy.maxAttempts)
  }

  /** A batch: stale rows released, the oldest due ones claimed, and each of them settled in turn. */
  ghost predicate IsBatch(config: Config, before: Rows, after: Rows, now: Time, claimId: ClaimId,
                          order: seq<RowId>, attempts: seq<Attempt>) {
    var claimed := WithClaim(Recovered(config, before, now), order, claimId, now);
    IsOldestDue(Recovered(config, before, now), order, config.batchSize, now)
    && Settleable(claimed, order, attempts)
    && after == SettleFirst(claimed, order, attempts, now, config.policy, |order|)
  }

  class EventStream {
    var entries: seq<StreamEntry>

    constructor ()
      ensures entries == []
    {
      entries := [];
    }

    /** One append to the stream, which may be answered by an error whether or not it happened. */
    method Publish(event: Event, a: Attempt) returns (answer: Answer)
      modifies this
      ensures entries == old(entries) + if a.appended then [EntryOf(event)] else []
      ensures answer == a.answer
    {
      if a.appended {
        entries := entries + [EntryOf(event)];
      }
      answer := a.answer;
    }
  }

  class Publisher {
    const store: DrizzleOutboxStore
    const stream: EventStream
    const config: Config

    constructor (store: DrizzleOutboxStore, stream: EventStream, config: Config)
      ensures this.store == store && this.stream == stream && this.config == config
    {
      this.store := store;
      this.stream := stream;
      this.config := config;
    }

    /** One record: publish it, then mark it by what came back. */
    method PublishRecord(id: RowId, record: Row, a: Attempt, now: Time) returns (outcome: RowState)
      requires id in store.rows && store.rows[id] == record && record.attemptCount >= 1 && Possible(a)
      modifies store, stream
      ensures store.rows == old(store.rows)[id := Settle(record, a, now, config.policy)]
      ensures stream.entries == old(stream.entries) + if a.appended then [EntryOf(record.event)] else []
      ensures outcome == Settle(record, a, now, config.policy).state == store.rows[id].state
      ensures store.rows[id] ==
              if a.answer.Accepted? && !a.markFails then
                Row(record.event, record.createdAt, Published, record.attemptCount, record.lastAttemptAt, None,
                    Some(now), None, None)
              else if a.answer.Permanent? || record.attemptCount >= config.policy.maxAttempts then
                Row(record.event, record.createdAt, Failed, record.attemptCount, record.lastAttemptAt,
                    Some(a.failure), record.publishedAt, None, None)
              else
                Row(record.event, record.createdAt, Retrying, record.attemptCount, record.lastAttemptAt,
                    Some(a.failure), record.publishedAt,
                    Some(now + BackoffDelayMs(record.attemptCount, config.policy, a.random)), None)
      ensures var e := record.event;
        stream.entries ==
          old(stream.entries) + if a.appended then [StreamEntry(e.eventId, e.eventType, e.payload)] else []
    {
      var answer := stream.Publish(record.event, a);
      if answer.Accepted? && !a.markFails {
        store.MarkPublished(id, now);
        return Published;
      }
      var exhausted := record.attemptCount >= config.policy.maxAttempts;
      var permanent := answer.Permanent? || exhausted;
      if permanent {
        store.MarkFailed(id, a.failure);
        return Failed;
      }
      var delayMs := BackoffDelayMs(record.attemptCount, config.policy, a.random);
      store.MarkRetrying(id, a.failure, now + delayMs);
      outcome := Retrying;
    }

    /** Settles the claimed records in turn and accounts for each of them. */
    method SettleRecords(order: seq<RowId>, attempts: seq<Attempt>, now: Time)
      returns (published: nat, retrying: nat, failed: nat, failures: seq<FailureReport>)
      requires Settleable(store.rows, order, attempts) && Distinct(order)
      modifies store, stream
      ensures store.rows == SettleFirst(old(store.rows), order, attempts, now, config.policy, |order|)
      ensures stream.entries == old(stream.entries) + Appended(old(store.rows), order, attempts, |order|)
      ensures published == CountIn(old(store.rows), order, attempts, now, config.policy, Published, |order|)
      ensures retrying == CountIn(old(store.rows), order, attempts, now, config.policy, Retrying, |order|)
      ensures failures == Reports(old(store.rows), order, attempts, now, config.policy, |order|)
      ensures published + retrying + failed == |order|
    {
      hide Settle, Settleable;
      ghost var claimed := store.rows;
      published, retrying, failed, failures := 0, 0, 0, [];
      var i := 0;
      while i < |order|
        invariant 0 <= i <= |order|
        invariant store.rows == SettleFirst(claimed, order, attempts, now, config.policy, i)
        invariant stream.entries == old(stream.entries) + Appended(claimed, order, attempts, i)
        invariant published == CountIn(claimed, order, attempts, now, config.policy, Published, i)
        invariant retrying == CountIn(claimed, order, attempts, now, config.policy, Retrying, i)
        invariant published + retrying + failed == i
        invariant failures == Reports(claimed, order, attempts, now, config.policy, i)
      {
        SettleableAt(claimed, order, attempts, i);
        var id, a := order[i], attempts[i];
        UnsettledIsClaimed(claimed, order, attempts, now, config.policy, i);
        var record := store.rows[id];
        SettleKeepsCount(record, a, now, config.policy);
        var outcome := PublishRecord(id, record, a, now);
        if outcome == Published {
          published := published + 1;
        } else {
          if outcome == Retrying {
            retrying := retrying + 1;
          } else {
            failed := failed + 1;
          }
          failures := failures + [FailureReport(id, record.attemptCount, outcome, a.failure)];
        }
        i := i + 1;
      }
    }

    /** One run, with the environment's decisions about each attempt given in claim order. */
    method PublishBatch(now: Time, claimId: ClaimId, attempts: seq<Attempt>)
      returns (summary: Summary, order: seq<RowId>)
      requires |attempts| >= config.batchSize && forall a <- attempts :: Possible(a)
      requires forall id <- store.rows :: store.rows[id].claimId != Some(claimId)
      modifies store, stream
      ensures IsBatch(config, old(store.rows), store.rows, now, claimId, order, attempts)
      ensures var claimed := WithClaim(Recovered(config, old(store.rows), now), order, claimId, now);
        stream.entries == old(stream.entries) + Appended(claimed, order, attempts, |order|)
        && summary.claimed == |order| == summary.published + summary.retrying + summary.failed
        && summary.published == CountIn(claimed, order, attempts, now, config.policy, Published, |order|)
        && summary.retrying == CountIn(claimed, order, attempts, now, config.policy, Retrying, |order|)
        && summary.failures == Reports(claimed, order, attempts, now, config.policy, |order|)
      ensures summary.released ==
              |set id | id in old(store.rows) && Stale(old(store.rows)[id], now - PUBLISHING_VISIBILITY_MS)|
    {
      hide IsOldestDue, SettleFirst, Appended, CountIn, Reports;
      var count := store.ReleaseStale(now - PUBLISHING_VISIBILITY_MS, config.policy.maxAttempts);
      ghost var released := store.rows;
      order := store.ClaimDue(claimId, config.batchSize, now);
      ClaimIsSettleable(released, order, claimId, now, config.batchSize, attempts);
      var published, retrying, failed, failures := SettleRecords(order, attempts, now);
      summary := Summary(count, |order|, published, retrying, failed, failures);
    }
  }

  lemma ClaimIsSettleable(released: Rows, order: seq<RowId>, claimId: ClaimId, now: Time, limit: nat,
                          attempts: seq<Attempt>)
    requires IsOldestDue(released, order, limit, now) && |attempts| >= limit && forall a <- attempts :: Possible(a)
    ensures Settleable(WithClaim(released, order, claimId, now), order, attempts)
    ensures Distinct(order)
  {
  }

  lemma SettleableAt(claimed: Rows, order: seq<RowId>, attempts: seq<Attempt>, i: nat)
    requires Settleable(claimed, order, attempts) && i < |order|
    ensures i < |attempts| && Possible(attempts[i]) && order[i] in claimed && claimed[order[i]].attemptCount >= 1
  {
  }

  lemma SettleKeepsCount(r: Row, a: Attempt, now: Time, policy: Policy)
    requires r.attemptCount >= 1 && Possible(a)
    ensures Settle(r, a, now, policy).attemptCount == r.attemptCount
    ensures Settle(r, a, now, policy).state in {Published, Retrying, Failed}
  {
  }

  /** A record whose turn has not come is as it was claimed; so is every row outside the batch. */
  lemma {:induction false} UnsettledIsClaimed(claimed: Rows, order: seq<RowId>, attempts: seq<Attempt>, now: Time,
                                              policy: Policy, n: nat)
    requires Settleable(claimed, order, attempts) && n <= |order| && Distinct(order)
    ensures SettleFirst(claimed, order, attempts, now, policy, n).Keys == claimed.Keys
    ensures forall id <- claimed :: id !in order[..n] ==>
              SettleFirst(claimed, order, attempts, now, policy, n)[id] == claimed[id]
    ensures n < |order| ==> order[n] !in order[..n]
    decreases n
  {
    hide Settle;
    if n > 0 {
      UnsettledIsClaimed(claimed, order, attempts, now, policy, n - 1);
      assert order[..n] == order[..n - 1] + [order[n - 1]];
    }
  }

  lemma {:induction false} SettledStays(claimed: Rows, order: seq<RowId>, attempts: seq<Attempt>, now: Time,
                                        policy: Policy, n: nat, i: nat)
    requires Settleable(claimed, order, attempts) && i < n <= |order| && Distinct(order)
    ensures order[i] in SettleFirst(claimed, order, attempts, now, policy, n)
    ensures SettleFirst(claimed, order, attempts, now, policy, n)[order[i]]
            == Settled(claimed, order, attempts, now, policy, i)
    decreases n
  {
    hide Settled;
    if i < n - 1 {
      SettledStays(claimed, order, attempts, now, policy, n - 1, i);
    }
  }

  /**
   * A batch row by row: each claimed row ends in exactly one settlement of its own attempt, and every
   * other row is at most released.
   */
  lemma BatchRowByRow(config: Config, before: Rows, after: Rows, now: Time, claimId: ClaimId, order: seq<RowId>,
                      attempts: seq<Attempt>)
    requires IsBatch(config, before, after, now, claimId, order, attempts)
    ensures after.Keys == before.Keys && |order| <= |attempts|
    ensures forall i :: 0 <= i < |order| ==>
              order[i] in before && Possible(attempts[i])
              && after[order[i]] == Settle(ClaimRow(Recovered(config, before, now)[order[i]], claimId, now),
                                           attempts[i], now, config.policy)
    ensures forall id <- before :: id !in order ==> after[id] == Recovered(config, before, now)[id]
  {
    hide Settle;
    var claimed := WithClaim(Recovered(config, before, now), order, claimId, now);
    UnsettledIsClaimed(claimed, order, attempts, now, config.policy, |order|);
    assert order[..|order|] == order;
    forall i | 0 <= i < |order|
      ensures order[i] in before && after[order[i]] == Settled(claimed, order, attempts, now, config.policy, i)
    {
      SettledStays(claimed, order, attempts, now, config.policy, |order|, i);
    }
  }

  /** The entry, the report and the count of an attempt, in the order of the records. */
  lemma {:induction false} AccountedInOrder(claimed: Rows, order: seq<RowId>, attempts: seq<Attempt>, now: Time,
                                            policy: Policy, i: nat, n: nat)
    requires Settleable(claimed, order, attempts) && i < n <= |order|
    ensures var r, a := claimed[order[i]], attempts[i];
      var entries, reports := Appended(claimed, order, attempts, n), Reports(claimed, order, attempts, now, policy, n);
      var e, k := |Appended(claimed, order, attempts, i)|, |Reports(claimed, order, attempts, now, policy, i)|;
      var next := Settle(r, a, now, policy);
      (a.appended ==>
         e < |entries| && entries[e] == StreamEntry(r.event.eventId, r.event.eventType, r.event.payload))
      && (next.state != Published ==>
            k < |reports| && reports[k] == FailureReport(order[i], r.attemptCount, next.state, a.failure))
    decreases n
  {
    SettleKeepsCount(claimed[order[i]], attempts[i], now, policy);
    hide Settle;
    if i < n - 1 {
      AccountedInOrder(claimed, order, attempts, now, policy, i, n - 1);
    }
  }

  /** The attempts among the first `n` that appended an entry. */
  function Appending(attempts: seq<Attempt>, n: nat): set<nat>
    requires n <= |attempts|
  {
    set i: nat | i < n && attempts[i].appended
  }

  /** The attempts among the first `n` that leave their row in a state. */
  function EndingIn(claimed: Rows, order: seq<RowId>, attempts: seq<Attempt>, now: Time, policy: Policy,
                    state: RowState, n: nat): set<nat>
    requires Settleable(claimed, order, attempts) && n <= |order|
  {
    set i: nat | i < n && Settle(claimed[order[i]], attempts[i], now, policy).state == state
  }

  lemma AppendingGrows(attempts: seq<Attempt>, n: nat)
    requires n < |attempts|
    ensures |Appending(attempts, n + 1)| == |Appending(attempts, n)| + if attempts[n].appended then 1 else 0
  {
    assert n !in Appending(attempts, n);
    assert Appending(attempts, n + 1) == Appending(attempts, n) + if attempts[n].appended then {n} else {};
  }

  lemma EndingGrows(claimed: Rows, order: seq<RowId>, attempts: seq<Attempt>, now: Time, policy: Policy,
                    state: RowState, n: nat)
    requires Settleable(claimed, order, attempts) && n < |order|
    ensures |EndingIn(claimed, order, attempts, now, policy, state, n + 1)|
         == |EndingIn(claimed, order, attempts, now, policy, state, n)|
            + if Settled(claimed, order, attempts, now, policy, n).state == state then 1 else 0
  {
    hide Settle;
    var before := EndingIn(claimed, order, attempts, now, policy, state, n);
    assert n !in before;
    assert EndingIn(claimed, order, attempts, now, policy, state, n + 1)
        == before + if Settled(claimed, order, attempts, now, policy, n).state == state then {n} else {};
  }

  /** Every attempt is accounted for once: entries by what was appended, reports and counts by how rows ended. */
  lemma {:induction false} AllAreAccounted(claimed: Rows, order: seq<RowId>, attempts: seq<Attempt>, now: Time,
                                           policy: Policy, state: RowState, n: nat)
    requires Settleable(claimed, order, attempts) && n <= |order|
    ensures |Appended(claimed, order, attempts, n)| == |Appending(attempts, n)|
    ensures CountIn(claimed, order, attempts, now, policy, state, n)
         == |EndingIn(claimed, order, attempts, now, policy, state, n)|
    ensures |Reports(claimed, order, attempts, now, policy, n)|
         == n - CountIn(claimed, order, attempts, now, policy, Published, n)
    decreases n
  {
    hide Settled, EndingIn, Appending, Settleable;
    if n > 0 {
      AllAreAccounted(claimed, order, attempts, now, policy, state, n - 1);
      SettleableAt(claimed, order, attempts, n - 1);
      AppendingGrows(attempts, n - 1);
      EndingGrows(claimed, order, attempts, now, policy, state, n - 1);
    } else {
      NoneAreAccounted(claimed, order, attempts, now, policy, state);
    }
  }

  lemma NoneAreAccounted(claimed: Rows, order: seq<RowId>, attempts: seq<Attempt>, now: Time, policy: Policy,
                         state: RowState)
    requires Settleable(claimed, order, attempts)
    ensures Appending(attempts, 0) == {} && EndingIn(claimed, order, attempts, now, policy, state, 0) == {}
  {
  }

  /** Which rows a batch claims and what it does to the others, in their fields. */
  lemma BatchChooses(config: Config, before: Rows, after: Rows, now: Time, claimId: ClaimId, order: seq<RowId>,
                     attempts: seq<Attempt>, id: RowId)
    requires IsBatch(config, before, after, now, claimId, order, attempts) && id in before
    ensures id in after
    ensures var r, max := before[id], config.policy.maxAttempts;
      var abandoned := r.state == Publishing && (r.lastAttemptAt.None? || r.lastAttemptAt.value <= now - 60_000);
      var waiting :=
        (r.state == Pending || r.state == Retrying) && (r.nextAttemptAt.None? || r.nextAttemptAt.value <= now);
      var eligible := waiting || (abandoned && r.attemptCount < max);
      (id in order ==> eligible)
      && (id !in order && eligible ==> |order| == config.batchSize)
      && (id !in order && !abandoned ==> after[id] == r)
      && (id !in order && abandoned ==>
            after[id] == Row(r.event, r.createdAt, if r.attemptCount < max then Retrying else Failed, r.attemptCount,
                             r.lastAttemptAt, Some(RELEASED), r.publishedAt, None, None))
  {
    BatchRowByRow(config, before, after, now, claimId, order, attempts);
    ReleasedRowByRow(before, now - 60_000, config.policy.maxAttempts);
    ChosenAreDue(config, before, after, now, claimId, order, attempts, id);
    hide Settle, WithReleased, IsBatch;
  }

  lemma ChosenAreDue(config: Config, before: Rows, after: Rows, now: Time, claimId: ClaimId, order: seq<RowId>,
                     attempts: seq<Attempt>, id: RowId)
    requires IsBatch(config, before, after, now, claimId, order, attempts) && id in before
    ensures id in order ==> Claimable(Recovered(config, before, now)[id], now)
    ensures id !in order && Claimable(Recovered(config, before, now)[id], now) ==> |order| == config.batchSize
  {
    hide SettleFirst, Settleable, WithClaim, WithReleased;
    assert id in Due(Recovered(config, before, now), now) <==> Claimable(Recovered(config, before, now)[id], now);
  }

  /** How attempt `i` of a batch ends its row, in the row's fields. */
  lemma BatchEnds(config: Config, before: Rows, after: Rows, now: Time, claimId: ClaimId, order: seq<RowId>,
                  attempts: seq<Attempt>, i: nat)
    requires IsBatch(config, before, after, now, claimId, order, attempts) && i < |order|
    ensures i < |attempts| && order[i] in before && order[i] in after && Possible(attempts[i])
    ensures var r, was, a := after[order[i]], before[order[i]], attempts[i];
      var tried, published := was.attemptCount + 1, a.answer.Accepted? && !a.markFails;
      r.event == was.event && r.createdAt == was.createdAt
      && r.attemptCount == tried && r.lastAttemptAt == Some(now) && r.claimId == None
      && (published ==>
            r.state == Published && r.publishedAt == Some(now) && r.lastFailure == None && r.nextAttemptAt == None)
      && (!published ==> r.lastFailure == Some(a.failure))
      && (!published && (a.answer.Permanent? || tried >= config.policy.maxAttempts) ==>
            r.state == Failed && r.nextAttemptAt == None)
      && (!published && !a.answer.Permanent? && tried < config.policy.maxAttempts ==>
            r.state == Retrying && r.nextAttemptAt == Some(now + BackoffDelayMs(tried, config.policy, a.random)))
  {
    BatchRowByRow(config, before, after, now, claimId, order, attempts);
    ReleasedRowByRow(before, now - 60_000, config.policy.maxAttempts);
    var released := Recovered(config, before, now);
    SettledInFields(released[order[i]], claimId, attempts[i], now, config.policy);
    hide WithReleased, BackoffDelayMs, IsBatch, Settle, ClaimRow, Claimable;
  }

  lemma SettledInFields(was: Row, claimId: ClaimId, a: Attempt, now: Time, policy: Policy)
    requires Possible(a)
    ensures var r := Settle(ClaimRow(was, claimId, now), a, now, policy);
      var tried, published := was.attemptCount + 1, a.answer.Accepted? && !a.markFails;
      r.event == was.event && r.createdAt == was.createdAt
      && r.attemptCount == tried && r.lastAttemptAt == Some(now) && r.claimId == None
      && (published ==>
            r.state == Published && r.publishedAt == Some(now) && r.lastFailure == None && r.nextAttemptAt == None)
      && (!published ==> r.lastFailure == Some(a.failure))
      && (!published && (a.answer.Permanent? || tried >= policy.maxAttempts) ==>
            r.state == Failed && r.nextAttemptAt == None)
      && (!published && !a.answer.Permanent? && tried < policy.maxAttempts ==>
            r.state == Retrying && r.nextAttemptAt == Some(now + BackoffDelayMs(tried, policy, a.random)))
  {
    hide BackoffDelayMs;
  }

  // ----- draining -----

  predicate Terminal(r: Row) {
    r.state == Published || r.state == Failed
  }

  /** Attempts a row may still cost, at least one while it is not settled for good. */
  function Weight(r: Row, maxAttempts: nat): (w: nat)
    ensures w == 0 <==> r.state == Published || r.state == Failed
    ensures r.attemptCount < maxAttempts ==> w <= maxAttempts - r.attemptCount + 1
    ensures r.attemptCount >= maxAttempts ==> w <= 1
  {
    if Terminal(r) then 0
    else if r.attemptCount < maxAttempts then maxAttempts - r.attemptCount + 1
    else 1
  }

  ghost function Pick(ids: set<RowId>): RowId
    requires ids != {}
    ensures Pick(ids) in ids
  {
    var id :| id in ids;
    id
  }

  ghost function TotalWeight(rows: Rows, ids: set<RowId>, maxAttempts: nat): nat
    requires ids <= rows.Keys
    decreases ids
  {
    if ids == {} then 0
    else Weight(rows[Pick(ids)], maxAttempts) + TotalWeight(rows, ids - {Pick(ids)}, maxAttempts)
  }

  lemma {:induction false} WeightsFall(a: Rows, b: Rows, ids: set<RowId>, maxAttempts: nat)
    requires ids <= a.Keys && ids <= b.Keys
    requires forall id <- ids :: Weight(b[id], maxAttempts) <= Weight(a[id], maxAttempts)
    ensures TotalWeight(b, ids, maxAttempts) <= TotalWeight(a, ids, maxAttempts)
    ensures (exists id <- ids :: Weight(b[id], maxAttempts) < Weight(a[id], maxAttempts)) ==>
              TotalWeight(b, ids, maxAttempts) < TotalWeight(a, ids, maxAttempts)
    decreases ids
  {
    hide Weight;
    if ids != {} {
      WeightsFall(a, b, ids - {Pick(ids)}, maxAttempts);
    }
  }

  lemma {:induction false} NoWeightIsTerminal(rows: Rows, ids: set<RowId>, maxAttempts: nat)
    requires ids <= rows.Keys && TotalWeight(rows, ids, maxAttempts) == 0
    ensures forall id <- ids :: Terminal(rows[id])
    decreases ids
  {
    if ids != {} {
      NoWeightIsTerminal(rows, ids - {Pick(ids)}, maxAttempts);
    }
  }

  lemma {:induction false} TerminalHasNoWeight(rows: Rows, ids: set<RowId>, maxAttempts: nat)
    requires ids <= rows.Keys && forall id <- ids :: Terminal(rows[id])
    ensures TotalWeight(rows, ids, maxAttempts) == 0
    decreases ids
  {
    if ids != {} {
      TerminalHasNoWeight(rows, ids - {Pick(ids)}, maxAttempts);
    }
  }

  /** Late enough that no row waits: backoffs have elapsed and abandoned claims are past the timeout. */
  predicate Ready(rows: Rows, now: Time) {
    forall id <- rows ::
      (rows[id].state == Publishing ==> Stale(rows[id], now - PUBLISHING_VISIBILITY_MS))
      && (rows[id].state == Pending || rows[id].state == Retrying ==> Claimable(rows[id], now))
  }

  lemma SettleIsLighter(r: Row, claimId: ClaimId, a: Attempt, now: Time, policy: Policy)
    requires r.state == Pending || r.state == Retrying
    requires Possible(a)
    ensures Weight(Settle(ClaimRow(r, claimId, now), a, now, policy), policy.maxAttempts)
          < Weight(r, policy.maxAttempts)
  {
    hide BackoffDelayMs;
  }

  lemma ReleaseIsNotHeavier(r: Row, olderThan: Time, maxAttempts: nat)
    requires Stale(r, olderThan)
    ensures Weight(ReleasedRow(r, maxAttempts), maxAttempts) <= Weight(r, maxAttempts)
    ensures Terminal(ReleasedRow(r, maxAttempts)) ==>
              Weight(ReleasedRow(r, maxAttempts), maxAttempts) < Weight(r, maxAttempts)
  {
  }

  /** Every batch lowers the summed remaining budget while a row is unsettled, whatever the transport answers. */
  lemma BatchIsProgress(config: Config, before: Rows, after: Rows, now: Time, claimId: ClaimId, order: seq<RowId>,
                        attempts: seq<Attempt>)
    requires IsBatch(config, before, after, now, claimId, order, attempts)
    requires config.batchSize >= 1 && Ready(before, now)
    ensures after.Keys == before.Keys
    ensures (exists id <- before :: !Terminal(before[id])) ==>
              TotalWeight(after, before.Keys, config.policy.maxAttempts)
              < TotalWeight(before, before.Keys, config.policy.maxAttempts)
    ensures TotalWeight(after, before.Keys, config.policy.maxAttempts)
         <= TotalWeight(before, before.Keys, config.policy.maxAttempts)
  {
    var max := config.policy.maxAttempts;
    var released := Recovered(config, before, now);
    BatchRowByRow(config, before, after, now, claimId, order, attempts);
    forall id | id in before
      ensures Weight(after[id], max) <= Weight(before[id], max)
      ensures !Terminal(before[id]) && order == [] ==> Weight(after[id], max) < Weight(before[id], max)
    {
      BatchLowersRow(config, before, after, now, claimId, order, attempts, id);
    }
    if order != [] {
      BatchLowersRow(config, before, after, now, claimId, order, attempts, order[0]);
      assert order[0] in order;
    }
    WeightsFall(before, after, before.Keys, max);
  }

  lemma BatchLowersRow(config: Config, before: Rows, after: Rows, now: Time, claimId: ClaimId, order: seq<RowId>,
                       attempts: seq<Attempt>, id: RowId)
    requires IsBatch(config, before, after, now, claimId, order, attempts)
    requires config.batchSize >= 1 && Ready(before, now) && id in before && after.Keys == before.Keys
    ensures Weight(after[id], config.policy.maxAttempts) <= Weight(before[id], config.policy.maxAttempts)
    ensures id in order ==> Weight(after[id], config.policy.maxAttempts) < Weight(before[id], config.policy.maxAttempts)
    ensures !Terminal(before[id]) && order == [] ==>
              Weight(after[id], config.policy.maxAttempts) < Weight(before[id], config.policy.maxAttempts)
  {
    hide Weight, Settle;
    var max := config.policy.maxAttempts;
    var released := Recovered(config, before, now);
    BatchRowByRow(config, before, after, now, claimId, order, attempts);
    if Stale(before[id], now - PUBLISHING_VISIBILITY_MS) {
      ReleaseIsNotHeavier(before[id], now - PUBLISHING_VISIBILITY_MS, max);
    }
    if id in order {
      var i :| 0 <= i < |order| && order[i] == id;
      assert id in Due(released, now);
      SettleIsLighter(released[id], claimId, attempts[i], now, config.policy);
    } else if order == [] && !Terminal(before[id]) {
      assert id !in Due(released, now);
    }
  }

  /**
   * Enough batches, each run late enough, settle every row for good: as many as the summed remaining
   * budget of the first table are enough, however often the transport fails.
   */
  lemma {:induction false} BatchesDrain(config: Config, tables: seq<Rows>, times: seq<Time>, claims: seq<ClaimId>,
                                        orders: seq<seq<RowId>>, attempts: seq<seq<Attempt>>)
    requires config.batchSize >= 1
    requires |tables| >= 1 && |times| == |claims| == |orders| == |attempts| == |tables| - 1
    requires forall i :: 0 <= i < |times| ==>
               Ready(tables[i], times[i])
               && IsBatch(config, tables[i], tables[i + 1], times[i], claims[i], orders[i], attempts[i])
    requires TotalWeight(tables[0], tables[0].Keys, config.policy.maxAttempts) <= |times|
    ensures var last := tables[|tables| - 1];
      last.Keys == tables[0].Keys && forall id <- last :: last[id].state == Published || last[id].state == Failed
    decreases |tables|
  {
    hide IsBatch, Ready, Weight;
    var max := config.policy.maxAttempts;
    var first := tables[0];
    if |times| == 0 {
      NoWeightIsTerminal(first, first.Keys, max);
    } else {
      assert IsBatch(config, tables[0], tables[0 + 1], times[0], claims[0], orders[0], attempts[0]);
      BatchIsProgress(config, first, tables[1], times[0], claims[0], orders[0], attempts[0]);
      if forall id <- first :: Terminal(first[id]) {
        TerminalHasNoWeight(first, first.Keys, max);
      }
      BatchesDrain(config, tables[1..], times[1..], claims[1..], orders[1..], attempts[1..]);
    }
  }
}
