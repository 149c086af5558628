/**
 * The job queue: a stream with one consumer group and its pending list, the lifecycle records, and the
 * set of retries waiting for their backoff.
 */
module JobQueue {
  import opened JobRecords
  import opened Outcome

  /** A position of the stream. */
  type EntryId = nat

  /** Who an unacknowledged entry was last given to, and when. */
  datatype Holding = Holding(consumer: string, since: Time)

  datatype ClaimedJob = ClaimedJob(entry: EntryId, envelope: Envelope)

  /** The stored state. An entry that does not parse as an envelope is `None`. */
  datatype Store = Store(
    entries: seq<Option<Envelope>>,
    delivered: nat,
    pending: map<EntryId, Holding>,
    records: map<JobId, JobRecord>,
    delayed: map<JobId, Time>)

  predicate Consistent(q: Store) {
    q.delivered <= |q.entries| && forall e <- q.pending :: e < q.delivered
  }

  function Pushed(q: Store, envelope: Envelope, at: Time): Store {
    q.(entries := q.entries + [Some(envelope)], records := q.records[envelope.jobId := QueuedRecord(envelope, at)])
  }

  function Acked(q: Store, entry: EntryId): Store {
    q.(pending := q.pending - {entry})
  }

  function Saved(q: Store, record: JobRecord): Store {
    q.(records := q.records[record.envelope.jobId := record])
  }

  function Scheduled(q: Store, record: JobRecord, due: Time): Store {
    Saved(q, record).(delayed := q.delayed[record.envelope.jobId := due])
  }

  predicate Within(ids: seq<EntryId>, bound: nat) {
    forall i :: 0 <= i < |ids| ==> ids[i] < bound
  }

  /** The well-formed entries among some ids, in that order. */
  function WellFormed(entries: seq<Option<Envelope>>, ids: seq<EntryId>): (jobs: seq<ClaimedJob>)
    requires Within(ids, |entries|)
  {
    if ids == [] then []
    else
      var last := ids[|ids| - 1];
      WellFormed(entries, ids[..|ids| - 1])
      + if entries[last].Some? then [ClaimedJob(last, entries[last].value)] else []
  }

  function Malformed(entries: seq<Option<Envelope>>, ids: seq<EntryId>): set<EntryId>
    requires Within(ids, |entries|)
  {
    set e | e in ids && entries[e].None?
  }

  /** Entries handed to a consumer: held by it from now on, except malformed ones, which are dropped. */
  function Given(q: Store, ids: seq<EntryId>, consumer: string, now: Time): Store
    requires Within(ids, |q.entries|)
  {
    q.(pending := (q.pending + map e | e in ids :: Holding(consumer, now)) - Malformed(q.entries, ids))
  }

  /** The ids a read of new entries delivers: the next ones, at most `count`. */
  function NextIds(q: Store, count: nat): (ids: seq<EntryId>)
    requires q.delivered <= |q.entries|
    ensures forall i :: 0 <= i < |ids| ==> ids[i] == q.delivered + i < |q.entries|
  {
    seq(if |q.entries| - q.delivered <= count then |q.entries| - q.delivered else count, i => q.delivered + i)
  }

  function Claimed(q: Store, count: nat, consumer: string, now: Time): Store
    requires q.delivered <= |q.entries|
  {
    Given(q, NextIds(q, count), consumer, now).(delivered := q.delivered + |NextIds(q, count)|)
  }

  /** How many pending entries Redis examines, from the lowest up, for each one that `XAUTOCLAIM` is asked for. */
  const EXAMINED_PER_CLAIM := 10

  function PendingBelow(q: Store, e: EntryId): set<EntryId> {
    set p | p in q.pending && p < e
  }

  /** The idle ones among the pending entries that a takeover of `count` examines. */
  function Idle(q: Store, minIdleMs: int, count: nat, now: Time): set<EntryId> {
    set e | e in q.pending && |PendingBelow(q, e)| < EXAMINED_PER_CLAIM * count
            && now - q.pending[e].since >= minIdleMs
  }

  /** `ids` lists examined idle entries from the lowest up, at most `count` of them. */
  predicate IsFirstIdle(q: Store, ids: seq<EntryId>, minIdleMs: int, count: nat, now: Time) {
    |ids| <= count && (forall i :: 0 <= i < |ids| ==> ids[i] in Idle(q, minIdleMs, count, now))
    && (forall i, j :: 0 <= i < j < |ids| ==> ids[i] < ids[j])
    && (forall e <- Idle(q, minIdleMs, count, now) :: e !in ids ==>
          |ids| == count && forall i :: 0 <= i < |ids| ==> ids[i] < e)
  }

  function DueJobs(q: Store, now: Time): set<JobId> {
    set j | j in q.delayed && q.delayed[j] <= now
  }

  /** `due` lists scheduled jobs whose time has come, earliest first, at most `limit` of them. */
  predicate IsEarliestDue(q: Store, due: seq<JobId>, limit: nat, now: Time) {
    |due| <= limit && (forall i, j :: 0 <= i < j < |due| ==> due[i] != due[j])
    && (forall i :: 0 <= i < |due| ==> due[i] in DueJobs(q, now))
    && (forall i, j :: 0 <= i < j < |due| ==> q.delayed[due[i]] <= q.delayed[due[j]])
    && (forall job <- DueJobs(q, now) :: job !in due ==>
          |due| == limit && forall i :: 0 <= i < |due| ==> q.delayed[due[i]] <= q.delayed[job])
  }

  /** One promotion: the schedule entry goes, and a record still retrying is pushed as its next attempt. */
  function Promoted(q: Store, job: JobId, now: Time): Store {
    var removed := q.(delayed := q.delayed - {job});
    if job in q.records && q.records[job].status == Retrying then Pushed(removed, NextAttempt(q.records[job]), now)
    else removed
  }

  function PromotedFirst(q: Store, due: seq<JobId>, now: Time, n: nat): Store
    requires n <= |due|
  {
    if n == 0 then q else Promoted(PromotedFirst(q, due, now, n - 1), due[n - 1], now)
  }

  /** A nonempty set of entry ids has a lowest one. */
  lemma {:induction false} LowestExists(ids: set<EntryId>) returns (lowest: EntryId)
    requires ids != {}
    ensures lowest in ids && forall e <- ids :: lowest <= e
    decreases ids
  {
    lowest :| lowest in ids;
    if ids != {lowest} {
      var rest := LowestExists(ids - {lowest});
      var e := lowest;
      lowest := if e <= rest then e else rest;
      assert forall x <- ids :: x == e || x in ids - {e};
    }
  }

  lemma {:induction false} EarliestExists(q: Store, jobs: set<JobId>) returns (earliest: JobId)
    requires jobs != {} && jobs <= q.delayed.Keys
    ensures earliest in jobs && forall j <- jobs :: q.delayed[earliest] <= q.delayed[j]
    decreases jobs
  {
    earliest :| earliest in jobs;
    if jobs != {earliest} {
      var rest := EarliestExists(q, jobs - {earliest});
      var j := earliest;
      earliest := if q.delayed[j] <= q.delayed[rest] then j else rest;
      assert forall x <- jobs :: x == j || x in jobs - {j};
    }
  }

  /** The lowest `count` idle entries among those `XAUTOCLAIM` examines from the start of the pending list. */
  method FirstIdle(q: Store, minIdleMs: int, count: nat, now: Time) returns (ids: seq<EntryId>)
    ensures IsFirstIdle(q, ids, minIdleMs, count, now)
  {
    var left := Idle(q, minIdleMs, count, now);
    ids := [];
    while |ids| < count && left != {}
      invariant |ids| <= count && left <= Idle(q, minIdleMs, count, now)
      invariant forall i :: 0 <= i < |ids| ==> ids[i] in Idle(q, minIdleMs, count, now)
      invariant forall e <- Idle(q, minIdleMs, count, now) :: e in ids || e in left
      invariant forall i, j :: 0 <= i < j < |ids| ==> ids[i] < ids[j]
      invariant forall i, e | 0 <= i < |ids| && e in left :: ids[i] < e
      decreases count - |ids|
    {
      ghost var lowest := LowestExists(left);
      var e :| e in left && forall x <- left :: e <= x;
      ids := ids + [e];
      left := left - {e};
    }
  }

  /** The first `limit` scheduled jobs by due time, among those due, as `ZRANGEBYSCORE` lists them. */
  method EarliestDue(q: Store, limit: nat, now: Time) returns (due: seq<JobId>)
    ensures IsEarliestDue(q, due, limit, now)
  {
    var left := DueJobs(q, now);
    due := [];
    while |due| < limit && left != {}
      invariant |due| <= limit && left <= DueJobs(q, now)
      invariant forall i :: 0 <= i < |due| ==> due[i] in DueJobs(q, now) && due[i] !in left
      invariant forall job <- DueJobs(q, now) :: job in due || job in left
      invariant forall i, j :: 0 <= i < j < |due| ==> due[i] != due[j]
      invariant forall i, j :: 0 <= i < j < |due| ==> q.delayed[due[i]] <= q.delayed[due[j]]
      invariant forall i, job | 0 <= i < |due| && job in left :: q.delayed[due[i]] <= q.delayed[job]
      decreases limit - |due|
    {
      ghost var earliest := EarliestExists(q, left);
      var job :| job in left && forall x <- left :: q.delayed[job] <= q.delayed[x];
      due := due + [job];
      left := left - {job};
    }
  }

  lemma IdleMeans(q: Store, minIdleMs: int, count: nat, now: Time, e: EntryId)
    ensures e in Idle(q, minIdleMs, count, now) <==>
            e in q.pending && now - q.pending[e].since >= minIdleMs && |set p | p in q.pending && p < e| < 10 * count
  {
    assert PendingBelow(q, e) == set p | p in q.pending && p < e;
  }

  /** Which entries a takeover lists: idle long enough, with few enough pending below, the lowest first. */
  lemma FirstIdleMeans(q: Store, ids: seq<EntryId>, minIdleMs: int, count: nat, now: Time)
    requires IsFirstIdle(q, ids, minIdleMs, count, now)
    ensures |ids| <= count && forall i, j :: 0 <= i < j < |ids| ==> ids[i] < ids[j]
    ensures forall e <- ids ::
              e in q.pending && now - q.pending[e].since >= minIdleMs && |set p | p in q.pending && p < e| < 10 * count
    ensures forall e <- q.pending ::
              e !in ids && now - q.pending[e].since >= minIdleMs && |set p | p in q.pending && p < e| < 10 * count ==>
                |ids| == count && forall i :: 0 <= i < |ids| ==> ids[i] < e
  {
    hide Idle;
    forall e | e in ids
      ensures e in q.pending && now - q.pending[e].since >= minIdleMs && |set p | p in q.pending && p < e| < 10 * count
    {
      IdleMeans(q, minIdleMs, count, now, e);
    }
    forall e | e in q.pending && e !in ids && now - q.pending[e].since >= minIdleMs
               && |set p | p in q.pending && p < e| < 10 * count
      ensures |ids| == count && forall i :: 0 <= i < |ids| ==> ids[i] < e
    {
      assert PendingBelow(q, e) == set p | p in q.pending && p < e;
      IdleMeans(q, minIdleMs, count, now, e);
      assert e in Idle(q, minIdleMs, count, now);
    }
  }

  /** Which jobs a promotion lists: those whose time has come, and all of them unless the limit is reached. */
  lemma EarliestDueMeans(q: Store, due: seq<JobId>, limit: nat, now: Time)
    requires IsEarliestDue(q, due, limit, now)
    ensures |due| <= limit && forall i, j :: 0 <= i < j < |due| ==> due[i] != due[j]
    ensures forall i :: 0 <= i < |due| ==> due[i] in q.delayed && q.delayed[due[i]] <= now
    ensures forall i, j :: 0 <= i < j < |due| ==> q.delayed[due[i]] <= q.delayed[due[j]]
    ensures forall job <- q.delayed :: q.delayed[job] <= now && job !in due ==>
              |due| == limit && forall i :: 0 <= i < |due| ==> q.delayed[due[i]] <= q.delayed[job]
  {
    forall job | job in q.delayed && q.delayed[job] <= now && job !in due
      ensures |due| == limit && forall i :: 0 <= i < |due| ==> q.delayed[due[i]] <= q.delayed[job]
    {
      assert job in DueJobs(q, now);
    }
  }

  lemma NextIdsAre(q: Store, count: nat)
    requires q.delivered <= |q.entries|
    ensures var n := if |q.entries| - q.delivered <= count then |q.entries| - q.delivered else count;
      |NextIds(q, count)| == n && forall e: EntryId :: e in NextIds(q, count) <==> q.delivered <= e < q.delivered + n
  {
    var ids := NextIds(q, count);
    forall e: EntryId | q.delivered <= e < q.delivered + |ids| ensures e in ids {
      assert ids[e - q.delivered] == e;
    }
  }

  class RedisJobQueue {
    var entries: seq<Option<Envelope>>
    var delivered: nat
    var pending: map<EntryId, Holding>
    var records: map<JobId, JobRecord>
    var delayed: map<JobId, Time>

    constructor ()
      ensures State() == Store([], 0, map[], map[], map[])
    {
      entries, delivered, pending, records, delayed := [], 0, map[], map[], map[];
    }

    function State(): Store
      reads this
    {
      Store(entries, delivered, pending, records, delayed)
    }

    /** Appends the envelope and records the job as queued. */
    method Push(envelope: Envelope, now: Time)
      modifies this
      ensures State() == Pushed(old(State()), envelope, now)
      ensures entries == old(entries) + [Some(envelope)] && delivered == old(delivered) && pending == old(pending)
      ensures records == old(records)[envelope.jobId := JobRecord(envelope, Queued, now, None, None, None)]
      ensures delayed == old(delayed)
    {
      entries := entries + [Some(envelope)];
      SaveState(QueuedRecord(envelope, now));
    }

    /** Reads up to `count` new entries for a consumer. */
    method Claim(consumer: string, count: nat, now: Time) returns (claimed: seq<ClaimedJob>)
      requires Consistent(State())
      modifies this
      ensures State() == Claimed(old(State()), count, consumer, now)
      ensures claimed == WellFormed(old(entries), NextIds(old(State()), count))
      ensures entries == old(entries) && records == old(records) && delayed == old(delayed)
      ensures delivered == if |entries| - old(delivered) <= count then |entries| else old(delivered) + count
      ensures forall e: EntryId ::
                (e in pending <==> e in old(pending) || (old(delivered) <= e < delivered && entries[e].Some?))
                && (e in old(pending) ==> pending[e] == old(pending)[e])
                && (e in pending && e !in old(pending) ==> pending[e] == Holding(consumer, now))
    {
      var ids := NextIds(State(), count);
      NextIdsAre(State(), count);
      delivered := delivered + |ids|;
      claimed := ToClaimed(ids, consumer, now);
    }

    /** Hands entries to a consumer: malformed ones are acknowledged at once, the others come back parsed. */
    method ToClaimed(ids: seq<EntryId>, consumer: string, now: Time) returns (claimed: seq<ClaimedJob>)
      requires Within(ids, |entries|)
      modifies this
      ensures State() == Given(old(State()), ids, consumer, now)
      ensures claimed == WellFormed(old(entries), ids)
    {
      pending := pending + map e | e in ids :: Holding(consumer, now);
      claimed := [];
      var malformed: set<EntryId> := {};
      for i := 0 to |ids|
        invariant claimed == WellFormed(entries, ids[..i])
        invariant malformed == Malformed(entries, ids[..i])
      {
        assert ids[..i + 1][..i] == ids[..i];
        var e := ids[i];
        if entries[e].None? {
          malformed := malformed + {e};
        } else {
          claimed := claimed + [ClaimedJob(e, entries[e].value)];
        }
      }
      assert ids[..|ids|] == ids;
      pending := pending - malformed;
    }

    method Acknowledge(claimed: ClaimedJob)
      modifies this
      ensures State() == Acked(old(State()), claimed.entry)
      ensures pending == old(pending) - {claimed.entry}
      ensures entries == old(entries) && delivered == old(delivered)
      ensures records == old(records) && delayed == old(delayed)
    {
      pending := pending - {claimed.entry};
    }

    /** Takes over the lowest entries whose holder has been silent for `minIdleMs`. */
    method ReclaimStale(consumer: string, minIdleMs: int, count: nat, now: Time)
      returns (claimed: seq<ClaimedJob>, ids: seq<EntryId>)
      requires Consistent(State())
      modifies this
      ensures IsFirstIdle(old(State()), ids, minIdleMs, count, now)
      ensures Within(ids, |old(entries)|) && State() == Given(old(State()), ids, consumer, now)
      ensures claimed == WellFormed(old(entries), ids)
      ensures entries == old(entries) && delivered == old(delivered)
      ensures records == old(records) && delayed == old(delayed)
      ensures |ids| <= count && forall i, j :: 0 <= i < j < |ids| ==> ids[i] < ids[j]
      ensures forall e <- ids ::
                e in old(pending) && now - old(pending)[e].since >= minIdleMs
                && |set p | p in old(pending) && p < e| < 10 * count
                && (e in pending <==> entries[e].Some?) && (e in pending ==> pending[e] == Holding(consumer, now))
      ensures forall e <- old(pending) :: e !in ids ==>
                e in pending && pending[e] == old(pending)[e]
                && (now - pending[e].since >= minIdleMs && |set p | p in old(pending) && p < e| < 10 * count ==>
                      |ids| == count && forall i :: 0 <= i < |ids| ==> ids[i] < e)
      ensures pending.Keys <= old(pending).Keys
    {
      ids := FirstIdle(State(), minIdleMs, count, now);
      FirstIdleMeans(State(), ids, minIdleMs, count, now);
      hide IsFirstIdle;
      claimed := ToClaimed(ids, consumer, now);
    }

    method SaveState(record: JobRecord)
      modifies this`records
      ensures State() == Saved(old(State()), record)
      ensures records == old(records)[record.envelope.jobId := record]
    {
      records := records[record.envelope.jobId := record];
    }

    method LoadState(job: JobId) returns (record: Option<JobRecord>)
      ensures record == if job in records then Some(records[job]) else None
    {
      record := if job in records then Some(records[job]) else None;
    }

    method ScheduleRetry(record: JobRecord, delayMs: int, now: Time)
      modifies this
      ensures State() == Scheduled(old(State()), record, now + delayMs)
      ensures records == old(records)[record.envelope.jobId := record]
      ensures delayed == old(delayed)[record.envelope.jobId := now + delayMs]
      ensures entries == old(entries) && delivered == old(delivered) && pending == old(pending)
    {
      SaveState(record);
      delayed := delayed[record.envelope.jobId := now + delayMs];
    }

    /** Promotes the earliest due retries, one at a time. */
    method PromoteDue(limit: nat, now: Time) returns (promoted: nat, ghost due: seq<JobId>)
      modifies this
      ensures IsEarliestDue(old(State()), due, limit, now)
      ensures State() == PromotedFirst(old(State()), due, now, |due|)
      ensures |entries| == |old(entries)| + promoted
      ensures forall i :: 0 <= i < |due| ==> due[i] in old(delayed) && old(delayed)[due[i]] <= now
      ensures forall job <- old(delayed) :: old(delayed)[job] <= now && job !in due ==>
                |due| == limit && forall i :: 0 <= i < |due| ==> old(delayed)[due[i]] <= old(delayed)[job]
    {
      var found := EarliestDue(State(), limit, now);
      due := found;
      EarliestDueMeans(State(), due, limit, now);
      hide IsEarliestDue, Pushed, NextAttempt, QueuedRecord;
      promoted := 0;
      for i := 0 to |found|
        invariant State() == PromotedFirst(old(State()), found, now, i)
        invariant |entries| == |old(entries)| + promoted
      {
        var job := found[i];
        delayed := delayed - {job};
        var record := LoadState(job);
        if record.Some? && record.value.status == Retrying {
          Push(NextAttempt(record.value), now);
          promoted := promoted + 1;
        }
      }
    }
  }

  // ----- what claims and promotions achieve -----

  lemma {:induction false} WellFormedIsExact(entries: seq<Option<Envelope>>, ids: seq<EntryId>, e: EntryId)
    requires Within(ids, |entries|)
    ensures (exists k :: 0 <= k < |WellFormed(entries, ids)| && WellFormed(entries, ids)[k].entry == e)
            <==> e in ids && entries[e].Some?
    ensures forall k :: 0 <= k < |WellFormed(entries, ids)| ==>
              var job := WellFormed(entries, ids)[k]; job.entry in ids && entries[job.entry] == Some(job.envelope)
  {
    if ids != [] {
      var n := |ids| - 1;
      WellFormedIsExact(entries, ids[..n], e);
      var before := WellFormed(entries, ids[..n]);
      assert ids == ids[..n] + [ids[n]];
      assert forall k :: 0 <= k < |before| ==> WellFormed(entries, ids)[k] == before[k];
      if ids[n] == e && entries[e].Some? {
        assert WellFormed(entries, ids)[|before|].entry == e;
      }
    }
  }

  /**
   * A claim gives every well-formed entry it reads to its consumer and to no one else: none of them was
   * held before, each is held by the claimer afterwards, and the next claim starts past them.
   */
  lemma ClaimGivesOnce(q: Store, count: nat, consumer: string, now: Time)
    requires Consistent(q)
    ensures var after := Claimed(q, count, consumer, now);
      var claimed := WellFormed(q.entries, NextIds(q, count));
      Consistent(after)
      && (forall job <- claimed ::
            job.entry !in q.pending && q.delivered <= job.entry < after.delivered
            && job.entry in after.pending && after.pending[job.entry] == Holding(consumer, now)
            && q.entries[job.entry] == Some(job.envelope))
      && (forall e <- q.pending :: e in after.pending && after.pending[e] == q.pending[e])
      && (after.delivered < |q.entries| ==> |NextIds(q, count)| == count)
  {
    var ids := NextIds(q, count);
    var claimed := WellFormed(q.entries, ids);
    forall job | job in claimed ensures job.entry in ids && q.entries[job.entry] == Some(job.envelope) {
      var k :| 0 <= k < |claimed| && claimed[k] == job;
      WellFormedIsExact(q.entries, ids, job.entry);
    }
  }

  predicate Keyed(q: Store) {
    forall job <- q.records :: q.records[job].envelope.jobId == job
  }

  predicate MustPromote(q: Store, job: JobId) {
    job in q.records && q.records[job].status == Retrying
  }

  /** The entries a promotion of these jobs appends. */
  function NextEntries(q: Store, jobs: seq<JobId>): seq<Option<Envelope>> {
    if jobs == [] then []
    else
      var last := jobs[|jobs| - 1];
      NextEntries(q, jobs[..|jobs| - 1]) + if MustPromote(q, last) then [Some(NextAttempt(q.records[last]))] else []
  }

  /** What a promotion of the first `n` due jobs leaves. */
  predicate ArePromoted(q: Store, after: Store, jobs: seq<JobId>, now: Time) {
    after.delayed == q.delayed - (set job | job in jobs)
    && after.entries == q.entries + NextEntries(q, jobs)
    && after.records.Keys == q.records.Keys
    && (forall job <- q.records :: after.records[job] ==
          if job in jobs && MustPromote(q, job) then QueuedRecord(NextAttempt(q.records[job]), now) else q.records[job])
  }

  /**
   * Promotion job by job: each due job leaves the schedule; the ones still retrying are queued for their
   * next attempt, in order of their due times, and no other record changes.
   */
  lemma {:induction false} PromotionJobByJob(q: Store, due: seq<JobId>, now: Time, n: nat)
    requires Keyed(q) && n <= |due| && forall i, j :: 0 <= i < j < |due| ==> due[i] != due[j]
    ensures ArePromoted(q, PromotedFirst(q, due, now, n), due[..n], now)
    decreases n
  {
    if n > 0 {
      PromotionJobByJob(q, due, now, n - 1);
      OneMorePromoted(q, PromotedFirst(q, due, now, n - 1), due[..n - 1], due[n - 1], now);
      assert due[..n] == due[..n - 1] + [due[n - 1]];
    }
  }

  lemma OneMorePromoted(q: Store, before: Store, jobs: seq<JobId>, job: JobId, now: Time)
    requires Keyed(q) && job !in jobs && ArePromoted(q, before, jobs, now)
    ensures ArePromoted(q, Promoted(before, job, now), jobs + [job], now)
  {
    assert (jobs + [job])[..|jobs|] == jobs;
    assert q.delayed - (set j | j in jobs + [job]) == q.delayed - (set j | j in jobs) - {job};
    assert MustPromote(q, job) == MustPromote(before, job);
  }

  /** A promotion in fields: who leaves the schedule, what is queued for the next attempt, and what stays. */
  lemma PromotionInFields(q: Store, due: seq<JobId>, limit: nat, now: Time, job: JobId)
    requires Keyed(q) && IsEarliestDue(q, due, limit, now)
    ensures var after := PromotedFirst(q, due, now, |due|);
      (job in after.delayed <==> job in q.delayed && job !in due)
      && (job in after.delayed ==> after.delayed[job] == q.delayed[job])
      && (job in q.delayed && q.delayed[job] > now ==> job in after.delayed)
      && (job in after.records <==> job in q.records)
      && (job in q.records ==>
            var e := q.records[job].envelope;
            after.records[job] ==
              if job in due && q.records[job].status == Retrying then
                JobRecord(Envelope(e.jobId, e.jobType, e.version, e.payload, e.attempt + 1, e.maxAttempts,
                                   e.correlationId, e.companyId, e.createdAt, "retry"), Queued, now, None, None, None)
              else q.records[job])
      && (job in q.delayed && q.delayed[job] > now && job in q.records ==> after.records[job] == q.records[job])
  {
    PromotionJobByJob(q, due, now, |due|);
    assert due[..|due|] == due;
    EarliestDueMeans(q, due, limit, now);
    hide PromotedFirst, IsEarliestDue;
  }

  /** The promoted jobs are queued in the order of their due times, each as the next attempt of its record. */
  lemma {:induction false} PromotedInOrder(q: Store, jobs: seq<JobId>, i: nat)
    requires Keyed(q) && i < |jobs| && jobs[i] in q.records && q.records[jobs[i]].status == Retrying
    ensures var k, e := |NextEntries(q, jobs[..i])|, q.records[jobs[i]].envelope;
      k < |NextEntries(q, jobs)|
      && NextEntries(q, jobs)[k] ==
           Some(Envelope(e.jobId, e.jobType, e.version, e.payload, e.attempt + 1, e.maxAttempts, e.correlationId,
                         e.companyId, e.createdAt, "retry"))
    decreases |jobs|
  {
    var n := |jobs| - 1;
    if i < n {
      PromotedInOrder(q, jobs[..n], i);
      assert jobs[..n][..i] == jobs[..i];
    }
  }

  /** The places of the jobs among the first `n` that are still retrying. */
  function StillRetrying(q: Store, jobs: seq<JobId>, n: nat): set<nat>
    requires n <= |jobs|
  {
    set i: nat | i < n && jobs[i] in q.records && q.records[jobs[i]].status == Retrying
  }

  lemma StillRetryingGrows(q: Store, jobs: seq<JobId>, n: nat)
    requires n < |jobs|
    ensures |StillRetrying(q, jobs, n + 1)| == |StillRetrying(q, jobs, n)| + if MustPromote(q, jobs[n]) then 1 else 0
  {
    assert n !in StillRetrying(q, jobs, n);
    assert StillRetrying(q, jobs, n + 1) == StillRetrying(q, jobs, n) + if MustPromote(q, jobs[n]) then {n} else {};
  }

  /** As many entries are queued as jobs were still retrying. */
  lemma {:induction false} PromotedAreCounted(q: Store, jobs: seq<JobId>, n: nat)
    requires n <= |jobs|
    ensures |NextEntries(q, jobs[..n])| == |StillRetrying(q, jobs, n)|
    decreases n
  {
    hide MustPromote;
    if n > 0 {
      PromotedAreCounted(q, jobs, n - 1);
      hide StillRetrying;
      StillRetryingGrows(q, jobs, n - 1);
      assert jobs[..n][..n - 1] == jobs[..n - 1];
    }
  }
}
