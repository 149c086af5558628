/**
 * The outbox table and its statements. Each function is one atomic SQL statement (the claim is the
 * update together with the select keyed by its fresh token); the store class runs them.
 */
module OutboxRows {
  import opened Outcome

  type RowId = nat
  type ClaimId = nat
  type Time = int

  datatype Event = Event(eventId: string, eventType: string, eventVersion: int, payload: string)

  datatype RowState = Pending | Publishing | Published | Retrying | Failed

  datatype Row = Row(
    event: Event,
    createdAt: Time,
    state: RowState,
    attemptCount: nat,
    lastAttemptAt: Option<Time>,
    lastFailure: Option<string>,
    publishedAt: Option<Time>,
    nextAttemptAt: Option<Time>,
    claimId: Option<ClaimId>)

  type Rows = map<RowId, Row>

  const RELEASED :=
    "Released after the publish visibility timeout: the previous attempt did not complete (possible duplicate delivery)."

  function NewRow(event: Event, createdAt: Time): Row {
    Row(event, createdAt, Pending, 0, None, None, None, None, None)
  }

  predicate Claimable(r: Row, now: Time) {
    (r.state == Pending || r.state == Retrying) && (r.nextAttemptAt.None? || r.nextAttemptAt.value <= now)
  }

  function Due(rows: Rows, now: Time): set<RowId> {
    set id | id in rows && Claimable(rows[id], now)
  }

  /** The order of the claim: oldest first, then by id. */
  predicate Older(rows: Rows, a: RowId, b: RowId) {
    a in rows && b in rows
    && (rows[a].createdAt < rows[b].createdAt || (rows[a].createdAt == rows[b].createdAt && a < b))
  }

  predicate Distinct<T(==)>(s: seq<T>) {
    forall i, j :: 0 <= i < j < |s| ==> s[i] != s[j]
  }

  /** `order` lists the due rows a claim takes: at most `limit`, oldest first, leaving only younger ones. */
  ghost predicate IsOldestDue(rows: Rows, order: seq<RowId>, limit: nat, now: Time) {
    Distinct(order) && |order| <= limit
    && (forall id <- order :: id in Due(rows, now))
    && (forall i, j :: 0 <= i < j < |order| ==> Older(rows, order[i], order[j]))
    && (forall id <- Due(rows, now) :: id !in order ==>
          |order| == limit && forall taken <- order :: Older(rows, taken, id))
  }

  function ClaimRow(r: Row, claimId: ClaimId, now: Time): Row {
    r.(state := Publishing, claimId := Some(claimId), attemptCount := r.attemptCount + 1, lastAttemptAt := Some(now))
  }

  function WithClaim(rows: Rows, order: seq<RowId>, claimId: ClaimId, now: Time): (r: Rows)
    ensures r.Keys == rows.Keys
  {
    map id | id in rows :: if id in order then ClaimRow(rows[id], claimId, now) else rows[id]
  }

  function PublishedRow(r: Row, publishedAt: Time): Row {
    r.(state := Published, publishedAt := Some(publishedAt), claimId := None, nextAttemptAt := None,
       lastFailure := None)
  }

  function RetryingRow(r: Row, failure: string, nextAttemptAt: Time): Row {
    r.(state := Retrying, lastFailure := Some(failure), nextAttemptAt := Some(nextAttemptAt), claimId := None)
  }

  function FailedRow(r: Row, failure: string): Row {
    r.(state := Failed, lastFailure := Some(failure), nextAttemptAt := None, claimId := None)
  }

  function RequeuedRow(r: Row): Row {
    r.(state := Pending, attemptCount := 0, lastFailure := None, nextAttemptAt := None, publishedAt := None,
       claimId := None)
  }

  /** An update of the one row with the given id; the mark statements match on the id alone. */
  function Update(rows: Rows, id: RowId, f: Row -> Row): Rows {
    if id in rows then rows[id := f(rows[id])] else rows
  }

  function WithPublished(rows: Rows, id: RowId, publishedAt: Time): Rows {
    Update(rows, id, r => PublishedRow(r, publishedAt))
  }

  function WithRetrying(rows: Rows, id: RowId, failure: string, nextAttemptAt: Time): Rows {
    Update(rows, id, r => RetryingRow(r, failure, nextAttemptAt))
  }

  function WithFailed(rows: Rows, id: RowId, failure: string): Rows {
    Update(rows, id, r => FailedRow(r, failure))
  }

  predicate Stale(r: Row, olderThan: Time) {
    r.state == Publishing && (r.lastAttemptAt.None? || r.lastAttemptAt.value <= olderThan)
  }

  function ReleasedRow(r: Row, maxAttempts: nat): Row {
    if r.attemptCount >= maxAttempts
    then r.(state := Failed, claimId := None, nextAttemptAt := None, lastFailure := Some(RELEASED))
    else r.(state := Retrying, claimId := None, nextAttemptAt := None, lastFailure := Some(RELEASED))
  }

  function WithReleased(rows: Rows, olderThan: Time, maxAttempts: nat): (r: Rows)
    ensures r.Keys == rows.Keys
  {
    map id | id in rows :: if Stale(rows[id], olderThan) then ReleasedRow(rows[id], maxAttempts) else rows[id]
  }

  function WithRequeued(rows: Rows, id: RowId): Rows {
    if id in rows && rows[id].state == Failed then rows[id := RequeuedRow(rows[id])] else rows
  }

  /** Whether the unique keys of the table admit a new row. */
  predicate Admissible(rows: Rows, id: RowId, event: Event) {
    id !in rows && forall other <- rows :: rows[other].event.eventId != event.eventId
  }

  // ----- the choice of the claim -----

  /** Every nonempty set of rows has an oldest one. */
  lemma {:induction false} OldestExists(rows: Rows, ids: set<RowId>) returns (oldest: RowId)
    requires ids != {} && ids <= rows.Keys
    ensures oldest in ids && forall id <- ids :: id == oldest || Older(rows, oldest, id)
    decreases ids
  {
    var id :| id in ids;
    oldest := id;
    if ids != {id} {
      var rest := OldestExists(rows, ids - {id});
      oldest := if Older(rows, id, rest) then id else rest;
      forall x | x in ids ensures x == oldest || Older(rows, oldest, x) {
        assert x == id || x in ids - {id};
      }
    }
  }

  function Exhausted(rows: Rows, olderThan: Time, maxAttempts: nat): set<RowId> {
    set id | id in rows && Stale(rows[id], olderThan) && rows[id].attemptCount >= maxAttempts
  }

  function Recoverable(rows: Rows, olderThan: Time, maxAttempts: nat): set<RowId> {
    set id | id in rows && Stale(rows[id], olderThan) && rows[id].attemptCount < maxAttempts
  }

  function ReleasedIn(rows: Rows, ids: set<RowId>, maxAttempts: nat): Rows {
    map id | id in rows :: if id in ids then ReleasedRow(rows[id], maxAttempts) else rows[id]
  }

  /** The rows the second update finds are the stale ones the first left, so the two together are one release. */
  lemma ReleaseInTwo(rows: Rows, olderThan: Time, maxAttempts: nat)
    ensures var first := ReleasedIn(rows, Exhausted(rows, olderThan, maxAttempts), maxAttempts);
      Recoverable(first, olderThan, maxAttempts) == Recoverable(rows, olderThan, maxAttempts)
      && ReleasedIn(first, Recoverable(rows, olderThan, maxAttempts), maxAttempts)
         == WithReleased(rows, olderThan, maxAttempts)
  {
  }

  lemma StaleInTwo(rows: Rows, olderThan: Time, maxAttempts: nat)
    ensures |Exhausted(rows, olderThan, maxAttempts)| + |Recoverable(rows, olderThan, maxAttempts)|
         == |set id | id in rows && Stale(rows[id], olderThan)|
  {
    var exhausted, recoverable := Exhausted(rows, olderThan, maxAttempts), Recoverable(rows, olderThan, maxAttempts);
    assert (set id | id in rows && Stale(rows[id], olderThan)) == exhausted + recoverable;
    assert exhausted !! recoverable;
  }

  /** A release row by row. */
  lemma ReleasedRowByRow(rows: Rows, olderThan: Time, maxAttempts: nat)
    ensures forall id <- rows ::
              var r := rows[id];
              WithReleased(rows, olderThan, maxAttempts)[id] ==
                if r.state == Publishing && (r.lastAttemptAt.None? || r.lastAttemptAt.value <= olderThan) then
                  Row(r.event, r.createdAt, if r.attemptCount < maxAttempts then Retrying else Failed, r.attemptCount,
                      r.lastAttemptAt, Some(RELEASED), r.publishedAt, None, None)
                else r
  {
  }

  lemma StaleAreReleased(rows: Rows, olderThan: Time, maxAttempts: nat)
    ensures (set id | id in rows && WithReleased(rows, olderThan, maxAttempts)[id] != rows[id])
         == (set id | id in rows && Stale(rows[id], olderThan))
  {
  }

  class DrizzleOutboxStore {
    var rows: Rows

    constructor ()
      ensures rows == map[]
    {
      rows := map[];
    }

    /** Inserts a fresh pending row; a second row for an id or an event is refused. */
    method Add(id: RowId, event: Event, createdAt: Time) returns (ok: bool)
      modifies this
      ensures ok == Admissible(old(rows), id, event)
      ensures rows == if ok then old(rows)[id := NewRow(event, createdAt)] else old(rows)
      ensures ok <==> id !in old(rows) && forall other <- old(rows) :: old(rows)[other].event.eventId != event.eventId
      ensures ok ==> rows[id] == Row(event, createdAt, Pending, 0, None, None, None, None, None)
    {
      ok := Admissible(rows, id, event);
      if ok {
        rows := rows[id := NewRow(event, createdAt)];
      }
    }

    /** Claims the oldest due rows under a fresh token and returns them oldest first. */
    method ClaimDue(claimId: ClaimId, limit: nat, now: Time) returns (order: seq<RowId>)
      requires forall id <- rows :: rows[id].claimId != Some(claimId)
      modifies this
      ensures IsOldestDue(old(rows), order, limit, now)
      ensures rows == WithClaim(old(rows), order, claimId, now)
      ensures forall id <- rows :: rows[id].claimId == Some(claimId) <==> id in order
      ensures |order| <= limit && rows.Keys == old(rows).Keys
      ensures forall id <- order ::
                id in rows
                && var r := old(rows)[id];
                   (r.state == Pending || r.state == Retrying)
                   && (r.nextAttemptAt.None? || r.nextAttemptAt.value <= now)
                   && rows[id] == Row(r.event, r.createdAt, Publishing, r.attemptCount + 1, Some(now), r.lastFailure,
                                      r.publishedAt, r.nextAttemptAt, Some(claimId))
      ensures forall id <- rows :: id !in order ==> rows[id] == old(rows)[id]
      ensures forall id <- rows ::
                id !in order && (rows[id].state == Pending || rows[id].state == Retrying)
                && (rows[id].nextAttemptAt.None? || rows[id].nextAttemptAt.value <= now) ==>
                  |order| == limit
                  && forall taken <- order ::
                       rows[taken].createdAt < rows[id].createdAt
                       || (rows[taken].createdAt == rows[id].createdAt && taken < id)
      ensures forall i, j :: 0 <= i < j < |order| ==>
                rows[order[i]].createdAt < rows[order[j]].createdAt
                || (rows[order[i]].createdAt == rows[order[j]].createdAt && order[i] < order[j])
    {
      var left := Due(rows, now);
      order := [];
      while |order| < limit && left != {}
        invariant Distinct(order) && |order| <= limit
        invariant forall id <- order :: id in Due(rows, now) && id !in left
        invariant left <= Due(rows, now) && forall id <- Due(rows, now) :: id in order || id in left
        invariant forall i, j :: 0 <= i < j < |order| ==> Older(rows, order[i], order[j])
        invariant forall taken <- order, id <- left :: Older(rows, taken, id)
        invariant rows == old(rows)
        decreases limit - |order|
      {
        ghost var oldest := OldestExists(rows, left);
        var next :| next in left && forall id <- left :: id == next || Older(rows, next, id);
        order := order + [next];
        left := left - {next};
      }
      rows := WithClaim(rows, order, claimId, now);
    }

    method MarkPublished(id: RowId, publishedAt: Time)
      modifies this
      ensures rows == WithPublished(old(rows), id, publishedAt)
      ensures id !in old(rows) ==> rows == old(rows)
      ensures id in old(rows) ==>
                var r := old(rows)[id];
                rows == old(rows)[id := Row(r.event, r.createdAt, Published, r.attemptCount, r.lastAttemptAt, None,
                                            Some(publishedAt), None, None)]
    {
      if id in rows {
        rows := rows[id := PublishedRow(rows[id], publishedAt)];
      }
    }

    method MarkRetrying(id: RowId, failure: string, nextAttemptAt: Time)
      modifies this
      ensures rows == WithRetrying(old(rows), id, failure, nextAttemptAt)
      ensures id !in old(rows) ==> rows == old(rows)
      ensures id in old(rows) ==>
                var r := old(rows)[id];
                rows == old(rows)[id := Row(r.event, r.createdAt, Retrying, r.attemptCount, r.lastAttemptAt,
                                            Some(failure), r.publishedAt, Some(nextAttemptAt), None)]
    {
      if id in rows {
        rows := rows[id := RetryingRow(rows[id], failure, nextAttemptAt)];
      }
    }

    method MarkFailed(id: RowId, failure: string)
      modifies this
      ensures rows == WithFailed(old(rows), id, failure)
      ensures id !in old(rows) ==> rows == old(rows)
      ensures id in old(rows) ==>
                var r := old(rows)[id];
                rows == old(rows)[id := Row(r.event, r.createdAt, Failed, r.attemptCount, r.lastAttemptAt,
                                            Some(failure), r.publishedAt, None, None)]
    {
      if id in rows {
        rows := rows[id := FailedRow(rows[id], failure)];
      }
    }

    /** Two updates in order: the spent rows fail, and the rest of the stale ones are put back in play. */
    method ReleaseStale(olderThan: Time, maxAttempts: nat) returns (released: nat)
      modifies this
      ensures rows == WithReleased(old(rows), olderThan, maxAttempts)
      ensures released == |set id | id in old(rows) && Stale(old(rows)[id], olderThan)|
      ensures released == |set id | id in rows && rows[id] != old(rows)[id]|
      ensures rows.Keys == old(rows).Keys
      ensures forall id <- rows ::
                var r := old(rows)[id];
                rows[id] ==
                  if r.state == Publishing && (r.lastAttemptAt.None? || r.lastAttemptAt.value <= olderThan) then
                    Row(r.event, r.createdAt, if r.attemptCount < maxAttempts then Retrying else Failed, r.attemptCount,
                        r.lastAttemptAt, Some(RELEASED), r.publishedAt, None, None)
                  else r
    {
      ReleaseInTwo(rows, olderThan, maxAttempts);
      StaleInTwo(rows, olderThan, maxAttempts);
      ReleasedRowByRow(rows, olderThan, maxAttempts);
      StaleAreReleased(rows, olderThan, maxAttempts);
      hide ReleasedIn, WithReleased;
      var exhausted := Exhausted(rows, olderThan, maxAttempts);
      rows := ReleasedIn(rows, exhausted, maxAttempts);
      var recoverable := Recoverable(rows, olderThan, maxAttempts);
      rows := ReleasedIn(rows, recoverable, maxAttempts);
      released := |exhausted| + |recoverable|;
    }

    method Requeue(id: RowId) returns (ok: bool)
      modifies this
      ensures ok <==> id in old(rows) && old(rows)[id].state == Failed
      ensures rows == WithRequeued(old(rows), id)
      ensures !ok ==> rows == old(rows)
      ensures ok ==>
                var r := old(rows)[id];
                rows == old(rows)[id := Row(r.event, r.createdAt, Pending, 0, r.lastAttemptAt, None, None, None, None)]
    {
      ok := id in rows && rows[id].state == Failed;
      if ok {
        rows := rows[id := RequeuedRow(rows[id])];
      }
    }
  }
}
