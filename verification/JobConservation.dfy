/**
 * Conservation of jobs: when a push and a promotion are not interrupted and an entry is only taken over
 * from a dead delivery, a crash at any point of a dispatch loses nothing.
 */
module JobConservation {
  import opened JobDispatcher
  import opened JobProtocol
  import opened JobQueue
  import opened JobRecords
  import opened JobSafety

  predicate OwnerIsDead(s: State, entry: EntryId) {
    forall d <- s.deliveries :: s.deliveries[d].entry == entry ==> !Live(s.deliveries[d])
  }

  /** The steps of a system whose pushes and promotions are atomic and whose reclaims are right. */
  predicate Careful(s: State, step: Step) {
    match step
    case Push(_, _) => true
    case Promote(_, _) => true
    case Deliver(_) => true
    case Reclaim(_, entry) => OwnerIsDead(s, entry)
    case Act(_, _) => true
    case _ => false
  }

  predicate IsCarefulExecution(states: seq<State>, steps: seq<Step>) {
    IsExecution(states, steps) && forall i :: 0 <= i < |steps| ==> Careful(states[i], steps[i])
  }

  /** On the stream and not acknowledged: still to be delivered, or pending. */
  predicate Unacknowledged(s: State, entry: EntryId) {
    entry < |s.entries| && (entry >= s.delivered || entry in s.board.pending)
  }

  predicate OnStream(s: State, job: JobId) {
    exists e :: 0 <= e < |s.entries| && Unacknowledged(s, e) && s.entries[e].jobId == job
  }

  /** Where a job is while it is not lost. */
  predicate Kept(s: State, job: JobId) {
    job in s.board.records
    && (OnStream(s, job)
        || (s.board.records[job].status == Retrying && job in s.board.delayed)
        || IsTerminal(s.board.records[job]))
  }

  // ----- the invariant -----

  predicate OneLiveOwner(deliveries: map<DeliveryId, Delivery>) {
    forall a <- deliveries, b <- deliveries ::
      Live(deliveries[a]) && Live(deliveries[b]) && deliveries[a].entry == deliveries[b].entry ==> a == b
  }

  /**
   * A live delivery's entry is pending, unless a lost acknowledgement took effect and only the failed record
   * remains.
   */
  predicate EntryPends(b: Board, d: Delivery) {
    Live(d) ==>
      d.entry in b.pending || d.phase.Buried? || (d.phase.Broken? && d.phase.failure.category == Unknown)
  }

  /** The phases a live delivery can be in while the last record of its job, of this status, is its entry's. */
  predicate Fits(status: Status, phase: Phase) {
    match status
    case Queued => phase.Given?
    case Running =>
      phase.Given? || phase.Started? || phase.Executing? || phase.Releasing? || phase.Broken? || phase.Returned?
    case Retrying => phase.Given? || phase.Noted?
    case _ => true
  }

  predicate AllFit(s: State, entry: EntryId, status: Status) {
    forall d <- s.deliveries :: s.deliveries[d].entry == entry && Live(s.deliveries[d]) ==>
      Fits(status, s.deliveries[d].phase)
  }

  /** A job is followed by the entry behind its last record, until the record is terminal or waits in the schedule. */
  predicate Tracked(s: State, job: JobId) {
    job in s.board.records && job in s.board.writer
    && var entry := s.board.writer[job];
       var r := s.board.records[job];
       entry < |s.entries| && s.entries[entry].jobId == job
       && (IsTerminal(r) || (r.status == Retrying && job in s.board.delayed)
           || (Unacknowledged(s, entry) && AllFit(s, entry, r.status)))
  }

  predicate Conserved(s: State) {
    AllSound(s)
    && OneLiveOwner(s.deliveries)
    && (forall d <- s.deliveries :: EntryPends(s.board, s.deliveries[d]))
    && (forall job <- s.board.records :: Tracked(s, job))
  }

  lemma TrackedIsKept(s: State, job: JobId)
    requires Tracked(s, job)
    ensures Kept(s, job)
  {
  }

  // ----- the steps of a delivery -----

  /** Acting keeps a delivery's entry pending until it is acknowledged, and never revives it. */
  lemma ActKeepsPending(b: Board, d: Delivery, a: Action)
    requires CanAct(d, a) && EntryPends(b, d)
    ensures EntryPends(Acted(b, d, a), Advanced(b, d, a))
    ensures Live(Advanced(b, d, a)) ==> Live(d)
    ensures Live(d)
    ensures b.pending - {d.entry} <= Acted(b, d, a).pending <= b.pending
  {
  }

  lemma OwnersStayAlone(s: State, step: Step)
    requires Enabled(s, step) && Careful(s, step) && Conserved(s)
    ensures OneLiveOwner(After(s, step).deliveries)
  {
    hide Acted, Advanced, CanAct, RecordsSound, Tracked, EntriesSound, PusherSound;
    if step.Act? {
      ActKeepsEnvelope(s.board, s.deliveries[step.delivery], step.action);
      ActKeepsPending(s.board, s.deliveries[step.delivery], step.action);
    }
    if step.Deliver? {
      assert forall d <- s.deliveries :: DeliveryMatches(s, s.deliveries[d]);
    }
  }

  lemma EntriesStayPending(s: State, step: Step)
    requires Enabled(s, step) && Careful(s, step) && Conserved(s)
    ensures var t := After(s, step); forall d <- t.deliveries :: EntryPends(t.board, t.deliveries[d])
  {
    hide Acted, Advanced, CanAct, RecordsSound, Tracked, EntriesSound, PusherSound;
    if step.Act? {
      ActKeepsEnvelope(s.board, s.deliveries[step.delivery], step.action);
      ActKeepsPending(s.board, s.deliveries[step.delivery], step.action);
    }
  }

  predicate Writes(a: Action) {
    match a
    case SaveRunning(_) => true
    case SaveCompleted(_) => true
    case SaveCompletedFails(_, applied, _) => applied
    case SaveRetrying(_) => true
    case SaveFailed(_) => true
    case _ => false
  }

  /** The record a writing step leaves is its own entry's, and its delivery is in a phase that fits it. */
  lemma WriteFits(b: Board, d: Delivery, a: Action)
    requires CanAct(d, a) && Writes(a) && EntryPends(b, d)
    ensures var after := Acted(b, d, a); var job := d.envelope.jobId;
      job in after.records && after.writer == b.writer[job := d.entry] && after.delayed == b.delayed
      && after.pending == b.pending
      && (IsTerminal(after.records[job])
          || (d.entry in b.pending && Fits(after.records[job].status, Advanced(b, d, a).phase)))
  {
  }

  lemma WriteTracks(s: State, id: DeliveryId, a: Action)
    requires Enabled(s, Act(id, a)) && Conserved(s) && Writes(a)
    ensures Tracked(After(s, Act(id, a)), s.deliveries[id].envelope.jobId)
  {
    var d := s.deliveries[id];
    assert DeliveryMatches(s, d) && EntryPends(s.board, d);
    WriteFits(s.board, d, a);
    ActKeepsEnvelope(s.board, d, a);
    ActKeepsPending(s.board, d, a);
    hide Acted, Advanced, CanAct, Fits, Conserved, EntryPends, RecordsSound, EntriesSound;
    assert OneLiveOwner(s.deliveries) by { OwnersAreAlone(s); }
  }

  lemma OwnersAreAlone(s: State)
    requires Conserved(s)
    ensures OneLiveOwner(s.deliveries)
  {
  }

  /** A step that writes no record moves its delivery between phases that fit the same records, or settles the job. */
  lemma QuietFits(b: Board, d: Delivery, a: Action, status: Status)
    requires CanAct(d, a) && !Writes(a) && Fits(status, d.phase)
             && (status == Queued || status == Running || status == Retrying)
    ensures Acted(b, d, a).records == b.records && Acted(b, d, a).writer == b.writer
    ensures Live(Advanced(b, d, a)) ==>
              Fits(status, Advanced(b, d, a).phase)
              || (status == Retrying && d.envelope.jobId in Acted(b, d, a).delayed)
    ensures d.entry in b.pending ==> d.entry in Acted(b, d, a).pending
    ensures b.delayed <= Acted(b, d, a).delayed
  {
  }

  /** What a step of one delivery may change, as far as a job with an unchanged last record can tell. */
  predicate Disturbs(s: State, t: State, id: DeliveryId, d: Delivery, job: JobId) {
    t.entries == s.entries && t.delivered == s.delivered
    && id in s.deliveries && t.deliveries == s.deliveries[id := d] && d.entry == s.deliveries[id].entry
    && job in s.board.records && job in t.board.records && t.board.records[job] == s.board.records[job]
    && job in s.board.writer && job in t.board.writer && t.board.writer[job] == s.board.writer[job]
    && (job in s.board.delayed ==> job in t.board.delayed)
    && s.board.pending - {d.entry} <= t.board.pending
  }

  /** A job whose last record is another entry's is followed as before. */
  lemma OtherEntryKeeps(s: State, t: State, id: DeliveryId, d: Delivery, job: JobId)
    requires Tracked(s, job) && Disturbs(s, t, id, d, job) && s.board.writer[job] != d.entry
    ensures Tracked(t, job)
  {
    hide Fits, IsTerminal;
  }

  /** The delivery behind a job's last record keeps it followed while it stays in fitting phases. */
  lemma OwnEntryKeeps(s: State, t: State, id: DeliveryId, d: Delivery, job: JobId)
    requires Tracked(s, job) && Disturbs(s, t, id, d, job)
    requires s.board.writer[job] == d.entry && d.entry < s.delivered && OneLiveOwner(s.deliveries)
             && Live(s.deliveries[id])
    requires var r := s.board.records[job];
      Fits(r.status, s.deliveries[id].phase) ==>
        (d.entry in s.board.pending ==> d.entry in t.board.pending)
        && (Live(d) ==> Fits(r.status, d.phase) || (r.status == Retrying && job in t.board.delayed))
    ensures Tracked(t, job)
  {
    hide Fits, IsTerminal;
  }

  lemma ActKeepsOtherRecords(b: Board, d: Delivery, a: Action)
    requires CanAct(d, a)
    ensures var after := Acted(b, d, a);
      b.delayed <= after.delayed
      && (forall job <- b.records :: job != d.envelope.jobId || !Writes(a) ==>
            job in after.records && after.records[job] == b.records[job])
      && (forall job <- b.writer :: job != d.envelope.jobId || !Writes(a) ==>
            job in after.writer && after.writer[job] == b.writer[job])
      && (forall job <- after.records :: job in b.records || (Writes(a) && job == d.envelope.jobId))
  {
  }

  lemma ActDisturbs(s: State, id: DeliveryId, a: Action, job: JobId)
    requires Enabled(s, Act(id, a)) && EntryPends(s.board, s.deliveries[id])
    requires Tracked(s, job) && !(Writes(a) && s.deliveries[id].envelope.jobId == job)
    ensures var t := After(s, Act(id, a));
      id in t.deliveries && Disturbs(s, t, id, t.deliveries[id], job)
      && t.deliveries[id].entry == s.deliveries[id].entry
  {
    var d := s.deliveries[id];
    ActKeepsEnvelope(s.board, d, a);
    ActKeepsPending(s.board, d, a);
    ActKeepsOtherRecords(s.board, d, a);
    hide Acted, Advanced, CanAct, EntryPends, Fits, AllFit, Writes;
  }

  /** A quiet step leaves its delivery in a phase that still fits, unless the job settles or waits. */
  lemma ActStaysFitting(s: State, id: DeliveryId, a: Action, job: JobId)
    requires Enabled(s, Act(id, a)) && !Writes(a) && job in s.board.records && s.deliveries[id].envelope.jobId == job
    requires Fits(s.board.records[job].status, s.deliveries[id].phase) && !IsTerminal(s.board.records[job])
    ensures var t := After(s, Act(id, a)); var d := t.deliveries[id]; var status := s.board.records[job].status;
      (s.deliveries[id].entry in s.board.pending ==> s.deliveries[id].entry in t.board.pending)
      && (Live(d) ==> Fits(status, d.phase) || (status == Retrying && job in t.board.delayed))
  {
    QuietFits(s.board, s.deliveries[id], a, s.board.records[job].status);
    hide Acted, Advanced, CanAct, Fits, Writes;
  }

  /** What an acting delivery finds: it is live, and the job it does not write was recorded and followed before. */
  lemma ActFinds(s: State, id: DeliveryId, a: Action, job: JobId)
    requires Enabled(s, Act(id, a)) && Conserved(s) && job in After(s, Act(id, a)).board.records
    requires !(Writes(a) && id in s.deliveries && job == s.deliveries[id].envelope.jobId)
    ensures id in s.deliveries && Live(s.deliveries[id]) && s.deliveries[id].entry < s.delivered
    ensures job in s.board.records && Tracked(s, job) && job in s.board.writer
    ensures EntryPends(s.board, s.deliveries[id]) && OneLiveOwner(s.deliveries)
    ensures s.board.writer[job] == s.deliveries[id].entry ==> s.deliveries[id].envelope.jobId == job
  {
    var d := s.deliveries[id];
    ActKeepsOtherRecords(s.board, d, a);
    hide Acted, Advanced, Fits, RecordsSound, EntriesSound;
    assert DeliveryMatches(s, d) && EntryPends(s.board, d);
    ActKeepsPending(s.board, d, a);
    JobsHaveTheirEntries(s, d, job);
  }

  lemma ActIsByADelivery(s: State, id: DeliveryId, a: Action)
    requires Enabled(s, Act(id, a))
    ensures id in s.deliveries && id in After(s, Act(id, a)).deliveries
  {
  }

  lemma ActKeepsTracked(s: State, id: DeliveryId, a: Action, job: JobId)
    requires Enabled(s, Act(id, a)) && Conserved(s) && job in After(s, Act(id, a)).board.records
    ensures Tracked(After(s, Act(id, a)), job)
  {
    hide *;
    ActIsByADelivery(s, id, a);
    var d, t := s.deliveries[id], After(s, Act(id, a));
    if Writes(a) && job == d.envelope.jobId {
      WriteTracks(s, id, a);
    } else {
      ActFinds(s, id, a, job);
      ActDisturbs(s, id, a, job);
      if s.board.writer[job] != d.entry {
        OtherEntryKeeps(s, t, id, t.deliveries[id], job);
      } else if IsTerminal(s.board.records[job]) {
        TerminalIsTracked(s, t, id, t.deliveries[id], job);
      } else {
        if Fits(s.board.records[job].status, d.phase) {
          ActStaysFitting(s, id, a, job);
        }
        OwnEntryKeeps(s, t, id, t.deliveries[id], job);
      }
    }
  }

  lemma TerminalIsTracked(s: State, t: State, id: DeliveryId, d: Delivery, job: JobId)
    requires Tracked(s, job) && Disturbs(s, t, id, d, job) && IsTerminal(s.board.records[job])
    ensures Tracked(t, job)
  {
  }

  lemma JobsHaveTheirEntries(s: State, d: Delivery, job: JobId)
    requires Tracked(s, job) && DeliveryMatches(s, d)
    ensures s.board.writer[job] == d.entry ==> d.envelope.jobId == job
  {
  }

  // ----- the other steps -----

  /** A delivery begins at a phase that fits every record. */
  lemma GivingKeepsTracked(s: State, step: Step, job: JobId)
    requires Enabled(s, step) && Careful(s, step) && Conserved(s) && (step.Deliver? || step.Reclaim?)
             && job in s.board.records
    ensures Tracked(After(s, step), job)
  {
    GivingIsFresh(s, step);
    assert Tracked(s, job);
    hide After, Enabled, Careful, Conserved, IsTerminal, OwnerIsDead;
  }

  /**
   * Giving an entry out adds a delivery at its first phase, for an entry that is pending from then on and had
   * no live one.
   */
  lemma GivingIsFresh(s: State, step: Step)
    requires Enabled(s, step) && (step.Deliver? || step.Reclaim?)
    ensures var t := After(s, step); var id := step.delivery;
      id !in s.deliveries && id in t.deliveries && t.deliveries == s.deliveries[id := t.deliveries[id]]
      && t.deliveries[id].phase.Given? && t.entries == s.entries && t.board == s.board.(pending := t.board.pending)
      && s.board.pending <= t.board.pending
      && s.delivered <= t.delivered && forall e :: s.delivered <= e < t.delivered ==> e in t.board.pending
  {
    hide Acted, Advanced, CanAct;
  }

  /** A push leaves its job queued behind a new entry, which no delivery has seen. */
  lemma PushTracks(s: State, b: Board, envelope: Envelope, at: Time, job: JobId)
    requires Conserved(s) && job in PushedAt(s, b, envelope, at).board.records
    requires b.records == s.board.records && b.writer == s.board.writer && b.pending == s.board.pending
    requires forall other <- s.board.delayed :: other in b.delayed || other == envelope.jobId
    ensures Tracked(PushedAt(s, b, envelope, at), job)
  {
    var t := PushedAt(s, b, envelope, at);
    if job == envelope.jobId {
      assert forall d <- s.deliveries :: DeliveryMatches(s, s.deliveries[d]);
    } else {
      assert Tracked(s, job);
    }
    hide Conserved, Fits;
  }

  lemma DropKeepsTracked(s: State, t: State, dropped: JobId, job: JobId)
    requires t == s.(board := s.board.(delayed := s.board.delayed - {dropped}))
    requires !MayPromote(s.board, dropped) && Tracked(s, job)
    ensures Tracked(t, job)
  {
  }

  lemma TrackedStep(s: State, step: Step, job: JobId)
    requires Enabled(s, step) && Careful(s, step) && Conserved(s) && job in After(s, step).board.records
    ensures Tracked(After(s, step), job)
  {
    match step
    case Act(id, a) =>
      ActKeepsTracked(s, id, a, job);
    case Push(envelope, at) =>
      PushTracks(s, s.board, envelope, at, job);
      OriginsDoNotMatter(PushedAt(s, s.board, envelope, at), s.origins + {Origin(envelope)}, job);
    case Promote(due, at) =>
      var b := s.board.(delayed := s.board.delayed - {due});
      if MayPromote(b, due) {
        PromotionIsOfItsJob(s, due);
        PushTracks(s, b, NextAttempt(b.records[due]), at, job);
      } else {
        DropKeepsTracked(s, After(s, step), due, job);
      }
    case _ =>
      GivingKeepsTracked(s, step, job);
  }

  lemma OriginsDoNotMatter(s: State, origins: set<Envelope>, job: JobId)
    requires Tracked(s, job)
    ensures Tracked(s.(origins := origins), job)
  {
  }

  lemma PromotionIsOfItsJob(s: State, due: JobId)
    requires Conserved(s) && MayPromote(s.board, due)
    ensures NextAttempt(s.board.records[due]).jobId == due
  {
  }

  lemma ConservedStep(s: State, step: Step)
    requires Enabled(s, step) && Careful(s, step) && Conserved(s)
    ensures Conserved(After(s, step))
  {
    SoundStep(s, step);
    OwnersStayAlone(s, step);
    EntriesStayPending(s, step);
    hide Enabled, After, AllSound, OneLiveOwner, EntryPends, Tracked, Careful;
    forall job | job in After(s, step).board.records ensures Tracked(After(s, step), job) {
      TrackedStep(s, step, job);
    }
  }

  lemma {:induction false} ConservedAlways(states: seq<State>, steps: seq<Step>, i: nat)
    requires IsCarefulExecution(states, steps) && i < |states|
    ensures Conserved(states[i])
  {
    if i == 0 {
      SoundAlways(states, steps, 0);
    } else {
      hide *;
      CarefulStep(states, steps, i - 1);
      ConservedAlways(states, steps, i - 1);
      ConservedStep(states[i - 1], steps[i - 1]);
    }
  }

  lemma CarefulStep(states: seq<State>, steps: seq<Step>, i: nat)
    requires IsCarefulExecution(states, steps) && i + 1 < |states|
    ensures |states| == |steps| + 1 && Enabled(states[i], steps[i]) && Careful(states[i], steps[i])
    ensures states[i + 1] == After(states[i], steps[i])
  {
    hide Enabled, After, Careful;
  }

  lemma RecordsStay(s: State, step: Step, job: JobId)
    requires Enabled(s, step) && (job in s.board.records || (step.Push? && step.envelope.jobId == job))
    ensures job in After(s, step).board.records
  {
    hide RetriesAfter;
  }

  lemma {:induction false} PushedIsRecorded(states: seq<State>, steps: seq<Step>, k: nat, i: nat)
    requires IsExecution(states, steps) && k < i < |states| == |steps| + 1 && steps[k].Push?
    ensures steps[k].envelope.jobId in states[i].board.records
    decreases i
  {
    hide *;
    NthStep(states, steps, i - 1);
    if k < i - 1 {
      PushedIsRecorded(states, steps, k, i - 1);
    }
    RecordsStay(states[i - 1], steps[i - 1], steps[k].envelope.jobId);
  }

  /**
   * No job is lost: at every later moment a pushed job is on the stream unacknowledged, or waits in the
   * schedule with a retrying record, or has a terminal record, wherever dispatches died in between.
   */
  lemma NoJobIsLost(states: seq<State>, steps: seq<Step>, k: nat, i: nat)
    requires IsCarefulExecution(states, steps) && k < i < |states| == |steps| + 1 && steps[k].Push?
    ensures Kept(states[i], steps[k].envelope.jobId)
    ensures var s, job := states[i], steps[k].envelope.jobId;
      job in s.board.records
      && ((exists e :: 0 <= e < |s.entries| && (s.delivered <= e || e in s.board.pending) && s.entries[e].jobId == job)
          || (s.board.records[job].status == Retrying && job in s.board.delayed)
          || s.board.records[job].status == Completed || s.board.records[job].status == Failed)
  {
    PushedIsRecorded(states, steps, k, i);
    ConservedAlways(states, steps, i);
    hide IsCarefulExecution;
    TrackedIsKept(states[i], steps[k].envelope.jobId);
  }
}
