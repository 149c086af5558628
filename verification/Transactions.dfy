/**
 * The transaction boundary: nested frames join the open one, and any failure reported inside makes it
 * rollback-only. The outbox recorder writes through the same boundary.
 */
module Transactions {
  import OutboxRows

  type Event = OutboxRows.Event

  /** A value some code threw or put in a failed result; JavaScript code may use `undefined`. */
  datatype Failure =
    | Undefined
    | Fault(code: int)
    | TransactionRequired
    | BoundaryError(cause: Failure)
    | DriverError(code: int)

  /** How a frame of work ended. */
  datatype End = Returned | FailedResult(error: Failure) | Threw(thrown: Failure)

  datatype Store = Store(cells: map<int, int>, outbox: seq<Event>)

  datatype Effect = Wrote(cell: int, value: int) | Recorded(event: Event)

  /** What the database driver does when asked to begin and to commit. */
  datatype Driver = Healthy | CannotBegin(code: int) | CannotCommit(code: int)

  /**
   * A use case's work as a program. The continuations of `Execute` are what the caller does after the
   * inner frame returned, returned a failed result, or threw, so they express any way of catching.
   */
  datatype Work =
    | Done(end: End)
    | Pass
    | Write(cell: int, value: int, next: Work)
    | Read(cell: int, ifPresent: Work, ifAbsent: Work)
    | Record(event: Event, next: Work, refused: Work)
    | Execute(inner: Work, driver: Driver, onReturn: Work, onFailed: Work, onThrow: Work)

  function Apply(store: Store, effect: Effect): Store {
    match effect
    case Wrote(cell, value) => store.(cells := store.cells[cell := value])
    case Recorded(event) => store.(outbox := store.outbox + [event])
  }

  function ApplyAll(store: Store, effects: seq<Effect>): Store
    decreases effects
  {
    if effects == [] then store else ApplyAll(Apply(store, effects[0]), effects[1..])
  }

  function Handler(w: Work, end: End): Work
    requires w.Execute?
  {
    match end
    case Returned => w.onReturn
    case FailedResult(_) => w.onFailed
    case Threw(_) => w.onThrow
  }

  // ----- what a frame inside a boundary does, without the boundary -----

  /**
   * The effects a frame has in order, the ends of the frames nested in it in order, and its own end.
   * `last` is the end of the latest inner operation, which `Pass` hands on.
   */
  datatype Trace = Trace(effects: seq<Effect>, ends: seq<End>, end: End)

  function Inside(w: Work, last: End, store: Store): Trace
    decreases w
  {
    match w
    case Done(end) => Trace([], [], end)
    case Pass => Trace([], [], last)
    case Write(cell, value, next) => Prepend(Wrote(cell, value), Inside(next, last, Apply(store, Wrote(cell, value))))
    case Read(cell, ifPresent, ifAbsent) => Inside(if cell in store.cells then ifPresent else ifAbsent, last, store)
    case Record(event, next, _) => Prepend(Recorded(event), Inside(next, last, Apply(store, Recorded(event))))
    case Execute(inner, _, onReturn, onFailed, onThrow) =>
      var t := Inside(inner, Returned, store);
      var rest := match t.end
        case Returned => Inside(onReturn, t.end, ApplyAll(store, t.effects))
        case FailedResult(_) => Inside(onFailed, t.end, ApplyAll(store, t.effects))
        case Threw(_) => Inside(onThrow, t.end, ApplyAll(store, t.effects));
      Trace(t.effects + rest.effects, t.ends + [t.end] + rest.ends, rest.end)
  }

  function Prepend(effect: Effect, t: Trace): Trace {
    t.(effects := [effect] + t.effects)
  }

  predicate Failed(end: End) {
    !end.Returned?
  }

  function FailureOf(end: End): Failure
    requires Failed(end)
  {
    if end.Threw? then end.thrown else end.error
  }

  predicate AllReturned(ends: seq<End>) {
    forall e <- ends :: e.Returned?
  }

  /** The first failure among `ends` that is not `undefined`. */
  function FirstFailure(ends: seq<End>): Failure {
    if ends == [] then Undefined
    else if Failed(ends[0]) && FailureOf(ends[0]) != Undefined then FailureOf(ends[0])
    else FirstFailure(ends[1..])
  }

  // ----- what the outermost frame must do -----

  datatype Outcome = Outcome(end: End, store: Store)

  /** All or nothing: commit exactly when every frame returned, and otherwise report the first failure. */
  function Boundary(w: Work, driver: Driver, store: Store): Outcome {
    var t := Inside(w, Returned, store);
    if driver.CannotBegin? then Outcome(Threw(DriverError(driver.code)), store)
    else if Failed(t.end) then Outcome(t.end, store)
    else if !AllReturned(t.ends) then Outcome(Threw(BoundaryError(FirstFailure(t.ends))), store)
    else if driver.CannotCommit? then Outcome(Threw(DriverError(driver.code)), store)
    else Outcome(Returned, ApplyAll(store, t.effects))
  }

  /** A program run outside any boundary: writes commit one by one, records are refused. */
  function Outside(w: Work, last: End, store: Store): Outcome
    decreases w
  {
    match w
    case Done(end) => Outcome(end, store)
    case Pass => Outcome(last, store)
    case Write(cell, value, next) => Outside(next, last, Apply(store, Wrote(cell, value)))
    case Read(cell, ifPresent, ifAbsent) => Outside(if cell in store.cells then ifPresent else ifAbsent, last, store)
    case Record(_, _, refused) => Outside(refused, Threw(TransactionRequired), store)
    case Execute(inner, driver, onReturn, onFailed, onThrow) =>
      var o := Boundary(inner, driver, store);
      match o.end
      case Returned => Outside(onReturn, o.end, o.store)
      case FailedResult(_) => Outside(onFailed, o.end, o.store)
      case Threw(_) => Outside(onThrow, o.end, o.store)
  }

  // ----- the program -----

  class BoundaryState {
    var failed: bool
    var failure: Failure

    constructor ()
      ensures !failed && failure == Undefined
    {
      failed := false;
      failure := Undefined;
    }
  }

  /** The earlier failure, unless it is `undefined`. */
  function Kept(earlier: Failure, later: Failure): Failure {
    if earlier == Undefined then later else earlier
  }

  method FailBoundary(state: BoundaryState, failure: Failure)
    modifies state
    ensures state.failed && state.failure == Kept(old(state.failure), failure)
  {
    state.failed := true;
    if state.failure == Undefined {
      state.failure := failure;
    }
  }

  /** The database, the transaction open on it, and the ambient boundary state of the call chain. */
  class Session {
    var committed: Store
    var staged: Store
    var ambient: BoundaryState?

    constructor (store: Store)
      ensures committed == store && ambient == null
    {
      committed := store;
      staged := store;
      ambient := null;
    }

    /** Runs a frame's statements inside the open boundary. */
    method RunInside(w: Work, last: End) returns (end: End)
      requires ambient != null
      modifies this`staged, ambient
      ensures var t := Inside(w, last, old(staged));
        end == t.end
        && staged == ApplyAll(old(staged), t.effects)
        && (ambient.failed <==> old(ambient.failed) || !AllReturned(t.ends))
        && ambient.failure == Kept(old(ambient.failure), FirstFailure(t.ends))
      decreases w, 0
    {
      match w {
        case Done(e) =>
          end := e;
        case Pass =>
          end := last;
        case Write(cell, value, next) =>
          staged := Apply(staged, Wrote(cell, value));
          end := RunInside(next, last);
        case Read(cell, ifPresent, ifAbsent) =>
          if cell in staged.cells {
            end := RunInside(ifPresent, last);
          } else {
            end := RunInside(ifAbsent, last);
          }
        case Record(event, next, refused) =>
          staged := Apply(staged, Recorded(event));
          end := RunInside(next, last);
        case Execute(inner, driver, onReturn, onFailed, onThrow) =>
          ghost var t := Inside(inner, Returned, staged);
          ghost var before := staged;
          var e := RunWithinBoundary(inner);
          ghost var rest := Inside(Handler(w, e), e, staged);
          match e {
            case Returned => end := RunInside(onReturn, e);
            case FailedResult(_) => end := RunInside(onFailed, e);
            case Threw(_) => end := RunInside(onThrow, e);
          }
          ApplyAllConcat(before, t.effects, rest.effects);
          FirstFailureConcat(t.ends + [t.end], rest.ends);
      }
    }

    /** A nested frame reports its failure to the boundary it joined and never commits. */
    method RunWithinBoundary(w: Work) returns (end: End)
      requires ambient != null
      modifies this`staged, ambient
      ensures var t := Inside(w, Returned, old(staged));
        end == t.end
        && staged == ApplyAll(old(staged), t.effects)
        && (ambient.failed <==> old(ambient.failed) || !AllReturned(t.ends + [t.end]))
        && ambient.failure == Kept(old(ambient.failure), FirstFailure(t.ends + [t.end]))
      decreases w, 1
    {
      ghost var t := Inside(w, Returned, staged);
      end := RunInside(w, Returned);
      FirstFailureConcat(t.ends, [t.end]);
      if Failed(end) {
        FailBoundary(ambient, FailureOf(end));
      }
    }

    /** The outermost frame: begin, run, and commit or roll back. */
    method ExecuteBoundary(w: Work, driver: Driver) returns (end: End)
      requires ambient == null
      modifies this
      ensures ambient == null
      ensures Outcome(end, committed) == Boundary(w, driver, old(committed))
      ensures var t := Inside(w, Returned, old(committed));
        (end.Returned? <==> driver.Healthy? && AllReturned(t.ends + [t.end]))
        && committed == (if end.Returned? then ApplyAll(old(committed), t.effects) else old(committed))
        && (!driver.CannotBegin? && Failed(t.end) ==> end == t.end)
        && (!driver.CannotBegin? && t.end.Returned? && !AllReturned(t.ends) ==>
              end == Threw(BoundaryError(FirstFailure(t.ends))))
      ensures end.Returned? <==> driver.Healthy? && Survives(w, old(committed))
      ensures committed == if end.Returned? then Yield(w, old(committed)) else old(committed)
    {
      AllOrNothing(w, driver, committed);
      BoundarySurvives(w, driver, committed);
      hide Survives, Yield;
      if driver.CannotBegin? {
        return Threw(DriverError(driver.code));
      }
      staged := committed;
      var state := new BoundaryState();
      ambient := state;
      end := RunInside(w, Returned);
      ambient := null;
      if Failed(end) {
        FailBoundary(state, FailureOf(end));
        return;
      }
      if state.failed {
        return Threw(BoundaryError(state.failure));
      }
      if driver.CannotCommit? {
        return Threw(DriverError(driver.code));
      }
      committed := staged;
    }

    /** Runs a use case that is not inside a boundary. */
    method RunOutside(w: Work, last: End) returns (end: End)
      requires ambient == null
      modifies this
      ensures ambient == null
      ensures Outcome(end, committed) == Outside(w, last, old(committed))
      decreases w
    {
      match w {
        case Done(e) =>
          end := e;
        case Pass =>
          end := last;
        case Write(cell, value, next) =>
          committed := Apply(committed, Wrote(cell, value));
          end := RunOutside(next, last);
        case Read(cell, ifPresent, ifAbsent) =>
          if cell in committed.cells {
            end := RunOutside(ifPresent, last);
          } else {
            end := RunOutside(ifAbsent, last);
          }
        case Record(event, next, refused) =>
          end := RunOutside(refused, Threw(TransactionRequired));
        case Execute(inner, driver, onReturn, onFailed, onThrow) =>
          var e := ExecuteBoundary(inner, driver);
          match e {
            case Returned => end := RunOutside(onReturn, e);
            case FailedResult(_) => end := RunOutside(onFailed, e);
            case Threw(_) => end := RunOutside(onThrow, e);
          }
      }
    }
  }

  lemma {:induction false} ApplyAllConcat(store: Store, a: seq<Effect>, b: seq<Effect>)
    ensures ApplyAll(store, a + b) == ApplyAll(ApplyAll(store, a), b)
    decreases |a|
  {
    if a == [] {
      assert a + b == b;
    } else {
      assert (a + b)[1..] == a[1..] + b;
      ApplyAllConcat(Apply(store, a[0]), a[1..], b);
    }
  }

  lemma {:induction false} FirstFailureConcat(a: seq<End>, b: seq<End>)
    ensures FirstFailure(a + b) == Kept(FirstFailure(a), FirstFailure(b))
    decreases |a|
  {
    if a == [] {
      assert a + b == b;
    } else {
      assert (a + b)[1..] == a[1..] + b;
      FirstFailureConcat(a[1..], b);
    }
  }

  // ----- main results -----

  /**
   * The outermost call succeeds exactly when the driver is healthy and no frame at any depth threw or
   * returned a failed result, however the failures inside were caught. Then every effect of every
   * frame is committed, and otherwise none is; a failure of the work itself reaches the caller
   * unchanged, and a caught one as a boundary error carrying the first defined failure.
   */
  lemma AllOrNothing(w: Work, driver: Driver, store: Store)
    ensures var t, o := Inside(w, Returned, store), Boundary(w, driver, store);
      (o.end.Returned? <==> driver.Healthy? && AllReturned(t.ends + [t.end]))
      && o.store == (if o.end.Returned? then ApplyAll(store, t.effects) else store)
      && (!driver.CannotBegin? && Failed(t.end) ==> o.end == t.end)
      && (!driver.CannotBegin? && t.end.Returned? && !AllReturned(t.ends) ==>
        o.end == Threw(BoundaryError(FirstFailure(t.ends))))
  {
    var t := Inside(w, Returned, store);
    assert AllReturned(t.ends + [t.end]) <==> AllReturned(t.ends) && t.end.Returned? by {
      assert t.end in t.ends + [t.end];
      assert forall e <- t.ends :: e in t.ends + [t.end];
    }
  }

  // ----- outermost calls, told without traces -----

  /** What a program leaves when it is followed along the returning path of every frame. */
  function Yield(w: Work, store: Store): Store
    decreases w
  {
    match w
    case Done(_) => store
    case Pass => store
    case Write(cell, value, next) => Yield(next, Store(store.cells[cell := value], store.outbox))
    case Read(cell, ifPresent, ifAbsent) => Yield(if cell in store.cells then ifPresent else ifAbsent, store)
    case Record(event, next, _) => Yield(next, Store(store.cells, store.outbox + [event]))
    case Execute(inner, _, onReturn, _, _) => Yield(onReturn, Yield(inner, store))
  }

  /** Whether that path ends every frame on it by returning. What handlers would do after a failure is irrelevant. */
  predicate Survives(w: Work, store: Store)
    decreases w
  {
    match w
    case Done(end) => end == Returned
    case Pass => true
    case Write(cell, value, next) => Survives(next, Store(store.cells[cell := value], store.outbox))
    case Read(cell, ifPresent, ifAbsent) => Survives(if cell in store.cells then ifPresent else ifAbsent, store)
    case Record(event, next, _) => Survives(next, Store(store.cells, store.outbox + [event]))
    case Execute(inner, _, onReturn, _, _) => Survives(inner, store) && Survives(onReturn, Yield(inner, store))
  }

  predicate AllEnded(t: Trace) {
    AllReturned(t.ends) && t.end.Returned?
  }

  lemma EndsJoin(a: seq<End>, e: End, b: seq<End>)
    ensures AllReturned(a + [e] + b) <==> AllReturned(a) && e.Returned? && AllReturned(b)
  {
    var all := a + [e] + b;
    assert all[|a|] == e;
    assert forall x <- a :: x in all;
    assert forall x <- b :: x in all;
  }

  /** A frame and everything nested in it returns exactly on the surviving path, with that path's effects. */
  lemma {:induction false} TraceSurvives(w: Work, store: Store)
    ensures AllEnded(Inside(w, Returned, store)) <==> Survives(w, store)
    ensures Survives(w, store) ==> ApplyAll(store, Inside(w, Returned, store).effects) == Yield(w, store)
    decreases w
  {
    match w
    case Done(_) =>
    case Pass =>
    case Write(cell, value, next) => TraceSurvives(next, Store(store.cells[cell := value], store.outbox));
    case Read(cell, ifPresent, ifAbsent) => TraceSurvives(if cell in store.cells then ifPresent else ifAbsent, store);
    case Record(event, next, _) => TraceSurvives(next, Store(store.cells, store.outbox + [event]));
    case Execute(inner, _, onReturn, _, _) =>
      var t := Inside(inner, Returned, store);
      var after := ApplyAll(store, t.effects);
      TraceSurvives(inner, store);
      TraceSurvives(onReturn, after);
      var rest := Inside(Handler(w, t.end), t.end, after);
      EndsJoin(t.ends, t.end, rest.ends);
      ApplyAllConcat(store, t.effects, rest.effects);
  }

  /**
   * The outermost call returns exactly when the driver is healthy and no frame at any depth fails, and then
   * commits every effect; otherwise it fails and changes nothing, whatever the handlers inside catch.
   */
  lemma BoundarySurvives(w: Work, driver: Driver, store: Store)
    ensures var o := Boundary(w, driver, store);
      (o.end.Returned? <==> driver.Healthy? && Survives(w, store))
      && (o.store == if o.end.Returned? then Yield(w, store) else store)
      && (driver.CannotBegin? || (driver.CannotCommit? && Survives(w, store)) ==>
            o.end == Threw(DriverError(driver.code)))
  {
    TraceSurvives(w, store);
    AllOrNothing(w, driver, store);
    hide Inside, Survives, Yield;
  }

  /**
   * A failure caught inside is a failure of the whole: if a frame would fail as an outermost call, a call that
   * runs it first fails and commits nothing, for every way of handling the failure and every driver.
   */
  lemma CaughtFailureRollsBack(inner: Work, d: Driver, onReturn: Work, onFailed: Work, onThrow: Work, driver: Driver,
                               store: Store)
    requires Failed(Boundary(inner, Healthy, store).end)
    ensures var o := Boundary(Execute(inner, d, onReturn, onFailed, onThrow), driver, store);
      Failed(o.end) && o.store == store
  {
    BoundarySurvives(inner, Healthy, store);
    BoundarySurvives(Execute(inner, d, onReturn, onFailed, onThrow), driver, store);
    hide Boundary;
  }

  /** Work that fails hands its own failure to the caller, and work that returns after two caught ones the first. */
  lemma FirstFailureIsReported(first: End, second: End, d1: Driver, d2: Driver, driver: Driver, store: Store)
    requires Failed(first) && !driver.CannotBegin?
    ensures Boundary(Done(first), driver, store) == Outcome(first, store)
    ensures var done := Done(Returned);
      var w := Execute(Done(first), d1, done, Execute(Done(second), d2, done, done, done),
                       Execute(Done(second), d2, done, done, done));
      Boundary(w, driver, store) == Outcome(Threw(BoundaryError(
        if FailureOf(first) != Undefined then FailureOf(first)
        else if Failed(second) then FailureOf(second) else Undefined)), store)
  {
    var done := Done(Returned);
    var handler := Execute(Done(second), d2, done, done, done);
    var w := Execute(Done(first), d1, done, handler, handler);
    assert Inside(Done(second), Returned, store) == Trace([], [], second);
    assert [] + [second] + [] == [second] && [] + [first] + [second] == [first, second];
    assert Inside(handler, first, store) == Trace([], [second], Returned);
    assert Inside(w, Returned, store) == Trace([], [first, second], Returned);
    TwoFailures(first, second);
  }

  /** Inside, too, the caller sees how a frame failed: the handler for it runs, and `Pass` rethrows that very end. */
  lemma HandlerIsChosen(end: End, d: Driver, onReturn: Work, failed: End, thrown: End, driver: Driver, store: Store)
    requires Failed(end) && !driver.CannotBegin?
    ensures Boundary(Execute(Done(end), d, onReturn, Pass, Pass), driver, store) == Outcome(end, store)
    ensures var chosen := if end.FailedResult? then failed else thrown;
      Boundary(Execute(Done(end), d, onReturn, Done(failed), Done(thrown)), driver, store)
      == Outcome(if Failed(chosen) then chosen else Threw(BoundaryError(FailureOf(end))), store)
  {
    assert end in [end] && [end][1..] == [];
    assert [] + [end] + [] == [end];
    assert Inside(Done(end), Returned, store) == Trace([], [], end);
    assert Inside(Execute(Done(end), d, onReturn, Pass, Pass), Returned, store) == Trace([], [end], end);
    assert Inside(Execute(Done(end), d, onReturn, Done(failed), Done(thrown)), Returned, store)
        == Trace([], [end], if end.FailedResult? then failed else thrown);
    assert FirstFailure([end]) == FailureOf(end);
  }

  lemma TwoFailures(first: End, second: End)
    requires Failed(first)
    ensures !AllReturned([first, second])
    ensures FirstFailure([first, second]) == if FailureOf(first) != Undefined then FailureOf(first)
                                             else if Failed(second) then FailureOf(second) else Undefined
  {
    assert first in [first, second];
    assert [first, second][1..] == [second];
    assert FirstFailure([second]) == if Failed(second) then FailureOf(second) else Undefined;
  }

  /** Outside a boundary a write stays whatever follows it, a record is refused, and the caller sees each call's end. */
  lemma OutsideStepByStep(w: Work, last: End, store: Store)
    ensures w.Write? ==>
              Outside(w, last, store) == Outside(w.next, last, Store(store.cells[w.cell := w.value], store.outbox))
    ensures w.Read? && w.cell in store.cells ==> Outside(w, last, store) == Outside(w.ifPresent, last, store)
    ensures w.Read? && w.cell !in store.cells ==> Outside(w, last, store) == Outside(w.ifAbsent, last, store)
    ensures w.Record? ==> Outside(w, last, store) == Outside(w.refused, Threw(TransactionRequired), store)
    ensures w.Execute? ==>
              var o := Boundary(w.inner, w.driver, store);
              (o.end.Returned? ==> Outside(w, last, store) == Outside(w.onReturn, Returned, o.store))
              && (o.end.FailedResult? ==> Outside(w, last, store) == Outside(w.onFailed, o.end, store))
              && (o.end.Threw? ==> Outside(w, last, store) == Outside(w.onThrow, o.end, store))
    ensures w == Pass ==> Outside(w, last, store) == Outcome(last, store)
    ensures w.Done? ==> Outside(w, last, store) == Outcome(w.end, store)
  {
    if w.Execute? {
      BoundarySurvives(w.inner, w.driver, store);
      hide Boundary;
    }
  }

  function EventsOf(effects: seq<Effect>): seq<Event> {
    if effects == [] then []
    else (if effects[0].Recorded? then [effects[0].event] else []) + EventsOf(effects[1..])
  }

  lemma {:induction false} OutboxGrowsByEvents(store: Store, effects: seq<Effect>)
    ensures ApplyAll(store, effects).outbox == store.outbox + EventsOf(effects)
    decreases |effects|
  {
    if effects != [] {
      OutboxGrowsByEvents(Apply(store, effects[0]), effects[1..]);
    }
  }

  /** The boundaries a program outside any boundary committed, in order. */
  function Committed(w: Work, last: End, store: Store): seq<Trace>
    decreases w
  {
    match w
    case Done(_) => []
    case Pass => []
    case Write(cell, value, next) => Committed(next, last, Apply(store, Wrote(cell, value)))
    case Read(cell, ifPresent, ifAbsent) => Committed(if cell in store.cells then ifPresent else ifAbsent, last, store)
    case Record(_, _, refused) => Committed(refused, Threw(TransactionRequired), store)
    case Execute(inner, driver, onReturn, onFailed, onThrow) =>
      var o := Boundary(inner, driver, store);
      match o.end
      case Returned => [Inside(inner, Returned, store)] + Committed(onReturn, o.end, o.store)
      case FailedResult(_) => Committed(onFailed, o.end, o.store)
      case Threw(_) => Committed(onThrow, o.end, o.store)
  }

  function AllEvents(traces: seq<Trace>): seq<Event> {
    if traces == [] then [] else EventsOf(traces[0].effects) + AllEvents(traces[1..])
  }

  /** A boundary that commits adds the events of its trace, every frame of which returned; another adds nothing. */
  lemma BoundaryCommits(w: Work, driver: Driver, store: Store)
    ensures var t, o := Inside(w, Returned, store), Boundary(w, driver, store);
      if o.end.Returned? then
        o.store.outbox == store.outbox + EventsOf(t.effects) && AllReturned(t.ends) && t.end.Returned?
      else o.store == store
  {
    hide EventsOf;
    OutboxGrowsByEvents(store, Inside(w, Returned, store).effects);
  }

  lemma EventsOfFirst(t: Trace, rest: seq<Trace>)
    ensures AllEvents([t] + rest) == EventsOf(t.effects) + AllEvents(rest)
  {
    assert ([t] + rest)[1..] == rest;
  }

  /**
   * The outbox gains exactly the events recorded in committed boundaries, in order, and each of those
   * boundaries had every frame return. A record attempted outside a boundary adds nothing.
   */
  lemma {:induction false} OutboxHoldsCommittedEvents(w: Work, last: End, store: Store)
    ensures Outside(w, last, store).store.outbox == store.outbox + AllEvents(Committed(w, last, store))
    ensures forall t <- Committed(w, last, store) :: AllReturned(t.ends) && t.end.Returned?
    decreases w
  {
    match w
    case Done(_) =>
    case Pass =>
    case Write(cell, value, next) => OutboxHoldsCommittedEvents(next, last, Apply(store, Wrote(cell, value)));
    case Read(cell, ifPresent, ifAbsent) =>
      OutboxHoldsCommittedEvents(if cell in store.cells then ifPresent else ifAbsent, last, store);
    case Record(_, _, refused) => OutboxHoldsCommittedEvents(refused, Threw(TransactionRequired), store);
    case Execute(inner, driver, onReturn, onFailed, onThrow) =>
      var o := Boundary(inner, driver, store);
      BoundaryCommits(inner, driver, store);
      hide Boundary, Inside, EventsOf;
      match o.end {
        case Returned =>
          OutboxHoldsCommittedEvents(onReturn, o.end, o.store);
          EventsOfFirst(Inside(inner, Returned, store), Committed(onReturn, o.end, o.store));
        case FailedResult(_) => OutboxHoldsCommittedEvents(onFailed, o.end, o.store);
        case Threw(_) => OutboxHoldsCommittedEvents(onThrow, o.end, o.store);
      }
  }
}
