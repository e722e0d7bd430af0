/**
 Sessions over one native connection each, sharing the process-wide transaction counter. Each
 session runs one operation at a time, streams may be dropped at any moment, and every native call
 may fail. Sessions interleave freely between the accesses to shared state.
 */
module Session {
  import Lifecycle

  datatype TransactionState = Idle | Active | Quarantined

  /** What starts a transaction: BEGIN, the closure-style transaction(), or the rolled-back write probe. */
  datatype Kind = Explicit(readOnly: bool) | Scoped | Probe

  datatype Pc =
    | Resting
    | Checked(kind: Kind)   // the state was Idle
    | Entering(kind: Kind)  // inside try_start_transaction
    | Began(kind: Kind)     // try_start_transaction returned true
    | Inside(kind: Kind)    // holds the connection, state Active
    | Ending(commit: bool)  // explicit commit or rollback, holds the connection
    | Updating              // start_update_operation took the connection
    | Ingesting             // start_ingest_operation took the connection
    | Closed

  datatype Flow = Flowing | Exhausted | Failed

  datatype Stream = NoStream | Open(flow: Flow, requested: bool)

  datatype Session = Session(
    slot: bool,          // the connection is in the session's slot
    state: TransactionState,
    readOnly: bool,
    pc: Pc,
    stream: Stream,
    discarded: bool)     // the native connection was dropped

  datatype Work = Done | Refused | Panicked

  /** How the native calls of one operation turn out. */
  datatype Native = Native(
    disable: bool, work: Work, requested: bool, guard: bool,
    commit: bool, reconcile: bool, rollback: bool, restore: bool)

  /** How an ingest ends: without the target's schema, with a refused layout, by a panic, or after staging. */
  datatype Ingest = NoSchema | BadLayout | Unwound | Staged(requested: bool, cleanup: bool)

  datatype Action =
    | Check(kind: Kind)
    | Look | Join | LookAgain | Leave
    | Obtain(native: Native)
    | Conclude(native: Native)
    | TakeToEnd(commit: bool)
    | End(native: Native)
    | OpenStream(guard: bool, setup: Work)
    | Pull(flow: Flow)
    | CancelStream
    | DropStream
    | StartUpdate
    | Execute(native: Native)
    | DropUpdate
    | StartIngest
    | ExecuteIngest(ingest: Ingest)
    | DropIngest
    | Close(native: Native)

  datatype Event = Act(session: nat, action: Action) | Life(life: Lifecycle.Action)

  datatype World = World(life: Lifecycle.State, sessions: map<nat, Session>)

  const FRESH := Session(true, Idle, false, Resting, NoStream, false)

  predicate CommitClean(n: Native) {
    n.guard && n.commit && n.reconcile && n.restore
  }

  predicate RollbackClean(n: Native) {
    n.rollback && n.restore
  }

  /** Whether an update operation ends with its connection fit for return. */
  predicate UpdateClean(n: Native, explicit: bool) {
    if explicit then !n.requested
    else if !n.disable then true
    else if n.requested then RollbackClean(n)
    else if n.work.Done? then CommitClean(n) else RollbackClean(n)
  }

  /** The update's statement panics, and nobody catches it. */
  predicate UpdateUnwinds(n: Native, explicit: bool) {
    n.work.Panicked? && (explicit || n.disable)
  }

  // ---- Steps --------------------------------------------------------------------------------------

  function Put(w: World, i: nat, x: Session): World {
    w.(sessions := w.sessions[i := x])
  }

  function Advance(w: World, a: Lifecycle.Action): World {
    w.(life := Lifecycle.Next(w.life, a))
  }

  /** set_transaction_state: leaving Active finishes the transaction, leaving it clears read-only. */
  function SetState(w: World, i: nat, x: Session, state: TransactionState): World {
    var w' := Put(w, i, x.(state := state, readOnly := x.readOnly && state == Active));
    if x.state == Active && state != Active then Advance(w', Lifecycle.Finish(i)) else w'
  }

  /** The holder of the connection is done: return it, or drop it and quarantine the session. */
  function GiveBack(w: World, i: nat, x: Session, clean: bool, state: TransactionState): World {
    if clean then SetState(w, i, x.(slot := true, pc := Resting), state)
    else SetState(w, i, x.(discarded := true, pc := Resting), Quarantined)
  }

  /** The holder of the connection drops it, and the state stays as it is. */
  function Vanish(w: World, i: nat, x: Session): World {
    Put(w, i, x.(slot := false, discarded := true, pc := Resting))
  }

  function Step(w: World, i: nat, x: Session, a: Action): World {
    match a
    case Check(kind) =>
      if x.pc.Resting? && x.state == Idle then Put(w, i, x.(pc := Checked(kind))) else w
    case Look =>
      if !x.pc.Checked? then w
      else
        var w' := Advance(w, Lifecycle.Look(i));
        Put(w', i, x.(pc := if Lifecycle.PhaseOf(w'.life, i).Admitted? then Entering(x.pc.kind) else Resting))
    case Join => if x.pc.Entering? then Advance(w, Lifecycle.Join(i)) else w
    case LookAgain =>
      if !x.pc.Entering? then w
      else
        var w' := Advance(w, Lifecycle.LookAgain(i));
        if Lifecycle.PhaseOf(w'.life, i).Started? then Put(w', i, x.(pc := Began(x.pc.kind))) else w'
    case Leave =>
      if x.pc.Entering? && Lifecycle.PhaseOf(w.life, i).Leaving?
      then Put(Advance(w, Lifecycle.Leave(i)), i, x.(pc := Resting)) else w
    case Obtain(n) =>
      if !x.pc.Began? then w
      else if !x.slot || !n.disable then Put(Advance(w, Lifecycle.Finish(i)), i, x.(pc := Resting))
      else if x.pc.kind.Explicit? then Put(w, i, x.(state := Active, readOnly := x.pc.kind.readOnly, pc := Resting))
      else Put(w, i, x.(slot := false, state := Active, pc := Inside(x.pc.kind)))
    case Conclude(n) =>
      if !x.pc.Inside? then w
      else if x.pc.kind.Probe? && n.work.Panicked? then Vanish(w, i, x)
      else GiveBack(w, i, x, if x.pc.kind.Scoped? && n.work.Done? then CommitClean(n) else RollbackClean(n), Idle)
    case TakeToEnd(commit) =>
      if x.pc.Resting? && x.state == Active && x.slot then Put(w, i, x.(slot := false, pc := Ending(commit))) else w
    case End(n) =>
      if !x.pc.Ending? then w
      else GiveBack(w, i, x, if x.pc.commit then CommitClean(n) else RollbackClean(n), Idle)
    case OpenStream(guard, setup) =>
      if !x.pc.Resting? || !x.slot then w
      else if !guard || setup.Panicked? then Vanish(w, i, x)
      else if setup.Done? then Put(w, i, x.(slot := false, stream := Open(Flowing, false)))
      else w
    case Pull(flow) => if x.stream.Open? then Put(w, i, x.(stream := x.stream.(flow := flow))) else w
    case CancelStream => if x.stream.Open? then Put(w, i, x.(stream := x.stream.(requested := true))) else w
    case DropStream =>
      if !x.stream.Open? then w
      else if x.stream.flow == Exhausted && !x.stream.requested && !x.slot
      then Put(w, i, x.(stream := NoStream, slot := true))
      else SetState(w, i, x.(stream := NoStream, discarded := true), Quarantined)
    case StartUpdate =>
      if x.pc.Resting? && x.slot && !(x.state == Active && x.readOnly)
      then Put(w, i, x.(slot := false, pc := Updating)) else w
    case Execute(n) =>
      if !x.pc.Updating? then w
      else if UpdateUnwinds(n, x.state == Active) then Vanish(w, i, x)
      else GiveBack(w, i, x, UpdateClean(n, x.state == Active), x.state)
    case DropUpdate =>
      if x.pc.Updating? then Vanish(w, i, x) else w
    case StartIngest =>
      if x.pc.Resting? && x.slot && !(x.state == Active && x.readOnly)
      then Put(w, i, x.(slot := false, pc := Ingesting)) else w
    case ExecuteIngest(r) =>
      if !x.pc.Ingesting? then w
      else if r.NoSchema? || r.Unwound? then Vanish(w, i, x)
      else GiveBack(w, i, x, r.BadLayout? || (!r.requested && r.cleanup), x.state)
    case DropIngest =>
      if x.pc.Ingesting? then Vanish(w, i, x) else w
    case Close(n) =>
      if !x.pc.Resting? || x.stream.Open? then w
      else if x.state != Active || !x.slot then Put(w, i, x.(pc := Closed))
      else
        var w' := GiveBack(w, i, x.(slot := false), RollbackClean(n), Idle);
        Put(w', i, w'.sessions[i].(pc := Closed))
  }

  /** Drain and readiness steps belong to nobody's transaction. */
  predicate Anonymous(a: Lifecycle.Action) {
    a.CloseGate? || a.MarkDraining? || a.ReadReadiness? || a.Exchange?
  }

  function Next(w: World, event: Event): World {
    match event
    case Act(i, a) => if i in w.sessions then Step(w, i, w.sessions[i], a) else Put(w, i, FRESH)
    case Life(a) => if Anonymous(a) then Advance(w, a) else w
  }

  function Run(w: World, events: seq<Event>): World
    decreases |events|
  {
    if events == [] then w else Run(Next(w, events[0]), events[1..])
  }

  const INITIAL := World(Lifecycle.INITIAL, map[])

  // ---- The invariant ------------------------------------------------------------------------------

  predicate OperationHolds(pc: Pc) {
    pc.Inside? || pc.Ending? || pc.Updating? || pc.Ingesting?
  }

  function One(b: bool): nat { if b then 1 else 0 }

  /** In how many places the session's connection is. */
  function Places(x: Session): nat {
    One(x.slot) + One(OperationHolds(x.pc)) + One(x.stream.Open?) + One(x.discarded)
  }

  ghost predicate PhaseFits(x: Session, phase: Lifecycle.Phase) {
    match x.pc
    case Resting => phase == if x.state == Active then Lifecycle.Started else Lifecycle.Outside
    case Updating => phase == if x.state == Active then Lifecycle.Started else Lifecycle.Outside
    case Ingesting => phase == if x.state == Active then Lifecycle.Started else Lifecycle.Outside
    case Checked(_) => x.state != Active && phase.Outside?
    case Entering(_) => x.state != Active && (phase.Admitted? || phase.Joined? || phase.Leaving?)
    case Began(_) => x.state != Active && phase.Started?
    case Inside(kind) => x.state == Active && phase.Started? && !kind.Explicit?
    case Ending(_) => x.state == Active && phase.Started?
    case Closed =>
      && !x.stream.Open?
      && phase == (if x.state == Active then Lifecycle.Started else Lifecycle.Outside)
      && (x.state == Active ==> x.discarded)
  }

  ghost predicate SessionInv(x: Session, phase: Lifecycle.Phase) {
    && Places(x) == 1
    && (x.state == Quarantined ==> x.discarded)
    && (x.readOnly ==> x.state == Active)
    && PhaseFits(x, phase)
  }

  ghost predicate Inv(w: World) {
    && Lifecycle.Inv(w.life)
    && (forall i :: i in w.sessions ==> SessionInv(w.sessions[i], Lifecycle.PhaseOf(w.life, i)))
    && (forall c :: c in w.life.callers && c !in w.sessions ==> w.life.callers[c].Outside?)
  }

  /** One step of one session: the others, and their places in the counter, are untouched. */
  lemma StepIsLocal(w: World, i: nat, x: Session, a: Action, j: nat)
    requires i in w.sessions && w.sessions[i] == x && j != i
    ensures var w' := Step(w, i, x, a);
      && (j in w'.sessions <==> j in w.sessions) && (j in w.sessions ==> w'.sessions[j] == w.sessions[j])
      && (j in w'.life.callers <==> j in w.life.callers)
        && Lifecycle.PhaseOf(w'.life, j) == Lifecycle.PhaseOf(w.life, j)
  {
    StepLeavesSessions(w, i, x, a, j);
    StepLeavesCallers(w, i, x, a, j);
  }

  lemma StepLeavesSessions(w: World, i: nat, x: Session, a: Action, j: nat)
    requires i in w.sessions && w.sessions[i] == x && j != i
    ensures var w' := Step(w, i, x, a);
      (j in w'.sessions <==> j in w.sessions) && (j in w.sessions ==> w'.sessions[j] == w.sessions[j])
  {
  }

  lemma StepLeavesCallers(w: World, i: nat, x: Session, a: Action, j: nat)
    requires i in w.sessions && w.sessions[i] == x && j != i
    ensures var w' := Step(w, i, x, a);
      (j in w'.life.callers <==> j in w.life.callers) && Lifecycle.PhaseOf(w'.life, j) == Lifecycle.PhaseOf(w.life, j)
  {
    if Begins(a) { BeginLeavesCallers(w, i, x, a, j); }
    else if Operates(a) { OperationLeavesCallers(w, i, x, a, j); }
    else { WorkLeavesCallers(w, i, x, a, j); }
  }

  lemma BeginLeavesCallers(w: World, i: nat, x: Session, a: Action, j: nat)
    requires i in w.sessions && w.sessions[i] == x && j != i && Begins(a)
    ensures var w' := Step(w, i, x, a);
      (j in w'.life.callers <==> j in w.life.callers) && Lifecycle.PhaseOf(w'.life, j) == Lifecycle.PhaseOf(w.life, j)
  {
  }

  lemma OperationLeavesCallers(w: World, i: nat, x: Session, a: Action, j: nat)
    requires i in w.sessions && w.sessions[i] == x && j != i && Operates(a)
    ensures var w' := Step(w, i, x, a);
      (j in w'.life.callers <==> j in w.life.callers) && Lifecycle.PhaseOf(w'.life, j) == Lifecycle.PhaseOf(w.life, j)
  {
  }

  lemma WorkLeavesCallers(w: World, i: nat, x: Session, a: Action, j: nat)
    requires i in w.sessions && w.sessions[i] == x && j != i && !Begins(a) && !Operates(a)
    ensures var w' := Step(w, i, x, a);
      (j in w'.life.callers <==> j in w.life.callers) && Lifecycle.PhaseOf(w'.life, j) == Lifecycle.PhaseOf(w.life, j)
  {
  }

  lemma StepKeepsCounter(w: World, i: nat, x: Session, a: Action)
    requires i in w.sessions && w.sessions[i] == x && Lifecycle.Inv(w.life)
    ensures Lifecycle.Inv(Step(w, i, x, a).life)
  {
    forall b: Lifecycle.Action ensures Lifecycle.Inv(Lifecycle.Next(w.life, b)) {
      Lifecycle.NextKeepsInv(w.life, b);
    }
  }

  lemma StepKeepsSession(w: World, i: nat, x: Session, a: Action)
    requires i in w.sessions && w.sessions[i] == x && SessionInv(x, Lifecycle.PhaseOf(w.life, i))
    ensures var w' := Step(w, i, x, a); i in w'.sessions && SessionInv(w'.sessions[i], Lifecycle.PhaseOf(w'.life, i))
  {
    if Begins(a) { BeginKeepsSession(w, i, x, a); }
    else if Operates(a) { OperationKeepsSession(w, i, x, a); }
    else { WorkKeepsSession(w, i, x, a); }
  }

  /** A step on the way into a transaction. */
  predicate Begins(a: Action) {
    a.Check? || a.Look? || a.Join? || a.LookAgain? || a.Leave? || a.Obtain?
  }

  /** A step of an update or ingest operation. */
  predicate Operates(a: Action) {
    a.StartUpdate? || a.Execute? || a.DropUpdate? || a.StartIngest? || a.ExecuteIngest? || a.DropIngest?
  }

  lemma BeginKeepsSession(w: World, i: nat, x: Session, a: Action)
    requires i in w.sessions && w.sessions[i] == x && SessionInv(x, Lifecycle.PhaseOf(w.life, i)) && Begins(a)
    ensures var w' := Step(w, i, x, a); i in w'.sessions && SessionInv(w'.sessions[i], Lifecycle.PhaseOf(w'.life, i))
  {
  }

  lemma OperationKeepsSession(w: World, i: nat, x: Session, a: Action)
    requires i in w.sessions && w.sessions[i] == x && SessionInv(x, Lifecycle.PhaseOf(w.life, i)) && Operates(a)
    ensures var w' := Step(w, i, x, a); i in w'.sessions && SessionInv(w'.sessions[i], Lifecycle.PhaseOf(w'.life, i))
  {
    if a.Execute? || a.ExecuteIngest? { ExecutionKeepsSession(w, i, x, a); }
  }

  lemma ExecutionKeepsSession(w: World, i: nat, x: Session, a: Action)
    requires i in w.sessions && w.sessions[i] == x && SessionInv(x, Lifecycle.PhaseOf(w.life, i))
    requires a.Execute? || a.ExecuteIngest?
    ensures var w' := Step(w, i, x, a); i in w'.sessions && SessionInv(w'.sessions[i], Lifecycle.PhaseOf(w'.life, i))
  {
  }

  lemma WorkKeepsSession(w: World, i: nat, x: Session, a: Action)
    requires i in w.sessions && w.sessions[i] == x && SessionInv(x, Lifecycle.PhaseOf(w.life, i))
    requires !Begins(a) && !Operates(a)
    ensures var w' := Step(w, i, x, a); i in w'.sessions && SessionInv(w'.sessions[i], Lifecycle.PhaseOf(w'.life, i))
  {
  }

  lemma NextKeepsInv(w: World, event: Event)
    requires Inv(w)
    ensures Inv(Next(w, event))
  {
    match event
    case Act(i, a) =>
      if i in w.sessions {
        var x := w.sessions[i];
        StepKeepsCounter(w, i, x, a);
        StepKeepsSession(w, i, x, a);
        forall j | j != i
          ensures var w' := Step(w, i, x, a);
            && (j in w'.sessions <==> j in w.sessions) && (j in w.sessions ==> w'.sessions[j] == w.sessions[j])
            && (j in w'.life.callers <==> j in w.life.callers)
              && Lifecycle.PhaseOf(w'.life, j) == Lifecycle.PhaseOf(w.life, j)
        {
          StepIsLocal(w, i, x, a, j);
        }
      }
    case Life(a) => Lifecycle.NextKeepsInv(w.life, a);
  }

  lemma {:induction false} RunKeepsInv(w: World, events: seq<Event>)
    requires Inv(w)
    ensures Inv(Run(w, events))
    decreases |events|
  {
    if events != [] {
      NextKeepsInv(w, events[0]);
      RunKeepsInv(Next(w, events[0]), events[1..]);
    }
  }

  // ---- What holds in every run --------------------------------------------------------------------

  /** The session is in a transaction, or between joining the drain set and changing its state. */
  predicate Counts(w: World, i: nat) {
    && i in w.sessions
    && (|| w.sessions[i].state == Active
        || w.sessions[i].pc.Began?
        || (w.sessions[i].pc.Entering? && Lifecycle.Counted(Lifecycle.PhaseOf(w.life, i))))
  }

  /**
   In every run over any number of sessions: each connection is in exactly one place, a quarantined
   session has an empty slot and nobody holds its connection, and the shared counter is the number of
   sessions in a transaction or on their way into one.
   */
  lemma EveryRun(events: seq<Event>)
    ensures var w := Run(INITIAL, events);
      && (forall i :: i in w.sessions ==> Places(w.sessions[i]) == 1)
      && (forall i :: i in w.sessions && w.sessions[i].state == Quarantined ==>
           !w.sessions[i].slot && !OperationHolds(w.sessions[i].pc) && !w.sessions[i].stream.Open?)
      && w.life.active == |set i | i in w.sessions && Counts(w, i)|
  {
    InitialInv();
    RunKeepsInv(INITIAL, events);
    var w := Run(INITIAL, events);
    SessionsCounted(w);
    forall i | i in w.sessions ensures SessionInv(w.sessions[i], Lifecycle.PhaseOf(w.life, i)) {
    }
  }

  lemma InitialInv()
    ensures Inv(INITIAL)
  {
    assert Lifecycle.InFlight(Lifecycle.INITIAL) == {};
  }

  lemma SessionsCounted(w: World)
    requires Inv(w)
    ensures w.life.active == |set i | i in w.sessions && Counts(w, i)|
  {
    assert Lifecycle.InFlight(w.life) == set i | i in w.sessions && Counts(w, i);
  }

  lemma QuarantineStays(w: World, event: Event, i: nat)
    requires Inv(w) && i in w.sessions && w.sessions[i].state == Quarantined
    ensures i in Next(w, event).sessions && Next(w, event).sessions[i].state == Quarantined
  {
    if event.Act? && event.session in w.sessions && event.session != i {
      StepIsLocal(w, event.session, w.sessions[event.session], event.action, i);
    }
  }

  /** A quarantined session is never used again. */
  lemma {:induction false} QuarantineIsAbsorbing(w: World, events: seq<Event>, i: nat)
    requires Inv(w) && i in w.sessions && w.sessions[i].state == Quarantined
    ensures i in Run(w, events).sessions && Run(w, events).sessions[i].state == Quarantined
      && !Run(w, events).sessions[i].slot
    decreases |events|
  {
    if events != [] {
      NextKeepsInv(w, events[0]);
      QuarantineStays(w, events[0], i);
      QuarantineIsAbsorbing(Next(w, events[0]), events[1..], i);
    }
  }

  /** Refinement: what a session does to the shared state is at most one step of the lifecycle machine. */
  lemma NextIsLifecycleStep(w: World, event: Event) returns (steps: seq<Lifecycle.Action>)
    ensures |steps| <= 1 && Next(w, event).life == Lifecycle.Run(w.life, steps)
  {
    steps := [LifecycleStep(event)];
    assert steps[1..] == [];
    assert Lifecycle.Run(w.life, steps) == Lifecycle.Run(Lifecycle.Next(w.life, steps[0]), []);
    if Next(w, event).life == w.life {
      steps := [];
    }
  }

  /** The lifecycle action an event performs if it touches the shared state at all. */
  function LifecycleStep(event: Event): Lifecycle.Action {
    match event
    case Life(a) => a
    case Act(i, Look) => Lifecycle.Look(i)
    case Act(i, Join) => Lifecycle.Join(i)
    case Act(i, LookAgain) => Lifecycle.LookAgain(i)
    case Act(i, Leave) => Lifecycle.Leave(i)
    case Act(i, _) => Lifecycle.Finish(i)
  }

  lemma {:induction false} ClosedGateStartsNoSession(w: World, events: seq<Event>, i: nat)
    requires Inv(w) && !w.life.accepting && !Lifecycle.PhaseOf(w.life, i).Started?
    ensures Inv(Run(w, events)) && !Lifecycle.PhaseOf(Run(w, events).life, i).Started?
    decreases |events|
  {
    if events != [] {
      NextKeepsInv(w, events[0]);
      var steps := NextIsLifecycleStep(w, events[0]);
      Lifecycle.ClosedGateStartsNobody(w.life, steps, i);
      ClosedGateStartsNoSession(Next(w, events[0]), events[1..], i);
    }
  }

  /** Once the counter reads zero behind a closed gate, no session is in a transaction then or ever after. */
  lemma DrainedSessions(before: seq<Event>, after: seq<Event>, i: nat)
    requires !Run(INITIAL, before).life.accepting && Run(INITIAL, before).life.active == 0
    requires i in Run(Run(INITIAL, before), after).sessions
    ensures var x := Run(Run(INITIAL, before), after).sessions[i]; x.state != Active && !x.pc.Began?
  {
    assert Lifecycle.InFlight(Lifecycle.INITIAL) == {};
    RunKeepsInv(INITIAL, before);
    var w := Run(INITIAL, before);
    assert i !in Lifecycle.InFlight(w.life);
    ClosedGateStartsNoSession(w, after, i);
  }

  // ---- Connections dropped without a change of state -------------------------------------------------

  /**
   The operation drops its connection and says nothing: an update or ingest was not executed, an ingest had no schema
   to ingest into, a stream had no catalog guard, or the work panicked where nobody catches it.
   */
  predicate Silent(x: Session, a: Action) {
    || (a.DropUpdate? && x.pc.Updating?)
    || (a.DropIngest? && x.pc.Ingesting?)
    || (a.ExecuteIngest? && (a.ingest.NoSchema? || a.ingest.Unwound?) && x.pc.Ingesting?)
    || (a.OpenStream? && (!a.guard || a.setup.Panicked?) && x.pc.Resting? && x.slot)
    || (a.Execute? && UpdateUnwinds(a.native, x.state == Active) && x.pc.Updating?)
    || (a.Conclude? && a.native.work.Panicked? && x.pc.Inside? && x.pc.kind.Probe?)
  }

  /** An event that does so inside a transaction. */
  predicate Leaks(w: World, event: Event) {
    && event.Act? && event.session in w.sessions
    && w.sessions[event.session].state == Active && Silent(w.sessions[event.session], event.action)
  }

  /** The sessions whose transaction was left open by such an event of the run. */
  function Leakers(w: World, events: seq<Event>): set<nat>
    decreases |events|
  {
    if events == [] then {}
    else (if Leaks(w, events[0]) then {events[0].session} else {}) + Leakers(Next(w, events[0]), events[1..])
  }

  predicate Gone(w: World, i: nat) {
    i in w.sessions && w.sessions[i].state == Active && w.sessions[i].discarded
  }

  lemma OwnStepLeaks(w: World, i: nat, a: Action)
    requires i in w.sessions && SessionInv(w.sessions[i], Lifecycle.PhaseOf(w.life, i))
    ensures Gone(Step(w, i, w.sessions[i], a), i) <==> Gone(w, i) || Leaks(w, Act(i, a))
  {
    if Begins(a) { BeginLeaks(w, i, a); }
    else if Operates(a) { OperationLeaks(w, i, a); }
    else { WorkLeaks(w, i, a); }
  }

  lemma BeginLeaks(w: World, i: nat, a: Action)
    requires i in w.sessions && SessionInv(w.sessions[i], Lifecycle.PhaseOf(w.life, i)) && Begins(a)
    ensures Gone(Step(w, i, w.sessions[i], a), i) <==> Gone(w, i) || Leaks(w, Act(i, a))
  {
  }

  lemma OperationLeaks(w: World, i: nat, a: Action)
    requires i in w.sessions && SessionInv(w.sessions[i], Lifecycle.PhaseOf(w.life, i)) && Operates(a)
    ensures Gone(Step(w, i, w.sessions[i], a), i) <==> Gone(w, i) || Leaks(w, Act(i, a))
  {
  }

  lemma WorkLeaks(w: World, i: nat, a: Action)
    requires i in w.sessions && SessionInv(w.sessions[i], Lifecycle.PhaseOf(w.life, i))
    requires !Begins(a) && !Operates(a)
    ensures Gone(Step(w, i, w.sessions[i], a), i) <==> Gone(w, i) || Leaks(w, Act(i, a))
  {
  }

  /** A transaction is left without its connection exactly by such an event, and for good. */
  lemma NextLeaks(w: World, event: Event, i: nat)
    requires Inv(w)
    ensures Gone(Next(w, event), i) <==> Gone(w, i) || (Leaks(w, event) && event.session == i)
  {
    if event.Act? && event.session in w.sessions {
      if event.session == i {
        OwnStepLeaks(w, i, event.action);
      } else {
        StepIsLocal(w, event.session, w.sessions[event.session], event.action, i);
      }
    }
  }

  lemma {:induction false} RunLeaks(w: World, events: seq<Event>, i: nat)
    requires Inv(w)
    ensures Gone(Run(w, events), i) <==> Gone(w, i) || i in Leakers(w, events)
    decreases |events|
  {
    if events != [] {
      NextKeepsInv(w, events[0]);
      NextLeaks(w, events[0], i);
      RunLeaks(Next(w, events[0]), events[1..], i);
    }
  }

  lemma ClosedCounts(w: World, i: nat)
    requires Inv(w) && i in w.sessions && w.sessions[i].pc.Closed?
    ensures Counts(w, i) <==> Gone(w, i)
  {
    assert SessionInv(w.sessions[i], Lifecycle.PhaseOf(w.life, i));
  }

  /**
   When every session of a run is closed, the counter is the number of sessions that dropped their connection
   silently inside a transaction. It is back at zero exactly when no event of the run did that.
   */
  lemma ClosedSessionsLeak(events: seq<Event>)
    requires forall i :: i in Run(INITIAL, events).sessions ==> Run(INITIAL, events).sessions[i].pc.Closed?
    ensures Run(INITIAL, events).life.active == |Leakers(INITIAL, events)|
    ensures Run(INITIAL, events).life.active == 0 <==> Leakers(INITIAL, events) == {}
  {
    InitialInv();
    RunKeepsInv(INITIAL, events);
    var w := Run(INITIAL, events);
    SessionsCounted(w);
    forall i: nat ensures i in Leakers(INITIAL, events) <==> i in w.sessions && Counts(w, i) {
      RunLeaks(INITIAL, events, i);
      if i in w.sessions { ClosedCounts(w, i); }
    }
    assert Leakers(INITIAL, events) == set i | i in w.sessions && Counts(w, i);
  }

  /** The run leaks exactly when one of its events does, in the state it finds. */
  lemma {:induction false} LeakersIff(w: World, events: seq<Event>)
    ensures Leakers(w, events) != {} <==>
      exists k :: 0 <= k < |events| && Leaks(Run(w, events[..k]), events[k])
    decreases |events|
  {
    if events != [] {
      var next, rest := Next(w, events[0]), events[1..];
      LeakersIff(next, rest);
      assert events[..0] == [];
      forall k | 0 <= k < |rest| ensures Run(next, rest[..k]) == Run(w, events[..k + 1]) && rest[k] == events[k + 1] {
        assert events[..k + 1][1..] == rest[..k];
      }
      if k :| 0 <= k < |rest| && Leaks(Run(next, rest[..k]), rest[k]) {
        assert Leaks(Run(w, events[..k + 1]), events[k + 1]);
      }
      if k :| 0 <= k < |events| && Leaks(Run(w, events[..k]), events[k]) {
        if k > 0 { assert Leaks(Run(next, rest[..k - 1]), rest[k - 1]); }
      }
    }
  }

  const SMOOTH := Native(true, Done, false, true, true, true, true, true)

  /** A world with one session, after its first look at the gate. */
  function Alone(x: Session, phase: Lifecycle.Phase, active: int): World {
    World(Lifecycle.State(true, Lifecycle.Starting, active, map[0 := phase], map[]), map[0 := x])
  }

  /** Open a session and BEGIN. */
  const BEGIN: seq<Event> :=
    [Act(0, Look), Act(0, Check(Explicit(false))), Act(0, Look), Act(0, Join), Act(0, LookAgain),
     Act(0, Obtain(SMOOTH))]

  /** Then take the connection for an update, drop the update unexecuted, and close the session. */
  const UPDATE_LEAK: seq<Event> := BEGIN + [Act(0, StartUpdate), Act(0, DropUpdate), Act(0, Close(SMOOTH))]

  /** Or begin to open a stream, without the catalog guard, and close the session. */
  const STREAM_LEAK: seq<Event> := BEGIN + [Act(0, OpenStream(false, Done)), Act(0, Close(SMOOTH))]

  const ADMITTED := Alone(FRESH.(pc := Entering(Explicit(false))), Lifecycle.Admitted, 0)

  const STARTED := Alone(FRESH.(pc := Began(Explicit(false))), Lifecycle.Started, 1)

  const OPEN := Alone(FRESH.(state := Active), Lifecycle.Started, 1)

  lemma Unroll(w: World, events: seq<Event>, k: nat)
    requires k < |events|
    ensures Run(w, events[k..]) == Run(Next(w, events[k]), events[k + 1..])
  {
    assert events[k..][1..] == events[k + 1..];
  }

  lemma Enters(events: seq<Event>)
    requires |events| >= 6 && events[..6] == BEGIN
    ensures Run(INITIAL, events) == Run(ADMITTED, events[3..])
  {
    assert forall k :: 0 <= k < 6 ==> events[k] == events[..6][k];
    var w0 := Next(INITIAL, events[0]);
    var w1 := Next(w0, events[1]);
    var w2 := Next(w1, events[2]);
    assert w2 == ADMITTED;
    assert events[0..] == events;
    Unroll(INITIAL, events, 0);
    Unroll(w0, events, 1);
    Unroll(w1, events, 2);
  }

  lemma Starts()
    ensures Next(Next(ADMITTED, Act(0, Join)), Act(0, LookAgain)) == STARTED
  {
    assert Next(ADMITTED, Act(0, Join)) == Alone(FRESH.(pc := Entering(Explicit(false))), Lifecycle.Joined, 1);
  }

  lemma Begun(events: seq<Event>)
    requires |events| >= 6 && events[..6] == BEGIN
    ensures Run(INITIAL, events) == Run(OPEN, events[6..])
  {
    Enters(events);
    Starts();
    assert forall k :: 0 <= k < 6 ==> events[k] == BEGIN[k];
    assert Next(STARTED, events[5]) == OPEN;
    Unroll(ADMITTED, events, 3);
    Unroll(Next(ADMITTED, events[3]), events, 4);
    Unroll(STARTED, events, 5);
  }

  /** The session was closed inside its transaction, without a connection. */
  predicate LeftOpen(w: World) {
    w.sessions.Keys == {0} && w.sessions[0].pc.Closed? && w.life.active == 1
  }

  /** The counter need not return to zero: this run closes its only session and leaves the counter at one. */
  lemma ClosedSessionLeaks()
    ensures LeftOpen(Run(INITIAL, UPDATE_LEAK))
  {
    Begun(UPDATE_LEAK);
    var w6 := Next(OPEN, UPDATE_LEAK[6]);
    assert w6 == Alone(FRESH.(state := Active, slot := false, pc := Updating), Lifecycle.Started, 1);
    var w7 := Next(w6, UPDATE_LEAK[7]);
    assert w7 == Alone(Session(false, Active, false, Resting, NoStream, true), Lifecycle.Started, 1);
    Unroll(OPEN, UPDATE_LEAK, 6);
    Unroll(w6, UPDATE_LEAK, 7);
    Unroll(w7, UPDATE_LEAK, 8);
  }

  /** Nor does it after this one. */
  lemma ClosedStreamLeaks()
    ensures LeftOpen(Run(INITIAL, STREAM_LEAK))
  {
    Begun(STREAM_LEAK);
    var w6 := Next(OPEN, STREAM_LEAK[6]);
    assert w6 == Alone(Session(false, Active, false, Resting, NoStream, true), Lifecycle.Started, 1);
    Unroll(OPEN, STREAM_LEAK, 6);
    Unroll(w6, STREAM_LEAK, 7);
  }
}
