/**
 Process-wide readiness and transaction drain. The class is the source's object; the machine below
 it interleaves any number of callers, readiness updaters and one drainer at the level of single
 atomic accesses, under sequential consistency.
 */
module Lifecycle {

  datatype Readiness = Starting | Ready | StorageUnavailable | Draining

  class RuntimeLifecycle {
    var accepting: bool
    var readiness: Readiness
    var active: nat

    constructor ()
      ensures accepting && readiness == Starting && active == 0
    {
      accepting, readiness, active := true, Starting, 0;
    }

    /** The compare-and-swap loop; `spurious` weak exchanges fail although the value matches. */
    method UpdateReadiness(next: Readiness, spurious: nat)
      modifies `readiness
      ensures readiness == if old(readiness) == Draining then Draining else next
    {
      var current, left := readiness, spurious;
      while true
        invariant readiness == old(readiness) && current == readiness
        decreases left
      {
        if current == Draining { return; }
        if left == 0 {
          readiness := next;
          return;
        }
        left := left - 1;
        current := readiness;
      }
    }

    method BeginDrain() returns (notified: bool)
      modifies `accepting, `readiness
      ensures !accepting && readiness == Draining
      ensures notified <==> active == 0
    {
      accepting := false;
      readiness := Draining;
      notified := active == 0;
    }

    /** `racing` says that a drain closes the gate between the increment and the second look. */
    method TryStartTransaction(racing: bool) returns (started: bool)
      modifies `accepting, `active
      ensures started <==> old(accepting) && !racing
      ensures active == old(active) + if started then 1 else 0
      ensures accepting == (old(accepting) && !racing)
    {
      if !accepting { return false; }
      active := active + 1;
      if racing { accepting := false; }
      if accepting { return true; }
      var _ := TransactionFinished();
      return false;
    }

    method TransactionFinished() returns (notified: bool)
      requires active > 0
      modifies `active
      ensures active == old(active) - 1
      ensures notified <==> active == 0
    {
      active := active - 1;
      notified := active == 0;
    }
  }

  // ---- The interleaving machine -------------------------------------------------------------------

  /** Where a caller stands inside try_start_transaction and after it. */
  datatype Phase =
    | Outside
    | Admitted  // first look saw the gate open
    | Joined    // counter incremented, second look pending
    | Leaving   // second look saw the gate closed, decrement pending
    | Started   // try_start returned true and the transaction has not finished

  datatype Update = NoUpdate | Updating(current: Readiness, next: Readiness)

  datatype State = State(
    accepting: bool,
    readiness: Readiness,
    active: int,
    callers: map<nat, Phase>,
    updaters: map<nat, Update>)

  datatype Action =
    | Look(caller: nat)
    | Join(caller: nat)
    | LookAgain(caller: nat)
    | Leave(caller: nat)
    | Finish(caller: nat)
    | CloseGate
    | MarkDraining
    | ReadReadiness(updater: nat, next: Readiness)
    | Exchange(updater: nat, spurious: bool)

  const INITIAL := State(true, Starting, 0, map[], map[])

  function PhaseOf(s: State, caller: nat): Phase {
    if caller in s.callers then s.callers[caller] else Outside
  }

  function Move(s: State, caller: nat, phase: Phase, delta: int): State {
    s.(callers := s.callers[caller := phase], active := s.active + delta)
  }

  /** One atomic access; an action that is not enabled leaves the state alone. */
  function Next(s: State, a: Action): State {
    match a
    case Look(c) => if PhaseOf(s, c).Outside? && s.accepting then Move(s, c, Admitted, 0) else s
    case Join(c) => if PhaseOf(s, c).Admitted? then Move(s, c, Joined, 1) else s
    case LookAgain(c) => if PhaseOf(s, c).Joined? then Move(s, c, if s.accepting then Started else Leaving, 0) else s
    case Leave(c) => if PhaseOf(s, c).Leaving? then Move(s, c, Outside, -1) else s
    case Finish(c) => if PhaseOf(s, c).Started? then Move(s, c, Outside, -1) else s
    case CloseGate => s.(accepting := false)
    case MarkDraining => if s.accepting then s else s.(readiness := Draining) // begin_drain closes the gate first
    case ReadReadiness(u, next) =>
      if next == Draining then s else s.(updaters := s.updaters[u := Updating(s.readiness, next)])
    case Exchange(u, spurious) =>
      if u !in s.updaters || s.updaters[u].NoUpdate? then s
      else
        var update := s.updaters[u];
        if update.current == Draining then s.(updaters := s.updaters[u := NoUpdate])
        else if s.readiness == update.current && !spurious
        then s.(readiness := update.next, updaters := s.updaters[u := NoUpdate])
        else s.(updaters := s.updaters[u := Updating(s.readiness, update.next)])
  }

  function Run(s: State, actions: seq<Action>): State
    decreases |actions|
  {
    if actions == [] then s else Run(Next(s, actions[0]), actions[1..])
  }

  predicate Counted(phase: Phase) {
    phase.Joined? || phase.Leaving? || phase.Started?
  }

  /** The callers the counter stands for. */
  function InFlight(s: State): set<nat> {
    set c | c in s.callers && Counted(s.callers[c])
  }

  ghost predicate Inv(s: State) {
    && s.active == |InFlight(s)|
    && (s.readiness == Draining ==> !s.accepting)
    && (forall u :: u in s.updaters && s.updaters[u].Updating? ==> s.updaters[u].next != Draining)
  }

  lemma MoveKeepsCount(s: State, caller: nat, phase: Phase, delta: int)
    requires s.active == |InFlight(s)|
    requires delta == (if Counted(phase) then 1 else 0) - (if Counted(PhaseOf(s, caller)) then 1 else 0)
    ensures Move(s, caller, phase, delta).active == |InFlight(Move(s, caller, phase, delta))|
  {
    var s' := Move(s, caller, phase, delta);
    var others := InFlight(s) - {caller};
    assert InFlight(s') == if Counted(phase) then others + {caller} else others;
    assert InFlight(s) == if Counted(PhaseOf(s, caller)) then others + {caller} else others;
    assert caller !in others && |others + {caller}| == |others| + 1;
  }

  lemma NextKeepsInv(s: State, a: Action)
    requires Inv(s)
    ensures Inv(Next(s, a))
  {
    var s' := Next(s, a);
    if s'.callers != s.callers {
      match a
      case Look(c) => MoveKeepsCount(s, c, Admitted, 0);
      case Join(c) => MoveKeepsCount(s, c, Joined, 1);
      case LookAgain(c) => MoveKeepsCount(s, c, if s.accepting then Started else Leaving, 0);
      case Leave(c) => MoveKeepsCount(s, c, Outside, -1);
      case Finish(c) => MoveKeepsCount(s, c, Outside, -1);
    } else {
      assert InFlight(s') == InFlight(s);
    }
  }

  /** In every interleaving the counter is the number of callers in flight; it never underflows. */
  lemma {:induction false} RunKeepsInv(s: State, actions: seq<Action>)
    requires Inv(s)
    ensures Inv(Run(s, actions)) && Run(s, actions).active >= 0
    decreases |actions|
  {
    if actions != [] {
      NextKeepsInv(s, actions[0]);
      RunKeepsInv(Next(s, actions[0]), actions[1..]);
    }
  }

  /** Behind a closed gate nobody starts: who has started later had started before. */
  lemma {:induction false} ClosedGateStartsNobody(s: State, actions: seq<Action>, caller: nat)
    requires !s.accepting && !PhaseOf(s, caller).Started?
    ensures !Run(s, actions).accepting && !PhaseOf(Run(s, actions), caller).Started?
    decreases |actions|
  {
    if actions != [] {
      ClosedGateStartsNobody(Next(s, actions[0]), actions[1..], caller);
    }
  }

  /**
   Drain safety: when a waiter reads zero after the gate was closed, no caller holds a started
   transaction, and in no continuation will one ever do so again.
   */
  lemma DrainedForever(before: seq<Action>, after: seq<Action>, caller: nat)
    requires !Run(INITIAL, before).accepting && Run(INITIAL, before).active == 0
    ensures !PhaseOf(Run(INITIAL, before), caller).Started?
    ensures !PhaseOf(Run(Run(INITIAL, before), after), caller).Started?
  {
    assert InFlight(INITIAL) == {};
    RunKeepsInv(INITIAL, before);
    var s := Run(INITIAL, before);
    assert caller !in InFlight(s);
    ClosedGateStartsNobody(s, after, caller);
  }

  /** A racing start is either seen by the drain or fails: once the gate is closed, started means counted. */
  lemma StartedIsCounted(actions: seq<Action>, caller: nat)
    requires PhaseOf(Run(INITIAL, actions), caller).Started?
    ensures Run(INITIAL, actions).active > 0
  {
    assert InFlight(INITIAL) == {};
    RunKeepsInv(INITIAL, actions);
    assert caller in InFlight(Run(INITIAL, actions));
  }

  /** Once draining, always draining: no compare-and-swap loop overwrites it, however late its read was. */
  lemma {:induction false} DrainingIsAbsorbing(s: State, actions: seq<Action>)
    requires s.readiness == Draining
    ensures Run(s, actions).readiness == Draining
    decreases |actions|
  {
    if actions != [] {
      DrainingIsAbsorbing(Next(s, actions[0]), actions[1..]);
    }
  }
}
