/**
 Admission control: callers take a queue slot, then a permit of their class, then one of the global permits, and
 give them back in the order the original drops them. Every step of every caller is separate.
 */
module Admission {
  import opened Counting

  datatype Class = Reader | Writer | Maintenance

  datatype PerClass = PerClass(reader: int, writer: int, maintenance: int)
  {
    function Of(c: Class): int {
      match c
      case Reader => reader
      case Writer => writer
      case Maintenance => maintenance
    }

    function Add(c: Class, n: int): PerClass {
      match c
      case Reader => this.(reader := reader + n)
      case Writer => this.(writer := writer + n)
      case Maintenance => this.(maintenance := maintenance + n)
    }
  }

  datatype Limits = Limits(active: nat, queued: nat, classes: PerClass)

  /** What the constructor insists on. */
  predicate ValidLimits(l: Limits) {
    l.active > 0 && l.queued > 0 && l.classes.reader > 0 && l.classes.writer > 0 && l.classes.maintenance > 0
  }

  /** How far a caller has come. Each gauge is a counter for all callers and one for the class, moved one by one. */
  datatype Phase =
    | Out
    | Slot(kind: Class)      // has a queue slot
    | Joining(kind: Class)   // is counted as queued
    | Waiting(kind: Class)   // is counted as queued in its class as well
    | Ranked(kind: Class)    // has its class permit
    | Ready(kind: Class)     // has both permits
    | Late(kind: Class)      // timed out and has neither
    | Passing(kind: Class)   // has both permits, no longer counted as queued
    | Quitting(kind: Class)  // has neither, no longer counted as queued
    | Entering(kind: Class)  // no longer counted as queued in its class, and on the way in
    | Leaving(kind: Class)   // no longer counted as queued in its class, and on the way out
    | Admitted(kind: Class)  // has given back its slot
    | Starting(kind: Class)  // is counted as active
    | Running(kind: Class)   // is counted as active in its class as well
    | Stopping(kind: Class)  // is no longer counted as active
    | Ending(kind: Class)    // is no longer counted as active in its class
    | Releasing(kind: Class) // has given back its global permit

  datatype Step =
    | Arrive(kind: Class) | CountQueued | CountQueuedIn | TakeClass | TakeGlobal | Timeout | Uncount | UncountIn
      | ReturnSlot
    | CountActive | CountActiveIn | Finish | FinishIn | ReturnGlobal | ReturnClass

  /** The semaphores' free permits, the gauges, and the callers. */
  datatype State = State(
    slots: int, free: int, classes: PerClass, queued: int, queuedIn: PerClass, active: int, activeIn: PerClass,
    callers: seq<Phase>)

  function Initial(l: Limits, callers: nat): State {
    State(l.queued, l.active, l.classes, 0, PerClass(0, 0, 0), 0, PerClass(0, 0, 0), seq(callers, i => Out))
  }

  /** The phases a step starts from. */
  predicate Applies(p: Phase, step: Step) {
    match step
    case Arrive(_) => p.Out?
    case CountQueued => p.Slot?
    case CountQueuedIn => p.Joining?
    case TakeClass => p.Waiting?
    case TakeGlobal => p.Ranked?
    case Timeout => p.Waiting? || p.Ranked?
    case Uncount => p.Ready? || p.Late?
    case UncountIn => p.Passing? || p.Quitting?
    case ReturnSlot => p.Leaving? || p.Entering?
    case CountActive => p.Admitted?
    case CountActiveIn => p.Starting?
    case Finish => p.Running?
    case FinishIn => p.Stopping?
    case ReturnGlobal => p.Ending?
    case ReturnClass => p.Releasing?
  }

  /** Taking from a semaphore needs a free permit. Nothing else waits. */
  predicate Enabled(s: State, i: nat, step: Step) {
    && i < |s.callers| && Applies(s.callers[i], step)
    && (step.Arrive? ==> s.slots > 0)
    && (step.TakeClass? ==> s.classes.Of(s.callers[i].kind) > 0)
    && (step.TakeGlobal? ==> s.free > 0)
  }

  /** The counters after an enabled step of a caller in phase `p`, and the caller's next phase. */
  function Take(s: State, p: Phase, step: Step): (State, Phase)
    requires Applies(p, step)
  {
    match step
    case Arrive(c) => (s.(slots := s.slots - 1), Slot(c))
    case CountQueued => (s.(queued := s.queued + 1), Joining(p.kind))
    case CountQueuedIn => (s.(queuedIn := s.queuedIn.Add(p.kind, 1)), Waiting(p.kind))
    case TakeClass => (s.(classes := s.classes.Add(p.kind, -1)), Ranked(p.kind))
    case TakeGlobal => (s.(free := s.free - 1), Ready(p.kind))
    case Timeout => (if p.Ranked? then s.(classes := s.classes.Add(p.kind, 1)) else s, Late(p.kind))
    case Uncount => (s.(queued := s.queued - 1), if p.Ready? then Passing(p.kind) else Quitting(p.kind))
    case UncountIn =>
      (s.(queuedIn := s.queuedIn.Add(p.kind, -1)), if p.Passing? then Entering(p.kind) else Leaving(p.kind))
    case ReturnSlot => (s.(slots := s.slots + 1), if p.Entering? then Admitted(p.kind) else Out)
    case CountActive => (s.(active := s.active + 1), Starting(p.kind))
    case CountActiveIn => (s.(activeIn := s.activeIn.Add(p.kind, 1)), Running(p.kind))
    case Finish => (s.(active := s.active - 1), Stopping(p.kind))
    case FinishIn => (s.(activeIn := s.activeIn.Add(p.kind, -1)), Ending(p.kind))
    case ReturnGlobal => (s.(free := s.free + 1), Releasing(p.kind))
    case ReturnClass => (s.(classes := s.classes.Add(p.kind, 1)), Out)
  }

  /** A step that cannot be taken, such as an arrival at a full queue, changes nothing. */
  function Next(s: State, i: nat, step: Step): State {
    if Enabled(s, i, step) then
      var (t, p) := Take(s, s.callers[i], step);
      t.(callers := s.callers[i := p])
    else s
  }

  function Run(s: State, steps: seq<(nat, Step)>): State
    decreases |steps|
  {
    if steps == [] then s else Run(Next(s, steps[0].0, steps[0].1), steps[1..])
  }

  // ---- What every run keeps -----------------------------------------------------------------------

  /** The things a caller may have. */
  datatype Holding = SlotOf | ClassOf(of: Class) | GlobalOf | QueuedOf | QueuedAs(of: Class) | ActiveOf
    | ActiveAs(of: Class)

  predicate Has(h: Holding, p: Phase) {
    match h
    case SlotOf => !p.Out? && !Settled(p)
    case ClassOf(c) => (Permitted(p) || p.Ranked? || p.Releasing?) && p.kind == c
    case GlobalOf => Permitted(p)
    case QueuedOf => p.Joining? || InQueue(p)
    case QueuedAs(c) => (InQueue(p) || p.Passing? || p.Quitting?) && p.kind == c
    case ActiveOf => p.Starting? || p.Running?
    case ActiveAs(c) => (p.Running? || p.Stopping?) && p.kind == c
  }

  predicate InQueue(p: Phase) {
    p.Waiting? || p.Ranked? || p.Ready? || p.Late?
  }

  /** Has given back its queue slot. */
  predicate Settled(p: Phase) {
    p.Admitted? || p.Starting? || p.Running? || p.Stopping? || p.Ending? || p.Releasing?
  }

  /** Holds a global permit. */
  predicate Permitted(p: Phase) {
    p.Ready? || p.Passing? || p.Entering? || (Settled(p) && !p.Releasing?)
  }

  /** How much of it the counters say is in use. */
  function InUse(l: Limits, s: State, h: Holding): int {
    match h
    case SlotOf => l.queued - s.slots
    case ClassOf(c) => l.classes.Of(c) - s.classes.Of(c)
    case GlobalOf => l.active - s.free
    case QueuedOf => s.queued
    case QueuedAs(c) => s.queuedIn.Of(c)
    case ActiveOf => s.active
    case ActiveAs(c) => s.activeIn.Of(c)
  }

  /** Permits are conserved, the gauges are exact, and no semaphore is overdrawn. */
  ghost predicate Inv(l: Limits, s: State) {
    && (forall h: Holding :: InUse(l, s, h) == Count(Has, h, s.callers))
    && s.slots >= 0 && s.free >= 0 && forall c: Class :: s.classes.Of(c) >= 0
  }

  /** A step moves one caller, and each counter by what that caller gains or gives up. */
  lemma StepBalances(l: Limits, s: State, p: Phase, step: Step, h: Holding)
    requires Applies(p, step)
    ensures var (t, q) := Take(s, p, step);
      InUse(l, t, h) == InUse(l, s, h) + (if Has(h, q) then 1 else 0) - (if Has(h, p) then 1 else 0)
  {
    if Waits(step) { WaitBalances(l, s, p, step, h); } else { WorkBalances(l, s, p, step, h); }
  }

  /** A step between the arrival and the return of the queue slot. */
  predicate Waits(step: Step) {
    || step.Arrive? || step.CountQueued? || step.CountQueuedIn? || step.TakeClass? || step.TakeGlobal?
    || step.Timeout? || step.Uncount? || step.UncountIn?
  }

  lemma WaitBalances(l: Limits, s: State, p: Phase, step: Step, h: Holding)
    requires Applies(p, step) && Waits(step)
    ensures var (t, q) := Take(s, p, step);
      InUse(l, t, h) == InUse(l, s, h) + (if Has(h, q) then 1 else 0) - (if Has(h, p) then 1 else 0)
  {
  }

  lemma WorkBalances(l: Limits, s: State, p: Phase, step: Step, h: Holding)
    requires Applies(p, step) && !Waits(step)
    ensures var (t, q) := Take(s, p, step);
      InUse(l, t, h) == InUse(l, s, h) + (if Has(h, q) then 1 else 0) - (if Has(h, p) then 1 else 0)
  {
  }

  lemma NextKeepsInv(l: Limits, s: State, i: nat, step: Step)
    requires Inv(l, s)
    ensures Inv(l, Next(s, i, step))
  {
    if Enabled(s, i, step) {
      var (t, q) := Take(s, s.callers[i], step);
      forall h: Holding ensures InUse(l, Next(s, i, step), h) == Count(Has, h, Next(s, i, step).callers) {
        StepBalances(l, s, s.callers[i], step, h);
        CountUpdate(Has, h, s.callers, i, q);
      }
      forall c: Class ensures t.classes.Of(c) >= 0 {
        assert s.classes.Of(c) >= 0;
      }
    }
  }

  lemma {:induction false} RunKeepsInv(l: Limits, s: State, steps: seq<(nat, Step)>)
    requires Inv(l, s)
    ensures Inv(l, Run(s, steps))
    decreases |steps|
  {
    if steps != [] {
      NextKeepsInv(l, s, steps[0].0, steps[0].1);
      RunKeepsInv(l, Next(s, steps[0].0, steps[0].1), steps[1..]);
    }
  }

  lemma InitialInv(l: Limits, callers: nat)
    requires ValidLimits(l)
    ensures Inv(l, Initial(l, callers))
  {
    forall h: Holding ensures InUse(l, Initial(l, callers), h) == Count(Has, h, Initial(l, callers).callers) {
      CountNone(Has, h, Initial(l, callers).callers);
    }
  }

  lemma WithinLimits(l: Limits, s: State)
    requires Inv(l, s)
    ensures Count(Has, SlotOf, s.callers) <= l.queued && Count(Has, GlobalOf, s.callers) <= l.active
    ensures forall c: Class :: Count(Has, ClassOf(c), s.callers) <= l.classes.Of(c)
    ensures 0 <= s.queued <= l.queued && 0 <= s.active <= l.active
    ensures forall c: Class :: 0 <= s.activeIn.Of(c) <= l.classes.Of(c) && 0 <= s.queuedIn.Of(c) <= l.queued
  {
    assert InUse(l, s, SlotOf) == Count(Has, SlotOf, s.callers)
      && InUse(l, s, GlobalOf) == Count(Has, GlobalOf, s.callers);
    assert InUse(l, s, QueuedOf) == Count(Has, QueuedOf, s.callers)
      && InUse(l, s, ActiveOf) == Count(Has, ActiveOf, s.callers);
    CountAtMost(Has, QueuedOf, SlotOf, s.callers);
    CountAtMost(Has, ActiveOf, GlobalOf, s.callers);
    forall c: Class
      ensures 0 <= s.activeIn.Of(c) <= l.classes.Of(c) && Count(Has, ClassOf(c), s.callers) <= l.classes.Of(c)
      ensures 0 <= s.queuedIn.Of(c) <= l.queued
    {
      assert InUse(l, s, QueuedAs(c)) == Count(Has, QueuedAs(c), s.callers);
      CountAtMost(Has, QueuedAs(c), SlotOf, s.callers);
      assert InUse(l, s, ClassOf(c)) == Count(Has, ClassOf(c), s.callers);
      assert InUse(l, s, ActiveAs(c)) == Count(Has, ActiveAs(c), s.callers);
      CountAtMost(Has, ActiveAs(c), ClassOf(c), s.callers);
    }
  }

  /** In every run the callers in each stage, and the gauges that report them, stay within the limits. */
  lemma RunsStayWithinLimits(l: Limits, callers: nat, steps: seq<(nat, Step)>)
    requires ValidLimits(l)
    ensures var s := Run(Initial(l, callers), steps);
      && Inv(l, s)
      && Count(Has, SlotOf, s.callers) <= l.queued && Count(Has, GlobalOf, s.callers) <= l.active
      && (forall c: Class :: Count(Has, ClassOf(c), s.callers) <= l.classes.Of(c))
      && 0 <= s.queued <= l.queued && 0 <= s.active <= l.active
      && (forall c: Class :: 0 <= s.activeIn.Of(c) <= l.classes.Of(c) && 0 <= s.queuedIn.Of(c) <= l.queued)
  {
    InitialInv(l, callers);
    RunKeepsInv(l, Initial(l, callers), steps);
    WithinLimits(l, Run(Initial(l, callers), steps));
  }

  /** An arrival is refused exactly when as many callers hold queue slots as there are. */
  lemma RefusedIffFull(l: Limits, s: State, i: nat, c: Class)
    requires Inv(l, s) && i < |s.callers| && s.callers[i].Out?
    ensures Enabled(s, i, Arrive(c)) <==> Count(Has, SlotOf, s.callers) < l.queued
  {
    assert InUse(l, s, SlotOf) == Count(Has, SlotOf, s.callers);
  }

  // ---- No deadlock --------------------------------------------------------------------------------

  predicate WaitsForPermit(p: Phase) {
    p.Waiting? || p.Ranked?
  }

  /** When nobody holds a global permit or is giving back a class permit, one of those who wait can go on. */
  lemma WaiterCanStep(l: Limits, s: State, j: nat) returns (i: nat, step: Step)
    requires ValidLimits(l) && Inv(l, s) && j < |s.callers| && WaitsForPermit(s.callers[j])
    requires forall k :: 0 <= k < |s.callers| ==> !Permitted(s.callers[k]) && !s.callers[k].Releasing?
    ensures i < |s.callers| && WaitsForPermit(s.callers[i]) && Enabled(s, i, step) && step != Timeout
  {
    if k :| 0 <= k < |s.callers| && s.callers[k].Ranked? {
      i, step := k, TakeGlobal;
      CountNone(Has, GlobalOf, s.callers);
      assert InUse(l, s, GlobalOf) == Count(Has, GlobalOf, s.callers);
    } else {
      i, step := j, TakeClass;
      var c := s.callers[j].kind;
      CountNone(Has, ClassOf(c), s.callers);
      assert InUse(l, s, ClassOf(c)) == Count(Has, ClassOf(c), s.callers);
    }
  }

  /** The step that a caller who waits for nothing takes next. */
  function OwnStep(p: Phase): Step
    requires Permitted(p) || p.Releasing?
  {
    match p
    case Ready(_) => Uncount
    case Passing(_) => UncountIn
    case Entering(_) => ReturnSlot
    case Admitted(_) => CountActive
    case Starting(_) => CountActiveIn
    case Running(_) => Finish
    case Stopping(_) => FinishIn
    case Ending(_) => ReturnGlobal
    case Releasing(_) => ReturnClass
  }

  /** As long as anyone waits, someone can go on without a timeout. */
  lemma NoDeadlock(l: Limits, s: State, j: nat) returns (i: nat, step: Step)
    requires ValidLimits(l) && Inv(l, s) && j < |s.callers| && WaitsForPermit(s.callers[j])
    ensures Enabled(s, i, step) && step != Timeout
  {
    if k :| 0 <= k < |s.callers| && (Permitted(s.callers[k]) || s.callers[k].Releasing?) {
      i, step := k, OwnStep(s.callers[k]);
    } else {
      i, step := WaiterCanStep(l, s, j);
    }
  }
}
