/**
 The blocking worker pool: regular work takes a regular permit and then one of all the permits, control work only
 the latter, and there is one more permit in all than there are regular ones.
 */
module WorkerPool {
  import opened Counting

  datatype Phase =
    | Out
    | Queued(control: bool)   // is counted as queued
    | Ranked                  // regular work with its regular permit
    | Quitting                // regular work that was dropped and has given back its permit
    | Ready(control: bool)    // has all its permits
    | Entered(control: bool)  // no longer counted as queued
    | Counted(control: bool)  // counted as active
    | Running(control: bool)  // counted as active in its class as well
    | Ending(control: bool)   // no longer counted as active
    | Ended(control: bool)    // counted no more
    | Releasing               // regular work that has given back the first of its permits

  /** A caller that still waits may also be dropped. */
  datatype Step =
    | Arrive(control: bool) | TakeRegular | TakeTotal | Abandon | Leave | Uncount
    | CountActive | CountClass | Finish | UncountClass | ReturnTotal | ReturnRegular

  datatype State = State(
    total: int, regular: int, queued: int, active: int, activeControl: int, activeRegular: int, callers: seq<Phase>)

  function Initial(workers: nat, callers: nat): State {
    State(workers, workers - 1, 0, 0, 0, 0, seq(callers, i => Out))
  }

  predicate Applies(p: Phase, step: Step) {
    match step
    case Arrive(_) => p.Out?
    case TakeRegular => p.Queued? && !p.control
    case TakeTotal => p.Ranked? || (p.Queued? && p.control)
    case Abandon => p.Ranked?
    case Leave => p.Queued? || p.Quitting?
    case Uncount => p.Ready?
    case CountActive => p.Entered?
    case CountClass => p.Counted?
    case Finish => p.Running?
    case UncountClass => p.Ending?
    case ReturnTotal => p.Ended?
    case ReturnRegular => p.Releasing?
  }

  predicate Enabled(s: State, i: nat, step: Step) {
    && i < |s.callers| && Applies(s.callers[i], step)
    && (step.TakeRegular? ==> s.regular > 0)
    && (step.TakeTotal? ==> s.total > 0)
  }

  function CountIn(s: State, control: bool, n: int): State {
    if control then s.(activeControl := s.activeControl + n) else s.(activeRegular := s.activeRegular + n)
  }

  function Take(s: State, p: Phase, step: Step): (State, Phase)
    requires Applies(p, step)
  {
    match step
    case Arrive(control) => (s.(queued := s.queued + 1), Queued(control))
    case TakeRegular => (s.(regular := s.regular - 1), Ranked)
    case TakeTotal => (s.(total := s.total - 1), Ready(p.Queued?))
    case Abandon => (s.(regular := s.regular + 1), Quitting)
    case Leave => (s.(queued := s.queued - 1), Out)
    case Uncount => (s.(queued := s.queued - 1), Entered(p.control))
    case CountActive => (s.(active := s.active + 1), Counted(p.control))
    case CountClass => (CountIn(s, p.control, 1), Running(p.control))
    case Finish => (s.(active := s.active - 1), Ending(p.control))
    case UncountClass => (CountIn(s, p.control, -1), Ended(p.control))
    case ReturnTotal => (s.(total := s.total + 1), if p.control then Out else Releasing)
    case ReturnRegular => (s.(regular := s.regular + 1), Out)
  }

  function Next(s: State, i: nat, step: Step): State {
    if Enabled(s, i, step) then
      var (t, p) := Take(s, s.callers[i], step);
      t.(callers := s.callers[i := p])
    else s
  }

  function Run(s: State, steps: seq<(nat, Step)>): State
    decreases |steps|
  {
    if steps == [] then s else Run(Next(s, steps[0].0, steps[0].1), steps[1..])
  }

  // ---- What every run keeps -----------------------------------------------------------------------

  datatype Holding = TotalOf | RegularOf | QueuedOf | ActiveOf | ActiveAs(control: bool)

  predicate Working(p: Phase) {
    p.Ready? || p.Entered? || p.Counted? || p.Running? || p.Ending? || p.Ended?
  }

  predicate Has(h: Holding, p: Phase) {
    match h
    case TotalOf => Working(p)
    case RegularOf => p.Ranked? || p.Releasing? || (Working(p) && !p.control)
    case QueuedOf => p.Queued? || p.Ranked? || p.Quitting? || p.Ready?
    case ActiveOf => p.Counted? || p.Running?
    case ActiveAs(control) => (p.Running? || p.Ending?) && p.control == control
  }

  function InUse(workers: nat, s: State, h: Holding): int {
    match h
    case TotalOf => workers - s.total
    case RegularOf => workers - 1 - s.regular
    case QueuedOf => s.queued
    case ActiveOf => s.active
    case ActiveAs(control) => if control then s.activeControl else s.activeRegular
  }

  ghost predicate Inv(workers: nat, s: State) {
    (forall h: Holding :: InUse(workers, s, h) == Count(Has, h, s.callers)) && s.total >= 0 && s.regular >= 0
  }

  lemma StepBalances(workers: nat, s: State, p: Phase, step: Step, h: Holding)
    requires Applies(p, step)
    ensures var (t, q) := Take(s, p, step);
      InUse(workers, t, h) == InUse(workers, s, h) + (if Has(h, q) then 1 else 0) - (if Has(h, p) then 1 else 0)
  {
  }

  lemma NextKeepsInv(workers: nat, s: State, i: nat, step: Step)
    requires Inv(workers, s)
    ensures Inv(workers, Next(s, i, step))
  {
    if Enabled(s, i, step) {
      var (t, q) := Take(s, s.callers[i], step);
      forall h: Holding ensures InUse(workers, Next(s, i, step), h) == Count(Has, h, Next(s, i, step).callers) {
        StepBalances(workers, s, s.callers[i], step, h);
        CountUpdate(Has, h, s.callers, i, q);
      }
    }
  }

  lemma {:induction false} RunKeepsInv(workers: nat, s: State, steps: seq<(nat, Step)>)
    requires Inv(workers, s)
    ensures Inv(workers, Run(s, steps))
    decreases |steps|
  {
    if steps != [] {
      NextKeepsInv(workers, s, steps[0].0, steps[0].1);
      RunKeepsInv(workers, Next(s, steps[0].0, steps[0].1), steps[1..]);
    }
  }

  lemma InitialInv(workers: nat, callers: nat)
    requires workers >= 2
    ensures Inv(workers, Initial(workers, callers))
  {
    forall h: Holding ensures InUse(workers, Initial(workers, callers), h)
      == Count(Has, h, Initial(workers, callers).callers) {
      CountNone(Has, h, Initial(workers, callers).callers);
    }
  }

  /**
   In every run no more than the given number of operations hold a worker, and while no control operation holds
   one there is a free worker: a control request does not wait, however much regular work there is.
   */
  lemma ControlFindsWorker(workers: nat, callers: nat, steps: seq<(nat, Step)>)
    requires workers >= 2
    ensures var s := Run(Initial(workers, callers), steps);
      && Inv(workers, s) && Count(Has, TotalOf, s.callers) <= workers
      && ((forall i :: 0 <= i < |s.callers| && Working(s.callers[i]) ==> !s.callers[i].control) ==>
            && s.total > 0
            && forall i :: 0 <= i < |s.callers| && s.callers[i] == Queued(true) ==> Enabled(s, i, TakeTotal))
  {
    var s := Run(Initial(workers, callers), steps);
    InitialInv(workers, callers);
    RunKeepsInv(workers, Initial(workers, callers), steps);
    assert InUse(workers, s, TotalOf) == Count(Has, TotalOf, s.callers);
    assert InUse(workers, s, RegularOf) == Count(Has, RegularOf, s.callers);
    if forall i :: 0 <= i < |s.callers| && Working(s.callers[i]) ==> !s.callers[i].control {
      CountAtMost(Has, TotalOf, RegularOf, s.callers);
    }
  }
}
