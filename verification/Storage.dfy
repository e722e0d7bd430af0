/**
 One session's storage object, with its native connection: what each operation leaves in the slot,
 in the transaction state, in the shared counter and in the database, for every pattern of native
 failures. A failed native commit may or may not have landed.
 */
module Storage {
  import opened Wrappers
  import opened Lifecycle
  import opened Session

  type Effect = nat

  /** `Unwound` stands for a call that does not return because its work panicked. */
  datatype ErrorKind = EngineFailure | Busy | Cancelled | IndeterminateCommit | QuarantinedKind | Unwound

  datatype Outcome = NotApplicable | RolledBack | Committed | Indeterminate

  datatype EngineError = EngineError(kind: ErrorKind, outcome: Outcome)

  /** The turns of one operation: the native outcomes, what it writes, and what a drain does meanwhile. */
  datatype Script = Script(native: Native, effects: seq<Effect>, landed: bool, racing: bool)

  class DuckDbStorage {
    const lifecycle: RuntimeLifecycle
    var slot: bool                       // the native connection is in the slot
    var state: TransactionState
    var readOnly: bool
    var autocommit: bool                 // native connection: mode and uncommitted effects
    var pending: seq<Effect>
    var durable: seq<Effect>             // database

    /**
     Between operations: a quarantined session has no connection to give out, an idle one gives out a
     connection in autocommit mode with nothing uncommitted, an active one is counted.
     */
    ghost predicate Valid()
      reads this, lifecycle
    {
      && (state == Quarantined ==> !slot)
      && (readOnly ==> state == Active)
      && (state == Active ==> lifecycle.active > 0 && (slot ==> !autocommit))
      && (state == Idle && slot ==> autocommit && pending == [])
    }

    constructor (lifecycle: RuntimeLifecycle)
      ensures Valid() && this.lifecycle == lifecycle
      ensures slot && state == Idle && durable == []
    {
      this.lifecycle := lifecycle;
      slot, state, readOnly, autocommit, pending, durable := true, Idle, false, true, [], [];
    }

    // ---- Native calls ---------------------------------------------------------------------------

    /** Switching autocommit back on commits whatever is uncommitted. */
    method SetAutocommit(on: bool, ok: bool)
      modifies `autocommit, `pending, `durable
      ensures autocommit == if ok then on else old(autocommit)
      ensures pending == if ok && on then [] else old(pending)
      ensures durable == if ok && on then old(durable) + old(pending) else old(durable)
    {
      if ok {
        autocommit := on;
        if on { durable, pending := durable + pending, []; }
      }
    }

    method NativeCommit(ok: bool, landed: bool)
      modifies `pending, `durable
      ensures durable == if ok || landed then old(durable) + old(pending) else old(durable)
      ensures pending == if ok || landed then [] else old(pending)
    {
      if ok || landed { durable, pending := durable + pending, []; }
    }

    method NativeRollback(ok: bool)
      modifies `pending
      ensures pending == if ok then [] else old(pending)
    {
      if ok { pending := []; }
    }

    // ---- Shared helpers -------------------------------------------------------------------------

    method SetState(next: TransactionState)
      requires state == Active ==> lifecycle.active > 0
      modifies `state, `readOnly, lifecycle`active
      ensures state == next && readOnly == (old(readOnly) && next == Active)
      ensures lifecycle.active == old(lifecycle.active) - if old(state) == Active && next != Active then 1 else 0
    {
      if state == Active && next != Active {
        var _ := lifecycle.TransactionFinished();
      }
      state := next;
      if next != Active { readOnly := false; }
    }

    /** Ends the native transaction by rollback; true when the connection is fit for reuse. */
    method RollbackAndRestore(n: Native) returns (clean: bool)
      modifies `autocommit, `pending, `durable
      ensures clean == RollbackClean(n)
      ensures durable == old(durable)
      ensures clean ==> autocommit && pending == []
    {
      NativeRollback(n.rollback);
      if !n.rollback { return false; }
      SetAutocommit(true, n.restore);
      clean := n.restore;
    }

    /** The commit sequence: guard, commit, reconcile, restore. */
    method CommitAndRestore(s: Script) returns (clean: bool)
      modifies `autocommit, `pending, `durable
      ensures clean == CommitClean(s.native)
      ensures durable == if s.native.guard
        && (s.native.commit || s.landed) then old(durable) + old(pending) else old(durable)
      ensures clean ==> autocommit && pending == []
    {
      var n := s.native;
      if !n.guard {
        NativeRollback(n.rollback);
        return false;
      }
      NativeCommit(n.commit, s.landed);
      if !n.commit { return false; }
      if !n.reconcile {
        NativeRollback(n.rollback);
        return false;
      }
      SetAutocommit(true, n.restore);
      clean := n.restore;
    }

    method Dispose(clean: bool, next: TransactionState)
      requires !slot && (state == Active ==> lifecycle.active > 0)
      requires clean && next == Idle ==> autocommit && pending == []
      requires clean && next == Active ==> !autocommit && state == Active
      requires clean ==> next != Quarantined
      modifies `slot, `state, `readOnly, lifecycle`active
      ensures Valid() && slot == clean && state == if clean then next else Quarantined
      ensures lifecycle.active == old(lifecycle.active) - if old(state) == Active && state != Active then 1 else 0
    {
      if clean {
        slot := true;
        SetState(next);
      } else {
        SetState(Quarantined);
      }
    }

    // ---- Explicit transactions ------------------------------------------------------------------

    method Begin(read: bool, s: Script) returns (ok: bool)
      requires Valid()
      modifies `state, `readOnly, `autocommit, `pending, `durable, lifecycle`active, lifecycle`accepting
      ensures Valid() && slot == old(slot) && durable == old(durable)
      ensures ok <==> old(state) == Idle && old(lifecycle.accepting) && !s.racing && old(slot) && s.native.disable
      ensures ok ==> state == Active && readOnly == read && lifecycle.active == old(lifecycle.active) + 1
      ensures !ok ==> state == old(state) && lifecycle.active == old(lifecycle.active)
    {
      if state != Idle { return false; }
      var started := lifecycle.TryStartTransaction(s.racing);
      if !started { return false; }
      if slot { SetAutocommit(false, s.native.disable); }
      if !slot || !s.native.disable {
        var _ := lifecycle.TransactionFinished();
        return false;
      }
      readOnly := read;
      state := Active;
      ok := true;
    }

    /** Commit or rollback of an explicit transaction. */
    method EndTransaction(commit: bool, s: Script) returns (ok: bool)
      requires Valid()
      modifies `slot, `state, `readOnly, `autocommit, `pending, `durable, lifecycle`active
      ensures Valid()
      ensures ok <==>
        && old(state) == Active && old(slot)
        && if commit then CommitClean(s.native) else RollbackClean(s.native)
      ensures ok ==> state == Idle && slot && lifecycle.active == old(lifecycle.active) - 1
      ensures old(state) == Active && old(slot) && !ok ==>
        state == Quarantined && !slot && lifecycle.active == old(lifecycle.active) - 1
      ensures !(old(state) == Active && old(slot)) ==>
        state == old(state) && slot == old(slot) && lifecycle.active == old(lifecycle.active) && durable == old(durable)
      ensures ok ==> durable == if commit then old(durable) + old(pending) else old(durable)
      ensures !commit ==> durable == old(durable)
    {
      if state != Active || !slot { return false; }
      slot := false;
      if commit { ok := CommitAndRestore(s); } else { ok := RollbackAndRestore(s.native); }
      Dispose(ok, Idle);
    }

    /** transaction() and the write probe: `commit` says whether finished work is to be committed. */
    method Scoped(commit: bool, s: Script) returns (entered: bool, clean: bool)
      requires Valid()
      modifies `slot, `state, `readOnly, `autocommit, `pending, `durable, lifecycle`active, lifecycle`accepting
      ensures Valid()
      ensures entered <==> old(state) == Idle && old(lifecycle.accepting) && !s.racing && old(slot) && s.native.disable
      ensures clean ==> entered
      ensures !entered ==> state == old(state) && slot == old(slot) && durable == old(durable)
      // a panic of the probe is not caught: the connection is gone and the transaction stays open
      ensures var lost := entered && !commit && s.native.work.Panicked?;
        && lifecycle.active == old(lifecycle.active) + (if lost then 1 else 0)
        && (lost ==> !clean && !slot && state == Active)
        && (entered && !lost ==>
              && slot == clean && state == (if clean then Idle else Quarantined)
              && clean == if commit && s.native.work.Done? then CommitClean(s.native) else RollbackClean(s.native))
      ensures entered && clean ==>
        durable == if commit && s.native.work.Done? then old(durable) + s.effects else old(durable)
      ensures !commit || !s.native.work.Done? ==> durable == old(durable)
    {
      entered, clean := false, false;
      if state != Idle { return; }
      var started := lifecycle.TryStartTransaction(s.racing);
      if !started { return; }
      if !slot {
        var _ := lifecycle.TransactionFinished();
        return;
      }
      slot := false;
      SetAutocommit(false, s.native.disable);
      if !s.native.disable {
        slot := true;
        var _ := lifecycle.TransactionFinished();
        return;
      }
      state := Active;
      entered := true;
      pending := pending + s.effects;
      if !commit && s.native.work.Panicked? { return; }
      if commit && s.native.work.Done? { clean := CommitAndRestore(s); } else { clean := RollbackAndRestore(s.native); }
      Dispose(clean, Idle);
    }

    // ---- Update operations ------------------------------------------------------------------------

    /** start_update_operation: a read-only transaction refuses, a busy or quarantined session has nothing to take. */
    method StartUpdate() returns (ok: bool)
      requires Valid()
      modifies `slot
      ensures ok <==> old(slot) && !(state == Active && readOnly)
      ensures slot == (old(slot) && !ok)
      ensures Valid()
    {
      ok := slot && !(state == Active && readOnly);
      if ok { slot := false; }
    }

    /**
     DuckDbUpdateOperation::execute on the connection taken by StartUpdate. On success the statement's
     effects join the open transaction, or are committed when there is none.
     */
    method ExecuteUpdate(s: Script) returns (r: Result<(), EngineError>)
      requires Valid() && !slot && state != Quarantined
      requires autocommit <==> state == Idle
      requires state == Idle ==> pending == []
      modifies `slot, `state, `readOnly, `autocommit, `pending, `durable, lifecycle`active
      ensures Valid()
      ensures (r.Err? && r.error.kind == ErrorKind.Unwound) <==> UpdateUnwinds(s.native, old(state) == Active)
      ensures slot == (!UpdateUnwinds(s.native, old(state) == Active) && UpdateClean(s.native, old(state) == Active))
      ensures state == if slot || UpdateUnwinds(s.native, old(state) == Active) then old(state) else Quarantined
      ensures lifecycle.active == old(lifecycle.active) - if old(state) == Active && state != Active then 1 else 0
      // success
      ensures r.Ok? ==> slot && s.native.work.Done?
      ensures r.Ok? && old(state) == Active ==> durable == old(durable) && pending == old(pending) + s.effects
      ensures r.Ok? && old(state) == Idle ==> durable == old(durable) + s.effects && pending == []
      // what a reported outcome means
      ensures r.Err? && r.error.outcome == RolledBack ==> durable == old(durable) && pending == [] && s.native.requested
      ensures r.Err? && r.error.outcome == Committed ==>
        durable == old(durable) + s.effects && old(state) == Idle && state == Quarantined
      ensures r.Err? && r.error.outcome == Indeterminate ==>
        state == Quarantined && (r.error.kind == IndeterminateCommit || durable == old(durable))
      ensures r.Err? && r.error.outcome == NotApplicable ==> durable == old(durable)
      // a commit that was issued and failed is reported as such, and only that is
      ensures (r.Err? && r.error.kind == IndeterminateCommit) <==>
        old(state) == Idle && s.native.disable && !s.native.requested && s.native.work.Done? && s.native.guard
          && !s.native.commit
      ensures r.Err? && r.error.kind == IndeterminateCommit ==>
        r.error.outcome == Indeterminate && state == Quarantined && !slot
    {
      var n, explicit := s.native, state == Active;
      if !explicit {
        SetAutocommit(false, n.disable);
        if !n.disable {
          slot := true;
          return Err(EngineError(EngineFailure, NotApplicable));
        }
      }
      pending := pending + s.effects;
      if n.work.Panicked? { return Err(EngineError(ErrorKind.Unwound, NotApplicable)); }
      if n.requested {
        var rolledBack := RollbackAndRestore(n);
        if explicit {
          Dispose(false, Idle);
        } else {
          Dispose(rolledBack, Idle);
        }
        if rolledBack { return Err(EngineError(Cancelled, RolledBack)); }
        return Err(EngineError(QuarantinedKind, Indeterminate));
      }
      if explicit {
        Dispose(true, Active);
        return if n.work.Done? then Ok(()) else Err(EngineError(EngineFailure, NotApplicable));
      }
      if n.work.Done? {
        var clean := CommitAndRestore(s);
        Dispose(clean, Idle);
        if clean { return Ok(()); }
        if !n.guard { return Err(EngineError(QuarantinedKind, NotApplicable)); }
        if !n.commit { return Err(EngineError(IndeterminateCommit, Indeterminate)); }
        return Err(EngineError(QuarantinedKind, Committed));
      }
      var rolledBack := RollbackAndRestore(n);
      Dispose(rolledBack, Idle);
      return Err(EngineError(if rolledBack then EngineFailure else QuarantinedKind, NotApplicable));
    }
  }
}
