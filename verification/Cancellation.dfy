/**
 The race between cancel() and the operation it is meant for: any number of cancelling threads against the one
 executing thread, one atomic access per step, under sequential consistency. The three kinds of operation share the
 cancel handle, and only an update closes it.
 */
module Cancellation {

  datatype Kind = Update | Ingest | Stream

  datatype Canceller =
    | Away
    | Holding    // took the handle from the registry
    | Looked     // saw the handle open
    | Requested  // stored the request
    | Clear      // saw the handle still open: will issue the native cancel
    | Returned

  datatype Executor =
    | Running
    | Shut       // the statement is over, and the handle of an update is closed
    | Proceeding // read no request: will end as if there were no cancel
    | Undoing    // read a request: will roll back or give the session up
    | Refused    // ended early and returned the connection, without closing the handle or looking for a request
    | Kept       // ended as if there were no cancel, and the connection returned
    | Undone     // rolled back, and the connection returned
    | Dropped    // the connection was dropped

  datatype State = State(
    kind: Kind,
    registered: bool, // the handle can be found by a new canceller
    closed: bool,
    requested: bool,
    executor: Executor,
    cancellers: map<nat, Canceller>,
    issued: bool, // a native cancel was issued at some point
    stray: bool)  // a native cancel was issued after the connection had been returned, to whatever runs on it then

  /**
   `Refuse` is an update that cannot leave autocommit or an ingest with a bad layout, and without `returned` an
   operation that is dropped. In `Keep` and `Undo`, `returned` says whether the connection can be used again; only an
   update returns it after a request.
   */
  datatype Action =
    | Fetch(c: nat) | Look(c: nat) | Request(c: nat) | LookAgain(c: nat) | Issue(c: nat)
    | Refuse(returned: bool) | Shutdown | ReadRequest | Keep(returned: bool) | Undo(returned: bool)
    | Unregister

  function Initial(kind: Kind): State {
    State(kind, true, false, false, Running, map[], false, false)
  }

  /** The connection is back in its slot, free for the next operation. */
  predicate GivenBack(e: Executor) {
    e.Refused? || e.Kept? || e.Undone?
  }

  function At(s: State, c: nat): Canceller {
    if c in s.cancellers then s.cancellers[c] else Away
  }

  function Move(s: State, c: nat, to: Canceller): State {
    s.(cancellers := s.cancellers[c := to])
  }

  function Next(s: State, a: Action): State {
    match a
    case Fetch(c) => if At(s, c).Away? && s.registered then Move(s, c, Holding) else s
    case Look(c) => if At(s, c).Holding? then Move(s, c, if s.closed then Returned else Looked) else s
    case Request(c) => if At(s, c).Looked? then Move(s.(requested := true), c, Requested) else s
    case LookAgain(c) => if At(s, c).Requested? then Move(s, c, if s.closed then Returned else Clear) else s
    case Issue(c) =>
      if At(s, c).Clear? then Move(s.(issued := true, stray := s.stray || GivenBack(s.executor)), c, Returned) else s
    case Refuse(returned) =>
      if s.executor.Running? && !s.kind.Stream? then s.(executor := if returned then Refused else Dropped) else s
    case Shutdown =>
      if s.executor.Running? then s.(closed := s.kind.Update?, executor := Shut) else s
    case ReadRequest => if s.executor.Shut? then s.(executor := if s.requested then Undoing else Proceeding) else s
    case Keep(returned) =>
      if s.executor.Proceeding? then s.(executor := if returned then Kept else Dropped) else s
    case Undo(returned) =>
      if s.executor.Undoing? then s.(executor := if returned && s.kind.Update? then Undone else Dropped) else s
    case Unregister => s.(registered := false)
  }

  function Run(s: State, actions: seq<Action>): State
    decreases |actions|
  {
    if actions == [] then s else Run(Next(s, actions[0]), actions[1..])
  }

  /** The executor has not looked for a request yet. */
  predicate Undecided(e: Executor) {
    e.Running? || e.Shut?
  }

  /** An update that went on after it looked: its handle is closed and nobody is on the way to the native call. */
  ghost predicate Sealed(s: State) {
    s.closed && !s.issued && forall c :: c in s.cancellers ==> !s.cancellers[c].Clear?
  }

  ghost predicate Inv(s: State) {
    && (s.closed ==> s.kind.Update? && !s.executor.Running? && !s.executor.Refused?)
    && (s.kind.Update? && !s.executor.Running? && !s.executor.Refused? && !s.executor.Dropped? ==> s.closed)
    && (s.issued ==> s.requested)
    && (forall c :: c in s.cancellers && (s.cancellers[c].Requested? || s.cancellers[c].Clear?) ==> s.requested)
    && (s.kind.Update? && (s.executor.Proceeding? || s.executor.Kept?) ==> Sealed(s))
    && (s.executor.Undoing? || s.executor.Undone? ==> s.requested) && (s.executor.Undone? ==> s.kind.Update?)
    && (s.stray ==> s.issued && GivenBack(s.executor))
  }

  lemma NextKeepsInv(s: State, a: Action)
    requires Inv(s)
    ensures Inv(Next(s, a))
  {
  }

  lemma {:induction false} RunKeepsInv(s: State, actions: seq<Action>)
    requires Inv(s)
    ensures Inv(Run(s, actions)) && Run(s, actions).kind == s.kind
    decreases |actions|
  {
    if actions != [] {
      NextKeepsInv(s, actions[0]);
      RunKeepsInv(Next(s, actions[0]), actions[1..]);
    }
  }

  lemma {:induction false} RunIsSticky(s: State, actions: seq<Action>)
    ensures s.issued ==> Run(s, actions).issued
    ensures s.executor.Kept? ==> Run(s, actions).executor.Kept?
    decreases |actions|
  {
    if actions != [] { RunIsSticky(Next(s, actions[0]), actions[1..]); }
  }

  /** Will not end as if there were no cancel. */
  predicate Unkept(s: State) {
    (s.requested && Undecided(s.executor)) || s.executor.Undoing? || s.executor.Undone? || s.executor.Dropped?
    || s.executor.Refused?
  }

  lemma {:induction false} StaysUnkept(s: State, actions: seq<Action>)
    requires Unkept(s)
    ensures !Run(s, actions).executor.Kept?
    decreases |actions|
  {
    if actions != [] { StaysUnkept(Next(s, actions[0]), actions[1..]); }
  }

  /**
   A request that comes before the executor looks is never overlooked. An update is moreover cancelled natively or
   kept, never both: after a native cancel it is never kept, and once it is kept no native cancel is ever issued, in
   whatever order the threads go on.
   */
  lemma CancelOrKeep(kind: Kind, before: seq<Action>, after: seq<Action>)
    ensures var s := Run(Initial(kind), before);
      && (s.requested && Undecided(s.executor) ==> !Run(s, after).executor.Kept?)
      && (kind.Update? && s.issued ==> !Run(s, after).executor.Kept?)
      && (kind.Update? && s.executor.Kept? ==> !Run(s, after).issued)
  {
    var s := Run(Initial(kind), before);
    RunKeepsInv(Initial(kind), before);
    RunKeepsInv(s, after);
    RunIsSticky(s, after);
    if s.requested && Undecided(s.executor) { StaysUnkept(s, after); }
  }

  // ---- Cancels that come late ---------------------------------------------------------------------

  /** Somebody has looked twice, seen the handle open, and not yet called. */
  predicate Pending(s: State) {
    exists c :: c in s.cancellers && s.cancellers[c].Clear?
  }

  /** Somebody holds the handle and has not looked twice yet. */
  predicate Held(s: State) {
    exists c :: c in s.cancellers && (s.cancellers[c].Holding? || s.cancellers[c].Looked? || s.cancellers[c].Requested?)
  }

  /** The operation closes its handle before it gives the connection back. */
  predicate Closes(s: State) {
    s.kind.Update? && !s.executor.Refused?
  }

  /** A native cancel may still be issued. */
  predicate Loose(s: State) {
    Pending(s) || (!Closes(s) && (s.registered || Held(s)))
  }

  lemma QuietStep(s: State, a: Action)
    requires Inv(s) && GivenBack(s.executor) && !s.stray && !Loose(s)
    ensures var s' := Next(s, a); GivenBack(s'.executor) && !s'.stray && !Loose(s')
  {
    var s' := Next(s, a);
    forall c | c in s'.cancellers
      ensures !s'.cancellers[c].Clear?
      ensures !Closes(s) ==> !s'.cancellers[c].Holding? && !s'.cancellers[c].Looked? && !s'.cancellers[c].Requested?
    {
      if c in s.cancellers { assert !s.cancellers[c].Clear?; }
    }
  }

  lemma {:induction false} StaysQuiet(s: State, actions: seq<Action>)
    requires Inv(s) && GivenBack(s.executor) && !s.stray && !Loose(s)
    ensures !Run(s, actions).stray
    decreases |actions|
  {
    if actions != [] {
      QuietStep(s, actions[0]);
      NextKeepsInv(s, actions[0]);
      StaysQuiet(Next(s, actions[0]), actions[1..]);
    }
  }

  /** The steps that canceller `c` has still to take. */
  function Rest(s: State, c: nat): seq<Action> {
    match At(s, c)
    case Away => [Fetch(c), Look(c), Request(c), LookAgain(c), Issue(c)]
    case Holding => [Look(c), Request(c), LookAgain(c), Issue(c)]
    case Looked => [Request(c), LookAgain(c), Issue(c)]
    case Requested => [LookAgain(c), Issue(c)]
    case Clear => [Issue(c)]
    case Returned => []
  }

  /** Canceller `c` goes on alone, and hits the next operation. */
  lemma {:induction false} GoesOn(s: State, c: nat)
    requires GivenBack(s.executor) && !At(s, c).Returned? && (At(s, c).Away? ==> s.registered)
    requires At(s, c).Clear? || !s.closed
    ensures Run(s, Rest(s, c)).stray
    decreases |Rest(s, c)|
  {
    var rest := Rest(s, c);
    var s' := Next(s, rest[0]);
    if At(s, c).Clear? {
      assert rest[1..] == [] && Run(s', []) == s';
    } else {
      assert rest[1..] == Rest(s', c);
      GoesOn(s', c);
    }
    assert Run(s, rest) == Run(s', rest[1..]);
  }

  lemma {:induction false} Newcomer(known: set<nat>) returns (c: nat)
    ensures forall k :: k in known ==> k < c
    decreases known
  {
    c := 0;
    if known != {} {
      var k :| k in known;
      var d := Newcomer(known - {k});
      c := d + k + 1;
      forall j | j in known ensures j < c { assert j == k || j in known - {k}; }
    }
  }

  /**
   A cancel can reach what runs next on the connection, and exactly then: the operation it was meant for has given
   its connection back while somebody was between the second look and the call, or without having closed the handle
   while somebody held it or could still find it.
   */
  lemma StrayCancelIff(kind: Kind, before: seq<Action>)
    requires GivenBack(Run(Initial(kind), before).executor) && !Run(Initial(kind), before).stray
    ensures (exists after :: Run(Run(Initial(kind), before), after).stray) <==> Loose(Run(Initial(kind), before))
  {
    var s := Run(Initial(kind), before);
    RunKeepsInv(Initial(kind), before);
    if Loose(s) {
      var c := Newcomer(s.cancellers.Keys);
      if Pending(s) {
        c :| c in s.cancellers && s.cancellers[c].Clear?;
      } else if Held(s) {
        c :| c in s.cancellers
          && (s.cancellers[c].Holding? || s.cancellers[c].Looked? || s.cancellers[c].Requested?);
      }
      GoesOn(s, c);
    } else {
      forall after ensures !Run(s, after).stray { StaysQuiet(s, after); }
    }
  }

  /**
   What leaves such a cancel behind: an update that was itself cancelled and rolled back, an update or ingest that
   was refused, and an ingest or stream that ended as if there were no cancel.
   */
  lemma StrayCancelComesFrom(kind: Kind, actions: seq<Action>)
    ensures var s := Run(Initial(kind), actions);
      s.stray ==> s.requested && (s.executor.Refused? || if kind.Update? then s.executor.Undone? else s.executor.Kept?)
  {
    RunKeepsInv(Initial(kind), actions);
  }

  /** An update: the canceller looks twice, the update is rolled back and returns, and then the call is made. */
  const LATE: seq<Action> := [Fetch(0), Look(0), Request(0), LookAgain(0), Shutdown, ReadRequest, Undo(true), Issue(0)]

  /** A stream: it ends and returns its connection, and only then does anybody think of cancelling it. */
  const AFTERWARDS: seq<Action> :=
    [Shutdown, ReadRequest, Keep(true), Fetch(0), Look(0), Request(0), LookAgain(0), Issue(0)]

  lemma Unroll(s: State, actions: seq<Action>, k: nat)
    requires k < |actions|
    ensures Run(s, actions[k..]) == Run(Next(s, actions[k]), actions[k + 1..])
  {
    assert actions[k..][1..] == actions[k + 1..];
  }

  lemma CancelComesLate()
    ensures Run(Initial(Update), LATE).stray
  {
    var s0 := Next(Initial(Update), LATE[0]);
    var s1 := Next(s0, LATE[1]);
    var s2 := Next(s1, LATE[2]);
    var s3 := Next(s2, LATE[3]);
    assert s3 == State(Update, true, false, true, Running, map[0 := Clear], false, false);
    var s4 := Next(s3, LATE[4]);
    var s5 := Next(s4, LATE[5]);
    var s6 := Next(s5, LATE[6]);
    Unroll(Initial(Update), LATE, 0);
    Unroll(s0, LATE, 1);
    Unroll(s1, LATE, 2);
    Unroll(s2, LATE, 3);
    Unroll(s3, LATE, 4);
    Unroll(s4, LATE, 5);
    Unroll(s5, LATE, 6);
    Unroll(s6, LATE, 7);
  }

  lemma CancelComesAfterStream()
    ensures !Run(Initial(Stream), AFTERWARDS[..3]).requested && Run(Initial(Stream), AFTERWARDS[..3]).executor.Kept?
    ensures Run(Initial(Stream), AFTERWARDS).stray
  {
    var s0 := Next(Initial(Stream), AFTERWARDS[0]);
    var s1 := Next(s0, AFTERWARDS[1]);
    var s2 := Next(s1, AFTERWARDS[2]);
    assert s2 == State(Stream, true, false, false, Kept, map[], false, false);
    Unroll(Initial(Stream), AFTERWARDS, 0);
    Unroll(s0, AFTERWARDS, 1);
    Unroll(s1, AFTERWARDS, 2);
    assert AFTERWARDS[3..] == Rest(s2, 0);
    GoesOn(s2, 0);
    Unroll(Initial(Stream), AFTERWARDS[..3], 0);
    Unroll(s0, AFTERWARDS[..3], 1);
    Unroll(s1, AFTERWARDS[..3], 2);
  }
}
