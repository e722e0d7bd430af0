/**
 The per-role schema cache as a machine: calls of role_schema interleave with each other, with changes to the
 database, and with reconnects to a database whose epochs may be anything.

 The fields `hist`, `seen`, `from` and `at` are history: they record what the database held and are never read to
 decide a step.
 */
module SchemaCaches {
  import opened Bytes
  import opened Wrappers
  import opened SchemaDiscovery

  type Role = string

  /** What every role would read from the catalog. */
  type View = map<Role, seq<Row>>

  /** The process's exposed tables and its revision hash. */
  datatype Setup = Setup(exposed: set<Text>, hash: seq<byte> -> seq<byte>)

  /** A database with its two epochs. */
  datatype Database = Database(view: View, schema: int, security: int)

  /** One connection generation at one pair of epochs. */
  datatype Key = Key(generation: nat, schema: int, security: int)

  datatype Validation = Epochs(key: Key) | Revised(digest: seq<byte>)

  datatype Entry = Entry(role: Role, schema: Schema, validation: Validation, from: View)

  datatype Phase =
    | Idle
    | Starting(force: bool)
    | Checked(key: Key)                                             // has read the epochs
    | Missed                                                        // must discover
    | Locked(epochs: bool)                                          // holds the connection
    | Before(before: Option<Key>)                                   // in the transaction, with the epochs read first
    | Fetched(before: Option<Key>, rows: seq<Row>, from: View, at: Key) // has the rows
    | Discovered(schema: Schema, validation: Validation, from: View)    // has given back the connection
    | Done(schema: Schema)
    | Failed

  datatype Call = Call(role: Role, phase: Phase, seen: set<View>)

  datatype State = State(
    db: Database, generation: nat, next: nat, capable: Option<bool>, holder: Option<nat>, cache: map<Role, Entry>,
    hist: map<Key, View>, calls: seq<Call>)

  /** What a query for the epochs comes back with. */
  datatype Answer = Available | Unsupported | Broken

  datatype Step =
    | Change(db: Database) | Reconnect(db: Database)
    | Begin(i: nat, role: Role, force: bool) | Validate(i: nat, answer: Answer) | Lookup(i: nat)
      | Lock(i: nat, answer: Answer)
    | ReadBefore(i: nat) | ReadRows(i: nat) | ReadAfter(i: nat) | Store(i: nat) | Fail(i: nat)

  function RowsFor(x: Setup, view: View, role: Role): seq<Row> {
    Exposed(if role in view then view[role] else [], x.exposed)
  }

  /** The schema a fresh discovery would return for this role. */
  function SchemaFor(x: Setup, view: View, role: Role): Schema {
    SchemaOf(RowsFor(x, view, role))
  }

  function Digest(x: Setup, rows: seq<Row>): seq<byte> {
    x.hash(Revision(rows))
  }

  function Now(s: State): Key {
    Key(s.generation, s.db.schema, s.db.security)
  }

  predicate AtMost(a: Key, b: Key) {
    a.generation == b.generation && a.schema <= b.schema && a.security <= b.security
  }

  /** A visible change moves an epoch, and epochs only grow. */
  predicate Grows(a: Database, b: Database) {
    a.schema <= b.schema && a.security <= b.security
      && (a.schema == b.schema && a.security == b.security ==> a.view == b.view)
  }

  predicate InProgress(p: Phase) {
    !p.Idle? && !p.Done? && !p.Failed?
  }

  /** Every call in progress has now lived through this state of the database as well. */
  function Witness(calls: seq<Call>, view: View): (r: seq<Call>)
    ensures |r| == |calls|
  {
    seq(|calls|, i requires 0 <= i < |calls| =>
          if InProgress(calls[i].phase) then calls[i].(seen := calls[i].seen + {view}) else calls[i])
  }

  function SetPhase(s: State, i: nat, p: Phase): State
    requires i < |s.calls|
  {
    s.(calls := s.calls[i := s.calls[i].(phase := p)])
  }

  function Initial(db: Database, calls: nat): State {
    State(db, 1, 2, None, None, map[], map[Key(1, db.schema, db.security) := db.view],
        seq(calls, i => Call("", Idle, {})))
  }

  // ---- The environment ----------------------------------------------------------------------------

  function ChangeTo(s: State, db: Database): State {
    if Grows(s.db, db) then
      s.(db := db, hist := s.hist[Key(s.generation, db.schema, db.security) := db.view],
          calls := Witness(s.calls, db.view))
    else s
  }

  /** A new connection, made under the lock, has a new generation and no known capability. */
  function ReconnectTo(s: State, db: Database): State {
    if s.holder == None then
      s.(db := db, generation := s.next, next := s.next + 1, capable := None,
         hist := s.hist[Key(s.next, db.schema, db.security) := db.view], calls := Witness(s.calls, db.view))
    else s
  }

  // ---- A call -------------------------------------------------------------------------------------

  /** The epoch query of epoch_validation, or of discover_schema when the capability is not yet known. */
  function Ask(s: State, answer: Answer): (Answer, State) {
    if s.capable == Some(false) then (Unsupported, s)
    else match answer
      case Available => (Available, s.(capable := Some(true)))
      case Unsupported => (Unsupported, s.(capable := Some(false)))
      case Broken => (Broken, s)
  }

  function ValidateNow(s: State, i: nat, answer: Answer): State
    requires i < |s.calls|
  {
    if s.holder != None then s
    else
      var (result, t) := Ask(s, answer);
      SetPhase(t, i, if result == Available then Checked(Now(s)) else if result == Unsupported then Missed else Failed)
  }

  /** The cache entry has the role and the validation. */
  predicate Matches(e: Entry, role: Role, v: Validation) {
    e.role == role && e.validation == v
  }

  function LookupNow(s: State, i: nat, key: Key): State
    requires i < |s.calls|
  {
    var role := s.calls[i].role;
    if role in s.cache && Matches(s.cache[role], role, Epochs(key)) then SetPhase(s, i, Done(s.cache[role].schema))
    else SetPhase(s, i, Missed)
  }

  function LockNow(s: State, i: nat, answer: Answer): State
    requires i < |s.calls|
  {
    if s.holder != None then s
    else if s.capable.Some? then SetPhase(s, i, Locked(s.capable.value)).(holder := Some(i))
    else
      var (result, t) := Ask(s, answer);
      if result == Broken then SetPhase(t, i, Failed)
      else SetPhase(t, i, Locked(result == Available)).(holder := Some(i))
  }

  function ReadAfterNow(x: Setup, s: State, i: nat, p: Phase): State
    requires i < |s.calls| && p.Fetched?
  {
    if p.before.Some? && p.before.value != Now(s) then SetPhase(s, i, Failed).(holder := None)
    else
      var v := if p.before.Some? then Epochs(p.before.value) else Revised(Digest(x, p.rows));
      SetPhase(s, i, Discovered(SchemaOf(p.rows), v, p.from)).(holder := None)
  }

  function StoreNow(s: State, i: nat, p: Phase): State
    requires i < |s.calls| && p.Discovered?
  {
    var role := s.calls[i].role;
    if role in s.cache && Matches(s.cache[role], role, p.validation) then SetPhase(s, i, Done(s.cache[role].schema))
    else SetPhase(s, i, Done(p.schema)).(cache := s.cache[role := Entry(role, p.schema, p.validation, p.from)])
  }

  /** A step of call `i`. One that its phase does not allow changes nothing. */
  function CallStep(x: Setup, s: State, i: nat, step: Step): State
    requires i < |s.calls|
  {
    var p, role := s.calls[i].phase, s.calls[i].role;
    match step
    case Begin(_, r, force) =>
      if InProgress(p) then s else s.(calls := s.calls[i := Call(r, Starting(force), {s.db.view})])
    case Validate(_, answer) =>
      if p.Starting? && p.force then SetPhase(s, i, Missed) else if p.Starting? then ValidateNow(s, i, answer) else s
    case Lookup(_) => if p.Checked? then LookupNow(s, i, p.key) else s
    case Lock(_, answer) => if p.Missed? then LockNow(s, i, answer) else s
    case ReadBefore(_) => if p.Locked? then SetPhase(s, i, Before(if p.epochs then Some(Now(s)) else None)) else s
    case ReadRows(_) =>
      if p.Before? then SetPhase(s, i, Fetched(p.before, RowsFor(x, s.db.view, role), s.db.view, Now(s))) else s
    case ReadAfter(_) => if p.Fetched? then ReadAfterNow(x, s, i, p) else s
    case Store(_) => if p.Discovered? then StoreNow(s, i, p) else s
    case Fail(_) =>
      if InProgress(p) then SetPhase(s, i, Failed).(holder := if s.holder == Some(i) then None else s.holder) else s
    case _ => s
  }

  function Next(x: Setup, s: State, step: Step): State {
    match step
    case Change(db) => ChangeTo(s, db)
    case Reconnect(db) => ReconnectTo(s, db)
    case _ => if step.i < |s.calls| then CallStep(x, s, step.i, step) else s
  }

  function Run(x: Setup, s: State, steps: seq<Step>): State
    decreases |steps|
  {
    if steps == [] then s else Run(x, Next(x, s, steps[0]), steps[1..])
  }

  // ---- What every run keeps -----------------------------------------------------------------------

  /** The history knows the present, and nothing of this generation is ahead of it. */
  ghost predicate HistoryOk(s: State) {
    && s.generation < s.next
    && Now(s) in s.hist && s.hist[Now(s)] == s.db.view
    && (forall k :: k in s.hist ==> k.generation < s.next)
    && (forall k :: k in s.hist && k.generation == s.generation ==> AtMost(k, Now(s)))
  }

  /** The database was in this state at some time. */
  ghost predicate Occurred(hist: map<Key, View>, view: View) {
    exists k :: k in hist && hist[k] == view
  }

  /** A validation stands for the view it was made from. */
  ghost predicate Stands(x: Setup, hist: map<Key, View>, v: Validation, from: View, role: Role) {
    Occurred(hist, from)
    && match v
      case Epochs(key) => key in hist && hist[key] == from
      case Revised(digest) => digest == Digest(x, RowsFor(x, from, role))
  }

  ghost predicate EntryOk(x: Setup, hist: map<Key, View>, role: Role, e: Entry) {
    e.role == role && e.schema == SchemaFor(x, e.from, role) && Stands(x, hist, e.validation, e.from, role)
  }

  ghost predicate CacheOk(x: Setup, s: State) {
    forall role :: role in s.cache ==> EntryOk(x, s.hist, role, s.cache[role])
  }

  /** The result is what a discovery would have returned at some instant of the call. */
  ghost predicate Current(x: Setup, c: Call, schema: Schema) {
    exists view :: view in c.seen && schema == SchemaFor(x, view, c.role)
  }

  predicate HoldsLock(p: Phase) {
    p.Locked? || p.Before? || p.Fetched?
  }

  ghost predicate PhaseOk(x: Setup, s: State, c: Call) {
    match c.phase
    case Checked(key) => key in s.hist && s.hist[key] in c.seen
    case Before(before) => before.Some? ==> before.value in s.hist && AtMost(before.value, Now(s))
    case Fetched(before, rows, from, at) =>
      && at in s.hist && s.hist[at] == from && from in c.seen && AtMost(at, Now(s)) && rows == RowsFor(x, from, c.role)
      && (before.Some? ==> AtMost(before.value, at))
    case Discovered(schema, v, from) =>
      from in c.seen && schema == SchemaFor(x, from, c.role) && Stands(x, s.hist, v, from, c.role)
    case Done(schema) => Current(x, c, schema)
    case _ => true
  }

  ghost predicate CallOk(x: Setup, s: State, i: nat)
    requires i < |s.calls|
  {
    && PhaseOk(x, s, s.calls[i])
    && (HoldsLock(s.calls[i].phase) <==> s.holder == Some(i))
    && (InProgress(s.calls[i].phase) ==> s.db.view in s.calls[i].seen)
  }

  ghost predicate CallsOk(x: Setup, s: State) {
    forall i :: 0 <= i < |s.calls| ==> CallOk(x, s, i)
  }

  ghost predicate Inv(x: Setup, s: State) {
    HistoryOk(s) && CacheOk(x, s) && CallsOk(x, s)
  }

  /** The hash tells the two texts apart if they differ. */
  predicate ToldApart(x: Setup, a: seq<Row>, b: seq<Row>) {
    Digest(x, a) == Digest(x, b) ==> Revision(a) == Revision(b)
  }

  /** What is assumed of the revision hash: it tells apart what the roles read from the states of this history. */
  ghost predicate CollisionFree(x: Setup, hist: map<Key, View>) {
    forall a, b, role :: a in hist && b in hist ==> ToldApart(x, RowsFor(x, hist[a], role), RowsFor(x, hist[b], role))
  }

  ghost predicate Extends(a: map<Key, View>, b: map<Key, View>) {
    forall k :: k in a ==> k in b && b[k] == a[k]
  }

  // ---- Changes and reconnects ---------------------------------------------------------------------

  lemma CacheSurvives(x: Setup, s: State, t: State)
    requires CacheOk(x, s) && t.cache == s.cache && Extends(s.hist, t.hist)
    ensures CacheOk(x, t)
  {
    forall role | role in t.cache ensures EntryOk(x, t.hist, role, t.cache[role]) {
      assert EntryOk(x, s.hist, role, s.cache[role]);
    }
  }

  lemma CallSurvives(x: Setup, s: State, t: State, i: nat)
    requires i < |s.calls| && CallOk(x, s, i) && Extends(s.hist, t.hist) && t.holder == s.holder
    requires t.calls == Witness(s.calls, t.db.view)
    requires s.holder == Some(i) ==> forall k :: AtMost(k, Now(s)) ==> AtMost(k, Now(t))
    ensures CallOk(x, t, i)
  {
    var c, d := s.calls[i], t.calls[i];
    if c.phase.Done? {
      assert Current(x, d, c.phase.schema);
    }
  }

  lemma ChangeKeepsInv(x: Setup, s: State, db: Database)
    requires Inv(x, s)
    ensures Inv(x, ChangeTo(s, db))
  {
    if Grows(s.db, db) {
      var t := ChangeTo(s, db);
      assert Now(t) in s.hist ==> Now(t) == Now(s);
      assert Extends(s.hist, t.hist);
      CacheSurvives(x, s, t);
      forall i | 0 <= i < |s.calls| ensures CallOk(x, t, i) { CallSurvives(x, s, t, i); }
    }
  }

  lemma ReconnectKeepsInv(x: Setup, s: State, db: Database)
    requires Inv(x, s)
    ensures Inv(x, ReconnectTo(s, db))
  {
    if s.holder == None {
      var t := ReconnectTo(s, db);
      assert Now(t) !in s.hist;
      assert Extends(s.hist, t.hist);
      CacheSurvives(x, s, t);
      forall i | 0 <= i < |s.calls| ensures CallOk(x, t, i) { CallSurvives(x, s, t, i); }
    }
  }

  // ---- Steps of calls -----------------------------------------------------------------------------

  /** The same database, history and other calls. */
  ghost predicate OnlyCall(s: State, t: State, i: nat) {
    && t.db == s.db && t.generation == s.generation && t.next == s.next && t.hist == s.hist
    && i < |s.calls| == |t.calls|
    && (forall j :: 0 <= j < |s.calls| && j != i ==>
      t.calls[j] == s.calls[j] && (t.holder == Some(j) <==> s.holder == Some(j)))
  }

  lemma CallKeepsInv(x: Setup, s: State, t: State, i: nat)
    requires Inv(x, s) && OnlyCall(s, t, i) && CallOk(x, t, i) && CacheOk(x, t)
    ensures Inv(x, t)
  {
    forall j | 0 <= j < |t.calls| ensures CallOk(x, t, j) {
      if j != i { assert CallOk(x, s, j); }
    }
  }

  /** Equal validations stand for equal schemas. */
  lemma SameValidation(x: Setup, hist: map<Key, View>, v: Validation, a: View, b: View, role: Role)
    requires CollisionFree(x, hist) && Stands(x, hist, v, a, role) && Stands(x, hist, v, b, role)
    ensures SchemaFor(x, a, role) == SchemaFor(x, b, role)
  {
    if v.Revised? {
      var k :| k in hist && hist[k] == a;
      var l :| l in hist && hist[l] == b;
      RevisionIsInjective(RowsFor(x, hist[k], role), RowsFor(x, hist[l], role));
    }
  }

  lemma DoneOk(x: Setup, s: State, i: nat, schema: Schema, view: View)
    requires Inv(x, s) && i < |s.calls| && view in s.calls[i].seen && schema == SchemaFor(x, view, s.calls[i].role)
    requires !HoldsLock(s.calls[i].phase)
    ensures CallOk(x, SetPhase(s, i, Done(schema)), i)
  {
    assert CallOk(x, s, i);
    assert Current(x, SetPhase(s, i, Done(schema)).calls[i], schema);
  }

  lemma LookupKeepsInv(x: Setup, s: State, i: nat)
    requires Inv(x, s) && i < |s.calls| && s.calls[i].phase.Checked?
    ensures Inv(x, LookupNow(s, i, s.calls[i].phase.key))
  {
    var role, key := s.calls[i].role, s.calls[i].phase.key;
    var t := LookupNow(s, i, key);
    assert CallOk(x, s, i);
    if role in s.cache && Matches(s.cache[role], role, Epochs(key)) {
      assert EntryOk(x, s.hist, role, s.cache[role]);
      DoneOk(x, s, i, s.cache[role].schema, s.cache[role].from);
    }
    CallKeepsInv(x, s, t, i);
  }

  lemma StoreKeepsInv(x: Setup, s: State, i: nat)
    requires Inv(x, s) && CollisionFree(x, s.hist) && i < |s.calls| && s.calls[i].phase.Discovered?
    ensures Inv(x, StoreNow(s, i, s.calls[i].phase))
  {
    var role, p := s.calls[i].role, s.calls[i].phase;
    var t := StoreNow(s, i, p);
    assert CallOk(x, s, i);
    if role in s.cache && Matches(s.cache[role], role, p.validation) {
      assert EntryOk(x, s.hist, role, s.cache[role]);
      SameValidation(x, s.hist, p.validation, s.cache[role].from, p.from, role);
      DoneOk(x, s, i, s.cache[role].schema, p.from);
    } else {
      DoneOk(x, s, i, p.schema, p.from);
      forall r | r in t.cache ensures EntryOk(x, t.hist, r, t.cache[r]) {
        if r != role { assert EntryOk(x, s.hist, r, s.cache[r]); }
      }
    }
    CallKeepsInv(x, s, t, i);
  }

  lemma ReadAfterKeepsInv(x: Setup, s: State, i: nat)
    requires Inv(x, s) && i < |s.calls| && s.calls[i].phase.Fetched?
    ensures Inv(x, ReadAfterNow(x, s, i, s.calls[i].phase))
  {
    var t := ReadAfterNow(x, s, i, s.calls[i].phase);
    assert CallOk(x, s, i);
    CallKeepsInv(x, s, t, i);
  }

  lemma LockKeepsInv(x: Setup, s: State, i: nat, answer: Answer)
    requires Inv(x, s) && i < |s.calls| && s.calls[i].phase.Missed?
    ensures Inv(x, LockNow(s, i, answer))
  {
    assert CallOk(x, s, i);
    if s.holder == None { CallKeepsInv(x, s, LockNow(s, i, answer), i); }
  }

  lemma ValidateKeepsInv(x: Setup, s: State, i: nat, answer: Answer)
    requires Inv(x, s) && i < |s.calls| && s.calls[i].phase.Starting?
    ensures Inv(x, ValidateNow(s, i, answer))
  {
    assert CallOk(x, s, i);
    if s.holder == None { CallKeepsInv(x, s, ValidateNow(s, i, answer), i); }
  }

  lemma CallStepKeepsInv(x: Setup, s: State, i: nat, step: Step)
    requires Inv(x, s) && CollisionFree(x, s.hist) && i < |s.calls|
    ensures Inv(x, CallStep(x, s, i, step))
  {
    var t, p := CallStep(x, s, i, step), s.calls[i].phase;
    assert CallOk(x, s, i);
    if t != s {
      match step {
        case Validate(_, answer) => if p.force { CallKeepsInv(x, s, t, i); } else { ValidateKeepsInv(x, s, i, answer); }
        case Lookup(_) => LookupKeepsInv(x, s, i);
        case Lock(_, answer) => LockKeepsInv(x, s, i, answer);
        case ReadAfter(_) => ReadAfterKeepsInv(x, s, i);
        case Store(_) => StoreKeepsInv(x, s, i);
        case _ => CallKeepsInv(x, s, t, i);
      }
    }
  }

  lemma NextKeepsInv(x: Setup, s: State, step: Step)
    requires Inv(x, s) && CollisionFree(x, s.hist)
    ensures Inv(x, Next(x, s, step))
  {
    match step {
      case Change(db) => ChangeKeepsInv(x, s, db);
      case Reconnect(db) => ReconnectKeepsInv(x, s, db);
      case _ => if step.i < |s.calls| { CallStepKeepsInv(x, s, step.i, step); }
    }
  }

  lemma HistoryGrows(x: Setup, s: State, step: Step)
    requires HistoryOk(s)
    ensures HistoryOk(Next(x, s, step)) && Extends(s.hist, Next(x, s, step).hist)
  {
    match step {
      case Change(db) => ChangeGrowsHistory(s, db);
      case Reconnect(_) =>
      case _ => if step.i < |s.calls| { CallLeavesHistory(x, s, step.i, step); }
    }
  }

  lemma ChangeGrowsHistory(s: State, db: Database)
    requires HistoryOk(s)
    ensures HistoryOk(ChangeTo(s, db)) && Extends(s.hist, ChangeTo(s, db).hist)
  {
    assert Grows(s.db, db) && Now(ChangeTo(s, db)) in s.hist ==> Now(ChangeTo(s, db)) == Now(s);
  }

  lemma CallLeavesHistory(x: Setup, s: State, i: nat, step: Step)
    requires i < |s.calls|
    ensures var t := CallStep(x, s, i, step);
      t.db == s.db && t.generation == s.generation && t.next == s.next && t.hist == s.hist
  {
    if step.ReadBefore? || step.ReadRows? || step.ReadAfter? || step.Store? {
      DiscoveryLeavesHistory(x, s, i, step);
    }
  }

  lemma DiscoveryLeavesHistory(x: Setup, s: State, i: nat, step: Step)
    requires i < |s.calls| && (step.ReadBefore? || step.ReadRows? || step.ReadAfter? || step.Store?)
    ensures var t := CallStep(x, s, i, step);
      t.db == s.db && t.generation == s.generation && t.next == s.next && t.hist == s.hist
  {
  }

  lemma {:induction false} RunGrowsHistory(x: Setup, s: State, steps: seq<Step>)
    requires HistoryOk(s)
    ensures Extends(s.hist, Run(x, s, steps).hist)
    decreases |steps|
  {
    if steps != [] {
      HistoryGrows(x, s, steps[0]);
      RunGrowsHistory(x, Next(x, s, steps[0]), steps[1..]);
    }
  }

  /** What the hash tells apart at the end of a run it told apart before. */
  lemma CollisionFreeBefore(x: Setup, a: map<Key, View>, b: map<Key, View>)
    requires Extends(a, b) && CollisionFree(x, b)
    ensures CollisionFree(x, a)
  {
  }

  lemma {:induction false} RunKeepsInv(x: Setup, s: State, steps: seq<Step>)
    requires Inv(x, s) && CollisionFree(x, Run(x, s, steps).hist)
    ensures Inv(x, Run(x, s, steps))
    decreases |steps|
  {
    if steps != [] {
      RunGrowsHistory(x, s, steps);
      CollisionFreeBefore(x, s.hist, Run(x, s, steps).hist);
      NextKeepsInv(x, s, steps[0]);
      RunKeepsInv(x, Next(x, s, steps[0]), steps[1..]);
    }
  }

  /**
   In every run, a call that succeeds returns the schema that a fresh discovery for its role would have returned
   at some instant between its start and its end.
   */
  lemma ResultsAreCurrent(x: Setup, db: Database, calls: nat, steps: seq<Step>, i: nat)
    requires CollisionFree(x, Run(x, Initial(db, calls), steps).hist)
    requires var s := Run(x, Initial(db, calls), steps); i < |s.calls| && s.calls[i].phase.Done?
    ensures var s := Run(x, Initial(db, calls), steps); Current(x, s.calls[i], s.calls[i].phase.schema)
  {
    RunKeepsInv(x, Initial(db, calls), steps);
    assert CallOk(x, Run(x, Initial(db, calls), steps), i);
  }
}
