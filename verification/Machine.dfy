/**
 Any number of calls running at once against one database, statement by statement.

 A call reads committed rows outside its transaction, then begins one: an UPDATE or INSERT takes the locks it
 needs and leaves its row in `pending` until COMMIT, which is the only step that changes the committed tables.
 A statement that finds another call's lock waits; when it goes on it looks at the row again (READ COMMITTED),
 so its WHERE clause is always judged on the row it locks.  ROLLBACK drops what is pending and frees the locks.
 Replicas of the service share the database and nothing else; each has its own cache of compiled definitions.
 */
module Machine {
  import opened Wrappers
  import opened Platform
  import opened Engine
  import opened Store
  import opened Lifecycle

  datatype Resource =
    | SetRow(id: Id)
    | VersionRow(id: Id)
    | CodeKey(scope: Scope, code: string)
    | NumberKey(scope: Scope, setId: Id, number: int)
    | IdempotencyKey(scope: Scope, setId: Id, key: string)

  /** Where a call is, with the local variables it still needs. */
  datatype Pc =
    | Started
    | InsertSet
    | CommitSet
    | ReadForUpdate
    | SwapSet(pre: RuleSet)
    | CommitSwap(pre: RuleSet)
    | LockSet(compiled: Compiled)
    | FindKey(compiled: Compiled, version: int, status: SetStatus)
    | CommitReplay(compiled: Compiled, existing: RuleVersion)
    | CountVersions(compiled: Compiled)
    | InsertVersion(compiled: Compiled, number: int)
    | CommitVersion(compiled: Compiled, number: int)
    | ReadOwner
    | ReadDraft(pre: RuleSet)
    | SwapVersion(pre: RuleSet, draft: RuleVersion, compiled: Compiled)
    | SwapOwner(pre: RuleSet, draft: RuleVersion, compiled: Compiled)
    | AppendEvent(pre: RuleSet, draft: RuleVersion, compiled: Compiled)
    | CommitPublish(pre: RuleSet, draft: RuleVersion, compiled: Compiled)
    | StoreCompiled(compiled: Compiled, outcome: Outcome)
    | GetRow
    | GetCurrent(pre: RuleSet)
    | FindSet
    | FindVersion(pre: RuleSet)
    | LoadCompiled(target: RuleVersion)
    | PutCompiled(target: RuleVersion, compiled: Compiled)
    | RunRules(target: RuleVersion, compiled: Compiled)
    | Done(outcome: Outcome, end: nat)
    | Aborted(end: nat)

  /** `start` is the number of commits there had been when the call began. */
  datatype Thread = Thread(req: Request, replica: nat, start: nat, pc: Pc, pending: Writes)

  datatype Commit = Commit(tid: nat, req: Request, seen: Option<RuleSet>)

  /** The committed tables, every earlier state of them, and the commits in between. */
  datatype Trace = Trace(past: seq<Db>, db: Db, log: seq<Commit>)

  datatype State = State(
    trace: Trace, locks: map<Resource, nat>, caches: map<(nat, string), Compiled>, threads: map<nat, Thread>)

  const INITIAL := State(Trace([], EMPTY, []), map[], map[], map[])

  /** The committed tables after the first `k` commits. */
  function Instant(tr: Trace, k: nat): Db {
    if k < |tr.past| then tr.past[k] else tr.db
  }

  /******* Elementary effects *******/

  predicate Free(s: State, t: nat, r: Resource) {
    r in s.locks ==> s.locks[r] == t
  }

  function Taken(locks: map<Resource, nat>, t: nat, rs: set<Resource>): map<Resource, nat> {
    map r | r in locks.Keys + rs :: if r in rs then t else locks[r]
  }

  function Freed(locks: map<Resource, nat>, t: nat): map<Resource, nat> {
    map r | r in locks && locks[r] != t :: locks[r]
  }

  function Goto(s: State, t: nat, pc: Pc): State
    requires t in s.threads
  {
    s.(threads := s.threads[t := s.threads[t].(pc := pc)])
  }

  function Acquire(s: State, t: nat, rs: set<Resource>, pending: Writes, pc: Pc): State
    requires t in s.threads
  {
    s.(locks := Taken(s.locks, t, rs), threads := s.threads[t := s.threads[t].(pc := pc, pending := pending)])
  }

  /** ROLLBACK, or a COMMIT with nothing to write. */
  function Release(s: State, t: nat, pc: Pc): State
    requires t in s.threads
  {
    s.(locks := Freed(s.locks, t), threads := s.threads[t := s.threads[t].(pc := pc, pending := NOTHING)])
  }

  function Finish(s: State, t: nat, outcome: Outcome): State
    requires t in s.threads
  {
    Release(s, t, Done(outcome, |s.trace.past|))
  }

  function Extended(tr: Trace, t: nat, th: Thread, seen: Option<RuleSet>): Trace {
    Trace(tr.past + [tr.db], Merge(tr.db, th.pending), tr.log + [Commit(t, th.req, seen)])
  }

  /** COMMIT. */
  function CommitThen(s: State, t: nat, seen: Option<RuleSet>, pc: Pc): State
    requires t in s.threads
  {
    Release(s, t, pc).(trace := Extended(s.trace, t, s.threads[t], seen))
  }

  /******* The calls, one statement a step; None means the call waits *******/

  ghost function StepCreateSet(s: State, t: nat): Option<State>
    requires t in s.threads && s.threads[t].req.CreateSet?
  {
    var req, db := s.threads[t].req, s.trace.db;
    match s.threads[t].pc
    case InsertSet =>
      if req.newId in db.sets || CodeIds(db, req.scope, req.code) != {} then Some(Finish(s, t, Failed(Internal)))
      else if !Free(s, t, CodeKey(req.scope, req.code)) then None
      else Some(Acquire(s, t, {CodeKey(req.scope, req.code)}, NOTHING.(set_ := Some(NewSet(req))), CommitSet))
    case CommitSet =>
      Some(CommitThen(s, t, None, Done(SetReturned(NewSet(req)), |s.trace.past| + 1)))
    case _ => None
  }

  ghost function StepUpdateSet(s: State, t: nat): Option<State>
    requires t in s.threads && s.threads[t].req.UpdateSet? && s.threads[t].req.status.Some?
  {
    var req, db := s.threads[t].req, s.trace.db;
    var row := SetAt(db, req.scope, req.setId);
    match s.threads[t].pc
    case ReadForUpdate =>
      if row.None? then Some(Finish(s, t, Failed(NotFound))) else Some(Goto(s, t, SwapSet(row.value)))
    case SwapSet(pre) =>
      if row.None? || row.value.audit.version != req.expected then Some(Finish(s, t, Failed(Conflict)))
      else if !Free(s, t, SetRow(req.setId)) then None
      else
        var next := Renamed(row.value, row.value.audit.version + 1, req);
        Some(Acquire(s, t, {SetRow(req.setId)}, NOTHING.(set_ := Some(next)), CommitSwap(pre)))
    case CommitSwap(pre) =>
      Some(CommitThen(s, t, Some(pre),
                      Done(SetReturned(Renamed(pre, req.expected + 1, req)), |s.trace.past| + 1)))
    case _ => None
  }

  ghost function StepCreateVersion(w: Platform, s: State, t: nat): Option<State>
    requires t in s.threads && s.threads[t].req.CreateVersion?
  {
    var th, req, db := s.threads[t], s.threads[t].req, s.trace.db;
    match th.pc
    case LockSet(c) =>
      var row := SetAt(db, req.scope, req.setId);
      if row.None? then Some(Finish(s, t, Failed(NotFound)))
      else if !Free(s, t, SetRow(req.setId)) then None
      else Some(Acquire(s, t, {SetRow(req.setId)}, NOTHING, FindKey(c, row.value.audit.version, row.value.status)))
    case FindKey(c, version, status) =>
      var existing := ByKey(db, req.scope, req.setId, req.key);
      if existing.Some? then
        if existing.value.checksum != c.checksum then Some(Finish(s, t, Failed(Conflict)))
        else Some(Goto(s, t, CommitReplay(c, existing.value)))
      else if version != req.expected || status.Disabled? then Some(Finish(s, t, Failed(Conflict)))
      else Some(Goto(s, t, CountVersions(c)))
    case CommitReplay(c, existing) =>
      Some(Release(s, t, StoreCompiled(c, VersionReturned(existing, false))))
    case CountVersions(c) =>
      Some(Goto(s, t, InsertVersion(c, MaxNumber(db, req.scope, req.setId) + 1)))
    case InsertVersion(c, n) =>
      if UniqueViolated(db, req, n) || !Storable(w, NewVersion(req, c, n)) then Some(Finish(s, t, Failed(Internal)))
      else if exists r :: r in VersionKeys(req, n) && !Free(s, t, r) then None
      else
        Some(Acquire(s, t, VersionKeys(req, n), NOTHING.(version := Some(Stored(w, NewVersion(req, c, n)))),
                     CommitVersion(c, n)))
    case CommitVersion(c, n) =>
      Some(CommitThen(s, t, None, StoreCompiled(c, VersionReturned(NewVersion(req, c, n), true))))
    case _ => None
  }

  /** A committed row already has the primary key, the number or the idempotency key the INSERT brings. */
  predicate UniqueViolated(db: Db, req: Request, n: int)
    requires req.CreateVersion?
  {
    || req.newId in db.versions
    || NumberIds(db, req.scope, req.setId, n) != {}
    || KeyIds(db, req.scope, req.setId, req.key) != {}
  }

  function VersionKeys(req: Request, n: int): set<Resource>
    requires req.CreateVersion?
  {
    {NumberKey(req.scope, req.setId, n), IdempotencyKey(req.scope, req.setId, req.key)}
  }

  ghost function StepPublish(w: Platform, s: State, t: nat): Option<State>
    requires t in s.threads && s.threads[t].req.PublishVersion?
  {
    var th, req, db := s.threads[t], s.threads[t].req, s.trace.db;
    match th.pc
    case ReadOwner =>
      var row := SetAt(db, req.scope, req.setId);
      if row.None? then Some(Finish(s, t, Failed(NotFound))) else Some(Goto(s, t, ReadDraft(row.value)))
    case ReadDraft(pre) =>
      var row := VersionById(db, req.scope, req.setId, req.versionId);
      if row.None? then Some(Finish(s, t, Failed(NotFound)))
      else if !row.value.status.Draft? || !Recompiles(w, row.value) then Some(Finish(s, t, Failed(Conflict)))
      else Some(Goto(s, t, SwapVersion(pre, row.value, Compile(w, row.value.definition).value)))
    case SwapVersion(pre, draft, c) =>
      var row := VersionById(db, req.scope, req.setId, req.versionId);
      if row.None? || !row.value.status.Draft? || row.value.audit.version != req.versionExpected then
        Some(Finish(s, t, Failed(Conflict)))
      else if !Free(s, t, VersionRow(req.versionId)) then None
      else
        var next := Released(row.value, row.value.audit.version + 1, req);
        Some(Acquire(s, t, {VersionRow(req.versionId)}, NOTHING.(version := Some(next)), SwapOwner(pre, draft, c)))
    case SwapOwner(pre, draft, c) =>
      var row := SetAt(db, req.scope, req.setId);
      if row.None? || row.value.audit.version != req.expected then Some(Finish(s, t, Failed(Conflict)))
      else if !Free(s, t, SetRow(req.setId)) then None
      else
        var next := Activated(row.value, draft.number, row.value.audit.version + 1, req);
        Some(Acquire(s, t, {SetRow(req.setId)}, th.pending.(set_ := Some(next)), AppendEvent(pre, draft, c)))
    case AppendEvent(pre, draft, c) =>
      var e := Event(Activated(pre, draft.number, req.expected + 1, req),
                     Released(draft, req.versionExpected + 1, req), req.actor, req.at);
      Some(Acquire(s, t, {}, th.pending.(event := Some(e)), CommitPublish(pre, draft, c)))
    case CommitPublish(pre, draft, c) =>
      var outcome := PublishReturned(Activated(pre, draft.number, req.expected + 1, req),
                                     Released(draft, req.versionExpected + 1, req));
      Some(CommitThen(s, t, Some(pre), StoreCompiled(c, outcome)))
    case _ => None
  }

  ghost function StepGetSet(s: State, t: nat): Option<State>
    requires t in s.threads && s.threads[t].req.GetSet?
  {
    var req, db := s.threads[t].req, s.trace.db;
    match s.threads[t].pc
    case GetRow =>
      var row := Lookup(db, req.scope, req.ref);
      if row.None? then Some(Finish(s, t, Failed(NotFound)))
      else if row.value.published == 0 then Some(Finish(s, t, SetRead(row.value, None)))
      else Some(Goto(s, t, GetCurrent(row.value)))
    case GetCurrent(pre) =>
      var row := ByNumber(db, pre.scope, pre.id, pre.published);
      Some(Finish(s, t, if row.None? then Failed(NotFound) else SetRead(pre, row)))
    case _ => None
  }

  ghost function StepEvaluate(w: Platform, s: State, t: nat): Option<State>
    requires t in s.threads && s.threads[t].req.Evaluate?
  {
    var th, req, db := s.threads[t], s.threads[t].req, s.trace.db;
    match th.pc
    case FindSet =>
      var row := Lookup(db, req.scope, req.ref);
      if row.None? then Some(Finish(s, t, Failed(NotFound)))
      else if !row.value.status.Active? then Some(Finish(s, t, Failed(Conflict)))
      else Some(Goto(s, t, FindVersion(row.value)))
    case FindVersion(pre) =>
      var row := ByNumber(db, pre.scope, pre.id, Target(pre, req.number));
      if row.None? then Some(Finish(s, t, Failed(NotFound)))
      else if !row.value.status.Published? then Some(Finish(s, t, Failed(Conflict)))
      else Some(Goto(s, t, LoadCompiled(row.value)))
    case LoadCompiled(v) =>
      var key := (th.replica, v.checksum);
      if key in s.caches then Some(Goto(s, t, RunRules(v, s.caches[key])))
      else if !Recompiles(w, v) then Some(Finish(s, t, Failed(Internal)))
      else Some(Goto(s, t, PutCompiled(v, Compile(w, v.definition).value)))
    case PutCompiled(v, c) =>
      var key := (th.replica, v.checksum);
      if key in s.caches then Some(Goto(s, t, RunRules(v, s.caches[key])))
      else Some(Goto(s, t, RunRules(v, c)).(caches := s.caches[key := c]))
    case RunRules(v, c) => Some(Finish(s, t, Answered(w, v, c, req.facts)))
    case _ => None
  }

  /** What a call does first once its arguments have been accepted. */
  function First(w: Platform, req: Request): Pc
    requires !Unacceptable(w, req)
  {
    match req
    case CreateSet(_, _, _, _, _, _, _) => InsertSet
    case UpdateSet(_, _, _, _, _, _, _, _) => ReadForUpdate
    case CreateVersion(_, _, _, text, _, _, _, _) => LockSet(Compile(w, text).value)
    case PublishVersion(_, _, _, _, _, _, _) => ReadOwner
    case GetSet(_, _) => GetRow
    case Evaluate(_, _, _, _) => FindSet
  }

  ghost function Step(w: Platform, s: State, t: nat): Option<State>
    requires t in s.threads
  {
    var th := s.threads[t];
    if th.pc.Started? then
      Some(if Unacceptable(w, th.req) then Finish(s, t, Failed(Invalid)) else Goto(s, t, First(w, th.req)))
    else if th.pc.StoreCompiled? then
      Some(Finish(s, t, th.pc.outcome).(caches := s.caches[(th.replica, th.pc.compiled.checksum) := th.pc.compiled]))
    else if Unacceptable(w, th.req) then None
    else
      match th.req
      case CreateSet(_, _, _, _, _, _, _) => StepCreateSet(s, t)
      case UpdateSet(_, _, _, _, _, _, _, _) => StepUpdateSet(s, t)
      case CreateVersion(_, _, _, _, _, _, _, _) => StepCreateVersion(w, s, t)
      case PublishVersion(_, _, _, _, _, _, _) => StepPublish(w, s, t)
      case GetSet(_, _) => StepGetSet(s, t)
      case Evaluate(_, _, _, _) => StepEvaluate(w, s, t)
  }

  /******* Runs *******/

  datatype Action = Begin(tid: nat, req: Request, replica: nat) | Advance(tid: nat) | Abort(tid: nat)

  /** Identifiers are fresh UUIDs: not in the tables, and not in the hands of another call. */
  ghost predicate FreshId(s: State, req: Request) {
    match req
    case CreateSet(_, newId, _, _, _, _, _) =>
      newId !in s.trace.db.sets
      && forall u :: u in s.threads && s.threads[u].req.CreateSet? ==> s.threads[u].req.newId != newId
    case CreateVersion(_, newId, _, _, _, _, _, _) =>
      newId !in s.trace.db.versions
      && forall u :: u in s.threads && s.threads[u].req.CreateVersion? ==> s.threads[u].req.newId != newId
    case _ => true
  }

  predicate Finished(pc: Pc) {
    pc.Done? || pc.Aborted?
  }

  /** A call may fail, and so roll back, before any statement up to and including its COMMIT. */
  predicate CanAbort(pc: Pc) {
    !Finished(pc) && !pc.StoreCompiled?
  }

  ghost function Do(w: Platform, s: State, a: Action): Option<State> {
    match a
    case Begin(t, req, replica) =>
      if t !in s.threads && FreshId(s, req)
      then Some(s.(threads := s.threads[t := Thread(req, replica, |s.trace.past|, Started, NOTHING)]))
      else None
    case Advance(t) => if t in s.threads then Step(w, s, t) else None
    case Abort(t) =>
      if t in s.threads && CanAbort(s.threads[t].pc) then Some(Release(s, t, Aborted(|s.trace.past|))) else None
  }

  ghost function RunFrom(w: Platform, s: State, actions: seq<Action>): Option<State> {
    if actions == [] then Some(s)
    else
      var before := RunFrom(w, s, actions[..|actions| - 1]);
      if before.None? then None else Do(w, before.value, actions[|actions| - 1])
  }

  ghost function Run(w: Platform, actions: seq<Action>): Option<State> {
    RunFrom(w, INITIAL, actions)
  }

  ghost predicate Reachable(w: Platform, s: State) {
    exists actions :: Run(w, actions) == Some(s)
  }
}
