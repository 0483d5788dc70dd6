/**
 The lifecycle as one indivisible transition per request.  `Atomic` is the specification the interleaved
 machine of module Machine refines and the imperative service of module Service implements.
 */
module Lifecycle {
  import opened Wrappers
  import opened Platform
  import opened Engine
  import opened Store

  datatype Request =
    | CreateSet(scope: Scope, newId: Id, code: string, name: string, description: string, actor: string, at: int)
    | UpdateSet(scope: Scope, setId: Id, name: string, description: string, status: Option<SetStatus>,
                expected: int, actor: string, at: int)
    | CreateVersion(scope: Scope, newId: Id, setId: Id, text: string, key: string,
                    expected: int, actor: string, at: int)
    | PublishVersion(scope: Scope, setId: Id, versionId: Id, expected: int, versionExpected: int,
                     actor: string, at: int)
    | GetSet(scope: Scope, ref: SetRef)
    | Evaluate(scope: Scope, ref: SetRef, number: int, facts: string)

  /** The application error codes a caller can see. */
  datatype Code = Invalid | NotFound | Conflict | Internal

  datatype Outcome =
    | Failed(code: Code)
    | SetReturned(ruleSet: RuleSet)
    | VersionReturned(ruleVersion: RuleVersion, created: bool)
    | PublishReturned(ruleSet: RuleSet, ruleVersion: RuleVersion)
    | SetRead(ruleSet: RuleSet, current: Option<RuleVersion>)
    | Evaluated(evaluation: Evaluation, ruleVersion: RuleVersion)

  datatype Transition = Transition(writes: Writes, outcome: Outcome)

  function Refuse(code: Code): Transition {
    Transition(NOTHING, Failed(code))
  }

  /******* Argument checks *******/

  predicate CodeStart(c: char) {
    'a' <= c <= 'z'
  }

  predicate CodePart(c: char) {
    'a' <= c <= 'z' || '0' <= c <= '9' || c == '.' || c == '_' || c == '-'
  }

  /** ^[a-z][a-z0-9._-]{1,127}$ */
  predicate ValidCode(code: string) {
    && 2 <= |code| <= 128
    && CodeStart(code[0])
    && forall i :: 1 <= i < |code| ==> CodePart(code[i])
  }

  predicate Unacceptable(w: Platform, req: Request) {
    match req
    case CreateSet(scope, _, code, name, _, _, _) =>
      scope.tenant == "" || scope.application == "" || !ValidCode(code) || name == ""
    case UpdateSet(scope, setId, name, _, status, expected, _, _) =>
      scope.application == "" || setId == "" || name == "" || expected < 1 || status.None?
    case CreateVersion(scope, _, setId, text, key, expected, _, _) =>
      || scope.application == "" || setId == "" || key == "" || |key| > 191 || expected < 1
      || Compile(w, text).Failure?
    case PublishVersion(scope, _, _, expected, versionExpected, _, _) =>
      scope.application == "" || expected < 1 || versionExpected < 1
    case GetSet(scope, _) => scope.application == ""
    case Evaluate(scope, _, _, _) => scope.application == ""
  }

  /******* The rows each request composes *******/

  function Touched(audit: Audit, version: int, req: Request): Audit
    requires req.CreateSet? || req.UpdateSet? || req.CreateVersion? || req.PublishVersion?
  {
    audit.(version := version, updatedAt := req.at, updatedBy := req.actor)
  }

  function NewAudit(req: Request): Audit
    requires req.CreateSet? || req.CreateVersion?
  {
    Audit(1, req.at, req.at, req.actor, req.actor)
  }

  function NewSet(req: Request): RuleSet
    requires req.CreateSet?
  {
    RuleSet(req.newId, req.scope, req.code, req.name, req.description, Fresh, 0, NewAudit(req))
  }

  function Renamed(row: RuleSet, version: int, req: Request): RuleSet
    requires req.UpdateSet? && req.status.Some?
  {
    row.(name := req.name, description := req.description, status := req.status.value,
         audit := Touched(row.audit, version, req))
  }

  function NewVersion(req: Request, c: Compiled, number: int): RuleVersion
    requires req.CreateVersion?
  {
    RuleVersion(req.newId, req.scope, req.setId, number, Draft, c.text, c.checksum, req.key, None, NewAudit(req))
  }

  /** The column takes the text, if perhaps to give back another one. */
  predicate Storable(w: Platform, row: RuleVersion) {
    w.column(row.definition).Some?
  }

  function Stored(w: Platform, row: RuleVersion): RuleVersion
    requires Storable(w, row)
  {
    row.(definition := w.column(row.definition).value)
  }

  function Released(row: RuleVersion, version: int, req: Request): RuleVersion
    requires req.PublishVersion?
  {
    row.(status := Published, publishedAt := Some(req.at), audit := Touched(row.audit, version, req))
  }

  function Activated(row: RuleSet, number: int, version: int, req: Request): RuleSet
    requires req.PublishVersion?
  {
    row.(status := Active, published := number, audit := Touched(row.audit, version, req))
  }

  /** The stored text compiles, to the checksum recorded beside it. */
  predicate Recompiles(w: Platform, row: RuleVersion) {
    var r := Compile(w, row.definition);
    r.Success? && r.value.checksum == row.checksum
  }

  ghost predicate Compiles(w: Platform, c: Compiled) {
    exists raw :: Compile(w, raw) == Success(c)
  }

  /** What a replica may keep under a checksum. */
  ghost predicate Cached(w: Platform, checksum: string, c: Compiled) {
    c.checksum == checksum && Compiles(w, c)
  }

  /** Whatever text it was compiled from, it is what any row with that checksum recompiles to. */
  lemma CachedExactly(w: Platform, checksum: string, c: Compiled, row: RuleVersion)
    requires Lawful(w) && Cached(w, checksum, c) && row.checksum == checksum && Recompiles(w, row)
    ensures Compile(w, row.definition) == Success(c)
  {
    hide Compile, Lawful;
    var raw :| Compile(w, raw) == Success(c);
    SameChecksumSameCompiled(w, raw, row.definition);
  }

  /******* The transitions *******/

  /** The set row the service composes its reply from: the one it read earlier, or else the current one. */
  function Basis(seen: Option<RuleSet>, current: RuleSet): RuleSet {
    if seen.Some? then seen.value else current
  }

  function AtomicCreateSet(db: Db, req: Request): Transition
    requires req.CreateSet?
  {
    if req.newId in db.sets || CodeIds(db, req.scope, req.code) != {} then Refuse(Internal)
    else Transition(Writes(Some(NewSet(req)), None, None), SetReturned(NewSet(req)))
  }

  function AtomicUpdateSet(db: Db, req: Request, seen: Option<RuleSet>): Transition
    requires req.UpdateSet? && req.status.Some?
  {
    var current := SetAt(db, req.scope, req.setId);
    if current.None? then Refuse(NotFound)
    else if current.value.audit.version != req.expected then Refuse(Conflict)
    else
      Transition(Writes(Some(Renamed(current.value, current.value.audit.version + 1, req)), None, None),
                 SetReturned(Renamed(Basis(seen, current.value), req.expected + 1, req)))
  }

  ghost function AtomicCreateVersion(w: Platform, db: Db, req: Request, c: Compiled): Transition
    requires req.CreateVersion?
  {
    var owner := SetAt(db, req.scope, req.setId);
    var existing := ByKey(db, req.scope, req.setId, req.key);
    if owner.None? then Refuse(NotFound)
    else if existing.Some? then
      if existing.value.checksum != c.checksum then Refuse(Conflict)
      else Transition(NOTHING, VersionReturned(existing.value, false))
    else if owner.value.audit.version != req.expected || owner.value.status.Disabled? then Refuse(Conflict)
    else if req.newId in db.versions then Refuse(Internal)
    else
      var row := NewVersion(req, c, MaxNumber(db, req.scope, req.setId) + 1);
      if !Storable(w, row) then Refuse(Internal)
      else Transition(Writes(None, Some(Stored(w, row)), None), VersionReturned(row, true))
  }

  function AtomicPublish(w: Platform, db: Db, req: Request, seen: Option<RuleSet>): Transition
    requires req.PublishVersion?
  {
    var owner := SetAt(db, req.scope, req.setId);
    var draft := VersionById(db, req.scope, req.setId, req.versionId);
    if owner.None? || draft.None? then Refuse(NotFound)
    else if !draft.value.status.Draft? || !Recompiles(w, draft.value) then Refuse(Conflict)
    else if draft.value.audit.version != req.versionExpected then Refuse(Conflict)
    else if owner.value.audit.version != req.expected then Refuse(Conflict)
    else
      var number := draft.value.number;
      var released := Released(draft.value, draft.value.audit.version + 1, req);
      var reply := Activated(Basis(seen, owner.value), number, req.expected + 1, req);
      Transition(Writes(Some(Activated(owner.value, number, owner.value.audit.version + 1, req)), Some(released),
                        Some(Event(reply, released, req.actor, req.at))),
                 PublishReturned(reply, released))
  }

  ghost function AtomicGetSet(db: Db, req: Request): Outcome
    requires req.GetSet?
  {
    var found := Lookup(db, req.scope, req.ref);
    if found.None? then Failed(NotFound)
    else if found.value.published == 0 then SetRead(found.value, None)
    else
      var current := ByNumber(db, found.value.scope, found.value.id, found.value.published);
      if current.None? then Failed(NotFound) else SetRead(found.value, current)
  }

  function Target(ruleSet: RuleSet, number: int): int {
    if number == 0 then ruleSet.published else number
  }

  /** The version an evaluation runs, or the code it fails with before running anything. */
  ghost function Resolve(db: Db, req: Request): Result<RuleVersion, Code>
    requires req.Evaluate?
  {
    var found := Lookup(db, req.scope, req.ref);
    if found.None? then Failure(NotFound)
    else if !found.value.status.Active? then Failure(Conflict)
    else
      var version := ByNumber(db, found.value.scope, found.value.id, Target(found.value, req.number));
      if version.None? then Failure(NotFound)
      else if !version.value.status.Published? then Failure(Conflict)
      else Success(version.value)
  }

  function Answered(w: Platform, row: RuleVersion, c: Compiled, facts: string): Outcome {
    match EvaluateCompiled(w, c, facts)
    case Success(evaluation) => Evaluated(evaluation, row)
    case Failure(InvalidFacts) => Failed(Invalid)
    case Failure(RuleFailed) => Failed(Internal)
  }

  /** Evaluation that recompiles the stored text every time. */
  function Recomputed(w: Platform, row: RuleVersion, facts: string): Outcome {
    if Recompiles(w, row) then Answered(w, row, Compile(w, row.definition).value, facts) else Failed(Internal)
  }

  ghost function AtomicEvaluate(w: Platform, db: Db, req: Request): Outcome
    requires req.Evaluate?
  {
    match Resolve(db, req)
    case Failure(code) => Failed(code)
    case Success(row) => Recomputed(w, row, req.facts)
  }

  ghost function Atomic(w: Platform, db: Db, req: Request, seen: Option<RuleSet>): Transition {
    if Unacceptable(w, req) then Refuse(Invalid)
    else
      match req
      case CreateSet(_, _, _, _, _, _, _) => AtomicCreateSet(db, req)
      case UpdateSet(_, _, _, _, _, _, _, _) => AtomicUpdateSet(db, req, seen)
      case CreateVersion(_, _, _, text, _, _, _, _) => AtomicCreateVersion(w, db, req, Compile(w, text).value)
      case PublishVersion(_, _, _, _, _, _, _) => AtomicPublish(w, db, req, seen)
      case GetSet(_, _) => Transition(NOTHING, AtomicGetSet(db, req))
      case Evaluate(_, _, _, _) => Transition(NOTHING, AtomicEvaluate(w, db, req))
  }

  ghost function After(w: Platform, db: Db, req: Request, seen: Option<RuleSet>): Db {
    Merge(db, Atomic(w, db, req, seen).writes)
  }

  /** Identifiers are fresh UUIDs: in no table, of any scope. */
  ghost predicate NewId(db: Db, req: Request) {
    && (req.CreateSet? ==> req.newId !in db.sets)
    && (req.CreateVersion? ==> req.newId !in db.versions)
  }
}
