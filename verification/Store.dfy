/** The three tables of the rule service, and the WHERE clauses its queries select rows by. */
module Store {
  import opened Wrappers

  type Id = string

  datatype Scope = Scope(tenant: string, application: string)

  datatype Audit = Audit(version: int, createdAt: int, updatedAt: int, createdBy: string, updatedBy: string)

  datatype SetStatus = Fresh | Active | Disabled

  datatype VersionStatus = Draft | Published

  datatype RuleSet = RuleSet(
    id: Id, scope: Scope, code: string, name: string, description: string,
    status: SetStatus, published: int, audit: Audit)

  datatype RuleVersion = RuleVersion(
    id: Id, scope: Scope, setId: Id, number: int, status: VersionStatus, definition: string,
    checksum: string, key: string, publishedAt: Option<int>, audit: Audit)

  datatype Event = Event(ruleSet: RuleSet, ruleVersion: RuleVersion, actor: string, at: int)

  /** Committed rows.  The outbox is append-only; `sets` and `versions` are keyed by primary key. */
  datatype Db = Db(sets: map<Id, RuleSet>, versions: map<Id, RuleVersion>, outbox: seq<Event>)

  const EMPTY := Db(map[], map[], [])

  /** The rows a transaction has written but not committed: at most one per table. */
  datatype Writes = Writes(set_: Option<RuleSet>, version: Option<RuleVersion>, event: Option<Event>)

  const NOTHING := Writes(None, None, None)

  function Merge(db: Db, writes: Writes): Db {
    Db(
      if writes.set_.Some? then db.sets[writes.set_.value.id := writes.set_.value] else db.sets,
      if writes.version.Some? then db.versions[writes.version.value.id := writes.version.value] else db.versions,
      if writes.event.Some? then db.outbox + [writes.event.value] else db.outbox)
  }

  /******* Selection *******/

  datatype SetRef = ById(id: Id) | ByCode(code: string)

  predicate Belongs(v: RuleVersion, scope: Scope, setId: Id) {
    v.scope == scope && v.setId == setId
  }

  function SetAt(db: Db, scope: Scope, id: Id): Option<RuleSet> {
    if id in db.sets && db.sets[id].scope == scope then Some(db.sets[id]) else None
  }

  function CodeIds(db: Db, scope: Scope, code: string): set<Id> {
    set id | id in db.sets && db.sets[id].scope == scope && db.sets[id].code == code
  }

  ghost function Lookup(db: Db, scope: Scope, ref: SetRef): Option<RuleSet> {
    match ref
    case ById(id) => SetAt(db, scope, id)
    case ByCode(code) =>
      if CodeIds(db, scope, code) == {} then None else Some(db.sets[Pick(CodeIds(db, scope, code))])
  }

  function VersionById(db: Db, scope: Scope, setId: Id, id: Id): Option<RuleVersion> {
    if id in db.versions && Belongs(db.versions[id], scope, setId) then Some(db.versions[id]) else None
  }

  function NumberIds(db: Db, scope: Scope, setId: Id, number: int): set<Id> {
    set id | id in db.versions && Belongs(db.versions[id], scope, setId) && db.versions[id].number == number
  }

  function KeyIds(db: Db, scope: Scope, setId: Id, key: string): set<Id> {
    set id | id in db.versions && Belongs(db.versions[id], scope, setId) && db.versions[id].key == key
  }

  ghost function VersionOf(db: Db, ids: set<Id>): Option<RuleVersion>
    requires ids <= db.versions.Keys
  {
    if ids == {} then None else Some(db.versions[Pick(ids)])
  }

  ghost function ByNumber(db: Db, scope: Scope, setId: Id, number: int): Option<RuleVersion> {
    VersionOf(db, NumberIds(db, scope, setId, number))
  }

  ghost function ByKey(db: Db, scope: Scope, setId: Id, key: string): Option<RuleVersion> {
    VersionOf(db, KeyIds(db, scope, setId, key))
  }

  ghost function Pick<T>(elements: set<T>): (e: T)
    requires elements != {}
    ensures e in elements
  {
    var e :| e in elements;
    e
  }

  function Numbers(db: Db, scope: Scope, setId: Id): set<int> {
    set id | id in db.versions && Belongs(db.versions[id], scope, setId) :: db.versions[id].number
  }

  /** COALESCE(MAX(version_number), 0) */
  ghost function MaxNumber(db: Db, scope: Scope, setId: Id): int {
    MaxOf(Numbers(db, scope, setId))
  }

  ghost function MaxOf(numbers: set<int>): (m: int)
    ensures numbers == {} ==> m == 0
    ensures numbers != {} ==> m in numbers && forall n :: n in numbers ==> n <= m
  {
    if numbers == {} then 0
    else
      var n := Pick(numbers);
      var rest := MaxOf(numbers - {n});
      assert numbers == (numbers - {n}) + {n};
      if numbers == {n} || n > rest then n else rest
  }

  lemma MaxNumberBounds(db: Db, scope: Scope, setId: Id)
    ensures forall id :: id in db.versions && Belongs(db.versions[id], scope, setId)
              ==> db.versions[id].number <= MaxNumber(db, scope, setId)
    ensures MaxNumber(db, scope, setId) == 0
      || exists id :: id in db.versions && Belongs(db.versions[id], scope, setId)
                      && db.versions[id].number == MaxNumber(db, scope, setId)
  {
    forall id | id in db.versions && Belongs(db.versions[id], scope, setId)
      ensures db.versions[id].number in Numbers(db, scope, setId)
    {}
  }
}
