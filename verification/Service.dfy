/**
 internal/rule/service.go, one call at a time: each method does what the atomic machine says, answer and tables
 both, and keeps the replica's cache of compiled definitions honest.
 */
module Service {
  import opened Wrappers
  import opened Platform
  import opened Engine
  import opened Store
  import opened Lifecycle
  import opened Invariants
  import opened Repository
  import Listing
  import Meaning
  import StepProof

  function Translate(err: Error): Code {
    match err
    case ErrNotFound => NotFound
    case ErrStaleVersion => Conflict
    case ErrConflict => Conflict
    case ErrDatabase => Internal
  }

  ghost predicate CacheValid(w: Platform, compiled: map<string, Compiled>) {
    forall checksum :: checksum in compiled ==> Cached(w, checksum, compiled[checksum])
  }

  class RuleService {
    const w: Platform
    const db: Database
    const repository: SQLRepository
    const transactor: Transactor
    var compiled: map<string, Compiled>

    ghost predicate Valid()
      reads this, db
    {
      && repository.db == db && transactor.db == db && db.saved.None?
      && Consistent(w, db.tables) && CacheValid(w, compiled)
    }

    constructor (w: Platform)
      ensures this.w == w && Valid() && db.tables == EMPTY && compiled == map[]
    {
      this.w := w;
      var database := new Database();
      this.db := database;
      this.repository := new SQLRepository(database);
      this.transactor := new Transactor(database);
      compiled := map[];
      new;
      EmptyConsistent(w);
    }

    method CreateRuleSet(req: Request) returns (r: Outcome)
      requires Valid() && req.CreateSet? && NewId(db.tables, req)
      modifies db
      ensures Valid()
      ensures db.tables == After(w, old(db.tables), req, None) && r == Atomic(w, old(db.tables), req, None).outcome
      ensures Meaning.CallMeans(w, old(db.tables), db.tables, req, None, r)
    {
      hide Meaning.CallMeans, Consistent, CacheValid, NewSet, ValidCode, CodeIds;
      AtomicKeeps(w, db.tables, req, None);
      Meaning.AtomicIsMeant(w, db.tables, req, None);
      if Unacceptable(w, req) {
        return Failed(Invalid);
      }
      var value := NewSet(req);
      assert value.id == req.newId && value.scope == req.scope && value.code == req.code by { NewSetIs(req); }
      transactor.Begin();
      var err := repository.CreateRuleSet(value);
      if err.Some? {
        transactor.Rollback();
        return Failed(Translate(err.value));
      }
      transactor.Commit();
      r := SetReturned(value);
    }

    method UpdateRuleSet(req: Request) returns (r: Outcome)
      requires Valid() && req.UpdateSet?
      modifies db
      ensures Valid()
      ensures db.tables == After(w, old(db.tables), req, None) && r == Atomic(w, old(db.tables), req, None).outcome
      ensures Meaning.CallMeans(w, old(db.tables), db.tables, req, None, r)
    {
      hide Meaning.CallMeans, CacheValid, AllShaped, CodesUnique, Numbered, KeysUnique, Pointed, OutboxFaithful;
      AtomicKeeps(w, db.tables, req, None);
      Meaning.AtomicIsMeant(w, db.tables, req, None);
      if Unacceptable(w, req) {
        return Failed(Invalid);
      }
      var found := repository.GetRuleSet(req.scope, ById(req.setId));
      if found.Failure? {
        return Failed(Translate(found.error));
      }
      var value := found.value;
      value := value.(name := req.name, description := req.description, status := req.status.value);
      value := value.(audit := value.audit.(version := req.expected + 1, updatedAt := req.at, updatedBy := req.actor));
      assert value == Renamed(found.value, req.expected + 1, req);
      transactor.Begin();
      var err := repository.UpdateRuleSet(value, req.expected);
      if err.Some? {
        transactor.Rollback();
        return Failed(Translate(err.value));
      }
      transactor.Commit();
      r := SetReturned(value);
    }

    method CreateRuleVersion(req: Request) returns (r: Outcome)
      requires Valid() && req.CreateVersion? && NewId(db.tables, req)
      modifies db, this
      ensures Valid()
      ensures db.tables == After(w, old(db.tables), req, None) && r == Atomic(w, old(db.tables), req, None).outcome
      ensures Meaning.CallMeans(w, old(db.tables), db.tables, req, None, r)
      ensures r.VersionReturned? ==> Compile(w, req.text).Success?
      ensures r.VersionReturned? ==>
        compiled == old(compiled)[r.ruleVersion.checksum := Compile(w, req.text).value]
      ensures !r.VersionReturned? ==> compiled == old(compiled)
    {
      hide Meaning.CallMeans, Atomic, After, Merge, Stored, Storable, Consistent, Keyed, CacheValid, Cached,
           CodesUnique, Numbered, KeysUnique, Compile, ByKey, MaxNumber;
      AtomicKeeps(w, db.tables, req, None);
      Meaning.AtomicIsMeant(w, db.tables, req, None);
      OnlyOneRow(w, db.tables);
      CreateVersionIs(w, db.tables, req);
      if req.scope.application == "" || req.setId == "" || req.key == "" || |req.key| > 191 || req.expected < 1 {
        return Failed(Invalid);
      }
      var result := CompileDefinition(w, req.text);
      if result.Failure? {
        return Failed(Invalid);
      }
      var c := result.value;
      var value := NewVersion(req, c, 0);
      transactor.Begin();
      var created := repository.CreateRuleVersion(w, value, req.expected);
      if created.Failure? {
        transactor.Rollback();
        return Failed(Translate(created.error));
      }
      transactor.Commit();
      value := created.value.0;
      Remember(w, compiled, req.text, c);
      compiled := compiled[value.checksum := c];
      r := VersionReturned(value, created.value.1);
    }

    /** The transaction of a publication: both swaps and the event, or nothing. */
    method Announce(ruleSet: RuleSet, version: RuleVersion, req: Request) returns (err: Option<Error>)
      requires req.PublishVersion? && repository.db == db && transactor.db == db && db.saved.None?
      modifies db
      ensures db.saved.None?
      ensures var draft := VersionById(old(db.tables), version.scope, version.setId, version.id);
        var owner := SetAt(old(db.tables), ruleSet.scope, ruleSet.id);
        if draft.Some? && draft.value.status.Draft? && draft.value.audit.version == req.versionExpected
          && owner.Some? && owner.value.audit.version == req.expected
        then
          && err.None?
          && db.tables == Db(
               old(db.tables).sets[ruleSet.id := owner.value.(status := Active, published := version.number,
                 audit := owner.value.audit.(version := req.expected + 1, updatedAt := ruleSet.audit.updatedAt,
                                             updatedBy := ruleSet.audit.updatedBy))],
               old(db.tables).versions[version.id := draft.value.(status := Published,
                 publishedAt := version.publishedAt,
                 audit := draft.value.audit.(version := req.versionExpected + 1, updatedAt := version.audit.updatedAt,
                                             updatedBy := version.audit.updatedBy))],
               old(db.tables).outbox + [Event(ruleSet, version, req.actor, req.at)])
        else err == Some(ErrStaleVersion) && db.tables == old(db.tables)
    {
      transactor.Begin();
      err := repository.PublishRuleVersion(ruleSet, version, req.expected, req.versionExpected);
      if err.Some? {
        transactor.Rollback();
        return;
      }
      repository.AddOutbox(Event(ruleSet, version, req.actor, req.at));
      transactor.Commit();
    }

    method PublishRuleVersion(req: Request) returns (r: Outcome)
      requires Valid() && req.PublishVersion?
      modifies db, this
      ensures Valid()
      ensures db.tables == After(w, old(db.tables), req, None) && r == Atomic(w, old(db.tables), req, None).outcome
      ensures Meaning.CallMeans(w, old(db.tables), db.tables, req, None, r)
      ensures r.PublishReturned? ==> Recompiles(w, r.ruleVersion)
      ensures r.PublishReturned? ==>
        compiled == old(compiled)[r.ruleVersion.checksum := Compile(w, r.ruleVersion.definition).value]
      ensures !r.PublishReturned? ==> compiled == old(compiled)
    {
      hide Meaning.CallMeans, CacheValid, Cached, Consistent, Atomic, After, Compile, Unacceptable, Keyed, CodesUnique,
           Numbered, KeysUnique;
      AtomicKeeps(w, db.tables, req, None);
      Meaning.AtomicIsMeant(w, db.tables, req, None);
      PublishIs(w, db.tables, req);
      if Unacceptable(w, req) {
        return Failed(Invalid);
      }
      OnlyOneRow(w, db.tables);
      var owner := repository.GetRuleSet(req.scope, ById(req.setId));
      if owner.Failure? {
        return Failed(Translate(owner.error));
      }
      var draft := repository.GetRuleVersion(req.scope, req.setId, req.versionId);
      FoundByKey(db.tables, req.scope, req.setId, req.versionId, draft);
      if draft.Failure? {
        return Failed(Translate(draft.error));
      }
      if !draft.value.status.Draft? {
        return Failed(Conflict);
      }
      var result := CompileDefinition(w, draft.value.definition);
      if result.Failure? || result.value.checksum != draft.value.checksum {
        return Failed(Conflict);
      }
      var version := Released(draft.value, req.versionExpected + 1, req);
      var ruleSet := Activated(owner.value, version.number, req.expected + 1, req);
      var err := Announce(ruleSet, version, req);
      if err.Some? {
        return Failed(Translate(err.value));
      }
      PublishedTables(w, old(db.tables), db.tables, req);
      Remember(w, compiled, draft.value.definition, result.value);
      compiled := compiled[version.checksum := result.value];
      r := PublishReturned(ruleSet, version);
    }

    method GetRuleSet(req: Request) returns (r: Outcome)
      requires Valid() && req.GetSet?
      ensures r == Atomic(w, db.tables, req, None).outcome
      ensures Meaning.CallMeans(w, db.tables, db.tables, req, None, r)
    {
      hide Meaning.CallMeans, CacheValid, Keyed, AllShaped, CodesUnique, Numbered, KeysUnique, Pointed, OutboxFaithful,
           Lookup, ByNumber;
      Meaning.AtomicIsMeant(w, db.tables, req, None);
      Meaning.ReadsOnly(w, db.tables, req, None);
      if req.scope.application == "" {
        return Failed(Invalid);
      }
      var found := repository.GetRuleSet(req.scope, req.ref);
      if found.Failure? {
        return Failed(Translate(found.error));
      }
      if found.value.published == 0 {
        return SetRead(found.value, None);
      }
      var current := repository.GetRuleVersionByNumber(found.value.scope, found.value.id, found.value.published);
      if current.Failure? {
        return Failed(Translate(current.error));
      }
      r := SetRead(found.value, Some(current.value));
    }

    method ListRuleVersions(scope: Scope, setId: Id, status: string, page: int, pageSize: int)
      returns (r: Result<Listing.Page, Code>)
      requires Valid() && Listing.GoInt(page) && Listing.GoInt(pageSize)
      ensures r == Listing.Listed(db.tables, scope, setId, status, page, pageSize)
    {
      hide CacheValid, Keyed, AllShaped, CodesUnique, Numbered, KeysUnique, Pointed, OutboxFaithful, Listing.Versions;
      if scope.application == "" {
        return Failure(Invalid);
      }
      var number, size := page, pageSize;
      if number < 1 {
        number := 1;
      }
      if size < 1 {
        size := 20;
      }
      if size > 200 {
        size := 200;
      }
      var listed := repository.ListRuleVersions(scope, setId, status, size, Listing.Wrapped((number - 1) * size));
      if listed.Failure? {
        return Failure(Translate(listed.error));
      }
      r := Success(Listing.Page(listed.value.0, listed.value.1, number, size));
    }

    /**
     The cached definition of a version, or the one recompiled from its text and cached from now on, or an error.
     Whatever the cache holds, a version whose text recompiles gets what it recompiles to.
     */
    method CompiledDefinition(version: RuleVersion) returns (r: Option<Compiled>)
      requires Valid() && Lawful(w)
      modifies `compiled
      ensures Valid()
      ensures r.Some? <==> version.checksum in old(compiled) || Recompiles(w, version)
      ensures r.Some? ==> r.value.checksum == version.checksum && Compiles(w, r.value)
      ensures Recompiles(w, version) ==> r == Some(Compile(w, version.definition).value)
      ensures compiled == if r.Some? then old(compiled)[version.checksum := r.value] else old(compiled)
    {
      hide Consistent, Lawful, Compile, Compiles;
      if version.checksum in compiled {
        assert Cached(w, version.checksum, compiled[version.checksum]);
        if Recompiles(w, version) {
          CachedExactly(w, version.checksum, compiled[version.checksum], version);
        }
        assert compiled == compiled[version.checksum := compiled[version.checksum]];
        return Some(compiled[version.checksum]);
      }
      var result := CompileDefinition(w, version.definition);
      if result.Failure? || result.value.checksum != version.checksum {
        return None;
      }
      Remember(w, compiled, version.definition, result.value);
      StepProof.CompilesBy(w, version.definition, result.value);
      compiled := compiled[version.checksum := result.value];
      r := Some(result.value);
    }

    method Evaluate(req: Request) returns (r: Outcome)
      requires Valid() && Lawful(w) && req.Evaluate?
      modifies `compiled
      ensures Valid()
      ensures r == Atomic(w, db.tables, req, None).outcome
      ensures Meaning.CallMeans(w, db.tables, db.tables, req, None, r)
    {
      hide Meaning.CallMeans, Lawful, CacheValid, Keyed, AllShaped, CodesUnique, Numbered, KeysUnique, Pointed,
           OutboxFaithful, Lookup, ByNumber, Compile, EvaluateCompiled;
      Meaning.AtomicIsMeant(w, db.tables, req, None);
      Meaning.ReadsOnly(w, db.tables, req, None);
      if req.scope.application == "" {
        return Failed(Invalid);
      }
      var found := repository.GetRuleSet(req.scope, req.ref);
      if found.Failure? {
        return Failed(Translate(found.error));
      }
      if !found.value.status.Active? {
        return Failed(Conflict);
      }
      var number := req.number;
      if number == 0 {
        number := found.value.published;
      }
      var version := repository.GetRuleVersionByNumber(found.value.scope, found.value.id, number);
      if version.Failure? {
        return Failed(Translate(version.error));
      }
      if !version.value.status.Published? {
        return Failed(Conflict);
      }
      StepProof.PublishedRecompiles(w, db.tables, req, version.value);
      var c := CompiledDefinition(version.value);
      if c.None? {
        return Failed(Internal);
      }
      var result := EvaluateDefinition(w, c.value, req.facts);
      match result
      case Success(evaluation) => r := Evaluated(evaluation, version.value);
      case Failure(InvalidFacts) => r := Failed(Invalid);
      case Failure(RuleFailed) => r := Failed(Internal);
    }

    /** Although the cache fills up on the way, each answer of a batch is the one its input gets alone. */
    method BatchEvaluate(inputs: seq<Request>) returns (r: Option<seq<Outcome>>)
      requires Valid() && Lawful(w) && forall input :: input in inputs ==> input.Evaluate?
      modifies `compiled
      ensures Valid()
      ensures r.Some? <==> 1 <= |inputs| <= 100
      ensures r.Some? ==> |r.value| == |inputs|
      ensures r.Some? ==> forall i | 0 <= i < |inputs| :: r.value[i] == Atomic(w, db.tables, inputs[i], None).outcome
    {
      hide Lawful, Consistent, CacheValid, Atomic;
      if |inputs| == 0 || |inputs| > 100 {
        return None;
      }
      var results: seq<Outcome> := [];
      for index := 0 to |inputs|
        invariant Valid() && |results| == index
        invariant forall i :: 0 <= i < index ==> results[i] == Atomic(w, db.tables, inputs[i], None).outcome
      {
        var outcome := Evaluate(inputs[index]);
        results := results + [outcome];
      }
      r := Some(results);
    }
  }

  /** What the creation of a version does on its own. */
  lemma CreateVersionIs(w: Platform, db: Db, req: Request)
    requires req.CreateVersion?
    ensures Atomic(w, db, req, None)
         == if Unacceptable(w, req) then Refuse(Invalid)
            else AtomicCreateVersion(w, db, req, Compile(w, req.text).value)
    ensures After(w, db, req, None) == Merge(db, Atomic(w, db, req, None).writes)
    ensures Merge(db, NOTHING) == db
  {
    hide AtomicCreateVersion, Compile;
  }

  /** What a publication does on its own, spelled out case by case. */
  lemma PublishIs(w: Platform, db: Db, req: Request)
    requires req.PublishVersion? && Consistent(w, db)
    ensures Unacceptable(w, req) ==> Atomic(w, db, req, None) == Refuse(Invalid)
    ensures !Unacceptable(w, req) ==>
      var owner := SetAt(db, req.scope, req.setId);
      var draft := VersionById(db, req.scope, req.setId, req.versionId);
      Atomic(w, db, req, None) ==
        if owner.None? || draft.None? then Refuse(NotFound)
        else if !draft.value.status.Draft? || !Recompiles(w, draft.value)
          || draft.value.audit.version != req.versionExpected || owner.value.audit.version != req.expected
        then Refuse(Conflict)
        else
          var row := Activated(owner.value, draft.value.number, req.expected + 1, req);
          var version := Released(draft.value, req.versionExpected + 1, req);
          Transition(Writes(Some(row), Some(version), Some(Event(row, version, req.actor, req.at))),
                     PublishReturned(row, version))
    ensures Atomic(w, db, req, None).writes == NOTHING ==> After(w, db, req, None) == db
  {
    hide Keyed, AllShaped, CodesUnique, Numbered, KeysUnique, Pointed, OutboxFaithful, Recompiles;
  }

  lemma PublishedTables(w: Platform, db: Db, db': Db, req: Request)
    requires req.PublishVersion? && Consistent(w, db) && !Unacceptable(w, req)
    requires SetAt(db, req.scope, req.setId).Some? && VersionById(db, req.scope, req.setId, req.versionId).Some?
    requires
      var owner, draft := db.sets[req.setId], db.versions[req.versionId];
      var row := Activated(owner, draft.number, req.expected + 1, req);
      var version := Released(draft, req.versionExpected + 1, req);
      && draft.status.Draft? && Recompiles(w, draft)
      && draft.audit.version == req.versionExpected && owner.audit.version == req.expected
      && db'.versions == db.versions[req.versionId := version] && db'.sets == db.sets[req.setId := row]
      && db'.outbox == db.outbox + [Event(row, version, req.actor, req.at)]
    ensures db' == After(w, db, req, None)
  {
    hide Atomic, Recompiles;
    PublishIs(w, db, req);
    hide AllShaped, CodesUnique, Numbered, KeysUnique, Pointed, OutboxFaithful;
  }

  lemma OnlyOneRow(w: Platform, db: Db)
    requires Consistent(w, db)
    ensures CodesUnique(db) && Numbered(db) && KeysUnique(db) && Keyed(db)
  {}

  lemma NewSetIs(req: Request)
    requires req.CreateSet?
    ensures NewSet(req).id == req.newId && NewSet(req).scope == req.scope && NewSet(req).code == req.code
  {}

  lemma Remember(w: Platform, compiled: map<string, Compiled>, raw: string, c: Compiled)
    requires CacheValid(w, compiled) && Compile(w, raw) == Success(c)
    ensures CacheValid(w, compiled[c.checksum := c])
  {
    hide Compile;
    assert Cached(w, c.checksum, c);
  }
}
