/** internal/rule/repository.go and internal/database/transaction.go, executed one statement after another. */
module Repository {
  import opened Wrappers
  import opened Platform
  import opened Store
  import opened Lifecycle
  import opened Invariants
  import Listing

  datatype Error = ErrNotFound | ErrStaleVersion | ErrConflict | ErrDatabase

  /** The handle both the repository and the transactor hold. */
  class Database {
    var tables: Db
    var saved: Option<Db>

    constructor ()
      ensures tables == EMPTY && saved.None?
    {
      tables := EMPTY;
      saved := None;
    }
  }

  /** Begin, then either Commit or Rollback, around what the callback of `Within` does. */
  class Transactor {
    const db: Database

    constructor (db: Database)
      ensures this.db == db
    {
      this.db := db;
    }

    method Begin()
      requires db.saved.None?
      modifies db
      ensures db.saved == Some(old(db.tables)) && db.tables == old(db.tables)
    {
      db.saved := Some(db.tables);
    }

    method Commit()
      requires db.saved.Some?
      modifies db
      ensures db.saved.None? && db.tables == old(db.tables)
    {
      db.saved := None;
    }

    method Rollback()
      requires db.saved.Some?
      modifies db
      ensures db.saved.None? && db.tables == old(db.saved).value
    {
      db.tables := db.saved.value;
      db.saved := None;
    }
  }

  class SQLRepository {
    const db: Database

    constructor (db: Database)
      ensures this.db == db
    {
      this.db := db;
    }

    method CreateRuleSet(row: RuleSet) returns (err: Option<Error>)
      modifies db`tables
      ensures err.None? <==> row.id !in old(db.tables.sets) && CodeIds(old(db.tables), row.scope, row.code) == {}
      ensures db.tables == if err.None? then Merge(old(db.tables), NOTHING.(set_ := Some(row))) else old(db.tables)
      ensures err.Some? ==> err == Some(ErrDatabase)
    {
      if row.id in db.tables.sets || CodeIds(db.tables, row.scope, row.code) != {} {
        return Some(ErrDatabase);
      }
      db.tables := db.tables.(sets := db.tables.sets[row.id := row]);
      err := None;
    }

    /** UPDATE ... SET name, description, status, version = version + 1 ... WHERE version = expected */
    method UpdateRuleSet(value: RuleSet, expected: int) returns (err: Option<Error>)
      modifies db`tables
      ensures var row := SetAt(old(db.tables), value.scope, value.id);
        if row.Some? && row.value.audit.version == expected
        then err.None? && db.tables == old(db.tables).(sets := old(db.tables.sets)[value.id :=
               row.value.(name := value.name, description := value.description, status := value.status,
                          audit := row.value.audit.(version := expected + 1, updatedAt := value.audit.updatedAt,
                                                    updatedBy := value.audit.updatedBy))])
        else err == Some(ErrStaleVersion) && db.tables == old(db.tables)
    {
      var found := SetAt(db.tables, value.scope, value.id);
      if found.None? || found.value.audit.version != expected {
        return Some(ErrStaleVersion);
      }
      var row := found.value;
      row := row.(name := value.name, description := value.description, status := value.status);
      row := row.(audit := row.audit.(version := row.audit.version + 1,
                                      updatedAt := value.audit.updatedAt, updatedBy := value.audit.updatedBy));
      db.tables := db.tables.(sets := db.tables.sets[value.id := row]);
      err := None;
    }

    method GetRuleSet(scope: Scope, ref: SetRef) returns (r: Result<RuleSet, Error>)
      requires CodesUnique(db.tables)
      ensures var found := Lookup(db.tables, scope, ref);
        r == if found.Some? then Success(found.value) else Failure(ErrNotFound)
    {
      match ref
      case ById(id) =>
        var found := SetAt(db.tables, scope, id);
        if found.None? {
          return Failure(ErrNotFound);
        }
        return Success(found.value);
      case ByCode(code) =>
        var ids := CodeIds(db.tables, scope, code);
        if ids == {} {
          return Failure(ErrNotFound);
        }
        var id :| id in ids;
        return Success(db.tables.sets[id]);
    }

    /** SELECT ... WHERE rule_set_id = ? AND id = ? */
    method GetRuleVersion(scope: Scope, setId: Id, id: Id) returns (r: Result<RuleVersion, Error>)
      requires Keyed(db.tables)
      ensures r.Success? ==>
        r.value in db.tables.versions.Values && r.value.id == id && Belongs(r.value, scope, setId)
      ensures r.Failure? ==> r.error == ErrNotFound
      ensures r.Failure? ==>
        forall row :: row in db.tables.versions.Values && row.id == id ==> !Belongs(row, scope, setId)
    {
      if id !in db.tables.versions || !Belongs(db.tables.versions[id], scope, setId) {
        return Failure(ErrNotFound);
      }
      r := Success(db.tables.versions[id]);
    }

    /** SELECT ... WHERE rule_set_id = ? AND version_number = ? */
    method GetRuleVersionByNumber(scope: Scope, setId: Id, number: int) returns (r: Result<RuleVersion, Error>)
      requires Numbered(db.tables)
      ensures var found := ByNumber(db.tables, scope, setId, number);
        r == if found.Some? then Success(found.value) else Failure(ErrNotFound)
    {
      var ids := NumberIds(db.tables, scope, setId, number);
      if ids == {} {
        return Failure(ErrNotFound);
      }
      var id :| id in ids;
      r := Success(db.tables.versions[id]);
    }

    method FindByKey(scope: Scope, setId: Id, key: string) returns (r: Option<RuleVersion>)
      requires KeysUnique(db.tables)
      ensures r == ByKey(db.tables, scope, setId, key)
    {
      var ids := KeyIds(db.tables, scope, setId, key);
      if ids == {} {
        return None;
      }
      var id :| id in ids;
      r := Some(db.tables.versions[id]);
    }

    /** SELECT COALESCE(MAX(version_number), 0) */
    method SelectMaxNumber(scope: Scope, setId: Id) returns (m: int)
      ensures m == MaxNumber(db.tables, scope, setId)
    {
      var numbers := Numbers(db.tables, scope, setId);
      if numbers == {} {
        return 0;
      }
      m :| m in numbers;
      var rest := numbers - {m};
      while rest != {}
        invariant m in numbers && rest <= numbers
        invariant forall n :: n in numbers && n !in rest ==> n <= m
        decreases |rest|
      {
        var n :| n in rest;
        rest := rest - {n};
        if n > m {
          m := n;
        }
      }
    }

    /** Lock the set, look the key up, judge version and status, number the row, insert it. */
    method CreateRuleVersion(w: Platform, value: RuleVersion, expected: int)
      returns (r: Result<(RuleVersion, bool), Error>)
      requires Keyed(db.tables) && KeysUnique(db.tables) && value.id !in db.tables.versions
      modifies db`tables
      ensures var owner := SetAt(old(db.tables), value.scope, value.setId);
        var existing := ByKey(old(db.tables), value.scope, value.setId, value.key);
        var row := value.(number := MaxNumber(old(db.tables), value.scope, value.setId) + 1);
        if owner.None? then r == Failure(ErrNotFound) && db.tables == old(db.tables)
        else if existing.Some? then
          && db.tables == old(db.tables)
          && r == if existing.value.checksum != value.checksum then Failure(ErrConflict)
                  else Success((existing.value, false))
        else if owner.value.audit.version != expected || owner.value.status.Disabled? then
          r == Failure(ErrStaleVersion) && db.tables == old(db.tables)
        else if !Storable(w, row) then r == Failure(ErrDatabase) && db.tables == old(db.tables)
        else
          && r == Success((row, true))
          && db.tables == Merge(old(db.tables), NOTHING.(version := Some(Stored(w, row))))
    {
      var owner := SetAt(db.tables, value.scope, value.setId);
      if owner.None? {
        return Failure(ErrNotFound);
      }
      var existing := FindByKey(value.scope, value.setId, value.key);
      if existing.Some? {
        if existing.value.checksum != value.checksum {
          return Failure(ErrConflict);
        }
        return Success((existing.value, false));
      }
      if owner.value.audit.version != expected || owner.value.status.Disabled? {
        return Failure(ErrStaleVersion);
      }
      var max := SelectMaxNumber(value.scope, value.setId);
      var row := value.(number := max + 1);
      if !Storable(w, row) {
        return Failure(ErrDatabase);
      }
      db.tables := db.tables.(versions := db.tables.versions[row.id := Stored(w, row)]);
      r := Success((row, true));
    }

    /** Two guarded updates; when the second finds no row the first has already been made, for the caller to undo. */
    method PublishRuleVersion(ruleSet: RuleSet, version: RuleVersion, expected: int, versionExpected: int)
      returns (err: Option<Error>)
      modifies db`tables
      ensures var draft := VersionById(old(db.tables), version.scope, version.setId, version.id);
        var owner := SetAt(old(db.tables), ruleSet.scope, ruleSet.id);
        err.None? <==>
          && draft.Some? && draft.value.status.Draft? && draft.value.audit.version == versionExpected
          && owner.Some? && owner.value.audit.version == expected
      ensures err.Some? ==> err == Some(ErrStaleVersion)
      ensures err.Some? ==>
        var draft := VersionById(old(db.tables), version.scope, version.setId, version.id);
        db.tables ==
          if draft.Some? && draft.value.status.Draft? && draft.value.audit.version == versionExpected
          then old(db.tables).(versions := old(db.tables).versions[version.id := draft.value.(
                 status := Published, publishedAt := version.publishedAt,
                 audit := draft.value.audit.(version := versionExpected + 1, updatedAt := version.audit.updatedAt,
                                             updatedBy := version.audit.updatedBy))])
          else old(db.tables)
      ensures err.None? ==>
        var draft := old(db.tables).versions[version.id];
        var owner := old(db.tables).sets[ruleSet.id];
        && db.tables.versions == old(db.tables).versions[version.id := draft.(
             status := Published, publishedAt := version.publishedAt,
             audit := draft.audit.(version := versionExpected + 1, updatedAt := version.audit.updatedAt,
                                   updatedBy := version.audit.updatedBy))]
        && db.tables.sets == old(db.tables).sets[ruleSet.id := owner.(
             status := Active, published := version.number,
             audit := owner.audit.(version := expected + 1, updatedAt := ruleSet.audit.updatedAt,
                                   updatedBy := ruleSet.audit.updatedBy))]
        && db.tables.outbox == old(db.tables).outbox
    {
      var draft := VersionById(db.tables, version.scope, version.setId, version.id);
      if draft.None? || !draft.value.status.Draft? || draft.value.audit.version != versionExpected {
        return Some(ErrStaleVersion);
      }
      var released := draft.value.(status := Published, publishedAt := version.publishedAt);
      released := released.(audit := released.audit.(version := released.audit.version + 1,
                                                     updatedAt := version.audit.updatedAt,
                                                     updatedBy := version.audit.updatedBy));
      db.tables := db.tables.(versions := db.tables.versions[version.id := released]);
      var owner := SetAt(db.tables, ruleSet.scope, ruleSet.id);
      if owner.None? || owner.value.audit.version != expected {
        return Some(ErrStaleVersion);
      }
      var activated := owner.value.(status := Active, published := version.number);
      activated := activated.(audit := activated.audit.(version := activated.audit.version + 1,
                                                        updatedAt := ruleSet.audit.updatedAt,
                                                        updatedBy := ruleSet.audit.updatedBy));
      db.tables := db.tables.(sets := db.tables.sets[ruleSet.id := activated]);
      err := None;
    }

    /** ORDER BY version_number DESC */
    method SortDescending(ids: set<Id>) returns (rows: seq<RuleVersion>)
      requires ids <= db.tables.versions.Keys && Listing.Distinct(db.tables, ids)
      ensures rows == Listing.Ordered(db.tables, ids)
    {
      hide Listing.Ordered, Listing.Distinct, Listing.IsTop;
      var tables := db.tables;
      var rest := ids;
      rows := [];
      Listing.NothingLeft(tables);
      while rest != {}
        invariant rest <= ids && db.tables == tables && Listing.Distinct(tables, rest)
        invariant Listing.Ordered(tables, ids) == rows + Listing.Ordered(tables, rest)
        decreases |rest|
      {
        var top := Highest(rest);
        Listing.TopFirst(tables, rest, top);
        rows := rows + [tables.versions[top]];
        rest := rest - {top};
      }
    }

    method Highest(ids: set<Id>) returns (top: Id)
      requires ids <= db.tables.versions.Keys && ids != {}
      ensures Listing.IsTop(db.tables, ids, top)
    {
      top :| top in ids;
      var rest := ids - {top};
      while rest != {}
        invariant top in ids && rest <= ids
        invariant forall id :: id in ids - rest ==> db.tables.versions[id].number <= db.tables.versions[top].number
        decreases |rest|
      {
        var id :| id in rest;
        rest := rest - {id};
        if db.tables.versions[id].number > db.tables.versions[top].number {
          top := id;
        }
      }
    }

    /** COUNT(*), then the rows themselves; a negative OFFSET is refused. */
    method ListRuleVersions(scope: Scope, setId: Id, status: string, limit: nat, offset: int)
      returns (r: Result<(seq<RuleVersion>, nat), Error>)
      requires Numbered(db.tables)
      ensures var rows := Listing.Versions(db.tables, scope, setId, status);
        r == if offset < 0 then Failure(ErrDatabase) else Success((Listing.Window(rows, limit, offset), |rows|))
    {
      var ids := Listing.SelectedIds(db.tables, scope, setId, status);
      var total := |ids|;
      if offset < 0 {
        return Failure(ErrDatabase);
      }
      Listing.SelectedDistinct(db.tables, scope, setId, status);
      var rows := SortDescending(ids);
      r := Success((Listing.Window(rows, limit, offset), total));
    }

    method AddOutbox(event: Event)
      modifies db`tables
      ensures db.tables == old(db.tables).(outbox := old(db.tables.outbox) + [event])
    {
      db.tables := db.tables.(outbox := db.tables.outbox + [event]);
    }
  }

  /** What the WHERE clause selects is what the primary key leads to. */
  lemma FoundByKey(db: Db, scope: Scope, setId: Id, id: Id, r: Result<RuleVersion, Error>)
    requires Keyed(db)
    requires r.Success? ==> r.value in db.versions.Values && r.value.id == id && Belongs(r.value, scope, setId)
    requires r.Failure? ==> forall row :: row in db.versions.Values && row.id == id ==> !Belongs(row, scope, setId)
    ensures VersionById(db, scope, setId, id) == if r.Success? then Some(r.value) else None
  {}
}
