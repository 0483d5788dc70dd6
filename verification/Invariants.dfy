/** What every committed state satisfies, and what one atomic transition may do to it. */
module Invariants {
  import opened Wrappers
  import opened Platform
  import opened Engine
  import opened Store
  import opened Lifecycle

  /******* One state *******/

  /** Primary keys, and the foreign key from versions to sets within one scope. */
  ghost predicate Keyed(db: Db) {
    && (forall id :: id in db.sets ==> db.sets[id].id == id && db.sets[id].audit.version >= 1)
    && (forall id :: id in db.versions ==>
          db.versions[id].id == id && db.versions[id].setId in db.sets
          && db.sets[db.versions[id].setId].scope == db.versions[id].scope)
  }

  ghost predicate CodesUnique(db: Db) {
    forall a, b | a in db.sets && b in db.sets && db.sets[a].scope == db.sets[b].scope
                  && db.sets[a].code == db.sets[b].code :: a == b
  }

  ghost predicate HasNumber(db: Db, setId: Id, number: int) {
    exists id :: id in db.versions && db.versions[id].setId == setId && db.versions[id].number == number
  }

  /** The numbers of a set's versions are 1..n, each used once. */
  ghost predicate Numbered(db: Db) {
    && (forall a, b | a in db.versions && b in db.versions && db.versions[a].setId == db.versions[b].setId
                      && db.versions[a].number == db.versions[b].number :: a == b)
    && (forall a :: a in db.versions ==> db.versions[a].number >= 1)
    && (forall a, n :: a in db.versions && 1 <= n <= db.versions[a].number ==> HasNumber(db, db.versions[a].setId, n))
  }

  ghost predicate KeysUnique(db: Db) {
    forall a, b | a in db.versions && b in db.versions && db.versions[a].setId == db.versions[b].setId
                  && db.versions[a].key == db.versions[b].key :: a == b
  }

  /** A version row has only two shapes, and a published one can be recompiled. */
  predicate Shaped(w: Platform, v: RuleVersion) {
    match v.status
    case Draft => v.audit.version == 1 && v.publishedAt.None?
    case Published => v.audit.version == 2 && v.publishedAt.Some? && Recompiles(w, v)
  }

  ghost predicate AllShaped(w: Platform, db: Db) {
    forall id :: id in db.versions ==> Shaped(w, db.versions[id])
  }

  ghost predicate PublishedNumber(db: Db, setId: Id, number: int) {
    exists id :: id in db.versions && db.versions[id].setId == setId && db.versions[id].number == number
                 && db.versions[id].status.Published?
  }

  ghost predicate Pointed(db: Db) {
    forall id :: id in db.sets && db.sets[id].published != 0 ==> PublishedNumber(db, id, db.sets[id].published)
  }

  /** What one outbox event says about the rows it announces. */
  ghost predicate Announces(db: Db, e: Event) {
    && e.ruleVersion.id in db.versions && db.versions[e.ruleVersion.id] == e.ruleVersion
    && e.ruleVersion.status.Published?
    && e.ruleSet.id == e.ruleVersion.setId && e.ruleSet.scope == e.ruleVersion.scope
    && e.ruleSet.published == e.ruleVersion.number && e.ruleSet.status.Active?
    && e.ruleSet.id in db.sets && e.ruleSet.audit.version <= db.sets[e.ruleSet.id].audit.version
  }

  ghost predicate HasEvent(outbox: seq<Event>, versionId: Id) {
    exists i :: 0 <= i < |outbox| && outbox[i].ruleVersion.id == versionId
  }

  /** The pointer a set's last event carries. */
  function LastPointer(outbox: seq<Event>, setId: Id): int {
    if outbox == [] then 0
    else if outbox[|outbox| - 1].ruleSet.id == setId then outbox[|outbox| - 1].ruleSet.published
    else LastPointer(outbox[..|outbox| - 1], setId)
  }

  ghost predicate OutboxFaithful(db: Db) {
    && (forall i :: 0 <= i < |db.outbox| ==> Announces(db, db.outbox[i]))
    && (forall i, j :: 0 <= i < j < |db.outbox| ==> db.outbox[i].ruleVersion.id != db.outbox[j].ruleVersion.id)
    && (forall i, j | 0 <= i < j < |db.outbox| && db.outbox[i].ruleSet.id == db.outbox[j].ruleSet.id
                       :: db.outbox[i].ruleSet.audit.version < db.outbox[j].ruleSet.audit.version)
    && (forall id :: id in db.versions && db.versions[id].status.Published? ==> HasEvent(db.outbox, id))
    && (forall id :: id in db.sets ==> db.sets[id].published == LastPointer(db.outbox, id))
  }

  function PublishedIds(db: Db, setId: Id): set<Id> {
    set id | id in db.versions && db.versions[id].setId == setId && db.versions[id].status.Published?
  }

  ghost predicate Consistent(w: Platform, db: Db) {
    && Keyed(db) && CodesUnique(db) && Numbered(db) && KeysUnique(db)
    && AllShaped(w, db) && Pointed(db) && OutboxFaithful(db)
  }

  /******* Two states *******/

  /** A set row keeps its identity, its counter never falls, and an unchanged counter means an unchanged row. */
  predicate SetGrows(a: RuleSet, b: RuleSet) {
    && b.id == a.id && b.scope == a.scope && b.code == a.code
    && b.audit.createdAt == a.audit.createdAt && b.audit.createdBy == a.audit.createdBy
    && a.audit.version <= b.audit.version
    && (a.audit.version == b.audit.version ==> a == b)
  }

  /** A version row changes at most once, from draft to published, and never in what it says. */
  predicate VersionGrows(a: RuleVersion, b: RuleVersion) {
    && b.id == a.id && b.scope == a.scope && b.setId == a.setId && b.number == a.number
    && b.definition == a.definition && b.checksum == a.checksum && b.key == a.key
    && b.audit.createdAt == a.audit.createdAt && b.audit.createdBy == a.audit.createdBy
    && (a == b || (a.status.Draft? && b.status.Published?))
  }

  ghost predicate Grows(a: Db, b: Db) {
    && (forall id :: id in a.sets ==> id in b.sets && SetGrows(a.sets[id], b.sets[id]))
    && (forall id :: id in a.versions ==> id in b.versions && VersionGrows(a.versions[id], b.versions[id]))
    && a.outbox <= b.outbox
  }

  lemma GrowsTransitive(a: Db, b: Db, c: Db)
    requires Grows(a, b) && Grows(b, c)
    ensures Grows(a, c)
  {}

  /******* One transition keeps all of it *******/

  /** A transition that writes one set row and nothing else. */
  ghost predicate WritesSet(db: Db, db': Db, row: RuleSet) {
    db'.sets == db.sets[row.id := row] && db'.versions == db.versions && db'.outbox == db.outbox
  }

  ghost predicate NewSetRow(db: Db, row: RuleSet) {
    row.id !in db.sets && row.audit.version == 1 && row.published == 0 && CodeIds(db, row.scope, row.code) == {}
  }

  ghost predicate NextSetRow(db: Db, row: RuleSet) {
    && row.id in db.sets && SetGrows(db.sets[row.id], row)
    && row.audit.version == db.sets[row.id].audit.version + 1
    && row.published == db.sets[row.id].published
  }

  lemma SetWriteKeepsKeys(db: Db, db': Db, row: RuleSet)
    requires Keyed(db) && WritesSet(db, db', row)
    requires NewSetRow(db, row) || NextSetRow(db, row)
    ensures Keyed(db') && Grows(db, db')
  {
    hide CodeIds;
  }

  lemma SetWriteKeepsCodes(db: Db, db': Db, row: RuleSet)
    requires CodesUnique(db) && WritesSet(db, db', row)
    requires NewSetRow(db, row) || NextSetRow(db, row)
    ensures CodesUnique(db')
  {
    forall id | id in db.sets && db.sets[id].scope == row.scope && db.sets[id].code == row.code
      ensures id == row.id
    {
      assert id in CodeIds(db, row.scope, row.code);
    }
    hide NewSetRow, NextSetRow, CodeIds;
  }

  lemma SetWriteKeepsNumbers(db: Db, db': Db)
    requires db'.versions == db.versions
    ensures Numbered(db) ==> Numbered(db')
    ensures forall setId, n :: PublishedNumber(db, setId, n) ==> PublishedNumber(db', setId, n)
  {
    forall setId, n | HasNumber(db, setId, n) ensures HasNumber(db', setId, n) {}
    forall setId, n | PublishedNumber(db, setId, n) ensures PublishedNumber(db', setId, n) {}
  }

  lemma SetWriteKeepsPointers(db: Db, db': Db, row: RuleSet)
    requires Pointed(db) && WritesSet(db, db', row)
    requires NewSetRow(db, row) || NextSetRow(db, row)
    ensures Pointed(db')
  {
    SetWriteKeepsNumbers(db, db');
  }

  lemma SetWriteKeepsOutbox(db: Db, db': Db, row: RuleSet)
    requires OutboxFaithful(db) && WritesSet(db, db', row)
    requires NewSetRow(db, row) || NextSetRow(db, row)
    ensures OutboxFaithful(db')
  {
    if row.id !in db.sets {
      NoEventsNoPointer(db, row.id);
    }
    forall i | 0 <= i < |db.outbox| ensures Announces(db', db'.outbox[i]) {
      assert Announces(db, db.outbox[i]);
    }
  }

  lemma SetWriteKeeps(w: Platform, db: Db, db': Db, row: RuleSet)
    requires Consistent(w, db) && WritesSet(db, db', row)
    requires NewSetRow(db, row) || NextSetRow(db, row)
    ensures Consistent(w, db') && Grows(db, db')
  {
    hide Keyed, CodesUnique, Numbered, KeysUnique, Pointed, OutboxFaithful, Grows, NewSetRow, NextSetRow;
    SetWriteKeepsKeys(db, db', row);
    SetWriteKeepsCodes(db, db', row);
    SetWriteKeepsNumbers(db, db');
    SetWriteKeepsPointers(db, db', row);
    SetWriteKeepsOutbox(db, db', row);
    assert KeysUnique(db') by { SameVersionsSameKeys(db, db'); }
  }

  lemma SameVersionsSameKeys(db: Db, db': Db)
    requires db'.versions == db.versions && KeysUnique(db)
    ensures KeysUnique(db')
  {}

  lemma {:induction false} NoEvents(outbox: seq<Event>, setId: Id)
    requires forall i :: 0 <= i < |outbox| ==> outbox[i].ruleSet.id != setId
    ensures LastPointer(outbox, setId) == 0
  {
    if outbox != [] {
      NoEvents(outbox[..|outbox| - 1], setId);
    }
  }

  lemma NoEventsNoPointer(db: Db, setId: Id)
    requires OutboxFaithful(db) && setId !in db.sets
    ensures LastPointer(db.outbox, setId) == 0
  {
    forall i | 0 <= i < |db.outbox| ensures db.outbox[i].ruleSet.id != setId {
      assert Announces(db, db.outbox[i]);
    }
    NoEvents(db.outbox, setId);
  }

  /** A transition that inserts one version row and nothing else. */
  ghost predicate InsertsVersion(db: Db, db': Db, row: RuleVersion) {
    && row.id !in db.versions && row.setId in db.sets && db.sets[row.setId].scope == row.scope
    && row.number == MaxNumber(db, row.scope, row.setId) + 1
    && KeyIds(db, row.scope, row.setId, row.key) == {}
    && row.status.Draft? && row.audit.version == 1 && row.publishedAt.None?
    && db'.sets == db.sets && db'.versions == db.versions[row.id := row] && db'.outbox == db.outbox
  }

  /** MAX + 1 is the one number that extends 1..n. */
  lemma NewNumber(db: Db, scope: Scope, setId: Id)
    requires Keyed(db) && Numbered(db) && setId in db.sets && db.sets[setId].scope == scope
    ensures MaxNumber(db, scope, setId) >= 0
    ensures forall n :: HasNumber(db, setId, n) <==> 1 <= n <= MaxNumber(db, scope, setId)
  {
    MaxNumberBounds(db, scope, setId);
    var m := MaxNumber(db, scope, setId);
    forall n ensures HasNumber(db, setId, n) <==> 1 <= n <= m {
      if HasNumber(db, setId, n) {
        var id :| id in db.versions && db.versions[id].setId == setId && db.versions[id].number == n;
        assert Belongs(db.versions[id], scope, setId);
      }
      if 1 <= n <= m {
        var id :| id in db.versions && Belongs(db.versions[id], scope, setId) && db.versions[id].number == m;
        assert HasNumber(db, db.versions[id].setId, n);
      }
    }
  }

  lemma InsertKeepsNumbers(db: Db, db': Db, row: RuleVersion)
    requires Keyed(db) && Numbered(db) && InsertsVersion(db, db', row)
    ensures Numbered(db')
  {
    NewNumber(db, row.scope, row.setId);
    forall setId, n | HasNumber(db, setId, n) ensures HasNumber(db', setId, n) {
      var id :| id in db.versions && db.versions[id].setId == setId && db.versions[id].number == n;
      assert db'.versions[id] == db.versions[id];
    }
    assert db'.versions[row.id] == row;
    assert HasNumber(db', row.setId, row.number);
    forall a | a in db.versions && db.versions[a].setId == row.setId ensures db.versions[a].number != row.number {
      assert HasNumber(db, row.setId, db.versions[a].number);
    }
    forall a, n | a in db'.versions && 1 <= n <= db'.versions[a].number
      ensures HasNumber(db', db'.versions[a].setId, n) {
      if a == row.id {
        if n < row.number {
          assert HasNumber(db, row.setId, n);
        }
      } else {
        assert HasNumber(db, db.versions[a].setId, n);
      }
    }
  }

  lemma InsertKeepsKeys(db: Db, db': Db, row: RuleVersion)
    requires Keyed(db) && KeysUnique(db) && InsertsVersion(db, db', row)
    ensures Keyed(db') && KeysUnique(db') && Grows(db, db')
  {
    hide MaxNumber;
    forall id | id in db.versions && db.versions[id].setId == row.setId ensures db.versions[id].key != row.key {
      assert db.versions[id].key == row.key ==> id in KeyIds(db, row.scope, row.setId, row.key);
    }
  }

  lemma InsertKeepsOutbox(db: Db, db': Db, row: RuleVersion)
    requires Pointed(db) && OutboxFaithful(db) && InsertsVersion(db, db', row)
    ensures Pointed(db') && OutboxFaithful(db')
  {
    forall setId, n | PublishedNumber(db, setId, n) ensures PublishedNumber(db', setId, n) {
      var id :| id in db.versions && db.versions[id].setId == setId && db.versions[id].number == n
                && db.versions[id].status.Published?;
      assert db'.versions[id] == db.versions[id];
    }
    forall i | 0 <= i < |db.outbox| ensures Announces(db', db'.outbox[i]) {
      assert Announces(db, db.outbox[i]);
    }
  }

  lemma InsertKeeps(w: Platform, db: Db, db': Db, row: RuleVersion)
    requires Consistent(w, db) && InsertsVersion(db, db', row)
    ensures Consistent(w, db') && Grows(db, db')
  {
    assert AllShaped(w, db');
    hide Keyed, CodesUnique, Numbered, KeysUnique, AllShaped, Pointed, OutboxFaithful, Grows, InsertsVersion;
    InsertKeepsNumbers(db, db', row);
    InsertKeepsKeys(db, db', row);
    InsertKeepsOutbox(db, db', row);
  }

  /** A publication: a draft is released, its set is activated, and the event announcing both is appended. */
  ghost predicate Publishes(w: Platform, db: Db, db': Db, row: RuleSet, v: RuleVersion, e: Event) {
    && v.id in db.versions && VersionGrows(db.versions[v.id], v) && db.versions[v.id].status.Draft?
    && v.status.Published? && Shaped(w, v)
    && row.id in db.sets && SetGrows(db.sets[row.id], row) && row.audit.version == db.sets[row.id].audit.version + 1
    && row.status.Active? && v.setId == row.id && row.published == v.number
    && e.ruleVersion == v && e.ruleSet.id == row.id && e.ruleSet.scope == row.scope
    && e.ruleSet.audit.version == row.audit.version
    && e.ruleSet.published == v.number && e.ruleSet.status.Active?
    && db'.sets == db.sets[row.id := row] && db'.versions == db.versions[v.id := v] && db'.outbox == db.outbox + [e]
  }

  lemma PublishKeepsRows(w: Platform, db: Db, db': Db, row: RuleSet, v: RuleVersion, e: Event)
    requires Keyed(db) && Publishes(w, db, db', row, v, e)
    ensures Keyed(db')
  {
    hide Shaped;
  }

  lemma PublishGrows(w: Platform, db: Db, db': Db, row: RuleSet, v: RuleVersion, e: Event)
    requires AllShaped(w, db) && Publishes(w, db, db', row, v, e)
    ensures AllShaped(w, db') && Grows(db, db')
  {
    hide Shaped, SetGrows, VersionGrows;
    Unmoved(db);
  }

  lemma Unmoved(a: Db)
    ensures forall id :: id in a.sets ==> SetGrows(a.sets[id], a.sets[id])
    ensures forall id :: id in a.versions ==> VersionGrows(a.versions[id], a.versions[id])
  {}

  lemma PublishKeepsKeys(w: Platform, db: Db, db': Db, row: RuleSet, v: RuleVersion, e: Event)
    requires CodesUnique(db) && KeysUnique(db) && Publishes(w, db, db', row, v, e)
    ensures CodesUnique(db') && KeysUnique(db')
  {
    hide Shaped;
  }

  lemma PublishKeepsNumbers(w: Platform, db: Db, db': Db, row: RuleSet, v: RuleVersion, e: Event)
    requires Numbered(db) && Pointed(db) && Publishes(w, db, db', row, v, e)
    ensures Numbered(db') && Pointed(db')
  {
    hide Shaped;
    forall setId, n | HasNumber(db, setId, n) ensures HasNumber(db', setId, n) {
      var id :| id in db.versions && db.versions[id].setId == setId && db.versions[id].number == n;
      assert db'.versions[id].setId == setId && db'.versions[id].number == n;
    }
    forall setId, n | PublishedNumber(db, setId, n) ensures PublishedNumber(db', setId, n) {
      var id :| id in db.versions && db.versions[id].setId == setId && db.versions[id].number == n
                && db.versions[id].status.Published?;
      assert db'.versions[id] == db.versions[id];
    }
    assert db'.versions[v.id] == v;
    assert PublishedNumber(db', row.id, row.published);
  }

  lemma PublishKeepsAnnouncements(w: Platform, db: Db, db': Db, row: RuleSet, v: RuleVersion, e: Event)
    requires Keyed(db) && OutboxFaithful(db) && Publishes(w, db, db', row, v, e)
    ensures forall i :: 0 <= i < |db'.outbox| ==> Announces(db', db'.outbox[i])
    ensures forall i :: 0 <= i < |db.outbox| ==>
      && db'.outbox[i] == db.outbox[i] && db.outbox[i].ruleVersion.id != v.id
      && (db.outbox[i].ruleSet.id == row.id ==> db.outbox[i].ruleSet.audit.version < e.ruleSet.audit.version)
  {
    hide Shaped;
    assert Announces(db', e);
    forall i | 0 <= i < |db.outbox|
      ensures Announces(db', db'.outbox[i])
      ensures db'.outbox[i] == db.outbox[i] && db.outbox[i].ruleVersion.id != v.id
      ensures db.outbox[i].ruleSet.id == row.id ==> db.outbox[i].ruleSet.audit.version < e.ruleSet.audit.version
    {
      assert Announces(db, db.outbox[i]);
    }
  }

  lemma PublishKeepsEvents(w: Platform, db: Db, db': Db, row: RuleSet, v: RuleVersion, e: Event)
    requires OutboxFaithful(db) && Publishes(w, db, db', row, v, e)
    ensures forall id :: id in db'.versions && db'.versions[id].status.Published? ==> HasEvent(db'.outbox, id)
    ensures forall id :: id in db'.sets ==> db'.sets[id].published == LastPointer(db'.outbox, id)
  {
    hide Shaped, Announces;
    var n := |db.outbox|;
    assert db'.outbox[n] == e && db'.outbox[..n] == db.outbox;
    forall id | id in db'.versions && db'.versions[id].status.Published? ensures HasEvent(db'.outbox, id) {
      if id != v.id {
        assert HasEvent(db.outbox, id);
        var i :| 0 <= i < n && db.outbox[i].ruleVersion.id == id;
        assert db'.outbox[i].ruleVersion.id == id;
      }
    }
  }

  lemma PublishKeeps(w: Platform, db: Db, db': Db, row: RuleSet, v: RuleVersion, e: Event)
    requires Consistent(w, db) && Publishes(w, db, db', row, v, e)
    ensures Consistent(w, db') && Grows(db, db')
  {
    hide Keyed, CodesUnique, Numbered, KeysUnique, AllShaped, Pointed, Grows, Shaped, Announces, LastPointer, HasEvent,
         SetGrows, VersionGrows;
    PublishKeepsRows(w, db, db', row, v, e);
    PublishGrows(w, db, db', row, v, e);
    PublishKeepsKeys(w, db, db', row, v, e);
    PublishKeepsNumbers(w, db, db', row, v, e);
    PublishKeepsAnnouncements(w, db, db', row, v, e);
    PublishKeepsEvents(w, db, db', row, v, e);
  }

  /******* Every request *******/

  /** The snapshot a reply may be composed from: an earlier image of the same set. */
  ghost predicate SnapshotOk(db: Db, req: Request, seen: Option<RuleSet>) {
    seen.Some? ==>
      && (req.UpdateSet? || req.PublishVersion?)
      && req.setId in db.sets && db.sets[req.setId].scope == req.scope
      && SetGrows(seen.value, db.sets[req.setId])
  }

  lemma CreateSetKeeps(w: Platform, db: Db, req: Request)
    requires Consistent(w, db) && req.CreateSet?
    ensures var db' := Merge(db, AtomicCreateSet(db, req).writes);
      Consistent(w, db') && Grows(db, db')
  {
    hide Consistent, Grows;
    if AtomicCreateSet(db, req).writes == NOTHING {
      Unchanged(db);
    } else {
      SetWriteKeeps(w, db, Merge(db, AtomicCreateSet(db, req).writes), NewSet(req));
    }
  }

  lemma Unchanged(db: Db)
    ensures Merge(db, NOTHING) == db && Grows(db, db)
  {}

  lemma UpdateSetKeeps(w: Platform, db: Db, req: Request, seen: Option<RuleSet>)
    requires Consistent(w, db) && req.UpdateSet? && req.status.Some?
    ensures var db' := Merge(db, AtomicUpdateSet(db, req, seen).writes);
      Consistent(w, db') && Grows(db, db')
  {
    assert Keyed(db);
    hide Consistent, Grows;
    var t := AtomicUpdateSet(db, req, seen);
    if t.writes == NOTHING {
      Unchanged(db);
    } else {
      SetWriteKeeps(w, db, Merge(db, t.writes), t.writes.set_.value);
    }
  }

  lemma CreateVersionKeeps(w: Platform, db: Db, req: Request, c: Compiled)
    requires Consistent(w, db) && req.CreateVersion?
    ensures var db' := Merge(db, AtomicCreateVersion(w, db, req, c).writes);
      Consistent(w, db') && Grows(db, db')
  {
    hide Consistent, Grows;
    var t := AtomicCreateVersion(w, db, req, c);
    if t.writes == NOTHING {
      Unchanged(db);
    } else {
      InsertKeeps(w, db, Merge(db, t.writes), t.writes.version.value);
    }
  }

  lemma AtomicPublishes(w: Platform, db: Db, req: Request, seen: Option<RuleSet>)
    requires Keyed(db) && AllShaped(w, db) && req.PublishVersion? && SnapshotOk(db, req, seen)
    ensures var t := AtomicPublish(w, db, req, seen);
      t.writes == NOTHING
      || (t.writes.set_.Some? && t.writes.version.Some? && t.writes.event.Some?
          && Publishes(w, db, Merge(db, t.writes), t.writes.set_.value, t.writes.version.value, t.writes.event.value))
  {
    hide Compile;
  }

  lemma PublishVersionKeeps(w: Platform, db: Db, req: Request, seen: Option<RuleSet>)
    requires Consistent(w, db) && req.PublishVersion? && SnapshotOk(db, req, seen)
    ensures var db' := Merge(db, AtomicPublish(w, db, req, seen).writes);
      Consistent(w, db') && Grows(db, db')
  {
    AtomicPublishes(w, db, req, seen);
    hide Consistent, Grows, AtomicPublish, Publishes;
    var t := AtomicPublish(w, db, req, seen);
    if t.writes == NOTHING {
      Unchanged(db);
    } else {
      PublishKeeps(w, db, Merge(db, t.writes), t.writes.set_.value, t.writes.version.value, t.writes.event.value);
    }
  }

  /** Every transition keeps the invariant and only ever moves the state forward. */
  lemma AtomicKeeps(w: Platform, db: Db, req: Request, seen: Option<RuleSet>)
    requires Consistent(w, db) && SnapshotOk(db, req, seen)
    ensures Consistent(w, After(w, db, req, seen))
    ensures Grows(db, After(w, db, req, seen))
  {
    hide Consistent, Grows, AtomicCreateSet, AtomicUpdateSet, AtomicCreateVersion, AtomicPublish,
         AtomicGetSet, AtomicEvaluate, Compile, SnapshotOk, Merge;
    Unchanged(db);
    if !Unacceptable(w, req) {
      match req
      case CreateSet(_, _, _, _, _, _, _) => CreateSetKeeps(w, db, req);
      case UpdateSet(_, _, _, _, _, _, _, _) => UpdateSetKeeps(w, db, req, seen);
      case CreateVersion(_, _, _, text, _, _, _, _) => CreateVersionKeeps(w, db, req, Compile(w, text).value);
      case PublishVersion(_, _, _, _, _, _, _) => PublishVersionKeeps(w, db, req, seen);
      case GetSet(_, _) =>
      case Evaluate(_, _, _, _) =>
    }
  }

  lemma EmptyConsistent(w: Platform)
    ensures Consistent(w, EMPTY)
  {}
}
