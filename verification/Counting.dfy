/** Conservation: counters, publications, events and version numbers always tally. */
module Counting {
  import opened Wrappers
  import opened Platform
  import opened Engine
  import opened Store
  import opened Lifecycle
  import opened Invariants
  import opened Machine
  import opened Refinement
  import opened Guarantees

  /** How many of the first `k` commits were updates of the set. */
  function Updates(log: seq<Commit>, k: nat, setId: Id): nat
    requires k <= |log|
  {
    if k == 0 then 0
    else Updates(log, k - 1, setId) + if log[k - 1].req.UpdateSet? && log[k - 1].req.setId == setId then 1 else 0
  }

  /** How many events announce a version of the set. */
  function Announced(outbox: seq<Event>, setId: Id): nat {
    if outbox == [] then 0
    else Announced(outbox[..|outbox| - 1], setId) + if outbox[|outbox| - 1].ruleSet.id == setId then 1 else 0
  }

  /** The set's counter, its published versions and its events. */
  datatype Tally = Tally(version: int, published: nat, announced: nat)

  function TallyOf(db: Db, setId: Id): Tally {
    Tally(if setId in db.sets then db.sets[setId].audit.version else 1,
          |PublishedIds(db, setId)|, Announced(db.outbox, setId))
  }

  function Expected(a: Tally, updated: bool, published: bool): Tally {
    Tally(a.version + (if updated then 1 else 0) + (if published then 1 else 0),
          a.published + (if published then 1 else 0),
          a.announced + (if published then 1 else 0))
  }

  lemma SetTally(db: Db, b: Db, row: RuleSet, setId: Id)
    requires b.sets == db.sets[row.id := row] && b.versions == db.versions && b.outbox == db.outbox
    requires row.audit.version == if row.id in db.sets then db.sets[row.id].audit.version + 1 else 1
    ensures TallyOf(b, setId) == Expected(TallyOf(db, setId), row.id == setId && row.id in db.sets, false)
  {
    assert PublishedIds(b, setId) == PublishedIds(db, setId);
  }

  lemma InsertTally(db: Db, b: Db, v: RuleVersion, setId: Id)
    requires b.sets == db.sets && b.versions == db.versions[v.id := v] && b.outbox == db.outbox
    requires v.id !in db.versions && v.status.Draft?
    ensures TallyOf(b, setId) == TallyOf(db, setId)
  {
    assert PublishedIds(b, setId) == PublishedIds(db, setId);
  }

  lemma PublishTally(w: Platform, db: Db, b: Db, row: RuleSet, v: RuleVersion, e: Event, setId: Id)
    requires Publishes(w, db, b, row, v, e)
    ensures TallyOf(b, setId) == Expected(TallyOf(db, setId), false, row.id == setId)
  {
    assert b.outbox[..|b.outbox| - 1] == db.outbox;
    ReleasedIds(w, db, b, row, v, e, setId);
    hide Shaped, SetGrows, VersionGrows, PublishedIds;
  }

  lemma ReleasedIds(w: Platform, db: Db, b: Db, row: RuleSet, v: RuleVersion, e: Event, setId: Id)
    requires Publishes(w, db, b, row, v, e)
    ensures |PublishedIds(b, setId)| == |PublishedIds(db, setId)| + if row.id == setId then 1 else 0
  {
    hide Shaped, SetGrows, PublishedIds;
    ReleasedId(db, b, v, setId);
    AddedTo(PublishedIds(db, setId), v.id);
  }

  lemma ReleasedId(db: Db, b: Db, v: RuleVersion, setId: Id)
    requires v.id in db.versions && db.versions[v.id].status.Draft? && v.status.Published?
    requires db.versions[v.id].setId == v.setId && b.versions == db.versions[v.id := v]
    ensures PublishedIds(b, setId) == PublishedIds(db, setId) + if v.setId == setId then {v.id} else {}
    ensures v.id !in PublishedIds(db, setId)
  {}

  lemma AddedTo(ids: set<Id>, id: Id)
    ensures |ids + {id}| == if id in ids then |ids| else |ids| + 1
  {
    if id in ids {
      assert ids + {id} == ids;
    }
  }

  lemma CommitTally(w: Platform, db: Db, req: Request, seen: Option<RuleSet>, setId: Id)
    requires Keyed(db) && AllShaped(w, db) && SnapshotOk(db, req, seen) && Atomic(w, db, req, seen).writes != NOTHING
    ensures TallyOf(After(w, db, req, seen), setId)
         == Expected(TallyOf(db, setId), req.UpdateSet? && req.setId == setId,
                     req.PublishVersion? && req.setId == setId)
  {
    hide TallyOf, Expected, Compile, Unacceptable, CodeIds, ByKey, MaxNumber, Lookup, AllShaped, Publishes, SnapshotOk,
         AtomicGetSet, AtomicEvaluate, Recompiles;
    var b := After(w, db, req, seen);
    var writes := Atomic(w, db, req, seen).writes;
    match req
    case CreateSet(_, _, _, _, _, _, _) =>
      SetTally(db, b, writes.set_.value, setId);
      assert Expected(TallyOf(db, setId), false, false) == TallyOf(db, setId) by { ExpectedSame(TallyOf(db, setId)); }
    case UpdateSet(_, _, _, _, _, _, _, _) => SetTally(db, b, writes.set_.value, setId);
    case CreateVersion(_, _, _, _, _, _, _, _) =>
      InsertTally(db, b, writes.version.value, setId);
      ExpectedSame(TallyOf(db, setId));
    case PublishVersion(_, _, _, _, _, _, _) =>
      AtomicPublishes(w, db, req, seen);
      PublishTally(w, db, b, writes.set_.value, writes.version.value, writes.event.value, setId);
    case _ =>
  }

  lemma ExpectedSame(t: Tally)
    ensures Expected(t, false, false) == t
  {}

  lemma {:induction false} TallyAt(w: Platform, tr: Trace, k: nat, setId: Id)
    requires HistoryOk(w, tr) && k <= |tr.log|
    ensures var t := TallyOf(Instant(tr, k), setId);
      t.version == 1 + Updates(tr.log, k, setId) + t.published && t.announced == t.published
  {
    hide Consistent, Grows, After, SnapshotOk, Instant, Atomic, TallyOf;
    if k == 0 {
      EmptyTally(setId);
    } else {
      TallyAt(w, tr, k - 1, setId);
      assert LinkOk(w, tr, k - 1);
      ShapedThen(w, tr, k - 1);
      CommitTally(w, Instant(tr, k - 1), tr.log[k - 1].req, tr.log[k - 1].seen, setId);
    }
  }

  lemma EmptyTally(setId: Id)
    ensures TallyOf(EMPTY, setId) == Tally(1, 0, 0)
  {
    assert PublishedIds(EMPTY, setId) == {};
  }

  lemma ShapedThen(w: Platform, tr: Trace, k: nat)
    requires HistoryOk(w, tr) && k <= |tr.past|
    ensures Keyed(Instant(tr, k)) && AllShaped(w, Instant(tr, k))
  {
    hide LinkOk, Grows, Instant, Keyed, CodesUnique, Numbered, AllShaped, Pointed, KeysUnique, OutboxFaithful;
    assert Consistent(w, Instant(tr, k));
  }

  /** A set's counter is 1 + its updates + its published versions, and each of those has one event. */
  lemma Conservation(w: Platform, s: State, k: nat, setId: Id)
    requires k <= |s.trace.past| && Lawful(w) && Reachable(w, s) && setId in Instant(s.trace, k).sets
    ensures k <= |s.trace.log|
    ensures var db := Instant(s.trace, k);
      && db.sets[setId].audit.version == 1 + Updates(s.trace.log, k, setId) + |PublishedIds(db, setId)|
      && Announced(db.outbox, setId) == |PublishedIds(db, setId)|
  {
    hide Lawful, Reachable, HistoryOk, Instant, LogOk, LocksOk, CachesOk, ThreadOk, PublishedIds, Announced;
    ReachableParts(w, s);
    LastInstant(w, s.trace);
    TallyAt(w, s.trace, k, setId);
  }

  /******* Version numbers *******/

  function VersionIds(db: Db, setId: Id): set<Id> {
    set id | id in db.versions && db.versions[id].setId == setId
  }

  /** {1, ..., n} */
  function Interval(n: nat): set<int> {
    if n == 0 then {} else Interval(n - 1) + {n}
  }

  lemma {:induction false} IntervalIs(n: nat)
    ensures |Interval(n)| == n && forall k :: k in Interval(n) <==> 1 <= k <= n
  {
    if n > 0 {
      IntervalIs(n - 1);
    }
  }

  lemma {:induction false} ImageSize(ids: set<Id>, number: map<Id, int>, image: set<int>)
    requires ids <= number.Keys && image == set id | id in ids :: number[id]
    requires forall a, b :: a in ids && b in ids && number[a] == number[b] ==> a == b
    ensures |image| == |ids|
    decreases ids
  {
    if ids == {} {
      assert image == {};
    } else {
      var id := Pick(ids);
      var rest := image - {number[id]};
      assert rest == set a | a in ids - {id} :: number[a];
      ImageSize(ids - {id}, number, rest);
      assert number[id] in image;
    }
  }

  /** The numbers of a set's versions are exactly 1..n, where n is how many versions it has. */
  lemma NumbersAreDense(w: Platform, db: Db, setId: Id)
    requires Consistent(w, db) && setId in db.sets
    ensures Numbers(db, db.sets[setId].scope, setId) == Interval(|VersionIds(db, setId)|)
  {
    hide CodesUnique, KeysUnique, AllShaped, Pointed, OutboxFaithful;
    var scope := db.sets[setId].scope;
    VersionCount(db, scope, setId);
    NewNumber(db, scope, setId);
    var m, image := MaxNumber(db, scope, setId), Numbers(db, scope, setId);
    IntervalIs(m);
    hide Keyed, Numbered, MaxNumber, Interval;
    forall n ensures n in image <==> n in Interval(m) {
      assert n in image <==> HasNumber(db, setId, n) by { InImage(db, scope, setId, n); }
    }
    assert image == Interval(m);
  }

  lemma InImage(db: Db, scope: Scope, setId: Id, n: int)
    requires Keyed(db) && setId in db.sets && db.sets[setId].scope == scope
    ensures n in Numbers(db, scope, setId) <==> HasNumber(db, setId, n)
  {
    if HasNumber(db, setId, n) {
      var id :| id in db.versions && db.versions[id].setId == setId && db.versions[id].number == n;
      assert Belongs(db.versions[id], scope, setId);
    }
  }

  lemma VersionCount(db: Db, scope: Scope, setId: Id)
    requires Keyed(db) && Numbered(db) && setId in db.sets && db.sets[setId].scope == scope
    ensures |Numbers(db, scope, setId)| == |VersionIds(db, setId)|
  {
    var ids, image := VersionIds(db, setId), Numbers(db, scope, setId);
    var number := map id | id in ids :: db.versions[id].number;
    assert forall id :: id in ids <==> id in db.versions && Belongs(db.versions[id], scope, setId);
    hide Keyed;
    forall n ensures n in image <==> n in set id | id in ids :: number[id] {}
    ImageSize(ids, number, image);
  }
}
