/** What the lifecycle does not promise outright, and exactly when it comes about. */
module Limits {
  import opened Wrappers
  import opened Platform
  import opened Engine
  import opened Store
  import opened Lifecycle
  import opened Invariants
  import opened Machine
  import opened Refinement
  import opened Guarantees
  import Instants
  import Scopes

  /******* The published pointer going down *******/

  /** An older version than the one pointed to is being published. */
  ghost predicate PublishesOlder(db: Db, req: Request, setId: Id)
    requires setId in db.sets
  {
    && req.PublishVersion? && req.setId == setId
    && req.versionId in db.versions && db.versions[req.versionId].number < db.sets[setId].published
  }

  lemma PointerFallsExactly(w: Platform, db: Db, req: Request, seen: Option<RuleSet>, setId: Id)
    requires Keyed(db) && setId in db.sets && Atomic(w, db, req, seen).writes != NOTHING
    ensures setId in After(w, db, req, seen).sets
    ensures After(w, db, req, seen).sets[setId].published < db.sets[setId].published <==> PublishesOlder(db, req, setId)
  {
    hide Compile, Unacceptable, Recompiles, CodeIds, ByKey, MaxNumber, AtomicGetSet, AtomicEvaluate;
  }

  /** In a run the pointer falls at exactly the commits that publish an older version. */
  lemma PointerFallsInRuns(w: Platform, s: State, k: nat, setId: Id)
    requires k < |s.trace.log| && setId in Instant(s.trace, k).sets && Lawful(w) && Reachable(w, s)
    ensures setId in Instant(s.trace, k + 1).sets
    ensures Instant(s.trace, k + 1).sets[setId].published < Instant(s.trace, k).sets[setId].published
      <==> PublishesOlder(Instant(s.trace, k), s.trace.log[k].req, setId)
  {
    hide Lawful, Reachable, Instant, Atomic, After, PublishesOlder, Keyed;
    Committed(w, s, k);
    PointerFallsExactly(w, Instant(s.trace, k), s.trace.log[k].req, s.trace.log[k].seen, setId);
  }

  lemma Committed(w: Platform, s: State, k: nat)
    requires k < |s.trace.log| && Lawful(w) && Reachable(w, s)
    ensures Consistent(w, Instant(s.trace, k)) && Consistent(w, Instant(s.trace, k + 1)) && Keyed(Instant(s.trace, k))
    ensures Atomic(w, Instant(s.trace, k), s.trace.log[k].req, s.trace.log[k].seen).writes != NOTHING
    ensures Instant(s.trace, k + 1) == After(w, Instant(s.trace, k), s.trace.log[k].req, s.trace.log[k].seen)
  {
    hide Lawful, Reachable, Instant, Keyed, CodesUnique, Numbered, KeysUnique, AllShaped, Pointed, OutboxFaithful,
         Grows,
         After, Atomic, SnapshotOk, LogOk, LocksOk, CachesOk, ThreadOk;
    ReachableParts(w, s);
    assert LinkOk(w, s.trace, k);
    AlwaysConsistent(w, s, k, k + 1);
  }

  /******* Active with nothing published *******/

  ghost predicate ActiveButEmpty(db: Db, setId: Id) {
    setId in db.sets && db.sets[setId].status.Active? && PublishedIds(db, setId) == {}
  }

  lemma {:induction false} NoPointerNoEvents(outbox: seq<Event>, setId: Id)
    requires LastPointer(outbox, setId) == 0 && forall i :: 0 <= i < |outbox| ==> outbox[i].ruleSet.published >= 1
    ensures forall i :: 0 <= i < |outbox| ==> outbox[i].ruleSet.id != setId
  {
    if outbox != [] {
      NoPointerNoEvents(outbox[..|outbox| - 1], setId);
    }
  }

  /** The pointer is 0 exactly while the set has no published version. */
  lemma ZeroMeansNone(w: Platform, db: Db, setId: Id)
    requires Consistent(w, db) && setId in db.sets
    ensures db.sets[setId].published == 0 <==> PublishedIds(db, setId) == {}
  {
    hide Keyed, CodesUnique, KeysUnique, AllShaped;
    if db.sets[setId].published != 0 {
      var n := db.sets[setId].published;
      assert PublishedNumber(db, setId, n);
      var id :| id in db.versions && db.versions[id].setId == setId && db.versions[id].number == n
                && db.versions[id].status.Published?;
      assert id in PublishedIds(db, setId);
    } else {
      forall i | 0 <= i < |db.outbox| ensures db.outbox[i].ruleSet.published >= 1 {
        assert Announces(db, db.outbox[i]);
      }
      NoPointerNoEvents(db.outbox, setId);
      hide Numbered, LastPointer;
      forall id | id in db.versions && db.versions[id].status.Published? ensures db.versions[id].setId != setId {
        assert HasEvent(db.outbox, id);
        var i :| 0 <= i < |db.outbox| && db.outbox[i].ruleVersion.id == id;
        assert Announces(db, db.outbox[i]);
      }
    }
  }

  /** An update makes a set active by hand. */
  predicate ActivatesByHand(req: Request, setId: Id) {
    req.UpdateSet? && req.setId == setId && req.status == Some(Active)
  }

  ghost predicate ActiveAtZero(db: Db, setId: Id) {
    setId in db.sets && db.sets[setId].status.Active? && db.sets[setId].published == 0
  }

  lemma ActivatedExactly(w: Platform, db: Db, req: Request, seen: Option<RuleSet>, setId: Id)
    requires Keyed(db) && AllNumbersPositive(db) && Atomic(w, db, req, seen).writes != NOTHING
    ensures ActiveAtZero(After(w, db, req, seen), setId) && !ActiveAtZero(db, setId)
      <==> ActivatesByHand(req, setId) && setId in db.sets && !db.sets[setId].status.Active?
           && db.sets[setId].published == 0
  {
    hide Compile, Recompiles, ValidCode, CodeIds, ByKey, MaxNumber, AtomicGetSet, AtomicEvaluate;
  }

  ghost predicate AllNumbersPositive(db: Db) {
    forall id :: id in db.versions ==> db.versions[id].number >= 1
  }

  /** In a run a set becomes active with nothing published exactly when activated by hand at pointer 0. */
  lemma ActiveButEmptyInRuns(w: Platform, s: State, k: nat, setId: Id)
    requires k < |s.trace.log| && Lawful(w) && Reachable(w, s)
    ensures var a, b, req := Instant(s.trace, k), Instant(s.trace, k + 1), s.trace.log[k].req;
      ActiveButEmpty(b, setId) && !ActiveButEmpty(a, setId)
      <==> ActivatesByHand(req, setId) && setId in a.sets && !a.sets[setId].status.Active?
           && a.sets[setId].published == 0
  {
    hide Lawful, Reachable, Instant, Atomic, After, Consistent, Keyed, ActivatesByHand, PublishedIds;
    Committed(w, s, k);
    var a, b := Instant(s.trace, k), Instant(s.trace, k + 1);
    Positive(w, a);
    EmptyAtZero(w, a, setId);
    EmptyAtZero(w, b, setId);
    ActivatedExactly(w, a, s.trace.log[k].req, s.trace.log[k].seen, setId);
  }

  lemma Positive(w: Platform, db: Db)
    requires Consistent(w, db)
    ensures AllNumbersPositive(db)
  {
    hide Keyed, CodesUnique, KeysUnique, AllShaped, Pointed, OutboxFaithful;
  }

  lemma EmptyAtZero(w: Platform, db: Db, setId: Id)
    requires Consistent(w, db)
    ensures ActiveButEmpty(db, setId) <==> ActiveAtZero(db, setId)
  {
    hide Consistent, PublishedIds;
    if setId in db.sets {
      ZeroMeansNone(w, db, setId);
    }
  }

  /** Evaluating the default version of an active set finds one exactly when something is published. */
  lemma DefaultResolvesExactly(w: Platform, db: Db, req: Request)
    requires Consistent(w, db) && req.Evaluate? && req.number == 0
    requires Lookup(db, req.scope, req.ref).Some? && Lookup(db, req.scope, req.ref).value.status.Active?
    ensures var found := Lookup(db, req.scope, req.ref).value;
      && (Resolve(db, req).Success? <==> PublishedIds(db, found.id) != {})
      && (Resolve(db, req).Failure? ==> Resolve(db, req) == Failure(NotFound))
  {
    hide Lookup, ByNumber, PublishedIds, CodesUnique, KeysUnique, AllShaped, OutboxFaithful;
    assert Instants.Sound(db);
    Instants.LookupStable(db, db, req.scope, req.ref);
    var row := Lookup(db, req.scope, req.ref).value;
    ZeroMeansNone(w, db, row.id);
    Instants.ByNumberExact(db, row.scope, row.id, 0);
    if row.published != 0 {
      Instants.PointerWasGood(db, row);
    }
  }

  /******* A text the column refuses *******/

  /** A creation fails as an internal error exactly when nothing else stops it and the column refuses its text. */
  lemma RefusedExactly(w: Platform, db: Db, req: Request)
    requires req.CreateVersion? && !Unacceptable(w, req) && NewId(db, req)
    ensures Atomic(w, db, req, None).outcome == Failed(Internal)
      <==> MayNumber(db, req) && w.column(Compile(w, req.text).value.text).None?
  {
    hide Compile, SetAt, ByKey, MaxNumber, Stored;
  }

  /** In a run, at one instant while the call ran. */
  lemma RefusedInRuns(w: Platform, s: State, t: nat) returns (k: nat)
    requires t in s.threads && s.threads[t].pc.Done? && s.threads[t].req.CreateVersion? && Lawful(w) && Reachable(w, s)
    requires !Unacceptable(w, s.threads[t].req)
    ensures s.threads[t].start <= k <= s.threads[t].pc.end
    ensures s.threads[t].pc.outcome == Failed(Internal)
      <==> MayNumber(Instant(s.trace, k), s.threads[t].req)
           && w.column(Compile(w, s.threads[t].req.text).value.text).None?
  {
    hide Lawful, Reachable, Unacceptable, Compile, Instant, MayNumber, After, SawSet, Atomic;
    Serial(w, s);
    k := Linearizable(w, s, t);
    Scopes.StillNew(w, s, t, k);
    RefusedExactly(w, Instant(s.trace, k), s.threads[t].req);
  }

  /******* A code used twice *******/

  /** Creating a set fails, and fails as an internal error, exactly when its scope has the code already. */
  lemma DuplicateExactly(w: Platform, db: Db, req: Request)
    requires req.CreateSet? && !Unacceptable(w, req) && NewId(db, req)
    ensures Atomic(w, db, req, None).outcome
         == if CodeIds(db, req.scope, req.code) != {} then Failed(Internal) else SetReturned(NewSet(req))
  {
    hide Unacceptable, CodeIds, NewSet;
  }

  /** In a run, at one instant while the call ran. */
  lemma DuplicateInRuns(w: Platform, s: State, t: nat) returns (k: nat)
    requires t in s.threads && s.threads[t].pc.Done? && s.threads[t].req.CreateSet? && Lawful(w) && Reachable(w, s)
    requires !Unacceptable(w, s.threads[t].req)
    ensures s.threads[t].start <= k <= s.threads[t].pc.end
    ensures s.threads[t].pc.outcome == Failed(Internal)
      <==> CodeIds(Instant(s.trace, k), s.threads[t].req.scope, s.threads[t].req.code) != {}
  {
    hide Lawful, Reachable, Unacceptable, Instant, CodeIds, NewSet, After, SawSet, Atomic;
    Serial(w, s);
    k := Linearizable(w, s, t);
    Scopes.StillNew(w, s, t, k);
    DuplicateExactly(w, Instant(s.trace, k), s.threads[t].req);
  }
}
