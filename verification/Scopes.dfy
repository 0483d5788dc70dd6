/** One (tenant, application) on its own: what it sees of the tables is what its own commits build. */
module Scopes {
  import opened Wrappers
  import opened Platform
  import opened Engine
  import opened Store
  import opened Lifecycle
  import opened Invariants
  import opened Machine
  import opened Refinement
  import opened Guarantees
  import opened Counting
  import opened StepProof

  /******* What one scope can see *******/

  function EventsIn(outbox: seq<Event>, scope: Scope): seq<Event> {
    if outbox == [] then []
    else
      var rest := EventsIn(outbox[..|outbox| - 1], scope);
      if outbox[|outbox| - 1].ruleSet.scope == scope then rest + [outbox[|outbox| - 1]] else rest
  }

  function Project(db: Db, scope: Scope): Db {
    Db(map id | id in db.sets && db.sets[id].scope == scope :: db.sets[id],
       map id | id in db.versions && db.versions[id].scope == scope :: db.versions[id],
       EventsIn(db.outbox, scope))
  }

  lemma ProjectQueries(db: Db, scope: Scope)
    ensures var p := Project(db, scope);
      && (forall id :: SetAt(p, scope, id) == SetAt(db, scope, id))
      && (forall code :: CodeIds(p, scope, code) == CodeIds(db, scope, code))
      && (forall setId, id :: VersionById(p, scope, setId, id) == VersionById(db, scope, setId, id))
      && (forall setId, n :: NumberIds(p, scope, setId, n) == NumberIds(db, scope, setId, n))
      && (forall setId, key :: KeyIds(p, scope, setId, key) == KeyIds(db, scope, setId, key))
      && (forall setId :: Numbers(p, scope, setId) == Numbers(db, scope, setId))
  {
    hide EventsIn;
    var p := Project(db, scope);
    forall code ensures CodeIds(p, scope, code) == CodeIds(db, scope, code) {}
    forall setId, n ensures NumberIds(p, scope, setId, n) == NumberIds(db, scope, setId, n) {}
    forall setId, key ensures KeyIds(p, scope, setId, key) == KeyIds(db, scope, setId, key) {}
    forall setId ensures Numbers(p, scope, setId) == Numbers(db, scope, setId) {
      forall n | n in Numbers(db, scope, setId) ensures n in Numbers(p, scope, setId) {
        var id :| id in db.versions && Belongs(db.versions[id], scope, setId) && db.versions[id].number == n;
        assert p.versions[id] == db.versions[id];
      }
    }
  }

  lemma ProjectFinds(db: Db, scope: Scope)
    ensures var p := Project(db, scope);
      && (forall ref :: Lookup(p, scope, ref) == Lookup(db, scope, ref))
      && (forall setId, n :: ByNumber(p, scope, setId, n) == ByNumber(db, scope, setId, n))
      && (forall setId, key :: ByKey(p, scope, setId, key) == ByKey(db, scope, setId, key))
      && (forall setId :: MaxNumber(p, scope, setId) == MaxNumber(db, scope, setId))
  {
    ProjectQueries(db, scope);
    hide EventsIn, Numbers;
  }

  lemma LookupScoped(db: Db, scope: Scope, ref: SetRef)
    ensures Lookup(db, scope, ref).Some? ==> Lookup(db, scope, ref).value.scope == scope
  {}

  lemma OwnRead(w: Platform, db: Db, req: Request, seen: Option<RuleSet>)
    requires req.GetSet? || req.Evaluate?
    ensures Atomic(w, Project(db, req.scope), req, seen) == Atomic(w, db, req, seen)
  {
    ProjectFinds(db, req.scope);
    LookupScoped(db, req.scope, req.ref);
    hide Project, Unacceptable, ByNumber, Lookup, Recomputed;
  }

  lemma OwnSwap(w: Platform, db: Db, req: Request, seen: Option<RuleSet>)
    requires req.UpdateSet? || req.PublishVersion?
    ensures Atomic(w, Project(db, req.scope), req, seen) == Atomic(w, db, req, seen)
  {
    ProjectQueries(db, req.scope);
    hide Project, Compile, Unacceptable, Recompiles, SetAt, VersionById, Renamed, Activated, Released;
  }

  lemma OwnInsert(w: Platform, db: Db, req: Request, seen: Option<RuleSet>)
    requires NewId(db, req) && (req.CreateSet? || req.CreateVersion?)
    ensures Atomic(w, Project(db, req.scope), req, seen) == Atomic(w, db, req, seen)
  {
    hide Project, Compile, Unacceptable, SetAt, CodeIds, ByKey, MaxNumber, Lookup, ByNumber, VersionById, NumberIds,
         KeyIds, Numbers, NewSet, NewVersion, Stored, Storable;
    ProjectQueries(db, req.scope);
    ProjectFinds(db, req.scope);
    assert NewId(Project(db, req.scope), req) by { ProjectKeepsNew(db, req); }
  }

  lemma ProjectKeepsNew(db: Db, req: Request)
    requires NewId(db, req)
    ensures NewId(Project(db, req.scope), req)
  {
    hide EventsIn;
  }

  /** A call of the scope gets the same answer, and writes the same rows, whether the others are there or not. */
  lemma OwnCall(w: Platform, db: Db, req: Request, seen: Option<RuleSet>)
    requires NewId(db, req)
    ensures Atomic(w, Project(db, req.scope), req, seen) == Atomic(w, db, req, seen)
  {
    hide Project, Atomic, NewId;
    if req.GetSet? || req.Evaluate? {
      OwnRead(w, db, req, seen);
    } else if req.UpdateSet? || req.PublishVersion? {
      OwnSwap(w, db, req, seen);
    } else {
      OwnInsert(w, db, req, seen);
    }
  }

  /** Every row and event of a write set lies in the scope of its request. */
  ghost predicate InScope(db: Db, writes: Writes, scope: Scope) {
    && (writes.set_.Some? ==>
          var row := writes.set_.value;
          row.scope == scope && (row.id in db.sets ==> db.sets[row.id].scope == scope))
    && (writes.version.Some? ==>
          var v := writes.version.value;
          v.scope == scope && (v.id in db.versions ==> db.versions[v.id].scope == scope))
    && (writes.event.Some? ==> writes.event.value.ruleSet.scope == scope)
  }

  lemma WritesInScope(w: Platform, db: Db, req: Request, seen: Option<RuleSet>)
    requires Keyed(db) && SnapshotOk(db, req, seen)
    ensures InScope(db, Atomic(w, db, req, seen).writes, req.scope)
  {
    hide Compile, Unacceptable, Recompiles, CodeIds, ByKey, MaxNumber, AtomicGetSet, AtomicEvaluate;
  }

  lemma MergeInScope(db: Db, writes: Writes, scope: Scope)
    requires InScope(db, writes, scope)
    ensures Project(Merge(db, writes), scope) == Merge(Project(db, scope), writes)
  {
    assert Project(Merge(db, writes), scope).outbox == Merge(Project(db, scope), writes).outbox by {
      if writes.event.Some? {
        var e := writes.event.value;
        assert (db.outbox + [e])[..|db.outbox|] == db.outbox;
      }
    }
    hide EventsIn;
    var a, b := Project(Merge(db, writes), scope), Merge(Project(db, scope), writes);
    assert a.sets == b.sets;
    assert a.versions == b.versions;
  }

  lemma MergeOutOfScope(db: Db, writes: Writes, foreign: Scope, scope: Scope)
    requires InScope(db, writes, foreign) && foreign != scope
    ensures Project(Merge(db, writes), scope) == Project(db, scope)
  {
    if writes.event.Some? {
      var e := writes.event.value;
      assert (db.outbox + [e])[..|db.outbox|] == db.outbox;
    }
    hide EventsIn;
    var a, b := Project(Merge(db, writes), scope), Project(db, scope);
    assert a.sets == b.sets;
    assert a.versions == b.versions;
  }

  /******* Whole histories *******/

  /** The tables that a list of commits builds from nothing. */
  ghost function Replayed(w: Platform, log: seq<Commit>): Db {
    if log == [] then EMPTY
    else After(w, Replayed(w, log[..|log| - 1]), log[|log| - 1].req, log[|log| - 1].seen)
  }

  function CommitsOf(log: seq<Commit>, scope: Scope): seq<Commit> {
    if log == [] then []
    else
      var rest := CommitsOf(log[..|log| - 1], scope);
      if log[|log| - 1].req.scope == scope then rest + [log[|log| - 1]] else rest
  }

  lemma EffectiveIsNew(w: Platform, db: Db, req: Request, seen: Option<RuleSet>)
    requires Atomic(w, db, req, seen).writes != NOTHING
    ensures NewId(db, req)
  {
    hide Compile, Unacceptable, Recompiles, CodeIds, ByKey, MaxNumber, AtomicGetSet, AtomicEvaluate;
  }

  lemma CommitProjects(w: Platform, db: Db, req: Request, seen: Option<RuleSet>, scope: Scope)
    requires Keyed(db) && SnapshotOk(db, req, seen) && Atomic(w, db, req, seen).writes != NOTHING
    ensures Project(After(w, db, req, seen), scope)
         == if req.scope == scope then After(w, Project(db, scope), req, seen) else Project(db, scope)
  {
    hide Project, Merge, InScope, SnapshotOk, Keyed, Atomic, NewId;
    WritesInScope(w, db, req, seen);
    if req.scope == scope {
      EffectiveIsNew(w, db, req, seen);
      OwnCall(w, db, req, seen);
      MergeInScope(db, Atomic(w, db, req, seen).writes, scope);
    } else {
      MergeOutOfScope(db, Atomic(w, db, req, seen).writes, req.scope, scope);
    }
  }

  lemma {:induction false} HistoryProjects(w: Platform, tr: Trace, k: nat, scope: Scope)
    requires HistoryOk(w, tr) && k <= |tr.log|
    ensures Project(Instant(tr, k), scope) == Replayed(w, CommitsOf(tr.log[..k], scope))
  {
    hide Project, Consistent, Grows, After, SnapshotOk, Instant, Atomic;
    if k == 0 {
      EmptyProjects(scope);
    } else {
      HistoryProjects(w, tr, k - 1, scope);
      assert LinkOk(w, tr, k - 1);
      ShapedThen(w, tr, k - 1);
      CommitProjects(w, Instant(tr, k - 1), tr.log[k - 1].req, tr.log[k - 1].seen, scope);
      assert tr.log[..k][..k - 1] == tr.log[..k - 1];
      var rest := CommitsOf(tr.log[..k - 1], scope);
      assert (rest + [tr.log[k - 1]])[..|rest|] == rest;
    }
  }

  lemma EmptyProjects(scope: Scope)
    ensures Project(EMPTY, scope) == EMPTY
  {}

  /******* Identifiers *******/

  /** Each row was inserted by a commit that carried its identifier. */
  ghost predicate Authored(log: seq<Commit>, k: nat, id: Id, isSet: bool)
    requires k <= |log|
  {
    exists j :: 0 <= j < k && if isSet then log[j].req.CreateSet? && log[j].req.newId == id
                              else log[j].req.CreateVersion? && log[j].req.newId == id
  }

  lemma NewRows(w: Platform, db: Db, req: Request, seen: Option<RuleSet>, id: Id)
    requires Keyed(db)
    ensures id in After(w, db, req, seen).sets ==> id in db.sets || (req.CreateSet? && req.newId == id)
    ensures id in After(w, db, req, seen).versions ==> id in db.versions || (req.CreateVersion? && req.newId == id)
  {
    hide Compile, Unacceptable, Recompiles, CodeIds, ByKey, MaxNumber, AtomicGetSet, AtomicEvaluate;
  }

  lemma {:induction false} RowsAuthored(w: Platform, tr: Trace, k: nat, id: Id)
    requires HistoryOk(w, tr) && k <= |tr.log|
    ensures id in Instant(tr, k).sets ==> Authored(tr.log, k, id, true)
    ensures id in Instant(tr, k).versions ==> Authored(tr.log, k, id, false)
  {
    hide Consistent, Grows, After, SnapshotOk, Instant, Atomic;
    if k > 0 {
      RowsAuthored(w, tr, k - 1, id);
      assert LinkOk(w, tr, k - 1);
      ShapedThen(w, tr, k - 1);
      NewRows(w, Instant(tr, k - 1), tr.log[k - 1].req, tr.log[k - 1].seen, id);
      assert Authored(tr.log, k - 1, id, true) ==> Authored(tr.log, k, id, true);
      assert Authored(tr.log, k - 1, id, false) ==> Authored(tr.log, k, id, false);
    }
  }

  lemma IdsDiffer(w: Platform, s: State)
    requires Inv(w, s)
    ensures IdsOk(s.trace.db, s.threads) && LogOk(s.trace, s.threads)
  {
    hide HistoryOk, LogOk, LocksOk, CachesOk, IdsOk, ThreadOk;
  }

  /** No commit but its own inserts the identifier a call carries. */
  lemma OnlyOwnId(tr: Trace, threads: map<nat, Thread>, db: Db, t: nat, k: nat)
    requires t in threads && k <= |tr.log| && LogOk(tr, threads) && IdsOk(db, threads)
    requires forall j :: 0 <= j < k ==> tr.log[j].tid != t
    ensures threads[t].req.CreateSet? ==> !Authored(tr.log, k, threads[t].req.newId, true)
    ensures threads[t].req.CreateVersion? ==> !Authored(tr.log, k, threads[t].req.newId, false)
  {
    hide Quotes;
    forall j | 0 <= j < k ensures tr.log[j].tid in threads && threads[tr.log[j].tid].req == tr.log[j].req {
      assert CommitOk(tr, threads, j);
    }
  }

  /** Up to its own commit, the identifier a call carries is in no table. */
  lemma StillNew(w: Platform, s: State, t: nat, k: nat)
    requires t in s.threads && k <= |s.trace.log| && Lawful(w) && Reachable(w, s)
    requires forall j :: 0 <= j < k ==> s.trace.log[j].tid != t
    ensures NewId(Instant(s.trace, k), s.threads[t].req)
  {
    hide Lawful, Reachable, Inv, Instant, HistoryOk, LogOk, LocksOk, CachesOk, IdsOk, ThreadOk, Authored;
    ReachableParts(w, s);
    ReachableOk(w, s);
    IdsDiffer(w, s);
    var req := s.threads[t].req;
    OnlyOwnId(s.trace, s.threads, s.trace.db, t, k);
    if req.CreateSet? || req.CreateVersion? {
      RowsAuthored(w, s.trace, k, req.newId);
    }
  }

  /** What the call quotes, if anything, is its set as its own scope's commits had left it while it ran. */
  ghost predicate QuotesOwn(
    w: Platform, log: seq<Commit>, start: nat, last: nat, req: Request, seen: Option<RuleSet>)
    requires last <= |log|
  {
    seen.Some? ==>
      && (req.UpdateSet? || req.PublishVersion?)
      && exists j: nat :: start <= j <= last
           && SetAt(Replayed(w, CommitsOf(log[..j], req.scope)), req.scope, req.setId) == seen
  }

  lemma QuotedIsOwn(w: Platform, tr: Trace, start: nat, last: nat, req: Request, seen: Option<RuleSet>)
    requires HistoryOk(w, tr) && last <= |tr.log| && Quotes(tr, start, last, req, seen)
    ensures QuotesOwn(w, tr.log, start, last, req, seen)
  {
    hide HistoryOk, Instant, Replayed, CommitsOf, Project, SetAt;
    if seen.Some? {
      var j: nat :| start <= j <= last && SetAt(Instant(tr, j), req.scope, req.setId) == Some(seen.value);
      HistoryProjects(w, tr, j, req.scope);
      ProjectQueries(Instant(tr, j), req.scope);
    }
  }

  /**
   Every finished call of a scope got the answer it gets when it runs alone, at its instant, on the tables built
   by the commits of its own scope and nothing else; so was any row its answer quotes.
   */
  lemma ScopeIsolation(w: Platform, s: State, t: nat) returns (k: nat, seen: Option<RuleSet>)
    requires t in s.threads && s.threads[t].pc.Done? && Lawful(w) && Reachable(w, s)
    ensures s.threads[t].start <= k <= s.threads[t].pc.end && k <= |s.trace.log|
    ensures var req := s.threads[t].req;
      && s.threads[t].pc.outcome == Atomic(w, Replayed(w, CommitsOf(s.trace.log[..k], req.scope)), req, seen).outcome
      && QuotesOwn(w, s.trace.log, s.threads[t].start, k, req, seen)
  {
    hide Lawful, Reachable, Atomic, Project, Instant, HistoryOk, LogOk, LocksOk, CachesOk, ThreadOk,
         NewId, CommitsOf, Replayed, After, Quotes, QuotesOwn;
    ReachableParts(w, s);
    Serial(w, s);
    k := Linearizable(w, s, t);
    var own := k < |s.trace.log| && s.trace.log[k].tid == t;
    seen := if own then s.trace.log[k].seen else None;
    var req := s.threads[t].req;
    StillNew(w, s, t, k);
    OwnCall(w, Instant(s.trace, k), req, seen);
    HistoryProjects(w, s.trace, k, req.scope);
    if own {
      QuotedIsOwn(w, s.trace, s.threads[t].start, k, req, seen);
    } else {
      QuotesNothing(w, s.trace.log, s.threads[t].start, k, req);
    }
  }

  lemma QuotesNothing(w: Platform, log: seq<Commit>, start: nat, last: nat, req: Request)
    requires last <= |log|
    ensures QuotesOwn(w, log, start, last, req, None)
  {}
}
