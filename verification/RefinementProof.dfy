/** Every step of the machine keeps the refinement invariant. */
module RefinementProof {
  import opened Wrappers
  import opened Platform
  import opened Engine
  import opened Store
  import opened Lifecycle
  import opened Invariants
  import opened Machine
  import opened Refinement

  /******* Steps that commit nothing *******/

  lemma MoveKeeps(w: Platform, s: State, s': State, t: nat, th: Thread)
    requires t in s.threads && Inv(w, s)
    requires s'.trace == s.trace && s'.threads == s.threads[t := th]
    requires th.req == s.threads[t].req && th.start == s.threads[t].start
    requires Settled(s.threads[t].pc) ==> Settled(th.pc)
    requires ThreadOk(w, s.trace, t, th)
    requires LocksOk(s'.locks, s'.threads) && CachesOk(w, s'.caches)
    ensures Inv(w, s')
  {
    LogMoves(s.trace, s.threads, t, th);
    IdsMove(s.trace.db, s.threads, t, th);
    hide HistoryOk, LogOk, IdsOk, ThreadOk, LocksOk, CachesOk;
  }

  lemma LogMoves(tr: Trace, threads: map<nat, Thread>, t: nat, th: Thread)
    requires LogOk(tr, threads) && t in threads && th.req == threads[t].req && th.start == threads[t].start
    ensures LogOk(tr, threads[t := th])
  {
    hide Quotes;
    var threads' := threads[t := th];
    forall k | 0 <= k < |tr.log| ensures CommitOk(tr, threads', k) {
      assert CommitOk(tr, threads, k);
    }
  }

  lemma IdsMove(db: Db, threads: map<nat, Thread>, t: nat, th: Thread)
    requires IdsOk(db, threads) && t in threads && th.req == threads[t].req
    requires Settled(threads[t].pc) ==> Settled(th.pc)
    ensures IdsOk(db, threads[t := th])
  {}

  lemma LocksStay(locks: map<Resource, nat>, threads: map<nat, Thread>, t: nat, th: Thread)
    requires LocksOk(locks, threads) && t in threads && Held(th) == Held(threads[t])
    ensures LocksOk(locks, threads[t := th])
  {
    hide Held;
  }

  lemma LocksTaken(locks: map<Resource, nat>, threads: map<nat, Thread>, t: nat, th: Thread, rs: set<Resource>)
    requires LocksOk(locks, threads) && t in threads && Held(th) == Held(threads[t]) + rs
    requires forall r :: r in rs && r in locks ==> locks[r] == t
    ensures LocksOk(Taken(locks, t, rs), threads[t := th])
  {
    hide Held;
  }

  lemma LocksFreed(locks: map<Resource, nat>, threads: map<nat, Thread>, t: nat, th: Thread)
    requires LocksOk(locks, threads) && t in threads && Held(th) == {}
    ensures LocksOk(Freed(locks, t), threads[t := th])
  {
    hide Held;
  }

  /** A statement that reads, computes, or fails to match. */
  lemma GotoKeeps(w: Platform, s: State, t: nat, pc: Pc)
    requires t in s.threads && !Settled(s.threads[t].pc) && Inv(w, s)
    requires Held(s.threads[t].(pc := pc)) == Held(s.threads[t])
    requires ThreadOk(w, s.trace, t, s.threads[t].(pc := pc))
    ensures Inv(w, Goto(s, t, pc))
  {
    hide HistoryOk, LogOk, ThreadOk, LocksOk, CachesOk, IdsOk, Held;
    LocksStay(s.locks, s.threads, t, s.threads[t].(pc := pc));
    MoveKeeps(w, s, Goto(s, t, pc), t, s.threads[t].(pc := pc));
  }

  /** A statement that locks rows and leaves its own in the write set. */
  lemma AcquireKeeps(w: Platform, s: State, t: nat, rs: set<Resource>, pending: Writes, pc: Pc)
    requires t in s.threads && !Settled(s.threads[t].pc) && Inv(w, s)
    requires forall r :: r in rs ==> Free(s, t, r)
    requires var th := s.threads[t].(pc := pc, pending := pending);
      Held(th) == Held(s.threads[t]) + rs && ThreadOk(w, s.trace, t, th)
    ensures Inv(w, Acquire(s, t, rs, pending, pc))
  {
    hide HistoryOk, LogOk, ThreadOk, LocksOk, CachesOk, IdsOk, Held, Taken;
    var th := s.threads[t].(pc := pc, pending := pending);
    assert forall r :: r in rs && r in s.locks ==> Free(s, t, r);
    LocksTaken(s.locks, s.threads, t, th, rs);
    MoveKeeps(w, s, Acquire(s, t, rs, pending, pc), t, th);
  }

  /** A transaction that ends without writing. */
  lemma ReleaseKeeps(w: Platform, s: State, t: nat, pc: Pc)
    requires t in s.threads && (Settled(s.threads[t].pc) ==> Settled(pc)) && Inv(w, s)
    requires var th := s.threads[t].(pc := pc, pending := NOTHING);
      Held(th) == {} && ThreadOk(w, s.trace, t, th)
    ensures Inv(w, Release(s, t, pc))
  {
    hide HistoryOk, LogOk, ThreadOk, LocksOk, CachesOk, IdsOk, Held, Freed;
    var th := s.threads[t].(pc := pc, pending := NOTHING);
    LocksFreed(s.locks, s.threads, t, th);
    MoveKeeps(w, s, Release(s, t, pc), t, th);
  }

  lemma ThreadFact(w: Platform, s: State, t: nat)
    requires t in s.threads && Inv(w, s)
    ensures ThreadOk(w, s.trace, t, s.threads[t])
  {
    hide HistoryOk, LogOk, LocksOk, CachesOk, IdsOk, ThreadOk;
  }

  /** A call that fails, or only reads, takes effect at an instant it has lived through. */
  lemma FinishKeeps(w: Platform, s: State, t: nat, outcome: Outcome, k: nat)
    requires t in s.threads && !Settled(s.threads[t].pc) && Inv(w, s)
    requires s.threads[t].start <= k <= |s.trace.past|
    requires Atomic(w, Instant(s.trace, k), s.threads[t].req, None) == Transition(NOTHING, outcome)
    ensures Inv(w, Finish(s, t, outcome))
  {
    hide Inv, Atomic, Knows, Explained, Held, NeverLogged, Instant, Release;
    var th := s.threads[t].(pc := Done(outcome, |s.trace.past|), pending := NOTHING);
    ThreadFact(w, s, t);
    ExplainedHere(w, s.trace, t, th.req, th.start, outcome, k);
    FinishedKnows(w, s.trace.db, th);
    ReleaseKeeps(w, s, t, th.pc);
  }

  lemma ExplainedHere(w: Platform, tr: Trace, t: nat, req: Request, start: nat, outcome: Outcome, k: nat)
    requires NeverLogged(tr, t) && start <= k <= |tr.past|
    requires Atomic(w, Instant(tr, k), req, None) == Transition(NOTHING, outcome)
    ensures Explained(w, tr, t, req, start, outcome, |tr.past|)
  {
    hide Atomic;
    assert TakesEffect(w, tr, t, req, outcome, k);
  }

  lemma FinishedKnows(w: Platform, db: Db, th: Thread)
    requires (Finished(th.pc) || th.pc.StoreCompiled?) && th.pending == NOTHING
    ensures Knows(w, db, th) && Held(th) == {}
  {}

  /******* What a commit leaves alone *******/

  /** One set's row and all its versions are the same in both states. */
  ghost predicate SameSlice(a: Db, b: Db, setId: Id) {
    && setId in a.sets && setId in b.sets && b.sets[setId] == a.sets[setId]
    && (forall v :: v in a.versions && a.versions[v].setId == setId ==>
          v in b.versions && b.versions[v] == a.versions[v])
    && (forall v :: v in b.versions && b.versions[v].setId == setId ==>
          v in a.versions && b.versions[v] == a.versions[v])
  }

  lemma SliceQueries(a: Db, b: Db, scope: Scope, setId: Id, key: string)
    requires SameSlice(a, b, setId)
    ensures SetAt(a, scope, setId) == SetAt(b, scope, setId)
    ensures KeyIds(a, scope, setId, key) == KeyIds(b, scope, setId, key)
    ensures Numbers(a, scope, setId) == Numbers(b, scope, setId)
    ensures MaxNumber(a, scope, setId) == MaxNumber(b, scope, setId)
    ensures ByKey(a, scope, setId, key) == ByKey(b, scope, setId, key)
    ensures forall v :: VersionById(a, scope, setId, v) == VersionById(b, scope, setId, v)
  {
    forall n | n in Numbers(a, scope, setId) ensures n in Numbers(b, scope, setId) {}
    forall n | n in Numbers(b, scope, setId) ensures n in Numbers(a, scope, setId) {}
    assert Numbers(a, scope, setId) == Numbers(b, scope, setId);
    assert KeyIds(a, scope, setId, key) == KeyIds(b, scope, setId, key);
  }

  /** Nothing the locks in `held` protect differs. */
  ghost predicate Undisturbed(a: Db, b: Db, held: set<Resource>) {
    && (forall id :: SetRow(id) in held ==> SameSlice(a, b, id))
    && (forall v :: VersionRow(v) in held ==> v in a.versions && v in b.versions && a.versions[v] == b.versions[v])
    && (forall scope, code :: CodeKey(scope, code) in held ==> CodeIds(a, scope, code) == CodeIds(b, scope, code))
  }

  ghost predicate LockedRowsExist(db: Db, held: set<Resource>) {
    && (forall id :: SetRow(id) in held ==> id in db.sets)
    && (forall v :: VersionRow(v) in held ==> v in db.versions)
  }

  /** Every row a write set changes is locked, and every key it brings is claimed. */
  ghost predicate Covered(db: Db, writes: Writes, held: set<Resource>) {
    && (writes.set_.Some? ==>
          var row := writes.set_.value;
          if row.id in db.sets
          then SetRow(row.id) in held && row.scope == db.sets[row.id].scope && row.code == db.sets[row.id].code
          else CodeKey(row.scope, row.code) in held)
    && (writes.version.Some? ==>
          var v := writes.version.value;
          && SetRow(v.setId) in held
          && (v.id in db.versions ==> VersionRow(v.id) in held && db.versions[v.id].setId == v.setId))
  }

  lemma CoveredUndisturbed(db: Db, writes: Writes, mine: set<Resource>, theirs: set<Resource>)
    requires Covered(db, writes, mine) && mine !! theirs && LockedRowsExist(db, theirs)
    ensures Undisturbed(db, Merge(db, writes), theirs)
  {
    var b := Merge(db, writes);
    forall id | SetRow(id) in theirs ensures SameSlice(db, b, id) {}
    forall scope, code | CodeKey(scope, code) in theirs
      ensures CodeIds(db, scope, code) == CodeIds(b, scope, code)
    {
      forall id ensures id in CodeIds(db, scope, code) <==> id in CodeIds(b, scope, code) {}
    }
  }

  lemma KnowsLockedRows(w: Platform, db: Db, th: Thread)
    requires Knows(w, db, th)
    ensures LockedRowsExist(db, Held(th))
  {
    hide Compile, Renamed, Released, Activated, NewVersion, NewSet, Stored;
  }

  /** A call that keeps its locked rows keeps what it knows. */
  lemma KnowsKept(w: Platform, a: Db, b: Db, th: Thread)
    requires Knows(w, a, th) && Undisturbed(a, b, Held(th))
    requires th.req.CreateSet? && th.pc.CommitSet? ==> th.req.newId !in b.sets
    requires th.req.CreateVersion? && th.pc.CommitVersion? ==> th.req.newId !in b.versions
    ensures Knows(w, b, th)
  {
    hide Compile, Renamed, Released, Activated, NewVersion, NewSet, Stored, Unacceptable, SameSlice, KeyIds, MaxNumber;
    match th.req
    case UpdateSet(scope, setId, _, _, _, _, _, _) =>
      if SetRow(setId) in Held(th) {
        SliceQueries(a, b, scope, setId, "");
      }
    case CreateVersion(scope, _, setId, _, key, _, _, _) =>
      if SetRow(setId) in Held(th) {
        SliceQueries(a, b, scope, setId, key);
      }
    case PublishVersion(scope, setId, _, _, _, _, _) =>
      if SetRow(setId) in Held(th) {
        SliceQueries(a, b, scope, setId, "");
      }
    case _ =>
  }

  /******* What a commit adds *******/

  /** `b` is `a` with one more commit, made by call `t`. */
  ghost predicate Continues(a: Trace, b: Trace, t: nat) {
    && |a.past| == |a.log| && |b.past| == |b.log| == |a.log| + 1
    && (forall k: nat :: k <= |a.past| ==> Instant(b, k) == Instant(a, k))
    && (forall k: nat :: k < |a.log| ==> b.log[k] == a.log[k])
    && b.log[|a.log|].tid == t
  }

  lemma ExtendedContinues(tr: Trace, t: nat, th: Thread, seen: Option<RuleSet>)
    requires |tr.past| == |tr.log|
    ensures Continues(tr, Extended(tr, t, th, seen), t)
    ensures Instant(Extended(tr, t, th, seen), |tr.past| + 1) == Merge(tr.db, th.pending)
    ensures Extended(tr, t, th, seen).log[|tr.log|] == Commit(t, th.req, seen)
    ensures Extended(tr, t, th, seen).db == Merge(tr.db, th.pending)
    ensures Instant(tr, |tr.past|) == tr.db
  {
    hide Merge;
  }

  lemma ExplainedKept(w: Platform, a: Trace, b: Trace, t: nat, u: nat,
    req: Request, start: nat, outcome: Outcome, end: nat)
    requires Continues(a, b, t) && u != t && Explained(w, a, u, req, start, outcome, end)
    ensures Explained(w, b, u, req, start, outcome, end)
  {
    hide Atomic, Instant;
    var k: nat :| start <= k <= end <= |a.past| && (k < |a.log| && a.log[k].tid == u ==> k < end)
                  && TakesEffect(w, a, u, req, outcome, k);
    assert TakesEffect(w, b, u, req, outcome, k);
  }

  lemma SawKept(a: Trace, b: Trace, t: nat, th: Thread)
    requires Continues(a, b, t)
    ensures forall scope, setId, row :: SawSet(a, th.start, |a.past|, scope, setId, row)
              ==> SawSet(b, th.start, |b.past|, scope, setId, row)
    ensures forall scope, setId, row :: SawDraft(a, th.start, scope, setId, row)
              ==> SawDraft(b, th.start, scope, setId, row)
    ensures forall scope, ref, row :: SawRef(a, th.start, scope, ref, row) ==> SawRef(b, th.start, scope, ref, row)
    ensures th.req.Evaluate? ==>
              forall row :: Resolved(a, th.start, th.req, row) ==> Resolved(b, th.start, th.req, row)
  {
    hide SetAt, VersionById, Lookup, Resolve, Instant;
    forall scope, setId, row | SawSet(a, th.start, |a.past|, scope, setId, row)
      ensures SawSet(b, th.start, |b.past|, scope, setId, row)
    {
      var k: nat :| th.start <= k <= |a.past| && SetAt(Instant(a, k), scope, setId) == Some(row);
      assert SetAt(Instant(b, k), scope, setId) == Some(row);
    }
    forall scope, setId, row | SawDraft(a, th.start, scope, setId, row)
      ensures SawDraft(b, th.start, scope, setId, row) {
      var k: nat :| th.start <= k <= |a.past| && VersionById(Instant(a, k), scope, setId, row.id) == Some(row);
      assert VersionById(Instant(b, k), scope, setId, row.id) == Some(row);
    }
    forall scope, ref, row | SawRef(a, th.start, scope, ref, row) ensures SawRef(b, th.start, scope, ref, row) {
      var k: nat :| th.start <= k <= |a.past| && Lookup(Instant(a, k), scope, ref) == Some(row);
      assert Lookup(Instant(b, k), scope, ref) == Some(row);
    }
    if th.req.Evaluate? {
      forall row | Resolved(a, th.start, th.req, row) ensures Resolved(b, th.start, th.req, row) {
        var k: nat :| th.start <= k <= |a.past| && Resolve(Instant(a, k), th.req) == Success(row);
        assert Resolve(Instant(b, k), th.req) == Success(row);
      }
    }
  }

  lemma RemembersKept(w: Platform, a: Trace, b: Trace, t: nat, u: nat, th: Thread)
    requires Continues(a, b, t) && u != t && Remembers(w, a, u, th)
    ensures Remembers(w, b, u, th)
  {
    SawKept(a, b, t, th);
    hide SawSet, SawDraft, SawRef, Resolved, Explained, Compile, Compiles, Instant;
    if th.pc.StoreCompiled? {
      var end := |a.past|;
      ExplainedKept(w, a, b, t, u, th.req, th.start, th.pc.outcome, end);
      ExplainedLater(w, b, u, th.req, th.start, th.pc.outcome, end, |b.past|);
    } else if th.pc.Done? {
      ExplainedKept(w, a, b, t, u, th.req, th.start, th.pc.outcome, th.pc.end);
    }
  }

  lemma ExplainedLater(w: Platform, tr: Trace, t: nat, req: Request, start: nat, outcome: Outcome, end: nat, end': nat)
    requires Explained(w, tr, t, req, start, outcome, end) && end <= end' <= |tr.past|
    ensures Explained(w, tr, t, req, start, outcome, end')
  {
    hide Atomic, TakesEffect;
    var k: nat :| start <= k <= end <= |tr.past| && (k < |tr.log| && tr.log[k].tid == t ==> k < end)
                  && TakesEffect(w, tr, t, req, outcome, k);
  }

  lemma HeldApart(locks: map<Resource, nat>, threads: map<nat, Thread>, t: nat, u: nat)
    requires LocksOk(locks, threads) && t in threads && u in threads && t != u
    ensures Held(threads[t]) !! Held(threads[u])
  {
    hide Held;
    forall r | r in Held(threads[t]) ensures r !in Held(threads[u]) {
      assert r in locks && locks[r] == t;
    }
  }

  /** Another call's commit changes nothing this call relies on. */
  lemma ThreadKept(w: Platform, a: Trace, b: Trace, t: nat, mine: Thread, u: nat, theirs: Thread)
    requires ThreadOk(w, a, u, theirs) && u != t
    requires Continues(a, b, t) && b.db == Merge(a.db, mine.pending)
    requires Covered(a.db, mine.pending, Held(mine)) && Held(mine) !! Held(theirs)
    requires theirs.req.CreateSet? && !Settled(theirs.pc) ==> theirs.req.newId !in b.db.sets
    requires theirs.req.CreateVersion? && !Settled(theirs.pc) ==> theirs.req.newId !in b.db.versions
    ensures ThreadOk(w, b, u, theirs)
  {
    hide Merge, Explained, Instant, Covered, Held, Knows, Remembers, Undisturbed, LockedRowsExist;
    KnowsLockedRows(w, a.db, theirs);
    CoveredUndisturbed(a.db, mine.pending, Held(mine), Held(theirs));
    KnowsKept(w, a.db, b.db, theirs);
    RemembersKept(w, a, b, t, u, theirs);
  }

  /******* The commit itself *******/

  lemma GrowthCommits(a: Trace, b: Trace, t: nat)
    requires Continues(a, b, t) && Grows(Instant(a, |a.past|), Instant(b, |a.past| + 1))
    requires forall j, k :: 0 <= j <= k <= |a.past| ==> Grows(Instant(a, j), Instant(a, k))
    ensures forall j, k :: 0 <= j <= k <= |b.past| ==> Grows(Instant(b, j), Instant(b, k))
  {
    var n := |a.past|;
    forall j: nat, k: nat | j <= k <= |b.past| ensures Grows(Instant(b, j), Instant(b, k)) {
      hide Grows, Instant;
      if k <= n {
        assert Grows(Instant(a, j), Instant(a, k));
      } else if j <= n {
        assert Grows(Instant(a, j), Instant(a, n));
        GrowsTransitive(Instant(b, j), Instant(a, n), Instant(b, k));
      } else {
        Unchanged(Instant(b, j));
      }
    }
  }

  lemma LinksCommit(w: Platform, a: Trace, b: Trace, t: nat)
    requires Continues(a, b, t) && forall k :: 0 <= k < |a.log| ==> LinkOk(w, a, k)
    ensures forall k :: 0 <= k < |a.log| ==> LinkOk(w, b, k)
  {
    hide After, SnapshotOk, Instant, Atomic;
    forall k: nat | k < |a.log| ensures LinkOk(w, b, k) {
      assert LinkOk(w, a, k);
      assert Instant(b, k + 1) == Instant(a, k + 1);
    }
  }

  lemma HistoryCommits(w: Platform, tr: Trace, t: nat, th: Thread, seen: Option<RuleSet>)
    requires HistoryOk(w, tr) && SnapshotOk(tr.db, th.req, seen)
    requires Atomic(w, tr.db, th.req, seen).writes == th.pending != NOTHING
    ensures HistoryOk(w, Extended(tr, t, th, seen))
  {
    hide Extended, Instant, Atomic, SnapshotOk, Consistent, Grows, Merge, LinkOk;
    var b := Extended(tr, t, th, seen);
    ExtendedContinues(tr, t, th, seen);
    assert Consistent(w, Instant(tr, |tr.past|));
    AtomicKeeps(w, tr.db, th.req, seen);
    LinkCommits(w, tr, b, t, th, seen);
    hide After;
    LinksCommit(w, tr, b, t);
    GrowthCommits(tr, b, t);
  }

  lemma LinkCommits(w: Platform, a: Trace, b: Trace, t: nat, th: Thread, seen: Option<RuleSet>)
    requires Continues(a, b, t) && b.log[|a.log|] == Commit(t, th.req, seen)
    requires Instant(a, |a.past|) == a.db && SnapshotOk(a.db, th.req, seen)
    requires Instant(b, |a.past| + 1) == After(w, a.db, th.req, seen)
    requires Atomic(w, a.db, th.req, seen).writes != NOTHING
    ensures LinkOk(w, b, |a.log|)
  {
    hide After, SnapshotOk, Instant, Atomic;
  }

  lemma LogCommits(tr: Trace, threads: map<nat, Thread>, t: nat, th: Thread, seen: Option<RuleSet>)
    requires LogOk(tr, threads) && t in threads && NeverLogged(tr, t)
    requires th.req == threads[t].req && th.start == threads[t].start <= |tr.past|
    requires Quotes(tr, th.start, |tr.past|, th.req, seen)
    ensures LogOk(Extended(tr, t, threads[t], seen), threads[t := th])
  {
    var b := Extended(tr, t, threads[t], seen);
    var threads' := threads[t := th];
    ExtendedContinues(tr, t, threads[t], seen);
    hide Extended, Instant, SetAt;
    forall k | 0 <= k < |b.log| ensures CommitOk(b, threads', k) {
      if k < |tr.log| {
        assert CommitOk(tr, threads, k);
      }
    }
  }

  /** A write set brings no identifier but the one its own request carries. */
  ghost predicate OwnIds(db: Db, req: Request, writes: Writes) {
    && (writes.set_.Some? ==>
          writes.set_.value.id in db.sets || (req.CreateSet? && writes.set_.value.id == req.newId))
    && (writes.version.Some? ==>
          writes.version.value.id in db.versions || (req.CreateVersion? && writes.version.value.id == req.newId))
  }

  lemma IdsCommit(db: Db, threads: map<nat, Thread>, t: nat, th: Thread, writes: Writes)
    requires IdsOk(db, threads) && t in threads && th.req == threads[t].req && Settled(th.pc)
    requires OwnIds(db, th.req, writes)
    ensures IdsOk(Merge(db, writes), threads[t := th])
  {}

  lemma AtomicCovered(w: Platform, db: Db, th: Thread, seen: Option<RuleSet>)
    requires Keyed(db) && !Unacceptable(w, th.req) && Atomic(w, db, th.req, seen).writes == th.pending != NOTHING
    requires th.req.CreateSet? ==> th.pc.CommitSet?
    requires th.req.UpdateSet? ==> th.pc.CommitSwap?
    requires th.req.CreateVersion? ==> th.pc.CommitVersion?
    requires th.req.PublishVersion? ==> th.pc.CommitPublish?
    ensures Covered(db, th.pending, Held(th)) && OwnIds(db, th.req, th.pending)
  {
    hide Compile, Unacceptable, CodeIds, ByKey, MaxNumber, Recompiles;
  }

  lemma CommitKeeps(w: Platform, s: State, t: nat, seen: Option<RuleSet>, outcome: Outcome, pc: Pc)
    requires t in s.threads && !Settled(s.threads[t].pc) && Inv(w, s)
    requires var th := s.threads[t];
      && Atomic(w, s.trace.db, th.req, seen) == Transition(th.pending, outcome) && th.pending != NOTHING
      && Covered(s.trace.db, th.pending, Held(th)) && OwnIds(s.trace.db, th.req, th.pending)
      && Quotes(s.trace, th.start, |s.trace.past|, th.req, seen)
    requires pc == Done(outcome, |s.trace.past| + 1)
      || (pc.StoreCompiled? && pc.outcome == outcome && Compiles(w, pc.compiled))
    ensures Inv(w, CommitThen(s, t, seen, pc))
  {
    hide Atomic, Merge, Instant, Covered, OwnIds, Held, Knows, Quotes, Compiles, HistoryOk, LogOk, LocksOk, CachesOk,
         IdsOk, ThreadOk, Extended, Freed, SnapshotOk, NeverLogged, Continues;
    var th := s.threads[t];
    var th' := th.(pc := pc, pending := NOTHING);
    var b := Extended(s.trace, t, th, seen);
    ThreadFact(w, s, t);
    SeenIsSnapshot(w, s.trace, th, seen);
    HistoryCommits(w, s.trace, t, th, seen);
    UnsettledUnlogged(w, s.trace, t, th);
    LogCommits(s.trace, s.threads, t, th', seen);
    FinishedKnows(w, b.db, th');
    LocksFreed(s.locks, s.threads, t, th');
    IdsCommit(s.trace.db, s.threads, t, th', th.pending);
    LogLength(s.trace, s.threads);
    ExtendedContinues(s.trace, t, th, seen);
    CommittedOk(w, s.trace, t, th, th', seen, outcome);
    CommitOthers(w, s, t, seen, th');
  }

  lemma CommitOthers(w: Platform, s: State, t: nat, seen: Option<RuleSet>, th: Thread)
    requires t in s.threads && Inv(w, s)
    requires Covered(s.trace.db, s.threads[t].pending, Held(s.threads[t]))
    requires IdsOk(Extended(s.trace, t, s.threads[t], seen).db, s.threads[t := th])
    ensures forall u :: u in s.threads && u != t
              ==> ThreadOk(w, Extended(s.trace, t, s.threads[t], seen), u, s.threads[u])
  {
    hide Extended, Covered, Held, IdsOk, ThreadOk, Inv;
    forall u | u in s.threads && u != t ensures ThreadOk(w, Extended(s.trace, t, s.threads[t], seen), u, s.threads[u]) {
      CommitOther(w, s, t, seen, th, u);
    }
  }

  lemma CommitOther(w: Platform, s: State, t: nat, seen: Option<RuleSet>, th: Thread, u: nat)
    requires t in s.threads && u in s.threads && u != t && Inv(w, s)
    requires Covered(s.trace.db, s.threads[t].pending, Held(s.threads[t]))
    requires IdsOk(Extended(s.trace, t, s.threads[t], seen).db, s.threads[t := th])
    ensures ThreadOk(w, Extended(s.trace, t, s.threads[t], seen), u, s.threads[u])
  {
    var b := Extended(s.trace, t, s.threads[t], seen);
    hide Merge, Instant, Covered, Held, HistoryOk, LogOk, LocksOk, CachesOk, IdsOk, ThreadOk, Settled;
    assert |s.trace.past| == |s.trace.log| by { LogLength(s.trace, s.threads); }
    ExtendedContinues(s.trace, t, s.threads[t], seen);
    HeldApart(s.locks, s.threads, t, u);
    IdsApart(b.db, s.threads[t := th], u);
    ThreadKept(w, s.trace, b, t, s.threads[t], u, s.threads[u]);
  }

  lemma LogLength(tr: Trace, threads: map<nat, Thread>)
    requires LogOk(tr, threads)
    ensures |tr.past| == |tr.log|
  {
    hide CommitOk;
  }

  lemma UnsettledUnlogged(w: Platform, tr: Trace, t: nat, th: Thread)
    requires ThreadOk(w, tr, t, th) && !Settled(th.pc)
    ensures NeverLogged(tr, t) && th.start <= |tr.past|
  {
    hide Knows, Remembers;
  }

  lemma IdsApart(db: Db, threads: map<nat, Thread>, u: nat)
    requires IdsOk(db, threads) && u in threads
    ensures threads[u].req.CreateSet? && !Settled(threads[u].pc) ==> threads[u].req.newId !in db.sets
    ensures threads[u].req.CreateVersion? && !Settled(threads[u].pc) ==> threads[u].req.newId !in db.versions
  {}

  /** A row the call saw earlier is an earlier image of the row it writes. */
  lemma SeenIsSnapshot(w: Platform, tr: Trace, th: Thread, seen: Option<RuleSet>)
    requires HistoryOk(w, tr)
    requires Quotes(tr, th.start, |tr.past|, th.req, seen)
    ensures SnapshotOk(tr.db, th.req, seen)
  {
    hide LinkOk, Consistent;
    if seen.Some? {
      var k: nat :| th.start <= k <= |tr.past|
                    && SetAt(Instant(tr, k), th.req.scope, th.req.setId) == Some(seen.value);
      assert Grows(Instant(tr, k), Instant(tr, |tr.past|));
    }
  }

  lemma CommittedOk(w: Platform, tr: Trace, t: nat, th: Thread, th': Thread, seen: Option<RuleSet>, outcome: Outcome)
    requires |tr.past| == |tr.log| && th.start <= |tr.past| && th'.req == th.req && th'.start == th.start
    requires Atomic(w, tr.db, th.req, seen) == Transition(th.pending, outcome) && th'.pending == NOTHING
    requires th'.pc == Done(outcome, |tr.past| + 1)
      || (th'.pc.StoreCompiled? && th'.pc.outcome == outcome && Compiles(w, th'.pc.compiled))
    ensures ThreadOk(w, Extended(tr, t, th, seen), t, th')
  {
    hide Atomic, Merge, Instant, Extended, Compiles, Knows, Explained, Held;
    var b := Extended(tr, t, th, seen);
    ExtendedContinues(tr, t, th, seen);
    FinishedKnows(w, b.db, th');
    ExplainedByCommit(w, b, t, th.req, th.start, outcome, |tr.past|);
  }

  lemma ExplainedByCommit(w: Platform, tr: Trace, t: nat, req: Request, start: nat, outcome: Outcome, k: nat)
    requires start <= k < |tr.log| == |tr.past|
    requires tr.log[k].tid == t && tr.log[k].req == req
    requires Atomic(w, Instant(tr, k), req, tr.log[k].seen).outcome == outcome
    ensures Explained(w, tr, t, req, start, outcome, k + 1)
  {
    hide Atomic, Instant;
    assert TakesEffect(w, tr, t, req, outcome, k);
  }
}
