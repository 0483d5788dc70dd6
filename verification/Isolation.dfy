/**
 Non-interference as a statement about two runs.  Erase from any run every action of every call of other scopes:
 what is left is again a run, and in it the scope has the same rows and events and each of its calls is as far
 and has the same answer.  Only the cache can tell: an entry another scope would have filled is missing, and the
 call takes one more step to fill it itself.
 */
module Isolation {
  import opened Wrappers
  import opened Platform
  import opened Engine
  import opened Store
  import opened Lifecycle
  import opened Invariants
  import opened Machine
  import opened Refinement
  import opened StepProof
  import opened Guarantees
  import opened Progress
  import opened Realization
  import opened Scopes

  /******* Two runs compared *******/

  /** The same place in the same call, except that instants are counted in each run's own commits. */
  predicate SamePc(a: Pc, b: Pc) {
    a == b || (a.Done? && b.Done? && a.outcome == b.outcome) || (a.Aborted? && b.Aborted?)
  }

  predicate Alike(a: Thread, b: Thread) {
    a.req == b.req && a.replica == b.replica && a.pending == b.pending && SamePc(a.pc, b.pc)
  }

  function Owners(s: State, scope: Scope): set<nat> {
    set t | t in s.threads && s.threads[t].req.scope == scope
  }

  /** `p` is what is left of `s` when only the scope is looked at. */
  ghost predicate Mirrors(s: State, p: State, scope: Scope) {
    && p.threads.Keys == Owners(s, scope)
    && (forall t :: t in p.threads ==> Alike(s.threads[t], p.threads[t]))
    && p.caches.Keys <= s.caches.Keys
    && p.trace.log == CommitsOf(s.trace.log, scope)
  }

  /** The queries of the scope, on either tables. */
  ghost predicate SameView(a: Db, b: Db, scope: Scope) {
    && (forall id :: SetAt(a, scope, id) == SetAt(b, scope, id))
    && (forall code :: CodeIds(a, scope, code) == CodeIds(b, scope, code))
    && (forall setId, id :: VersionById(a, scope, setId, id) == VersionById(b, scope, setId, id))
    && (forall setId, n :: NumberIds(a, scope, setId, n) == NumberIds(b, scope, setId, n))
    && (forall setId, key :: KeyIds(a, scope, setId, key) == KeyIds(b, scope, setId, key))
    && (forall ref :: Lookup(a, scope, ref) == Lookup(b, scope, ref))
    && (forall setId, n :: ByNumber(a, scope, setId, n) == ByNumber(b, scope, setId, n))
    && (forall setId, key :: ByKey(a, scope, setId, key) == ByKey(b, scope, setId, key))
    && (forall setId :: MaxNumber(a, scope, setId) == MaxNumber(b, scope, setId))
  }

  lemma ProjectLooksAlike(db: Db, scope: Scope)
    ensures SameView(db, Project(db, scope), scope)
  {
    ProjectQueries(db, scope);
    ProjectFinds(db, scope);
    hide Project, SetAt, CodeIds, VersionById, NumberIds, KeyIds, Lookup, ByNumber, ByKey, MaxNumber, Numbers;
  }

  /** A reachable state's tables are what its commits build. */
  lemma {:induction false} BuiltByCommits(w: Platform, tr: Trace, k: nat)
    requires HistoryOk(w, tr) && k <= |tr.log|
    ensures Instant(tr, k) == Replayed(w, tr.log[..k])
  {
    hide Consistent, Grows, After, SnapshotOk, Instant, Atomic;
    if k > 0 {
      BuiltByCommits(w, tr, k - 1);
      assert LinkOk(w, tr, k - 1);
      assert tr.log[..k][..k - 1] == tr.log[..k - 1];
    }
  }

  /** Same commits, same tables. */
  lemma SameTables(w: Platform, s: State, p: State, scope: Scope)
    requires Mirrors(s, p, scope) && Lawful(w) && Reachable(w, s) && Reachable(w, p)
    ensures p.trace.db == Project(s.trace.db, scope)
  {
    hide Lawful, Reachable, HistoryOk, LogOk, LocksOk, CachesOk, ThreadOk, Instant, Project, CommitsOf, Replayed, Alike;
    ReachableParts(w, s);
    ReachableParts(w, p);
    var n, m := |s.trace.log|, |p.trace.log|;
    HistoryProjects(w, s.trace, n, scope);
    BuiltByCommits(w, p.trace, m);
    assert s.trace.log[..n] == s.trace.log && p.trace.log[..m] == p.trace.log;
    LastInstant(w, s.trace);
    LastInstant(w, p.trace);
  }

  /******* One step of an own call *******/

  /** The call stands at the same place in both runs, and what keeps it waiting in `p` does so in `s`. */
  ghost predicate Ready(s: State, p: State, t: nat) {
    && t in s.threads && t in p.threads
    && s.threads[t].req == p.threads[t].req && s.threads[t].replica == p.threads[t].replica
    && s.threads[t].pending == p.threads[t].pending && s.threads[t].pc == p.threads[t].pc
    && SameView(s.trace.db, p.trace.db, s.threads[t].req.scope)
    && (!Settled(s.threads[t].pc) ==> NewId(s.trace.db, s.threads[t].req) && NewId(p.trace.db, s.threads[t].req))
    && (forall r :: Free(s, t, r) ==> Free(p, t, r))
    && p.caches.Keys <= s.caches.Keys
  }

  ghost predicate SameCommit(a: seq<Commit>, a': seq<Commit>, b: seq<Commit>, b': seq<Commit>, scope: Scope) {
    || (a' == a && b' == b)
    || (|a'| == |a| + 1 && a' == a + [a'[|a|]] && b' == b + [a'[|a|]] && a'[|a|].req.scope == scope)
  }

  /** Both runs have taken the step. */
  ghost predicate InStep(s: State, s': State, p: State, p': State, t: nat) {
    && t in s.threads && t in s'.threads && t in p'.threads
    && Alike(s'.threads[t], p'.threads[t])
    && SameCommit(s.trace.log, s'.trace.log, p.trace.log, p'.trace.log, s.threads[t].req.scope)
    && p'.caches.Keys <= s'.caches.Keys
  }

  /******* The elementary effects *******/

  lemma GotoInStep(s: State, p: State, t: nat)
    requires Ready(s, p, t)
    ensures forall pc :: InStep(s, Goto(s, t, pc), p, Goto(p, t, pc), t)
  {
    hide SameView, NewId, Free;
  }

  lemma AcquireInStep(s: State, p: State, t: nat)
    requires Ready(s, p, t)
    ensures forall rs, pending, pc :: InStep(s, Acquire(s, t, rs, pending, pc), p, Acquire(p, t, rs, pending, pc), t)
  {
    hide SameView, NewId, Free, Taken;
  }

  lemma ReleaseInStep(s: State, p: State, t: nat)
    requires Ready(s, p, t)
    ensures forall pc :: InStep(s, Release(s, t, pc), p, Release(p, t, pc), t)
  {
    hide SameView, NewId, Free, Freed;
  }

  lemma FinishInStep(s: State, p: State, t: nat)
    requires Ready(s, p, t)
    ensures forall outcome :: InStep(s, Finish(s, t, outcome), p, Finish(p, t, outcome), t)
  {
    hide SameView, NewId, Free, Freed;
  }

  lemma CommitInStep(s: State, p: State, t: nat)
    requires Ready(s, p, t)
    ensures forall seen, pc :: InStep(s, CommitThen(s, t, seen, pc), p, CommitThen(p, t, seen, pc), t)
  {
    hide SameView, NewId, Free, Freed, Merge;
  }

  lemma CommitDoneInStep(s: State, p: State, t: nat, seen: Option<RuleSet>, outcome: Outcome)
    requires Ready(s, p, t)
    ensures InStep(s, CommitThen(s, t, seen, Done(outcome, |s.trace.past| + 1)),
                   p, CommitThen(p, t, seen, Done(outcome, |p.trace.past| + 1)), t)
  {
    hide SameView, NewId, Free, Freed, Merge;
  }

  lemma CreateSetInStep(s: State, p: State, t: nat)
    requires Ready(s, p, t) && s.threads[t].req.CreateSet? && StepCreateSet(s, t).Some?
    ensures StepCreateSet(p, t).Some? && InStep(s, StepCreateSet(s, t).value, p, StepCreateSet(p, t).value, t)
  {
    hide Goto, Acquire, Release, Finish, CommitThen, InStep, CodeIds, SetAt, VersionById, NumberIds, KeyIds, Lookup,
         ByNumber, ByKey, MaxNumber, NewSet, Freed, Taken, Free, Merge;
    FinishInStep(s, p, t);
    AcquireInStep(s, p, t);
    if s.threads[t].pc.CommitSet? {
      CommitDoneInStep(s, p, t, None, SetReturned(NewSet(s.threads[t].req)));
    }
  }

  lemma UpdateSetInStep(s: State, p: State, t: nat)
    requires Ready(s, p, t) && s.threads[t].req.UpdateSet? && s.threads[t].req.status.Some?
    requires StepUpdateSet(s, t).Some?
    ensures StepUpdateSet(p, t).Some? && InStep(s, StepUpdateSet(s, t).value, p, StepUpdateSet(p, t).value, t)
  {
    hide Goto, Acquire, Release, Finish, CommitThen, InStep, CodeIds, SetAt, VersionById, NumberIds, KeyIds, Lookup,
         ByNumber, ByKey, MaxNumber, Renamed, Freed, Taken, Free, Merge;
    FinishInStep(s, p, t);
    GotoInStep(s, p, t);
    AcquireInStep(s, p, t);
    var th := s.threads[t];
    if th.pc.CommitSwap? {
      CommitDoneInStep(s, p, t, Some(th.pc.pre), SetReturned(Renamed(th.pc.pre, th.req.expected + 1, th.req)));
    }
  }

  lemma SameVersionQueries(a: Db, b: Db, req: Request)
    requires req.CreateVersion? && SameView(a, b, req.scope) && NewId(a, req) && NewId(b, req)
    ensures SetAt(a, req.scope, req.setId) == SetAt(b, req.scope, req.setId)
    ensures ByKey(a, req.scope, req.setId, req.key) == ByKey(b, req.scope, req.setId, req.key)
    ensures MaxNumber(a, req.scope, req.setId) == MaxNumber(b, req.scope, req.setId)
    ensures forall n :: UniqueViolated(a, req, n) == UniqueViolated(b, req, n)
  {
    hide SetAt, CodeIds, VersionById, Lookup, ByNumber, ByKey, MaxNumber, NumberIds, KeyIds;
  }

  lemma CreateVersionInStep(w: Platform, s: State, p: State, t: nat)
    requires Ready(s, p, t) && s.threads[t].req.CreateVersion? && StepCreateVersion(w, s, t).Some?
    ensures StepCreateVersion(w, p, t).Some?
    ensures InStep(s, StepCreateVersion(w, s, t).value, p, StepCreateVersion(w, p, t).value, t)
  {
    hide Goto, Acquire, Release, Finish, CommitThen, InStep, SameView, NewId, SetAt, ByKey, MaxNumber, UniqueViolated,
         NewVersion, Stored, Free, VersionKeys;
    FinishInStep(s, p, t);
    GotoInStep(s, p, t);
    AcquireInStep(s, p, t);
    ReleaseInStep(s, p, t);
    CommitInStep(s, p, t);
    SameVersionQueries(s.trace.db, p.trace.db, s.threads[t].req);
  }

  lemma SamePublishQueries(a: Db, b: Db, req: Request)
    requires req.PublishVersion? && SameView(a, b, req.scope)
    ensures SetAt(a, req.scope, req.setId) == SetAt(b, req.scope, req.setId)
    ensures VersionById(a, req.scope, req.setId, req.versionId) == VersionById(b, req.scope, req.setId, req.versionId)
  {
    hide SetAt, CodeIds, VersionById, Lookup, ByNumber, ByKey, MaxNumber, NumberIds, KeyIds;
  }

  lemma PublishInStep(w: Platform, s: State, p: State, t: nat)
    requires Ready(s, p, t) && s.threads[t].req.PublishVersion? && StepPublish(w, s, t).Some?
    ensures StepPublish(w, p, t).Some? && InStep(s, StepPublish(w, s, t).value, p, StepPublish(w, p, t).value, t)
  {
    hide Goto, Acquire, Release, Finish, CommitThen, InStep, SameView, NewId, SetAt, VersionById, Compile, Released,
         Activated, Free;
    FinishInStep(s, p, t);
    GotoInStep(s, p, t);
    AcquireInStep(s, p, t);
    CommitInStep(s, p, t);
    SamePublishQueries(s.trace.db, p.trace.db, s.threads[t].req);
  }

  lemma GetSetInStep(s: State, p: State, t: nat)
    requires Ready(s, p, t) && s.threads[t].req.GetSet? && StepGetSet(s, t).Some?
    requires s.threads[t].pc.GetCurrent? ==> s.threads[t].pc.pre.scope == s.threads[t].req.scope
    ensures StepGetSet(p, t).Some? && InStep(s, StepGetSet(s, t).value, p, StepGetSet(p, t).value, t)
  {
    hide Goto, Acquire, Release, Finish, CommitThen, InStep, CodeIds, SetAt, VersionById, NumberIds, KeyIds, Lookup,
         ByNumber, ByKey, MaxNumber, Freed;
    FinishInStep(s, p, t);
    GotoInStep(s, p, t);
  }

  lemma EvaluateInStep(w: Platform, s: State, p: State, t: nat)
    requires Ready(s, p, t) && s.threads[t].req.Evaluate? && StepEvaluate(w, s, t).Some?
    requires !s.threads[t].pc.LoadCompiled? && !s.threads[t].pc.PutCompiled?
    requires s.threads[t].pc.FindVersion? ==> s.threads[t].pc.pre.scope == s.threads[t].req.scope
    ensures StepEvaluate(w, p, t).Some? && InStep(s, StepEvaluate(w, s, t).value, p, StepEvaluate(w, p, t).value, t)
  {
    hide Goto, Acquire, Release, Finish, CommitThen, InStep, CodeIds, SetAt, VersionById, NumberIds, KeyIds, Lookup,
         ByNumber, ByKey, MaxNumber, Freed, Answered, Target, Recompiles, Compile;
    FinishInStep(s, p, t);
    GotoInStep(s, p, t);
  }

  /** Whoever compiled it, wherever it is cached: the version's text has one compiled form. */
  lemma LoadFacts(w: Platform, s: State, t: nat)
    requires t in s.threads && s.threads[t].req.Evaluate?
    requires s.threads[t].pc.LoadCompiled? || s.threads[t].pc.PutCompiled?
    requires Lawful(w) && Inv(w, s)
    ensures var v, pc := s.threads[t].pc.target, s.threads[t].pc;
      Recompiles(w, v) && (pc.PutCompiled? ==> Compile(w, v.definition) == Success(pc.compiled))
  {
    hide Inv, Lawful, Compile, Consistent, Resolved, HistoryOk, Recompiles, Knows, NeverLogged, Instant;
    CallFacts(w, s, t);
    History(w, s);
    ResolvedRecompiles(w, s.trace, s.threads[t].start, s.threads[t].req, s.threads[t].pc.target);
  }

  lemma CacheInStep(s: State, p: State, t: nat, pc: Pc,
    a: map<(nat, string), Compiled>, b: map<(nat, string), Compiled>)
    requires Ready(s, p, t) && b.Keys <= a.Keys
    ensures InStep(s, Goto(s, t, pc).(caches := a), p, Goto(p, t, pc).(caches := b), t)
  {
    hide SameView, NewId, Free;
  }

  lemma GotoTwice(p: State, t: nat, pc: Pc, pc': Pc)
    requires t in p.threads
    ensures t in Goto(p, t, pc).threads && Goto(p, t, pc).threads[t] == p.threads[t].(pc := pc)
    ensures Goto(p, t, pc).trace == p.trace && Goto(p, t, pc).caches == p.caches
    ensures Goto(Goto(p, t, pc), t, pc') == Goto(p, t, pc')
  {}

  /** The definition the evaluation is about to load is cached in `s`, put there by someone else than in `p`. */
  ghost predicate MissesEntry(s: State, p: State, t: nat) {
    && t in s.threads && s.threads[t].req.Evaluate? && s.threads[t].pc.LoadCompiled?
    && (s.threads[t].replica, s.threads[t].pc.target.checksum) in s.caches.Keys - p.caches.Keys
  }

  /** An evaluation that finds its definition in the shared cache may have to compile it for itself, one step later. */
  lemma LoadInStep(w: Platform, s: State, p: State, t: nat)
    requires t in s.threads && t in p.threads && s.threads[t].req.Evaluate? && Ready(s, p, t)
    requires s.threads[t].pc.LoadCompiled? && Lawful(w) && Inv(w, s) && Inv(w, p)
    ensures StepEvaluate(w, s, t).Some? && StepEvaluate(w, p, t).Some?
    ensures var s', p' := StepEvaluate(w, s, t).value, StepEvaluate(w, p, t).value;
      if MissesEntry(s, p, t)
      then t in p'.threads && p'.threads[t].req == s.threads[t].req && StepEvaluate(w, p', t).Some?
        && p'.threads[t].pc.PutCompiled? && InStep(s, s', p, StepEvaluate(w, p', t).value, t)
      else InStep(s, s', p, p', t)
  {
    hide Inv, Lawful, Compile, SameView, NewId, Free, Goto, Finish, InStep;
    LoadFacts(w, s, t);
    var v, key := s.threads[t].pc.target, (s.threads[t].replica, s.threads[t].pc.target.checksum);
    CachedIsCompiled(w, s, key, v);
    CachedIsCompiled(w, p, key, v);
    GotoInStep(s, p, t);
    if key in s.caches && key !in p.caches {
      var c := s.caches[key];
      GotoTwice(s, t, RunRules(v, c), RunRules(v, c));
      GotoTwice(p, t, PutCompiled(v, c), RunRules(v, c));
      CacheInStep(s, p, t, RunRules(v, c), s.caches, p.caches[key := c]);
    }
  }

  lemma PutInStep(w: Platform, s: State, p: State, t: nat)
    requires t in s.threads && t in p.threads && s.threads[t].req.Evaluate? && Ready(s, p, t)
    requires s.threads[t].pc.PutCompiled? && Lawful(w) && Inv(w, s) && Inv(w, p)
    ensures StepEvaluate(w, s, t).Some? && StepEvaluate(w, p, t).Some?
    ensures InStep(s, StepEvaluate(w, s, t).value, p, StepEvaluate(w, p, t).value, t)
  {
    hide Inv, Lawful, Compile, SameView, NewId, Free, Goto, Finish, InStep;
    LoadFacts(w, s, t);
    var v, c := s.threads[t].pc.target, s.threads[t].pc.compiled;
    var key := (s.threads[t].replica, v.checksum);
    CachedIsCompiled(w, s, key, v);
    CachedIsCompiled(w, p, key, v);
    GotoInStep(s, p, t);
    if key in s.caches {
      GotoTwice(s, t, RunRules(v, c), RunRules(v, c));
      CacheInStep(s, p, t, RunRules(v, c), s.caches, p.caches[key := c]);
    } else {
      CacheInStep(s, p, t, RunRules(v, c), s.caches[key := c], p.caches[key := c]);
    }
  }

  /******* Any step *******/

  lemma FinishedStops(w: Platform, s: State, t: nat)
    requires t in s.threads && Step(w, s, t).Some?
    ensures !Finished(s.threads[t].pc)
  {
    hide Unacceptable, Compile, Recompiles, Lookup, ByNumber, ByKey, MaxNumber, CodeIds, SetAt, VersionById,
         UniqueViolated, VersionKeys, Free, Finish, Goto, Acquire, CommitThen, Release;
  }

  lemma HeldAlike(a: Thread, b: Thread)
    requires Alike(a, b)
    ensures Held(a) == Held(b)
  {}

  /** The locks held in `p` are held in `s`. */
  lemma LocksMirror(s: State, p: State, t: nat, scope: Scope)
    requires Mirrors(s, p, scope) && LocksOk(s.locks, s.threads) && LocksOk(p.locks, p.threads)
    ensures forall r :: Free(s, t, r) ==> Free(p, t, r)
  {
    hide Alike, Held;
    forall r | r in p.locks ensures r in s.locks && s.locks[r] == p.locks[r] {
      var u := p.locks[r];
      HeldAlike(s.threads[u], p.threads[u]);
      assert r in Held(s.threads[u]);
    }
  }

  lemma IdIsNew(w: Platform, s: State, t: nat)
    requires t in s.threads && !Settled(s.threads[t].pc) && Inv(w, s)
    ensures NewId(s.trace.db, s.threads[t].req)
  {
    hide Inv, LogOk;
    IdsDiffer(w, s);
  }

  lemma MirrorsReady(w: Platform, s: State, p: State, t: nat, scope: Scope)
    requires t in Owners(s, scope) && Step(w, s, t).Some? && Mirrors(s, p, scope)
    requires Lawful(w) && Reachable(w, s) && Reachable(w, p)
    ensures Ready(s, p, t)
  {
    hide Lawful, Reachable, Inv, Step, Project, HistoryOk, LogOk, LocksOk, CachesOk, ThreadOk, SameView, NewId, Free;
    ReachableOk(w, s);
    ReachableOk(w, p);
    ReachableParts(w, s);
    ReachableParts(w, p);
    SameTables(w, s, p, scope);
    ProjectLooksAlike(s.trace.db, scope);
    LocksMirror(s, p, t, scope);
    FinishedStops(w, s, t);
    if !Settled(s.threads[t].pc) {
      IdIsNew(w, s, t);
      IdIsNew(w, p, t);
    }
  }

  /** A call of the scope steps in both runs; in `p` it needs two steps where it misses a cache entry, else one. */
  lemma OwnStep(w: Platform, s: State, p: State, t: nat)
    requires t in s.threads && t in p.threads && Ready(s, p, t) && Step(w, s, t).Some?
    requires Lawful(w) && Inv(w, s) && Inv(w, p)
    ensures Step(w, p, t).Some?
    ensures var s', p' := Step(w, s, t).value, Step(w, p, t).value;
      if MissesEntry(s, p, t) then t in p'.threads && Step(w, p', t).Some? && InStep(s, s', p, Step(w, p', t).value, t)
      else InStep(s, s', p, p', t)
  {
    hide Inv, Lawful, Ready, InStep, StepCreateSet, StepUpdateSet, StepCreateVersion, StepPublish, StepGetSet,
         StepEvaluate, Finish, Goto, Unacceptable, First;
    var th := s.threads[t];
    assert p.threads[t].req == th.req && p.threads[t].pc == th.pc by { ReadyAlike(s, p, t); }
    if th.pc.Started? || th.pc.StoreCompiled? {
      EitherEndInStep(w, s, p, t);
    } else {
      match th.req
      case CreateSet(_, _, _, _, _, _, _) => CreateSetInStep(s, p, t);
      case UpdateSet(_, _, _, _, _, _, _, _) =>
        StatusGiven(w, th.req);
        UpdateSetInStep(s, p, t);
      case CreateVersion(_, _, _, _, _, _, _, _) => CreateVersionInStep(w, s, p, t);
      case PublishVersion(_, _, _, _, _, _, _) => PublishInStep(w, s, p, t);
      case GetSet(_, _) =>
        PreInScope(w, s, t);
        GetSetInStep(s, p, t);
      case Evaluate(_, _, _, _) =>
        if th.pc.LoadCompiled? {
          LoadInStep(w, s, p, t);
        } else if th.pc.PutCompiled? {
          PutInStep(w, s, p, t);
        } else {
          PreInScope(w, s, t);
          EvaluateInStep(w, s, p, t);
        }
    }
  }

  lemma ReadyAlike(s: State, p: State, t: nat)
    requires Ready(s, p, t)
    ensures p.threads[t].req == s.threads[t].req && p.threads[t].pc == s.threads[t].pc
  {
    hide SameView, NewId, Free;
  }

  lemma EitherEndInStep(w: Platform, s: State, p: State, t: nat)
    requires t in s.threads && t in p.threads && Ready(s, p, t)
    requires s.threads[t].pc.Started? || s.threads[t].pc.StoreCompiled?
    ensures Step(w, s, t).Some? && Step(w, p, t).Some?
    ensures InStep(s, Step(w, s, t).value, p, Step(w, p, t).value, t)
  {
    hide SameView, NewId, Free, Freed, Unacceptable, First, Compile;
  }

  lemma PreInScope(w: Platform, s: State, t: nat)
    requires t in s.threads && Inv(w, s)
    ensures s.threads[t].pc.GetCurrent? || s.threads[t].pc.FindVersion?
      ==> s.threads[t].pc.pre.scope == s.threads[t].req.scope
  {
    hide Inv, Consistent, Knows, NeverLogged, Instant, Lookup, Compile;
    CallFacts(w, s, t);
    var th := s.threads[t];
    if th.pc.GetCurrent? || th.pc.FindVersion? {
      var k := SawRefAt(s.trace, th.start, th.req.scope, th.req.ref, th.pc.pre);
      LookupScoped(Instant(s.trace, k), th.req.scope, th.req.ref);
    }
  }

  /******* Mirrors is kept *******/

  lemma CommitsAppend(log: seq<Commit>, c: Commit, scope: Scope)
    ensures CommitsOf(log + [c], scope) == CommitsOf(log, scope) + if c.req.scope == scope then [c] else []
  {
    assert (log + [c])[..|log|] == log;
  }

  lemma OwnMoved(s: State, s': State, p: State, p': State, t: nat, scope: Scope)
    requires Mirrors(s, p, scope) && t in Owners(s, scope) && InStep(s, s', p, p', t)
    requires s'.threads == s.threads[t := s'.threads[t]] && s'.threads[t].req == s.threads[t].req
    requires p'.threads == p.threads[t := p'.threads[t]]
    ensures Mirrors(s', p', scope)
  {
    hide Alike, CommitsOf;
    if s'.trace.log != s.trace.log {
      CommitsAppend(s.trace.log, s'.trace.log[|s.trace.log|], scope);
    }
  }

  lemma OtherMoved(s: State, s': State, p: State, t: nat, scope: Scope)
    requires Mirrors(s, p, scope) && t in s.threads && s.threads[t].req.scope != scope && GoesOn(s, s', t)
    requires s'.threads == s.threads[t := s'.threads[t]]
    ensures Mirrors(s', p, scope)
  {
    hide Alike, CommitsOf;
    if s'.trace != s.trace {
      var seen :| s'.trace == Extended(s.trace, t, s.threads[t], seen);
      CommitsAppend(s.trace.log, Commit(t, s.threads[t].req, seen), scope);
    }
  }

  /** How often the scope has to do what the whole machine does once. */
  ghost function Times(s: State, p: State, a: Action, own: bool): nat {
    if !own then 0 else if a.Advance? && MissesEntry(s, p, a.tid) then 2 else 1
  }

  ghost predicate Follows(w: Platform, p: State, a: Action, p': State, times: nat) {
    match times
    case 0 => p' == p
    case 1 => Do(w, p, a) == Some(p')
    case _ => times == 2 && Do(w, p, a).Some? && Do(w, Do(w, p, a).value, a) == Some(p')
  }

  lemma AdvanceMirrors(w: Platform, s: State, p: State, t: nat, scope: Scope) returns (p': State)
    requires t in s.threads && Step(w, s, t).Some? && Mirrors(s, p, scope)
    requires Lawful(w) && Reachable(w, s) && Reachable(w, p)
    ensures Follows(w, p, Advance(t), p', Times(s, p, Advance(t), s.threads[t].req.scope == scope))
    ensures Reachable(w, p') && Mirrors(Step(w, s, t).value, p', scope)
  {
    hide Lawful, Reachable, Inv, Step, Mirrors, Ready, InStep, GoesOn, MissesEntry;
    var s' := Step(w, s, t).value;
    StepGoesOn(w, s, t);
    StepDescends(w, s, t);
    assert s'.threads[t].req == s.threads[t].req by { GoesOnKeeps(s, s', t); }
    if s.threads[t].req.scope != scope {
      OtherMoved(s, s', p, t, scope);
      p' := p;
    } else {
      assert t in Owners(s, scope) && Owners(s, scope) == p.threads.Keys by { MirrorOwners(s, p, scope); }
      MirrorsReady(w, s, p, t, scope);
      ReachableOk(w, s);
      ReachableOk(w, p);
      OwnStep(w, s, p, t);
      StepDescends(w, p, t);
      ReachableNext(w, p, Advance(t));
      p' := Step(w, p, t).value;
      if MissesEntry(s, p, t) {
        StepDescends(w, p', t);
        ReachableNext(w, p', Advance(t));
        p' := Step(w, p', t).value;
      }
      OwnMoved(s, s', p, p', t, scope);
    }
  }

  lemma GoesOnKeeps(s: State, s': State, t: nat)
    requires GoesOn(s, s', t)
    ensures t in s.threads && t in s'.threads && s'.threads[t].req == s.threads[t].req
  {}

  lemma MirrorOwners(s: State, p: State, scope: Scope)
    requires Mirrors(s, p, scope)
    ensures p.threads.Keys == Owners(s, scope)
  {}

  lemma AbortMirrors(w: Platform, s: State, p: State, t: nat, scope: Scope) returns (p': State)
    requires t in s.threads && CanAbort(s.threads[t].pc) && Mirrors(s, p, scope)
    requires Lawful(w) && Reachable(w, s) && Reachable(w, p)
    ensures Follows(w, p, Abort(t), p', Times(s, p, Abort(t), s.threads[t].req.scope == scope))
    ensures Reachable(w, p') && Mirrors(Do(w, s, Abort(t)).value, p', scope)
  {
    hide Lawful, Reachable, Mirrors, Freed;
    AbortKeepsMirror(s, p, t, scope);
    p' := p;
    if s.threads[t].req.scope == scope {
      ReachableNext(w, p, Abort(t));
      p' := Do(w, p, Abort(t)).value;
    }
  }

  lemma AbortKeepsMirror(s: State, p: State, t: nat, scope: Scope)
    requires t in s.threads && CanAbort(s.threads[t].pc) && Mirrors(s, p, scope)
    ensures var s' := Release(s, t, Aborted(|s.trace.past|));
      if s.threads[t].req.scope == scope
      then t in p.threads && CanAbort(p.threads[t].pc) && Mirrors(s', Release(p, t, Aborted(|p.trace.past|)), scope)
      else Mirrors(s', p, scope)
  {
    hide Freed, CommitsOf;
    assert t in Owners(s, scope) <==> s.threads[t].req.scope == scope;
  }

  lemma ArrivalMirrors(s: State, p: State, t: nat, a: Thread, b: Thread, scope: Scope)
    requires Mirrors(s, p, scope) && t !in s.threads && Alike(a, b)
    ensures a.req.scope == scope ==> Mirrors(s.(threads := s.threads[t := a]), p.(threads := p.threads[t := b]), scope)
    ensures a.req.scope != scope ==> Mirrors(s.(threads := s.threads[t := a]), p, scope)
  {
    hide CommitsOf, Alike;
  }

  lemma BeginMirrors(w: Platform, s: State, p: State, t: nat, req: Request, replica: nat, scope: Scope)
    returns (p': State)
    requires t !in s.threads && FreshId(s, req) && Mirrors(s, p, scope)
    requires Lawful(w) && Reachable(w, s) && Reachable(w, p)
    ensures Follows(w, p, Begin(t, req, replica), p', Times(s, p, Begin(t, req, replica), req.scope == scope))
    ensures Reachable(w, p') && Mirrors(Do(w, s, Begin(t, req, replica)).value, p', scope)
  {
    hide Lawful, Reachable, Mirrors, FreshId;
    var a := Thread(req, replica, |s.trace.past|, Started, NOTHING);
    var b := Thread(req, replica, |p.trace.past|, Started, NOTHING);
    ArrivalMirrors(s, p, t, a, b, scope);
    p' := p;
    if req.scope == scope {
      SameTables(w, s, p, scope);
      FreshInProjection(s, p, req, scope);
      assert t !in p.threads by { MirrorOwners(s, p, scope); }
      ReachableNext(w, p, Begin(t, req, replica));
      p' := p.(threads := p.threads[t := b]);
    }
  }

  lemma FreshInProjection(s: State, p: State, req: Request, scope: Scope)
    requires FreshId(s, req) && Mirrors(s, p, scope) && p.trace.db == Project(s.trace.db, scope)
    ensures FreshId(p, req)
  {
    hide CommitsOf, SamePc;
    forall u | u in p.threads ensures u in s.threads && s.threads[u].req == p.threads[u].req {
      assert u in Owners(s, scope) && Alike(s.threads[u], p.threads[u]);
    }
    hide Mirrors;
  }

  /******* Whole runs *******/

  function Repeated(a: Action, times: nat): seq<Action> {
    seq(times, i => a)
  }

  /**
   The run without the actions of calls outside `mine`.  What is left stands once, but for an Advance that finds a
   cache entry missing, which stands twice.
   */
  ghost function Erased(w: Platform, actions: seq<Action>, mine: set<nat>): seq<Action>
    requires Run(w, actions).Some?
    decreases |actions|
  {
    if actions == [] then []
    else
      var rest, a := actions[..|actions| - 1], actions[|actions| - 1];
      var own := Erased(w, rest, mine);
      if Run(w, own).None? then own
      else own + Repeated(a, Times(Run(w, rest).value, Run(w, own).value, a, a.tid in mine))
  }

  /** `mine` tells the calls of the scope from the others. */
  ghost predicate Splits(actions: seq<Action>, mine: set<nat>, scope: Scope) {
    forall i :: 0 <= i < |actions| && actions[i].Begin? ==> (actions[i].tid in mine <==> actions[i].req.scope == scope)
  }

  ghost predicate Parted(s: State, mine: set<nat>, scope: Scope) {
    forall t :: t in s.threads ==> (t in mine <==> s.threads[t].req.scope == scope)
  }

  /** Calls stay what they are. */
  ghost predicate CallsKept(s: State, s': State) {
    forall t :: t in s.threads ==> t in s'.threads && s'.threads[t].req == s.threads[t].req
  }

  lemma DoKeepsCalls(w: Platform, s: State, a: Action)
    requires Do(w, s, a).Some?
    ensures var s' := Do(w, s, a).value;
      && CallsKept(s, s') && a.tid in s'.threads && s'.threads.Keys <= s.threads.Keys + {a.tid}
      && (a.Begin? ==> s'.threads[a.tid].req == a.req) && (!a.Begin? ==> a.tid in s.threads)
  {
    hide Step, FreshId, Freed, GoesOn;
    if a.Advance? {
      StepGoesOn(w, s, a.tid);
      StepDescends(w, s, a.tid);
      GoesOnKeeps(s, Step(w, s, a.tid).value, a.tid);
    }
  }

  lemma DoMirrors(w: Platform, s: State, p: State, a: Action, own: bool, scope: Scope) returns (p': State)
    requires Do(w, s, a).Some? && Mirrors(s, p, scope) && Lawful(w) && Reachable(w, s) && Reachable(w, p)
    requires a.tid in Do(w, s, a).value.threads && (own <==> Do(w, s, a).value.threads[a.tid].req.scope == scope)
    ensures Follows(w, p, a, p', Times(s, p, a, own)) && Reachable(w, p') && Mirrors(Do(w, s, a).value, p', scope)
  {
    DoKeepsCalls(w, s, a);
    hide Lawful, Reachable, Mirrors, Follows, Step, FreshId, CanAbort, Times;
    match a
    case Begin(t, req, replica) => p' := BeginMirrors(w, s, p, t, req, replica, scope);
    case Advance(t) => p' := AdvanceMirrors(w, s, p, t, scope);
    case Abort(t) => p' := AbortMirrors(w, s, p, t, scope);
  }

  lemma RunAppend(w: Platform, actions: seq<Action>, a: Action)
    requires Run(w, actions).Some?
    ensures Run(w, actions + [a]) == Do(w, Run(w, actions).value, a)
  {
    hide Do;
    assert (actions + [a])[..|actions|] == actions;
  }

  lemma FollowsRun(w: Platform, own: seq<Action>, p: State, a: Action, p': State, times: nat)
    requires Run(w, own) == Some(p) && Follows(w, p, a, p', times)
    ensures Run(w, own + Repeated(a, times)) == Some(p')
  {
    hide Do, Run;
    if times == 0 {
      assert own + Repeated(a, times) == own;
    } else {
      RunAppend(w, own, a);
      if times == 1 {
        assert own + Repeated(a, times) == own + [a];
      } else {
        RunAppend(w, own + [a], a);
        assert own + Repeated(a, times) == own + [a] + [a];
      }
    }
  }

  lemma {:induction false} Erase(w: Platform, actions: seq<Action>, mine: set<nat>, scope: Scope)
    requires Lawful(w) && Run(w, actions).Some? && Splits(actions, mine, scope)
    ensures Run(w, Erased(w, actions, mine)).Some? && Parted(Run(w, actions).value, mine, scope)
    ensures Mirrors(Run(w, actions).value, Run(w, Erased(w, actions, mine)).value, scope)
    decreases |actions|
  {
    hide Lawful, Do, Mirrors, Follows, CallsKept, Parted, Times;
    if actions == [] {
      NothingYet(mine, scope);
    } else {
      var rest, a := actions[..|actions| - 1], actions[|actions| - 1];
      Erase(w, rest, mine, scope);
      var own := Erased(w, rest, mine);
      var s, p := Run(w, rest).value, Run(w, own).value;
      assert Reachable(w, s) && Reachable(w, p);
      PartedNext(w, s, a, mine, scope);
      var p' := DoMirrors(w, s, p, a, a.tid in mine, scope);
      FollowsRun(w, own, p, a, p', Times(s, p, a, a.tid in mine));
    }
  }

  lemma NothingYet(mine: set<nat>, scope: Scope)
    ensures Mirrors(INITIAL, INITIAL, scope) && Parted(INITIAL, mine, scope)
  {}

  lemma PartedNext(w: Platform, s: State, a: Action, mine: set<nat>, scope: Scope)
    requires Do(w, s, a).Some? && Parted(s, mine, scope)
    requires a.Begin? ==> (a.tid in mine <==> a.req.scope == scope)
    ensures Parted(Do(w, s, a).value, mine, scope) && a.tid in Do(w, s, a).value.threads
    ensures a.tid in mine <==> Do(w, s, a).value.threads[a.tid].req.scope == scope
  {
    hide Do;
    DoKeepsCalls(w, s, a);
  }

  lemma {:induction false} Begun(w: Platform, actions: seq<Action>)
    requires Run(w, actions).Some?
    ensures forall i :: 0 <= i < |actions| && actions[i].Begin? ==>
      actions[i].tid in Run(w, actions).value.threads
      && Run(w, actions).value.threads[actions[i].tid].req == actions[i].req
    decreases |actions|
  {
    hide Do;
    if actions != [] {
      var rest := actions[..|actions| - 1];
      Begun(w, rest);
      DoKeepsCalls(w, Run(w, rest).value, actions[|actions| - 1]);
      assert forall i :: 0 <= i < |rest| ==> actions[i] == rest[i];
    }
  }

  /**
   Non-interference.  From any run, strike out what the calls of all other scopes do: the rest is a run as well.
   At its end the scope's rows and events are what they are in the whole run, its commits are the same, and each of
   its calls stands at the same statement, or has given the same answer.
   */
  lemma NonInterference(w: Platform, actions: seq<Action>, scope: Scope)
    requires Lawful(w) && Run(w, actions).Some?
    ensures var s := Run(w, actions).value;
      var own := Erased(w, actions, Owners(s, scope));
      && Run(w, own).Some? && Mirrors(s, Run(w, own).value, scope)
      && Run(w, own).value.trace.db == Project(s.trace.db, scope)
  {
    hide Lawful, Do, Mirrors, Erased, Run, Project;
    var s := Run(w, actions).value;
    var own := Erased(w, actions, Owners(s, scope));
    Begun(w, actions);
    Erase(w, actions, Owners(s, scope), scope);
    assert Reachable(w, s) && Reachable(w, Run(w, own).value);
    SameTables(w, s, Run(w, own).value, scope);
  }
}
