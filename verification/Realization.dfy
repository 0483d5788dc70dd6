/**
 The converse of refinement: whatever the atomic machine can do, the interleaved one can be driven to do.
 A call that meets no lock of another runs to its end and does exactly its atomic transition.
 */
module Realization {
  import opened Wrappers
  import opened Platform
  import opened Engine
  import opened Store
  import opened Lifecycle
  import opened Invariants
  import opened Machine
  import opened Refinement
  import opened StepProof
  import opened Guarantees
  import opened Progress

  /** No other call holds a lock. */
  ghost predicate Alone(s: State, t: nat) {
    t in s.threads && forall r :: r in s.locks ==> s.locks[r] == t
  }

  lemma AloneSteps(w: Platform, s: State, t: nat)
    requires Alone(s, t) && !Finished(s.threads[t].pc) && Lawful(w) && Reachable(w, s)
    ensures Step(w, s, t).Some?
  {
    hide Lawful, Reachable, Inv, Step, Finished, VersionKeys, Wanted;
    ReachableOk(w, s);
    if Step(w, s, t).None? {
      InsertsFree(w, s, t);
      var r := BlockedByHolder(w, s, t);
    }
  }

  lemma HoldersKept(a: State, b: State, t: nat)
    requires Alone(a, t) && Descends(a, b, t) && LocksOk(a.locks, a.threads) && LocksOk(b.locks, b.threads)
    ensures Alone(b, t)
  {
    hide Held, Rank;
    forall r | r in b.locks && b.locks[r] != t ensures false {
      HolderBefore(a, b, t, r);
    }
  }

  lemma HolderBefore(a: State, b: State, t: nat, r: Resource)
    requires t in a.threads && Descends(a, b, t) && LocksOk(a.locks, a.threads) && LocksOk(b.locks, b.threads)
    requires r in b.locks && b.locks[r] != t
    ensures r in a.locks && a.locks[r] == b.locks[r]
  {
    hide Held, Rank;
    assert r in Held(a.threads[b.locks[r]]);
  }

  /** The call has gone on without a failure, and if the committed tables changed then by its own COMMIT. */
  ghost predicate GoesOn(s: State, next: State, t: nat) {
    && t in s.threads && t in next.threads && !next.threads[t].pc.Aborted?
    && next.threads[t].req == s.threads[t].req && next.threads[t].start == s.threads[t].start
    && s.caches.Keys <= next.caches.Keys
    && (next.trace == s.trace || exists seen :: next.trace == Extended(s.trace, t, s.threads[t], seen))
  }

  lemma SetsGoOn(s: State, t: nat)
    requires t in s.threads
    ensures s.threads[t].req.CreateSet? && StepCreateSet(s, t).Some? ==> GoesOn(s, StepCreateSet(s, t).value, t)
    ensures s.threads[t].req.UpdateSet? && s.threads[t].req.status.Some? && StepUpdateSet(s, t).Some?
      ==> GoesOn(s, StepUpdateSet(s, t).value, t)
  {
    hide CodeIds, SetAt, NewSet, Renamed, Freed, Taken, Extended, Free;
  }

  lemma CreateVersionGoesOn(w: Platform, s: State, t: nat)
    requires t in s.threads && s.threads[t].req.CreateVersion? && StepCreateVersion(w, s, t).Some?
    ensures GoesOn(s, StepCreateVersion(w, s, t).value, t)
  {
    hide SetAt, ByKey, MaxNumber, UniqueViolated, VersionKeys, NewVersion, Stored, Freed, Taken, Extended, Free;
  }

  lemma PublishGoesOn(w: Platform, s: State, t: nat)
    requires t in s.threads && s.threads[t].req.PublishVersion? && StepPublish(w, s, t).Some?
    ensures GoesOn(s, StepPublish(w, s, t).value, t)
  {
    hide SetAt, VersionById, Compile, Recompiles, Released, Activated, Freed, Taken, Extended, Free;
  }

  lemma ReadsGoOn(w: Platform, s: State, t: nat)
    requires t in s.threads
    ensures s.threads[t].req.GetSet? && StepGetSet(s, t).Some? ==> GoesOn(s, StepGetSet(s, t).value, t)
    ensures s.threads[t].req.Evaluate? && StepEvaluate(w, s, t).Some? ==> GoesOn(s, StepEvaluate(w, s, t).value, t)
  {
    hide Lookup, ByNumber, Compile, Recompiles, Answered, Target, Freed, Extended;
  }

  lemma StepGoesOn(w: Platform, s: State, t: nat)
    requires t in s.threads && Step(w, s, t).Some?
    ensures GoesOn(s, Step(w, s, t).value, t)
  {
    hide Compile, Unacceptable, StepCreateSet, StepUpdateSet, StepCreateVersion, StepPublish, StepGetSet, StepEvaluate,
         Freed, Extended;
    var th := s.threads[t];
    if !th.pc.Started? && !th.pc.StoreCompiled? {
      hide GoesOn;
      match th.req
      case CreateVersion(_, _, _, _, _, _, _, _) => CreateVersionGoesOn(w, s, t);
      case PublishVersion(_, _, _, _, _, _, _) => PublishGoesOn(w, s, t);
      case CreateSet(_, _, _, _, _, _, _) => SetsGoOn(s, t);
      case UpdateSet(_, _, _, _, _, _, _, _) =>
        StatusGiven(w, th.req);
        SetsGoOn(s, t);
      case _ => ReadsGoOn(w, s, t);
    }
  }

  /** What a call that ran alone may have added to the trace: its own commit, once. */
  ghost predicate OwnCommit(a: Trace, b: Trace, t: nat) {
    b == a || (b.past == a.past + [a.db] && |b.log| == |a.log| + 1 && a.log <= b.log && b.log[|a.log|].tid == t)
  }

  /** Not blocked by anyone, a call runs to its end; nobody else moves, and no lock stays behind. */
  lemma {:induction false} RunAlone(w: Platform, s: State, t: nat) returns (end: State)
    requires Alone(s, t) && !s.threads[t].pc.Aborted? && Lawful(w) && Reachable(w, s)
    ensures Reachable(w, end) && t in end.threads && end.threads[t].pc.Done? && end.locks == map[]
    ensures end.threads == s.threads[t := end.threads[t]]
    ensures end.threads[t].req == s.threads[t].req && end.threads[t].start == s.threads[t].start
    ensures OwnCommit(s.trace, end.trace, t)
    decreases Rank(if t in s.threads then s.threads[t].pc else Started)
  {
    hide Lawful, Reachable, Inv, Step, Rank, HistoryOk, CachesOk, ThreadOk, Held, CommitOk;
    ReachableParts(w, s);
    if s.threads[t].pc.Done? {
      NoneHeld(s, t);
      end := s;
    } else {
      AloneSteps(w, s, t);
      StepDescends(w, s, t);
      StepGoesOn(w, s, t);
      var next := Step(w, s, t).value;
      ReachableNext(w, s, Advance(t));
      ReachableParts(w, next);
      HoldersKept(s, next, t);
      end := RunAlone(w, next, t);
      ReachableParts(w, end);
      OneCommit(s.trace, next.trace, end.trace, t, s.threads[t], end.threads);
    }
  }

  lemma NoneHeld(s: State, t: nat)
    requires Alone(s, t) && s.threads[t].pc.Done? && LocksOk(s.locks, s.threads)
    ensures s.locks == map[]
  {
    forall r ensures r !in s.locks {}
  }

  lemma OneCommit(a: Trace, b: Trace, c: Trace, t: nat, th: Thread, threads: map<nat, Thread>)
    requires b == a || exists seen :: b == Extended(a, t, th, seen)
    requires |a.past| == |a.log| && LogOk(c, threads) && OwnCommit(b, c, t)
    ensures OwnCommit(a, c, t)
  {
    hide LogOk;
    if b != a && c != b {
      LoggedOnce(c, threads, |a.log|, |b.log|);
    }
  }

  lemma LoggedOnce(tr: Trace, threads: map<nat, Thread>, j: nat, k: nat)
    requires j < k < |tr.log| && LogOk(tr, threads)
    ensures tr.log[j].tid != tr.log[k].tid
  {}

  /******* Every atomic transition is realized *******/

  /** Composing the reply from the current row is composing it from no earlier one. */
  lemma CurrentBasis(w: Platform, db: Db, req: Request, seen: Option<RuleSet>)
    requires seen.Some? ==> (req.UpdateSet? || req.PublishVersion?) && SetAt(db, req.scope, req.setId) == seen
    ensures Atomic(w, db, req, seen) == Atomic(w, db, req, None)
  {
    hide Unacceptable, Recompiles, Renamed, Activated, Released;
  }

  /** The outcome of a call that ran alone is that of its atomic transition on the tables it found. */
  lemma AloneIsAtomic(w: Platform, a: Trace, s: State, t: nat)
    requires t in s.threads && s.threads[t].pc.Done? && s.threads[t].start == |a.past| == |a.log|
    requires (forall k :: 0 <= k < |a.log| ==> a.log[k].tid != t) && OwnCommit(a, s.trace, t)
    requires Lawful(w) && Reachable(w, s)
    ensures Atomic(w, a.db, s.threads[t].req, None).outcome == s.threads[t].pc.outcome
    ensures s.trace.db == After(w, a.db, s.threads[t].req, None)
  {
    hide Lawful, Reachable, Consistent, Grows, Atomic, LocksOk, CachesOk, ThreadOk, SnapshotOk, Unacceptable;
    ReachableParts(w, s);
    var k := Linearizable(w, s, t);
    var n, req := |a.past|, s.threads[t].req;
    assert Instant(s.trace, n) == a.db;
    if s.trace != a {
      assert s.trace.log[n].tid == t;
      assert k == n;
      assert LinkOk(w, s.trace, n) && CommitOk(s.trace, s.threads, n);
      CurrentBasis(w, a.db, req, s.trace.log[n].seen);
    }
  }

  /**
   Wherever no lock is held, a newly arrived call can be run to an end at which the tables, and its answer, are
   those of its atomic transition.
   */
  lemma Realized(w: Platform, s: State, t: nat, req: Request, replica: nat) returns (end: State)
    requires s.locks == map[] && t !in s.threads && FreshId(s, req) && Lawful(w) && Reachable(w, s)
    ensures Reachable(w, end) && end.locks == map[] && t in end.threads && end.threads == s.threads[t := end.threads[t]]
    ensures end.threads[t].req == req
    ensures end.trace.db == After(w, s.trace.db, req, None)
    ensures end.threads[t].pc.Done? && end.threads[t].pc.outcome == Atomic(w, s.trace.db, req, None).outcome
  {
    hide Lawful, Reachable, HistoryOk, LocksOk, CachesOk, ThreadOk, Atomic, After, FreshId, OwnCommit;
    ReachableParts(w, s);
    ReachableNext(w, s, Begin(t, req, replica));
    var begun := Do(w, s, Begin(t, req, replica)).value;
    end := RunAlone(w, begun, t);
    forall k | 0 <= k < |s.trace.log| ensures s.trace.log[k].tid != t {
      assert CommitOk(s.trace, s.threads, k);
    }
    AloneIsAtomic(w, s.trace, end, t);
  }
}
