/** Statement by statement: each step of each call keeps the refinement invariant. */
module StepProof {
  import opened Wrappers
  import opened Platform
  import opened Engine
  import opened Store
  import opened Lifecycle
  import opened Invariants
  import opened Machine
  import opened Refinement
  import opened RefinementProof
  import opened Instants

  /** What a running call may take for granted. */
  lemma CallFacts(w: Platform, s: State, t: nat)
    requires t in s.threads && Inv(w, s)
    ensures Consistent(w, s.trace.db) && Instant(s.trace, |s.trace.past|) == s.trace.db
    ensures s.threads[t].start <= |s.trace.past|
    ensures Knows(w, s.trace.db, s.threads[t]) && Remembers(w, s.trace, t, s.threads[t])
    ensures !Settled(s.threads[t].pc) ==> NeverLogged(s.trace, t)
  {
    hide Consistent, Grows, LinkOk, LogOk, LocksOk, CachesOk, IdsOk, Knows, Remembers, NeverLogged;
    ThreadFact(w, s, t);
    assert Consistent(w, Instant(s.trace, |s.trace.past|));
  }

  /** A call that fails, or answers, on what it sees now. */
  lemma FinishNow(w: Platform, s: State, t: nat, outcome: Outcome)
    requires t in s.threads && !Settled(s.threads[t].pc) && Inv(w, s)
    requires Atomic(w, s.trace.db, s.threads[t].req, None) == Transition(NOTHING, outcome)
    ensures Inv(w, Finish(s, t, outcome))
  {
    hide Inv, Atomic, Finish;
    CallFacts(w, s, t);
    hide Knows, Remembers, Consistent;
    FinishKeeps(w, s, t, outcome, |s.trace.past|);
  }

  lemma GotoOk(w: Platform, s: State, t: nat, pc: Pc)
    requires t in s.threads && !Settled(s.threads[t].pc) && !Settled(pc) && Inv(w, s)
    requires Held(s.threads[t].(pc := pc)) == Held(s.threads[t])
    requires Knows(w, s.trace.db, s.threads[t].(pc := pc)) && Remembers(w, s.trace, t, s.threads[t].(pc := pc))
    ensures Inv(w, Goto(s, t, pc))
  {
    hide Inv, Goto, Knows, Remembers, Held, NeverLogged, Consistent;
    CallFacts(w, s, t);
    GotoKeeps(w, s, t, pc);
  }

  lemma AcquireOk(w: Platform, s: State, t: nat, rs: set<Resource>, pending: Writes, pc: Pc)
    requires t in s.threads && !Settled(s.threads[t].pc) && !Settled(pc) && Inv(w, s)
    requires forall r :: r in rs ==> Free(s, t, r)
    requires var th := s.threads[t].(pc := pc, pending := pending);
      Held(th) == Held(s.threads[t]) + rs && Knows(w, s.trace.db, th) && Remembers(w, s.trace, t, th)
    ensures Inv(w, Acquire(s, t, rs, pending, pc))
  {
    hide Inv, Acquire, Knows, Remembers, Held, NeverLogged, Consistent, Free;
    CallFacts(w, s, t);
    AcquireKeeps(w, s, t, rs, pending, pc);
  }

  lemma CommitNow(w: Platform, s: State, t: nat, seen: Option<RuleSet>, outcome: Outcome, pc: Pc)
    requires t in s.threads && !Settled(s.threads[t].pc) && Inv(w, s)
    requires var th := s.threads[t];
      && !Unacceptable(w, th.req)
      && Atomic(w, s.trace.db, th.req, seen) == Transition(th.pending, outcome) && th.pending != NOTHING
      && (th.req.CreateSet? ==> th.pc.CommitSet?)
      && (th.req.UpdateSet? ==> th.pc.CommitSwap?)
      && (th.req.CreateVersion? ==> th.pc.CommitVersion?)
      && (th.req.PublishVersion? ==> th.pc.CommitPublish?)
      && Quotes(s.trace, th.start, |s.trace.past|, th.req, seen)
    requires pc == Done(outcome, |s.trace.past| + 1)
      || (pc.StoreCompiled? && pc.outcome == outcome && Compiles(w, pc.compiled))
    ensures Inv(w, CommitThen(s, t, seen, pc))
  {
    hide Inv, CommitThen, Knows, Remembers, Held, NeverLogged, Atomic, Covered, OwnIds, Quotes, Compiles, Unacceptable;
    CallFacts(w, s, t);
    AtomicCovered(w, s.trace.db, s.threads[t], seen);
    hide Consistent;
    CommitKeeps(w, s, t, seen, outcome, pc);
  }

  /******* CreateRuleSet *******/

  lemma CreateSetStep(w: Platform, s: State, t: nat)
    requires t in s.threads && s.threads[t].req.CreateSet? && !s.threads[t].pc.Started? && Inv(w, s)
    requires !Unacceptable(w, s.threads[t].req) && StepCreateSet(s, t).Some?
    ensures Inv(w, StepCreateSet(s, t).value)
  {
    hide Inv, Finish, Acquire, CommitThen, Consistent, CodeIds, Unacceptable, NewSet, Free;
    CallFacts(w, s, t);
    var th, req := s.threads[t], s.threads[t].req;
    if th.pc.InsertSet? {
      if req.newId in s.trace.db.sets || CodeIds(s.trace.db, req.scope, req.code) != {} {
        FinishNow(w, s, t, Failed(Internal));
      } else {
        AcquireOk(w, s, t, {CodeKey(req.scope, req.code)}, NOTHING.(set_ := Some(NewSet(req))), CommitSet);
      }
    } else {
      CommitNow(w, s, t, None, SetReturned(NewSet(req)), Done(SetReturned(NewSet(req)), |s.trace.past| + 1));
    }
  }

  /******* UpdateRuleSet *******/

  lemma SawNow(tr: Trace, start: nat, scope: Scope, setId: Id, row: RuleSet)
    requires start <= |tr.past| && Instant(tr, |tr.past|) == tr.db && SetAt(tr.db, scope, setId) == Some(row)
    ensures SawSet(tr, start, |tr.past|, scope, setId, row)
  {
    hide SetAt;
  }

  lemma SetsStay(w: Platform, tr: Trace, start: nat, scope: Scope, setId: Id, pre: RuleSet)
    requires HistoryOk(w, tr) && SawSet(tr, start, |tr.past|, scope, setId, pre)
    ensures SetAt(tr.db, scope, setId).Some? && SetGrows(pre, SetAt(tr.db, scope, setId).value)
  {
    hide LinkOk, Consistent;
    var k: nat :| start <= k <= |tr.past| && SetAt(Instant(tr, k), scope, setId) == Some(pre);
    assert Grows(Instant(tr, k), Instant(tr, |tr.past|));
  }

  lemma History(w: Platform, s: State)
    requires Inv(w, s)
    ensures HistoryOk(w, s.trace)
  {
    hide HistoryOk, LogOk, LocksOk, CachesOk, IdsOk, ThreadOk;
  }

  lemma UpdateSetStep(w: Platform, s: State, t: nat)
    requires t in s.threads && s.threads[t].req.UpdateSet? && !s.threads[t].pc.Started? && Inv(w, s)
    requires !Unacceptable(w, s.threads[t].req) && StepUpdateSet(s, t).Some?
    ensures Inv(w, StepUpdateSet(s, t).value)
  {
    hide Inv, Finish, Goto, Acquire, CommitThen, Consistent, Renamed, Free, SawSet, NeverLogged, Instant, SetAt;
    CallFacts(w, s, t);
    var th, req, db := s.threads[t], s.threads[t].req, s.trace.db;
    var row := SetAt(db, req.scope, req.setId);
    if th.pc.ReadForUpdate? {
      if row.None? {
        FinishNow(w, s, t, Failed(NotFound));
      } else {
        SawNow(s.trace, th.start, req.scope, req.setId, row.value);
        GotoOk(w, s, t, SwapSet(row.value));
      }
    } else if th.pc.SwapSet? {
      History(w, s);
      SetsStay(w, s.trace, th.start, req.scope, req.setId, th.pc.pre);
      if row.value.audit.version != req.expected {
        FinishNow(w, s, t, Failed(Conflict));
      } else {
        var next := Renamed(row.value, row.value.audit.version + 1, req);
        AcquireOk(w, s, t, {SetRow(req.setId)}, NOTHING.(set_ := Some(next)), CommitSwap(th.pc.pre));
      }
    } else {
      var outcome := SetReturned(Renamed(th.pc.pre, req.expected + 1, req));
      CommitNow(w, s, t, Some(th.pc.pre), outcome, Done(outcome, |s.trace.past| + 1));
    }
  }

  /******* CreateRuleVersion *******/

  /** Under the set lock the INSERT cannot collide: its number is new, its key is unused, its id is fresh. */
  lemma NoViolation(w: Platform, db: Db, req: Request)
    requires Keyed(db) && Numbered(db) && req.CreateVersion? && MayNumber(db, req) && req.newId !in db.versions
    ensures !UniqueViolated(db, req, MaxNumber(db, req.scope, req.setId) + 1)
  {
    var n := MaxNumber(db, req.scope, req.setId) + 1;
    NewNumber(db, req.scope, req.setId);
    forall id | id in db.versions && Belongs(db.versions[id], req.scope, req.setId)
      ensures db.versions[id].number != n {
      assert HasNumber(db, req.setId, db.versions[id].number);
    }
  }

  lemma FreshVersionId(w: Platform, s: State, t: nat)
    requires t in s.threads && s.threads[t].req.CreateVersion? && !Settled(s.threads[t].pc) && Inv(w, s)
    ensures s.threads[t].req.newId !in s.trace.db.versions
  {
    hide HistoryOk, LogOk, LocksOk, CachesOk, ThreadOk;
  }

  /** A transaction that found the key already used: nothing to write, and the stored version to answer with. */
  lemma ReplayStep(w: Platform, s: State, t: nat, c: Compiled, outcome: Outcome)
    requires t in s.threads && !Settled(s.threads[t].pc) && Inv(w, s) && Compiles(w, c)
    requires Atomic(w, s.trace.db, s.threads[t].req, None) == Transition(NOTHING, outcome)
    ensures Inv(w, Release(s, t, StoreCompiled(c, outcome)))
  {
    hide Inv, Release, Consistent, Knows, Held, NeverLogged, Instant, Atomic, Explained, Compiles;
    CallFacts(w, s, t);
    var th := s.threads[t].(pc := StoreCompiled(c, outcome), pending := NOTHING);
    FinishedKnows(w, s.trace.db, th);
    ExplainedHere(w, s.trace, t, th.req, th.start, outcome, |s.trace.past|);
    ReleaseKeeps(w, s, t, th.pc);
  }

  lemma CreateVersionGuard(w: Platform, s: State, t: nat)
    requires t in s.threads && s.threads[t].req.CreateVersion? && Inv(w, s)
    requires s.threads[t].pc.LockSet? || s.threads[t].pc.FindKey?
    requires !Unacceptable(w, s.threads[t].req) && StepCreateVersion(w, s, t).Some?
    ensures Inv(w, StepCreateVersion(w, s, t).value)
  {
    hide Inv, Finish, Goto, Acquire, Consistent, Free, NeverLogged, Instant, SetAt, ByKey, MaxNumber, Compile,
         NewVersion, Stored;
    CallFacts(w, s, t);
    var th, req, db := s.threads[t], s.threads[t].req, s.trace.db;
    var c := th.pc.compiled;
    if th.pc.LockSet? {
      var row := SetAt(db, req.scope, req.setId);
      if row.None? {
        FinishNow(w, s, t, Failed(NotFound));
      } else {
        AcquireOk(w, s, t, {SetRow(req.setId)}, NOTHING, FindKey(c, row.value.audit.version, row.value.status));
      }
    } else {
      var existing := ByKey(db, req.scope, req.setId, req.key);
      if existing.Some? {
        if existing.value.checksum != c.checksum {
          FinishNow(w, s, t, Failed(Conflict));
        } else {
          GotoOk(w, s, t, CommitReplay(c, existing.value));
        }
      } else if th.pc.version != req.expected || th.pc.status.Disabled? {
        FinishNow(w, s, t, Failed(Conflict));
      } else {
        GotoOk(w, s, t, CountVersions(c));
      }
    }
  }

  lemma CreateVersionInsert(w: Platform, s: State, t: nat)
    requires t in s.threads && s.threads[t].req.CreateVersion? && Inv(w, s)
    requires s.threads[t].pc.CountVersions? || s.threads[t].pc.InsertVersion?
    requires !Unacceptable(w, s.threads[t].req) && StepCreateVersion(w, s, t).Some?
    ensures Inv(w, StepCreateVersion(w, s, t).value)
  {
    hide Inv, Finish, Goto, Acquire, Free, NeverLogged, Instant, SetAt, ByKey, MaxNumber, Compile, NewVersion, Stored,
         Storable, Keyed, Numbered, CodesUnique, KeysUnique, AllShaped, Pointed, OutboxFaithful, UniqueViolated;
    CallFacts(w, s, t);
    var th, req, db := s.threads[t], s.threads[t].req, s.trace.db;
    var c := th.pc.compiled;
    if th.pc.CountVersions? {
      GotoOk(w, s, t, InsertVersion(c, MaxNumber(db, req.scope, req.setId) + 1));
    } else {
      var n := th.pc.number;
      FreshVersionId(w, s, t);
      NoViolation(w, db, req);
      if !Storable(w, NewVersion(req, c, n)) {
        FinishNow(w, s, t, Failed(Internal));
        return;
      }
      assert forall r :: r in VersionKeys(req, n) ==> Free(s, t, r);
      AcquireOk(w, s, t, VersionKeys(req, n), NOTHING.(version := Some(Stored(w, NewVersion(req, c, n)))),
                CommitVersion(c, n));
    }
  }

  lemma CreateVersionCommit(w: Platform, s: State, t: nat)
    requires t in s.threads && s.threads[t].req.CreateVersion? && Inv(w, s)
    requires s.threads[t].pc.CommitReplay? || s.threads[t].pc.CommitVersion?
    requires !Unacceptable(w, s.threads[t].req) && StepCreateVersion(w, s, t).Some?
    ensures Inv(w, StepCreateVersion(w, s, t).value)
  {
    hide Inv, Release, CommitThen, Consistent, NeverLogged, Instant, SetAt, ByKey, MaxNumber, Compile, NewVersion,
         Stored, AtomicCreateVersion;
    CallFacts(w, s, t);
    var th, req, db := s.threads[t], s.threads[t].req, s.trace.db;
    var c := th.pc.compiled;
    assert Compile(w, req.text) == Success(c);
    assert Compiles(w, c);
    if th.pc.CommitReplay? {
      ReplayStep(w, s, t, c, VersionReturned(th.pc.existing, false));
    } else {
      var outcome := VersionReturned(NewVersion(req, c, th.pc.number), true);
      CommitNow(w, s, t, None, outcome, StoreCompiled(c, outcome));
    }
  }

  lemma CreateVersionStep(w: Platform, s: State, t: nat)
    requires t in s.threads && s.threads[t].req.CreateVersion? && !s.threads[t].pc.Started? && Inv(w, s)
    requires !Unacceptable(w, s.threads[t].req) && StepCreateVersion(w, s, t).Some?
    ensures Inv(w, StepCreateVersion(w, s, t).value)
  {
    var pc := s.threads[t].pc;
    if pc.LockSet? || pc.FindKey? {
      CreateVersionGuard(w, s, t);
    } else if pc.CountVersions? || pc.InsertVersion? {
      CreateVersionInsert(w, s, t);
    } else {
      hide Inv, Compile;
      CreateVersionCommit(w, s, t);
    }
  }

  /******* PublishRuleVersion *******/

  /** A row that was a draft and still is one has not changed in between. */
  lemma DraftsStay(w: Platform, tr: Trace, start: nat, scope: Scope, setId: Id, draft: RuleVersion)
    requires HistoryOk(w, tr) && SawDraft(tr, start, scope, setId, draft)
    ensures VersionById(tr.db, scope, setId, draft.id).Some?
    ensures VersionGrows(draft, VersionById(tr.db, scope, setId, draft.id).value)
  {
    hide LinkOk, Consistent, VersionGrows, SetGrows;
    var k: nat :| start <= k <= |tr.past| && VersionById(Instant(tr, k), scope, setId, draft.id) == Some(draft);
    assert Grows(Instant(tr, k), Instant(tr, |tr.past|));
    assert VersionGrows(draft, tr.db.versions[draft.id]);
    SameVersionScope(draft, tr.db.versions[draft.id]);
  }

  lemma SameVersionScope(a: RuleVersion, b: RuleVersion)
    requires VersionGrows(a, b)
    ensures b.scope == a.scope && b.setId == a.setId
  {}

  lemma SawDraftNow(tr: Trace, start: nat, scope: Scope, setId: Id, row: RuleVersion)
    requires start <= |tr.past| && Instant(tr, |tr.past|) == tr.db
    requires VersionById(tr.db, scope, setId, row.id) == Some(row)
    ensures SawDraft(tr, start, scope, setId, row)
  {
    hide VersionById;
  }

  lemma VersionIdIs(db: Db, scope: Scope, setId: Id, id: Id)
    requires Keyed(db)
    ensures VersionById(db, scope, setId, id).Some? ==> VersionById(db, scope, setId, id).value.id == id
  {}

  lemma PublishReads(w: Platform, s: State, t: nat)
    requires t in s.threads && s.threads[t].req.PublishVersion? && Inv(w, s)
    requires s.threads[t].pc.ReadOwner? || s.threads[t].pc.ReadDraft?
    requires !Unacceptable(w, s.threads[t].req) && StepPublish(w, s, t).Some?
    ensures Inv(w, StepPublish(w, s, t).value)
  {
    hide Inv, Finish, Goto, Consistent, NeverLogged, Instant, SetAt, VersionById, Compile, Released, Activated, SawSet,
         SawDraft;
    CallFacts(w, s, t);
    var th, req, db := s.threads[t], s.threads[t].req, s.trace.db;
    if th.pc.ReadOwner? {
      var row := SetAt(db, req.scope, req.setId);
      if row.None? {
        FinishNow(w, s, t, Failed(NotFound));
      } else {
        SawNow(s.trace, th.start, req.scope, req.setId, row.value);
        GotoOk(w, s, t, ReadDraft(row.value));
      }
    } else {
      var row := VersionById(db, req.scope, req.setId, req.versionId);
      History(w, s);
      SetsStay(w, s.trace, th.start, req.scope, req.setId, th.pc.pre);
      if row.None? {
        FinishNow(w, s, t, Failed(NotFound));
      } else if !row.value.status.Draft? || !Recompiles(w, row.value) {
        FinishNow(w, s, t, Failed(Conflict));
      } else {
        ConsistentKeyed(w, db);
        VersionIdIs(db, req.scope, req.setId, req.versionId);
        SawDraftNow(s.trace, th.start, req.scope, req.setId, row.value);
        GotoOk(w, s, t, SwapVersion(th.pc.pre, row.value, Compile(w, row.value.definition).value));
      }
    }
  }

  lemma ConsistentKeyed(w: Platform, db: Db)
    requires Consistent(w, db)
    ensures Keyed(db)
  {
    hide Keyed;
  }

  lemma PublishSwaps(w: Platform, s: State, t: nat)
    requires t in s.threads && s.threads[t].req.PublishVersion? && Inv(w, s)
    requires s.threads[t].pc.SwapVersion? || s.threads[t].pc.SwapOwner?
    requires !Unacceptable(w, s.threads[t].req) && StepPublish(w, s, t).Some?
    ensures Inv(w, StepPublish(w, s, t).value)
  {
    hide Inv, Finish, Acquire, Consistent, NeverLogged, Instant, SetAt, VersionById, Compile, Released, Activated,
         SawSet, SawDraft, Free;
    CallFacts(w, s, t);
    var th, req, db := s.threads[t], s.threads[t].req, s.trace.db;
    var draft, c := th.pc.draft, th.pc.compiled;
    History(w, s);
    SetsStay(w, s.trace, th.start, req.scope, req.setId, th.pc.pre);
    if th.pc.SwapVersion? {
      var row := VersionById(db, req.scope, req.setId, req.versionId);
      DraftsStay(w, s.trace, th.start, req.scope, req.setId, draft);
      if !row.value.status.Draft? || row.value.audit.version != req.versionExpected {
        FinishNow(w, s, t, Failed(Conflict));
      } else {
        var next := Released(row.value, row.value.audit.version + 1, req);
        AcquireOk(w, s, t, {VersionRow(req.versionId)}, NOTHING.(version := Some(next)),
                  SwapOwner(th.pc.pre, draft, c));
      }
    } else {
      var row := SetAt(db, req.scope, req.setId);
      if row.value.audit.version != req.expected {
        FinishNow(w, s, t, Failed(Conflict));
      } else {
        var next := Activated(row.value, draft.number, row.value.audit.version + 1, req);
        AcquireOk(w, s, t, {SetRow(req.setId)}, th.pending.(set_ := Some(next)), AppendEvent(th.pc.pre, draft, c));
      }
    }
  }

  lemma PublishCommits(w: Platform, s: State, t: nat)
    requires t in s.threads && s.threads[t].req.PublishVersion? && Inv(w, s)
    requires s.threads[t].pc.AppendEvent? || s.threads[t].pc.CommitPublish?
    requires !Unacceptable(w, s.threads[t].req) && StepPublish(w, s, t).Some?
    ensures Inv(w, StepPublish(w, s, t).value)
  {
    hide Inv, Acquire, CommitThen, Consistent, NeverLogged, Instant, SetAt, VersionById, Compile, Released, Activated,
         SawSet, SawDraft, Free;
    CallFacts(w, s, t);
    var th, req, db := s.threads[t], s.threads[t].req, s.trace.db;
    var pre, draft, c := th.pc.pre, th.pc.draft, th.pc.compiled;
    var ruleSet := Activated(pre, draft.number, req.expected + 1, req);
    var ruleVersion := Released(draft, req.versionExpected + 1, req);
    if th.pc.AppendEvent? {
      var e := Event(ruleSet, ruleVersion, req.actor, req.at);
      AcquireOk(w, s, t, {}, th.pending.(event := Some(e)), CommitPublish(pre, draft, c));
    } else {
      var outcome := PublishReturned(ruleSet, ruleVersion);
      assert Compiles(w, c);
      CommitNow(w, s, t, Some(pre), outcome, StoreCompiled(c, outcome));
    }
  }

  lemma PublishStep(w: Platform, s: State, t: nat)
    requires t in s.threads && s.threads[t].req.PublishVersion? && !s.threads[t].pc.Started? && Inv(w, s)
    requires !Unacceptable(w, s.threads[t].req) && StepPublish(w, s, t).Some?
    ensures Inv(w, StepPublish(w, s, t).value)
  {
    var pc := s.threads[t].pc;
    hide Inv, Compile;
    if pc.ReadOwner? || pc.ReadDraft? {
      PublishReads(w, s, t);
    } else if pc.SwapVersion? || pc.SwapOwner? {
      PublishSwaps(w, s, t);
    } else {
      PublishCommits(w, s, t);
    }
  }

  /******* GetRuleSet *******/

  lemma SawRefNow(tr: Trace, start: nat, scope: Scope, ref: SetRef, row: RuleSet)
    requires start <= |tr.past| && Instant(tr, |tr.past|) == tr.db && Lookup(tr.db, scope, ref) == Some(row)
    ensures SawRef(tr, start, scope, ref, row)
  {
    hide Lookup;
  }

  lemma GetSetStep(w: Platform, s: State, t: nat)
    requires t in s.threads && s.threads[t].req.GetSet? && !s.threads[t].pc.Started? && Inv(w, s)
    requires !Unacceptable(w, s.threads[t].req) && StepGetSet(s, t).Some?
    ensures Inv(w, StepGetSet(s, t).value)
  {
    hide Inv, Finish, Goto, Consistent, NeverLogged, Instant, Lookup, ByNumber, SawRef, HistoryOk, Unacceptable;
    CallFacts(w, s, t);
    var th, req := s.threads[t], s.threads[t].req;
    if th.pc.GetRow? {
      var row := Lookup(s.trace.db, req.scope, req.ref);
      if row.None? {
        FinishNow(w, s, t, Failed(NotFound));
      } else if row.value.published == 0 {
        FinishNow(w, s, t, SetRead(row.value, None));
      } else {
        SawRefNow(s.trace, th.start, req.scope, req.ref, row.value);
        GotoOk(w, s, t, GetCurrent(row.value));
      }
    } else {
      History(w, s);
      var k := SawRefAt(s.trace, th.start, req.scope, req.ref, th.pc.pre);
      SoundBetween(w, s.trace, k, |s.trace.past|);
      GetSetAgrees(Instant(s.trace, k), s.trace.db, req, th.pc.pre);
      FinishKeeps(w, s, t,
                  SetRead(th.pc.pre, ByNumber(s.trace.db, th.pc.pre.scope, th.pc.pre.id, th.pc.pre.published)), k);
    }
  }

  lemma SawRefAt(tr: Trace, start: nat, scope: Scope, ref: SetRef, row: RuleSet) returns (k: nat)
    requires SawRef(tr, start, scope, ref, row)
    ensures start <= k <= |tr.past| && Lookup(Instant(tr, k), scope, ref) == Some(row)
  {
    hide Lookup, Instant;
    k :| start <= k <= |tr.past| && Lookup(Instant(tr, k), scope, ref) == Some(row);
  }

  /******* Evaluate *******/

  lemma EvaluateReads(w: Platform, s: State, t: nat)
    requires t in s.threads && s.threads[t].req.Evaluate? && Inv(w, s)
    requires s.threads[t].pc.FindSet? || s.threads[t].pc.FindVersion?
    requires !Unacceptable(w, s.threads[t].req) && StepEvaluate(w, s, t).Some?
    ensures Inv(w, StepEvaluate(w, s, t).value)
  {
    hide Inv, Finish, Goto, Consistent, NeverLogged, Instant, Lookup, ByNumber, SawRef, HistoryOk, Unacceptable,
         Compile,
         Resolved, Recomputed, Sound, Grows;
    CallFacts(w, s, t);
    var th, req, db := s.threads[t], s.threads[t].req, s.trace.db;
    if th.pc.FindSet? {
      var row := Lookup(db, req.scope, req.ref);
      if row.None? {
        FinishNow(w, s, t, Failed(NotFound));
      } else if !row.value.status.Active? {
        FinishNow(w, s, t, Failed(Conflict));
      } else {
        SawRefNow(s.trace, th.start, req.scope, req.ref, row.value);
        GotoOk(w, s, t, FindVersion(row.value));
      }
    } else {
      var pre := th.pc.pre;
      var row := ByNumber(db, pre.scope, pre.id, Target(pre, req.number));
      History(w, s);
      var k := SawRefAt(s.trace, th.start, req.scope, req.ref, pre);
      SoundBetween(w, s.trace, k, |s.trace.past|);
      if row.None? {
        MissingAgrees(Instant(s.trace, k), db, req, pre);
        FinishKeeps(w, s, t, Failed(NotFound), k);
      } else if !row.value.status.Published? {
        DraftAgrees(Instant(s.trace, k), db, req, pre);
        FinishNow(w, s, t, Failed(Conflict));
      } else {
        var m := PublishedInstant(w, s.trace, req, k, pre, row.value);
        ResolvedBy(s.trace, th.start, req, row.value, m);
        GotoOk(w, s, t, LoadCompiled(row.value));
      }
    }
  }

  lemma ResolvedBy(tr: Trace, start: nat, req: Request, row: RuleVersion, m: nat)
    requires req.Evaluate? && start <= m <= |tr.past| && Resolve(Instant(tr, m), req) == Success(row)
    ensures Resolved(tr, start, req, row)
  {
    hide Resolve;
  }

  /** A version an evaluation has resolved recompiles to its own checksum: publication saw to that. */
  lemma ResolvedRecompiles(w: Platform, tr: Trace, start: nat, req: Request, row: RuleVersion)
    requires HistoryOk(w, tr) && req.Evaluate? && Resolved(tr, start, req, row)
    ensures Recompiles(w, row)
  {
    hide LinkOk, Grows, Compile, Consistent, Resolve;
    var k: nat :| start <= k <= |tr.past| && Resolve(Instant(tr, k), req) == Success(row);
    PublishedRecompiles(w, Instant(tr, k), req, row);
  }

  lemma PublishedRecompiles(w: Platform, db: Db, req: Request, row: RuleVersion)
    requires Consistent(w, db) && req.Evaluate? && Resolve(db, req) == Success(row)
    ensures Recompiles(w, row)
  {
    hide Lookup, Compile;
    ByNumberExactly(w, db, req);
  }

  lemma ByNumberExactly(w: Platform, db: Db, req: Request)
    requires Consistent(w, db) && req.Evaluate? && Resolve(db, req).Success?
    ensures var row := Resolve(db, req).value;
      row.id in db.versions && db.versions[row.id] == row && row.status.Published?
  {
    hide Compile, Shaped, Lookup, ByNumber, OutboxFaithful;
    var found := Lookup(db, req.scope, req.ref).value;
    ByNumberExact(db, found.scope, found.id, Target(found, req.number));
  }

  lemma Caches(w: Platform, s: State)
    requires Inv(w, s)
    ensures CachesOk(w, s.caches) && LocksOk(s.locks, s.threads)
  {
    hide HistoryOk, LogOk, LocksOk, CachesOk, IdsOk, ThreadOk;
  }

  /** The entry this replica would use, if it has one, is what recompiling gives. */
  lemma CachedIsCompiled(w: Platform, s: State, key: (nat, string), row: RuleVersion)
    requires Lawful(w) && Inv(w, s) && key.1 == row.checksum && Recompiles(w, row)
    ensures key in s.caches ==> Compile(w, row.definition) == Success(s.caches[key])
  {
    hide Inv, Lawful, Compile, LocksOk, Recompiles;
    Caches(w, s);
    if key in s.caches {
      CachedExactly(w, key.1, s.caches[key], row);
    }
  }

  lemma CacheFills(w: Platform, caches: map<(nat, string), Compiled>, replica: nat, c: Compiled)
    requires CachesOk(w, caches) && Compiles(w, c)
    ensures CachesOk(w, caches[(replica, c.checksum) := c])
  {
    hide Compiles;
  }

  lemma EvaluateLoads(w: Platform, s: State, t: nat)
    requires t in s.threads && s.threads[t].req.Evaluate? && Lawful(w) && Inv(w, s)
    requires s.threads[t].pc.LoadCompiled? || s.threads[t].pc.PutCompiled?
    requires !Unacceptable(w, s.threads[t].req) && StepEvaluate(w, s, t).Some?
    ensures Inv(w, StepEvaluate(w, s, t).value)
  {
    hide Inv, Finish, Goto, Consistent, NeverLogged, Instant, Resolved, HistoryOk, Unacceptable, Compile, Lawful,
         CachesOk, LocksOk, Compiles;
    CallFacts(w, s, t);
    History(w, s);
    var th, req := s.threads[t], s.threads[t].req;
    var v := th.pc.target;
    var key := (th.replica, v.checksum);
    ResolvedRecompiles(w, s.trace, th.start, req, v);
    CachedIsCompiled(w, s, key, v);
    if key in s.caches {
      GotoOk(w, s, t, RunRules(v, s.caches[key]));
    } else if th.pc.LoadCompiled? {
      GotoOk(w, s, t, PutCompiled(v, Compile(w, v.definition).value));
    } else {
      PutKeeps(w, s, t, v, th.pc.compiled);
    }
  }

  lemma PutKeeps(w: Platform, s: State, t: nat, v: RuleVersion, c: Compiled)
    requires t in s.threads && s.threads[t].req.Evaluate? && s.threads[t].pc == PutCompiled(v, c) && Inv(w, s)
    requires !Unacceptable(w, s.threads[t].req)
    requires Compile(w, v.definition) == Success(c) && c.checksum == v.checksum
    ensures Inv(w, Goto(s, t, RunRules(v, c)).(caches := s.caches[(s.threads[t].replica, v.checksum) := c]))
  {
    hide Inv, Consistent, NeverLogged, Instant, Resolved, Unacceptable, Compile, CachesOk, LocksOk, Compiles;
    CallFacts(w, s, t);
    Caches(w, s);
    var th := s.threads[t].(pc := RunRules(v, c));
    CompilesBy(w, v.definition, c);
    CacheFills(w, s.caches, th.replica, c);
    LocksStay(s.locks, s.threads, t, th);
    MoveKeeps(w, s, Goto(s, t, RunRules(v, c)).(caches := s.caches[(th.replica, v.checksum) := c]), t, th);
  }

  lemma CompilesBy(w: Platform, raw: string, c: Compiled)
    requires Compile(w, raw) == Success(c)
    ensures Compiles(w, c)
  {
    hide Compile;
  }

  lemma EvaluateAnswers(w: Platform, s: State, t: nat)
    requires t in s.threads && s.threads[t].req.Evaluate? && s.threads[t].pc.RunRules? && Inv(w, s)
    requires !Unacceptable(w, s.threads[t].req)
    ensures Inv(w, Finish(s, t, Answered(w, s.threads[t].pc.target, s.threads[t].pc.compiled, s.threads[t].req.facts)))
  {
    hide Inv, Finish, Consistent, NeverLogged, Instant, Unacceptable, Compile, Answered, Resolve;
    CallFacts(w, s, t);
    var th, req := s.threads[t], s.threads[t].req;
    var k: nat :| th.start <= k <= |s.trace.past| && Resolve(Instant(s.trace, k), req) == Success(th.pc.target);
    FinishKeeps(w, s, t, Answered(w, th.pc.target, th.pc.compiled, req.facts), k);
  }

  lemma EvaluateStep(w: Platform, s: State, t: nat)
    requires t in s.threads && s.threads[t].req.Evaluate? && !s.threads[t].pc.Started? && Lawful(w) && Inv(w, s)
    requires !Unacceptable(w, s.threads[t].req) && StepEvaluate(w, s, t).Some?
    ensures Inv(w, StepEvaluate(w, s, t).value)
  {
    hide Inv, Lawful, Compile, Unacceptable, Lookup, ByNumber;
    var pc := s.threads[t].pc;
    if pc.FindSet? || pc.FindVersion? {
      EvaluateReads(w, s, t);
    } else if pc.LoadCompiled? || pc.PutCompiled? {
      EvaluateLoads(w, s, t);
    } else {
      EvaluateAnswers(w, s, t);
    }
  }

  /******* Every step *******/

  lemma FirstKnows(w: Platform, db: Db, th: Thread)
    requires th.pc.Started? && th.pending == NOTHING && !Unacceptable(w, th.req)
    ensures Knows(w, db, th.(pc := First(w, th.req))) && Held(th.(pc := First(w, th.req))) == Held(th)
    ensures !Settled(First(w, th.req)) && forall tr, t :: Remembers(w, tr, t, th.(pc := First(w, th.req)))
  {
    hide Compile;
  }

  lemma StartStep(w: Platform, s: State, t: nat)
    requires t in s.threads && s.threads[t].pc.Started? && Inv(w, s)
    ensures Inv(w, Step(w, s, t).value)
  {
    hide Inv, Finish, Goto, Consistent, Instant, Unacceptable, First, Held, Remembers;
    CallFacts(w, s, t);
    if Unacceptable(w, s.threads[t].req) {
      FinishNow(w, s, t, Failed(Invalid));
    } else {
      FirstKnows(w, s.trace.db, s.threads[t]);
      hide Knows;
      GotoOk(w, s, t, First(w, s.threads[t].req));
    }
  }

  /** The reply leaves once the definition has been remembered by this replica. */
  lemma StoreStep(w: Platform, s: State, t: nat)
    requires t in s.threads && s.threads[t].pc.StoreCompiled? && Inv(w, s)
    ensures var th := s.threads[t];
      Inv(w, Finish(s, t, th.pc.outcome).(caches := s.caches[(th.replica, th.pc.compiled.checksum) := th.pc.compiled]))
  {
    hide Inv, Consistent, Instant, Knows, Held, Explained, Compiles, CachesOk, LocksOk, NeverLogged, Freed;
    CallFacts(w, s, t);
    Caches(w, s);
    var th := s.threads[t];
    var th' := th.(pc := Done(th.pc.outcome, |s.trace.past|), pending := NOTHING);
    var s' := Finish(s, t, th.pc.outcome).(caches := s.caches[(th.replica, th.pc.compiled.checksum) := th.pc.compiled]);
    CacheFills(w, s.caches, th.replica, th.pc.compiled);
    FinishedKnows(w, s.trace.db, th');
    LocksFreed(s.locks, s.threads, t, th');
    MoveKeeps(w, s, s', t, th');
  }

  lemma StepKeeps(w: Platform, s: State, t: nat)
    requires t in s.threads && Lawful(w) && Inv(w, s) && Step(w, s, t).Some?
    ensures Inv(w, Step(w, s, t).value)
  {
    hide Inv, Lawful, Unacceptable, StepCreateSet, StepUpdateSet, StepCreateVersion, StepPublish, StepGetSet,
         StepEvaluate, Finish, Goto;
    if s.threads[t].pc.Started? {
      StartStep(w, s, t);
    } else if s.threads[t].pc.StoreCompiled? {
      StoreStep(w, s, t);
    } else {
      match s.threads[t].req
      case CreateSet(_, _, _, _, _, _, _) => CreateSetStep(w, s, t);
      case UpdateSet(_, _, _, _, _, _, _, _) => UpdateSetStep(w, s, t);
      case CreateVersion(_, _, _, _, _, _, _, _) => CreateVersionStep(w, s, t);
      case PublishVersion(_, _, _, _, _, _, _) => PublishStep(w, s, t);
      case GetSet(_, _) => GetSetStep(w, s, t);
      case Evaluate(_, _, _, _) => EvaluateStep(w, s, t);
    }
  }

  lemma AbortStep(w: Platform, s: State, t: nat)
    requires t in s.threads && CanAbort(s.threads[t].pc) && Inv(w, s)
    ensures Inv(w, Release(s, t, Aborted(|s.trace.past|)))
  {
    hide Inv, Release, Consistent, Instant, Knows, Held, NeverLogged;
    CallFacts(w, s, t);
    FinishedKnows(w, s.trace.db, s.threads[t].(pc := Aborted(|s.trace.past|), pending := NOTHING));
    ReleaseKeeps(w, s, t, Aborted(|s.trace.past|));
  }

  lemma BeginLog(tr: Trace, threads: map<nat, Thread>, t: nat, th: Thread)
    requires LogOk(tr, threads) && t !in threads
    ensures LogOk(tr, threads[t := th]) && NeverLogged(tr, t)
  {
    hide SawSet;
    var threads' := threads[t := th];
    forall k | 0 <= k < |tr.log| ensures CommitOk(tr, threads', k) && tr.log[k].tid != t {
      assert CommitOk(tr, threads, k);
    }
  }

  lemma BeginLocks(locks: map<Resource, nat>, threads: map<nat, Thread>, t: nat, th: Thread)
    requires LocksOk(locks, threads) && t !in threads && Held(th) == {}
    ensures LocksOk(locks, threads[t := th])
  {
    hide Held;
  }

  lemma BeginIds(s: State, t: nat, th: Thread)
    requires IdsOk(s.trace.db, s.threads) && t !in s.threads && FreshId(s, th.req)
    ensures IdsOk(s.trace.db, s.threads[t := th])
  {}

  lemma BeginStep(w: Platform, s: State, t: nat, req: Request, replica: nat)
    requires t !in s.threads && FreshId(s, req) && Inv(w, s)
    ensures Inv(w, s.(threads := s.threads[t := Thread(req, replica, |s.trace.past|, Started, NOTHING)]))
  {
    hide HistoryOk, LogOk, LocksOk, CachesOk, IdsOk, Knows, NeverLogged, FreshId;
    var th := Thread(req, replica, |s.trace.past|, Started, NOTHING);
    BeginLog(s.trace, s.threads, t, th);
    assert Held(th) == {};
    BeginLocks(s.locks, s.threads, t, th);
    BeginIds(s, t, th);
    StartKnows(w, s.trace.db, th);
    hide ThreadOk;
    assert ThreadOk(w, s.trace, t, th) by { StartOk(w, s.trace, t, th); }
  }

  lemma StartKnows(w: Platform, db: Db, th: Thread)
    requires th.pc.Started? && th.pending == NOTHING
    ensures Knows(w, db, th)
  {}

  lemma StartOk(w: Platform, tr: Trace, t: nat, th: Thread)
    requires th.pc.Started? && th.start <= |tr.past| && Knows(w, tr.db, th) && NeverLogged(tr, t)
    ensures ThreadOk(w, tr, t, th)
  {
    hide Knows, NeverLogged;
  }

  lemma DoKeeps(w: Platform, s: State, a: Action)
    requires Lawful(w) && Inv(w, s) && Do(w, s, a).Some?
    ensures Inv(w, Do(w, s, a).value)
  {
    hide Inv, Lawful, Step, Release, FreshId;
    match a
    case Begin(t, req, replica) => BeginStep(w, s, t, req, replica);
    case Advance(t) => StepKeeps(w, s, t);
    case Abort(t) => AbortStep(w, s, t);
  }

  lemma InitialOk(w: Platform)
    ensures Inv(w, INITIAL)
  {
    EmptyConsistent(w);
    Unchanged(EMPTY);
    hide Consistent, Grows;
  }

  lemma {:induction false} RunKeeps(w: Platform, actions: seq<Action>)
    requires Lawful(w) && Run(w, actions).Some?
    ensures Inv(w, Run(w, actions).value)
    decreases |actions|
  {
    hide Inv, Lawful, Do;
    if actions == [] {
      InitialOk(w);
    } else {
      RunKeeps(w, actions[..|actions| - 1]);
      DoKeeps(w, Run(w, actions[..|actions| - 1]).value, actions[|actions| - 1]);
    }
  }

  /** The invariant holds in every state the machine can reach. */
  lemma ReachableOk(w: Platform, s: State)
    requires Lawful(w) && Reachable(w, s)
    ensures Inv(w, s)
  {
    hide Inv, Lawful, Run;
    var actions :| Run(w, actions) == Some(s);
    RunKeeps(w, actions);
  }
}
