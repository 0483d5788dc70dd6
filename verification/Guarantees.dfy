/** What callers may rely on, in every reachable state of the interleaved machine. */
module Guarantees {
  import opened Wrappers
  import opened Platform
  import opened Engine
  import opened Store
  import opened Lifecycle
  import opened Invariants
  import opened Machine
  import opened Refinement
  import opened Instants
  import opened StepProof

  lemma ReachableParts(w: Platform, s: State)
    requires Lawful(w) && Reachable(w, s)
    ensures HistoryOk(w, s.trace) && LogOk(s.trace, s.threads) && LocksOk(s.locks, s.threads) && CachesOk(w, s.caches)
    ensures forall t :: t in s.threads ==> ThreadOk(w, s.trace, t, s.threads[t])
  {
    hide Lawful, Reachable, HistoryOk, LogOk, LocksOk, CachesOk, IdsOk, ThreadOk;
    ReachableOk(w, s);
  }

  /******* Linearizability *******/

  /**
   The commits form one serial history from the empty tables; a call has at most one, made while it ran, and if
   it updates or publishes it quotes a row of its set that was committed while it ran.
   */
  lemma Serial(w: Platform, s: State)
    requires Lawful(w) && Reachable(w, s)
    ensures |s.trace.past| == |s.trace.log| && Instant(s.trace, 0) == EMPTY
    ensures forall k :: 0 <= k < |s.trace.log| ==>
      Instant(s.trace, k + 1) == After(w, Instant(s.trace, k), s.trace.log[k].req, s.trace.log[k].seen)
    ensures forall j, k :: 0 <= j < k < |s.trace.log| ==> s.trace.log[j].tid != s.trace.log[k].tid
    ensures forall k :: 0 <= k < |s.trace.log| ==>
      var c := s.trace.log[k];
      && c.tid in s.threads && s.threads[c.tid].req == c.req && s.threads[c.tid].start <= k
      && Quotes(s.trace, s.threads[c.tid].start, k, c.req, c.seen)
  {
    hide Lawful, Reachable, Consistent, Grows, After, Instant, ThreadOk, LocksOk, CachesOk, Quotes, SnapshotOk;
    ReachableParts(w, s);
    forall k | 0 <= k < |s.trace.log|
      ensures Instant(s.trace, k + 1) == After(w, Instant(s.trace, k), s.trace.log[k].req, s.trace.log[k].seen)
      ensures var c := s.trace.log[k];
        && c.tid in s.threads && s.threads[c.tid].req == c.req && s.threads[c.tid].start <= k
        && Quotes(s.trace, s.threads[c.tid].start, k, c.req, c.seen)
    {
      assert LinkOk(w, s.trace, k) && CommitOk(s.trace, s.threads, k);
    }
  }

  /**
   Every finished call took effect at one instant between its start and its end: either its own commit, with a
   reply quoting a row it had read by then, or an instant at which the atomic call gives the same answer and
   changes nothing.
   */
  lemma Linearizable(w: Platform, s: State, t: nat) returns (k: nat)
    requires t in s.threads && s.threads[t].pc.Done? && Lawful(w) && Reachable(w, s)
    ensures s.threads[t].start <= k <= s.threads[t].pc.end <= |s.trace.past|
    ensures TakesEffect(w, s.trace, t, s.threads[t].req, s.threads[t].pc.outcome, k)
    ensures k < |s.trace.log| && s.trace.log[k].tid == t ==>
      k < s.threads[t].pc.end && Quotes(s.trace, s.threads[t].start, k, s.threads[t].req, s.trace.log[k].seen)
  {
    hide Lawful, Reachable, HistoryOk, LogOk, LocksOk, CachesOk, Knows, TakesEffect, NeverLogged, Quotes,
         After, Instant;
    ReachableParts(w, s);
    Serial(w, s);
    var th := s.threads[t];
    assert Remembers(w, s.trace, t, th);
    k :| th.start <= k <= th.pc.end <= |s.trace.past|
         && (k < |s.trace.log| && s.trace.log[k].tid == t ==> k < th.pc.end)
         && TakesEffect(w, s.trace, t, th.req, th.pc.outcome, k);
  }

  /** An answer only a call that changed something gives. */
  predicate Reports(outcome: Outcome) {
    outcome.SetReturned? || outcome.PublishReturned? || (outcome.VersionReturned? && outcome.created)
  }

  /** The call has committed and been told so, or is about to be. */
  predicate Succeeded(pc: Pc) {
    Settled(pc) && Reports(pc.outcome)
  }

  lemma OutcomeTells(w: Platform, db: Db, req: Request, seen: Option<RuleSet>)
    ensures var t := Atomic(w, db, req, seen);
      t.writes != NOTHING <==> Reports(t.outcome)
  {
    hide Compile, Unacceptable, Recompiles, CodeIds, ByKey, ByNumber, Lookup, MaxNumber, EvaluateCompiled;
  }

  lemma SettledExplained(w: Platform, tr: Trace, t: nat, th: Thread) returns (k: nat)
    requires ThreadOk(w, tr, t, th) && Settled(th.pc)
    ensures k <= |tr.past| && TakesEffect(w, tr, t, th.req, th.pc.outcome, k)
  {
    hide Knows, TakesEffect, NeverLogged, Compiles;
    assert Remembers(w, tr, t, th);
    k :| k <= |tr.past| && TakesEffect(w, tr, t, th.req, th.pc.outcome, k);
  }

  /**
   A call has a commit if and only if it has succeeded.  A call that is running, that was rolled back, that only
   read or replayed, or that was answered with an error has changed nothing, at whichever statement it failed.
   */
  lemma RollbackLeavesNothing(w: Platform, s: State, t: nat)
    requires t in s.threads && Lawful(w) && Reachable(w, s)
    ensures NeverLogged(s.trace, t) <==> !Succeeded(s.threads[t].pc)
  {
    hide Lawful, Reachable, LocksOk, CachesOk, Knows, Remembers, Atomic, After, Consistent, Grows, Instant, SnapshotOk,
         CommitOk, Reports;
    ReachableParts(w, s);
    if Settled(s.threads[t].pc) {
      var k := SettledExplained(w, s.trace, t, s.threads[t]);
      var own := k < |s.trace.log| && s.trace.log[k].tid == t;
      OutcomeTells(w, Instant(s.trace, k), s.threads[t].req, if own then s.trace.log[k].seen else None);
      if own {
        assert LinkOk(w, s.trace, k);
      }
    }
  }

  /** A call that ended before another began also precedes it in the serial history. */
  lemma RealTimeOrder(w: Platform, s: State, j: nat, k: nat)
    requires j < |s.trace.log| && k < |s.trace.log| && Lawful(w) && Reachable(w, s)
    requires s.trace.log[j].tid in s.threads && s.trace.log[k].tid in s.threads
    requires s.threads[s.trace.log[j].tid].pc.Done?
    requires s.threads[s.trace.log[j].tid].pc.end <= s.threads[s.trace.log[k].tid].start
    ensures j < k
  {
    hide Lawful, Reachable, After, Atomic;
    Serial(w, s);
    var i := Linearizable(w, s, s.trace.log[j].tid);
  }

  /******* What replies quote *******/

  /** A reply composed from a row the caller had the right version of is the committed one, and so is the event. */
  lemma ReplyIsCommitted(w: Platform, s: State, k: nat)
    requires k < |s.trace.log| && s.trace.log[k].seen.Some? && Lawful(w) && Reachable(w, s)
    ensures s.trace.log[k].req.UpdateSet? || s.trace.log[k].req.PublishVersion?
    ensures var c := s.trace.log[k];
      c.seen.value.audit.version == c.req.expected
      ==> Atomic(w, Instant(s.trace, k), c.req, c.seen) == Atomic(w, Instant(s.trace, k), c.req, None)
  {
    hide Lawful, Reachable, Instant, Consistent, Grows, After, LocksOk, CachesOk, ThreadOk, LogOk;
    ReachableParts(w, s);
    assert LinkOk(w, s.trace, k);
    var c := s.trace.log[k];
    if c.seen.value.audit.version == c.req.expected {
      BasisExact(w, Instant(s.trace, k), c.req, c.seen);
    }
  }

  lemma BasisExact(w: Platform, db: Db, req: Request, seen: Option<RuleSet>)
    requires seen.Some? && SnapshotOk(db, req, seen) && seen.value.audit.version == req.expected
    ensures Atomic(w, db, req, seen) == Atomic(w, db, req, None)
  {
    hide Compile, Recompiles, CodeIds, ByKey, MaxNumber, Lookup, Unacceptable, Renamed, Activated, Released;
  }

  /** Exactly how a reply to UpdateRuleSet can differ from the row it committed: the published pointer. */
  lemma UpdateReplyExact(w: Platform, db: Db, req: Request, seen: Option<RuleSet>)
    requires Keyed(db) && req.UpdateSet? && !Unacceptable(w, req) && seen.Some? && SnapshotOk(db, req, seen)
    requires Atomic(w, db, req, seen).writes != NOTHING
    ensures Atomic(w, db, req, seen).writes.set_.Some? && Atomic(w, db, req, seen).outcome.SetReturned?
    ensures req.setId in db.sets
    ensures After(w, db, req, seen).sets == db.sets[req.setId := Atomic(w, db, req, seen).writes.set_.value]
    ensures var t := Atomic(w, db, req, seen);
      && t.outcome.ruleSet == t.writes.set_.value.(published := seen.value.published)
      && (t.outcome.ruleSet == t.writes.set_.value <==> seen.value.published == db.sets[req.setId].published)
  {
    hide CodeIds, ByKey, MaxNumber, Lookup, Unacceptable;
  }

  /** Exactly how a reply to PublishRuleVersion, and its event, can differ from the row: name and description. */
  lemma PublishReplyExact(w: Platform, db: Db, req: Request, seen: Option<RuleSet>)
    requires Keyed(db) && req.PublishVersion? && !Unacceptable(w, req) && seen.Some? && SnapshotOk(db, req, seen)
    requires Atomic(w, db, req, seen).writes != NOTHING
    ensures Atomic(w, db, req, seen).outcome.PublishReturned? && req.setId in db.sets
    ensures var writes, b := Atomic(w, db, req, seen).writes, After(w, db, req, seen);
      && writes.set_.Some? && writes.version.Some? && writes.event.Some?
      && b == Db(db.sets[req.setId := writes.set_.value], db.versions[req.versionId := writes.version.value],
                 db.outbox + [writes.event.value])
      && writes.event.value.actor == req.actor && writes.event.value.at == req.at
    ensures var t := Atomic(w, db, req, seen);
      && t.outcome.ruleVersion == t.writes.version.value == t.writes.event.value.ruleVersion
      && t.outcome.ruleSet == t.writes.event.value.ruleSet
      && t.outcome.ruleSet
         == t.writes.set_.value.(name := seen.value.name, description := seen.value.description)
      && (t.outcome.ruleSet == t.writes.set_.value
          <==> seen.value.name == db.sets[req.setId].name && seen.value.description == db.sets[req.setId].description)
  {
    hide CodeIds, ByKey, MaxNumber, Lookup, Unacceptable, Compile, Recompiles;
  }

  /** A finished call that has commit `k` answers what its atomic transition answered there. */
  lemma AnsweredAtCommit(w: Platform, s: State, k: nat)
    requires k < |s.trace.log| && s.trace.log[k].tid in s.threads && s.threads[s.trace.log[k].tid].pc.Done?
    requires Lawful(w) && Reachable(w, s)
    ensures var c, db := s.trace.log[k], Instant(s.trace, k);
      && Atomic(w, db, c.req, c.seen).writes != NOTHING && !Unacceptable(w, c.req)
      && s.threads[c.tid].pc.outcome == Atomic(w, db, c.req, c.seen).outcome
      && Instant(s.trace, k + 1) == After(w, db, c.req, c.seen)
      && Keyed(db) && SnapshotOk(db, c.req, c.seen)
      && (c.seen.Some? <==> c.req.UpdateSet? || c.req.PublishVersion?)
  {
    hide Lawful, Reachable, Instant, Unacceptable, Consistent, After, LocksOk, CachesOk, ThreadOk, LogOk, Grows,
         SnapshotOk, SawSet;
    ReachableParts(w, s);
    Serial(w, s);
    var c := s.trace.log[k];
    assert LinkOk(w, s.trace, k);
    assert Keyed(Instant(s.trace, k)) by { ConsistentKeyed(w, Instant(s.trace, k)); }
    var j := Linearizable(w, s, c.tid);
    hide AtomicCreateSet, AtomicUpdateSet, AtomicCreateVersion, AtomicPublish, AtomicGetSet, AtomicEvaluate;
  }

  /** In a run: the reply to a committed update is the committed row, but for the pointer its call had read. */
  lemma UpdateReplies(w: Platform, s: State, k: nat)
    requires k < |s.trace.log| && s.trace.log[k].tid in s.threads && s.threads[s.trace.log[k].tid].pc.Done?
    requires s.trace.log[k].req.UpdateSet? && Lawful(w) && Reachable(w, s)
    ensures s.trace.log[k].seen.Some?
    ensures var c, a, b := s.trace.log[k], Instant(s.trace, k), Instant(s.trace, k + 1);
      var reply := s.threads[c.tid].pc.outcome;
      && reply.SetReturned? && c.req.setId in a.sets && c.req.setId in b.sets
      && reply.ruleSet == b.sets[c.req.setId].(published := c.seen.value.published)
      && (reply.ruleSet == b.sets[c.req.setId] <==> c.seen.value.published == a.sets[c.req.setId].published)
  {
    hide Lawful, Reachable, Instant, Unacceptable, Atomic, Keyed, SnapshotOk, After;
    AnsweredAtCommit(w, s, k);
    UpdateReplyExact(w, Instant(s.trace, k), s.trace.log[k].req, s.trace.log[k].seen);
  }

  /** In a run: so is the reply to a committed publication, and its event, but for name and description. */
  lemma PublishReplies(w: Platform, s: State, k: nat)
    requires k < |s.trace.log| && s.trace.log[k].tid in s.threads && s.threads[s.trace.log[k].tid].pc.Done?
    requires s.trace.log[k].req.PublishVersion? && Lawful(w) && Reachable(w, s)
    ensures s.trace.log[k].seen.Some?
    ensures var c, a, b := s.trace.log[k], Instant(s.trace, k), Instant(s.trace, k + 1);
      var reply, seen := s.threads[c.tid].pc.outcome, c.seen.value;
      && reply.PublishReturned? && c.req.setId in a.sets && c.req.setId in b.sets && c.req.versionId in b.versions
      && reply.ruleVersion == b.versions[c.req.versionId]
      && b.outbox == a.outbox + [Event(reply.ruleSet, reply.ruleVersion, c.req.actor, c.req.at)]
      && reply.ruleSet == b.sets[c.req.setId].(name := seen.name, description := seen.description)
      && (reply.ruleSet == b.sets[c.req.setId]
          <==> seen.name == a.sets[c.req.setId].name && seen.description == a.sets[c.req.setId].description)
  {
    hide Lawful, Reachable, Instant, Unacceptable, Atomic, Keyed, SnapshotOk, After;
    AnsweredAtCommit(w, s, k);
    PublishReplyExact(w, Instant(s.trace, k), s.trace.log[k].req, s.trace.log[k].seen);
  }

  /** The set had the counter the caller named, or a later one, before the call began. */
  ghost predicate KnewCounter(s: State, k: nat)
    requires k < |s.trace.log|
  {
    var c := s.trace.log[k];
    && (c.req.UpdateSet? || c.req.PublishVersion?) && c.tid in s.threads
    && var row := SetAt(Instant(s.trace, s.threads[c.tid].start), c.req.scope, c.req.setId);
       row.Some? && row.value.audit.version >= c.req.expected
  }

  lemma SqueezedRow(a: RuleSet, b: RuleSet, c: RuleSet, expected: int)
    requires SetGrows(a, b) && SetGrows(b, c) && a.audit.version >= expected && c.audit.version == expected
    ensures b == c
  {}

  lemma GuardPassed(w: Platform, db: Db, req: Request, seen: Option<RuleSet>)
    requires (req.UpdateSet? || req.PublishVersion?) && Atomic(w, db, req, seen).writes != NOTHING
    ensures SetAt(db, req.scope, req.setId).Some?
    ensures SetAt(db, req.scope, req.setId).value.audit.version == req.expected
  {
    hide Compile, Unacceptable, Recompiles, VersionById;
  }

  /**
   No ABA: a caller that names a counter it has read before calling is answered with the committed row.  What the
   call reads in between can only be the row that it then swaps.
   */
  lemma KnownCounterIsCurrent(w: Platform, s: State, k: nat)
    requires k < |s.trace.log| && KnewCounter(s, k) && Lawful(w) && Reachable(w, s)
    ensures var c := s.trace.log[k];
      c.seen.Some? && c.seen == SetAt(Instant(s.trace, k), c.req.scope, c.req.setId)
  {
    hide Lawful, Reachable, Instant, After, Atomic, Consistent, LogOk, LocksOk, CachesOk, ThreadOk, SnapshotOk,
         SetGrows;
    Serial(w, s);
    ReachableParts(w, s);
    var c := s.trace.log[k];
    assert LinkOk(w, s.trace, k);
    GuardPassed(w, Instant(s.trace, k), c.req, c.seen);
    var start, id := s.threads[c.tid].start, c.req.setId;
    var j: nat :| start <= j <= k && SetAt(Instant(s.trace, j), c.req.scope, id) == Some(c.seen.value);
    assert Grows(Instant(s.trace, start), Instant(s.trace, j)) && Grows(Instant(s.trace, j), Instant(s.trace, k));
    SqueezedRow(Instant(s.trace, start).sets[id], c.seen.value, Instant(s.trace, k).sets[id], c.req.expected);
  }

  lemma KnownCounterReplies(w: Platform, s: State, k: nat)
    requires k < |s.trace.log| && KnewCounter(s, k) && s.threads[s.trace.log[k].tid].pc.Done?
    requires Lawful(w) && Reachable(w, s)
    ensures var c, b := s.trace.log[k], Instant(s.trace, k + 1);
      var reply := s.threads[c.tid].pc.outcome;
      && c.req.setId in b.sets
      && (c.req.UpdateSet? ==> reply == SetReturned(b.sets[c.req.setId]))
      && (c.req.PublishVersion? ==>
            && c.req.versionId in b.versions && b.outbox != []
            && reply == PublishReturned(b.sets[c.req.setId], b.versions[c.req.versionId])
            && b.outbox[|b.outbox| - 1]
               == Event(b.sets[c.req.setId], b.versions[c.req.versionId], c.req.actor, c.req.at))
  {
    hide Lawful, Reachable, Instant;
    KnownCounterIsCurrent(w, s, k);
    if s.trace.log[k].req.UpdateSet? {
      UpdateReplies(w, s, k);
    } else {
      PublishReplies(w, s, k);
    }
  }

  /******* Safety of every committed state *******/

  lemma AlwaysConsistent(w: Platform, s: State, j: nat, k: nat)
    requires j <= k <= |s.trace.past| && Lawful(w) && Reachable(w, s)
    ensures Consistent(w, Instant(s.trace, j)) && Consistent(w, Instant(s.trace, k))
    ensures Grows(Instant(s.trace, j), Instant(s.trace, k))
  {
    hide Lawful, Reachable, Consistent, Grows, Instant, LinkOk, LogOk, LocksOk, CachesOk, ThreadOk;
    ReachableParts(w, s);
  }

  /** The pointer, once it names a version, names a published one of the same set, and that row never changes. */
  lemma PointerSafe(w: Platform, s: State, j: nat, k: nat, setId: Id) returns (id: Id)
    requires j <= k <= |s.trace.past| && Lawful(w) && Reachable(w, s)
    requires setId in Instant(s.trace, j).sets && Instant(s.trace, j).sets[setId].published != 0
    ensures IsPublished(Instant(s.trace, j), id) && Instant(s.trace, j).versions[id].setId == setId
    ensures Instant(s.trace, j).versions[id].number == Instant(s.trace, j).sets[setId].published
    ensures id in Instant(s.trace, k).versions
    ensures Instant(s.trace, k).versions[id] == Instant(s.trace, j).versions[id]
  {
    hide Lawful, Reachable, Instant;
    AlwaysConsistent(w, s, j, k);
    var a, b := Instant(s.trace, j), Instant(s.trace, k);
    hide Keyed, CodesUnique, Numbered, KeysUnique, AllShaped, OutboxFaithful;
    assert PublishedNumber(a, setId, a.sets[setId].published);
    id :| id in a.versions && a.versions[id].setId == setId && a.versions[id].number == a.sets[setId].published
          && a.versions[id].status.Published?;
    assert VersionGrows(a.versions[id], b.versions[id]);
  }

  /** Having read a pointer, GetRuleSet never finds the version missing or unpublished. */
  lemma GetNeverDangles(w: Platform, s: State, t: nat)
    requires t in s.threads && s.threads[t].req.GetSet? && s.threads[t].pc.GetCurrent? && Lawful(w) && Reachable(w, s)
    ensures var pre := s.threads[t].pc.pre;
      var row := ByNumber(s.trace.db, pre.scope, pre.id, pre.published);
      row.Some? && row.value.status.Published?
  {
    hide Lawful, Reachable, HistoryOk, LogOk, LocksOk, CachesOk, Instant, ByNumber, Sound, Grows, Lookup, SawRef;
    ReachableParts(w, s);
    var th := s.threads[t];
    var k := SawRefAt(s.trace, th.start, th.req.scope, th.req.ref, th.pc.pre);
    SoundBetween(w, s.trace, k, |s.trace.past|);
    LastInstant(w, s.trace);
    GetSetAgrees(Instant(s.trace, k), s.trace.db, th.req, th.pc.pre);
  }

  /** Nor does an evaluation of the default version. */
  lemma EvaluateNeverDangles(w: Platform, s: State, t: nat)
    requires t in s.threads && s.threads[t].req.Evaluate? && s.threads[t].pc.FindVersion?
             && Lawful(w) && Reachable(w, s)
    requires s.threads[t].req.number == 0 && s.threads[t].pc.pre.published != 0
    ensures var pre := s.threads[t].pc.pre;
      var row := ByNumber(s.trace.db, pre.scope, pre.id, pre.published);
      row.Some? && row.value.status.Published?
  {
    hide Lawful, Reachable, HistoryOk, LogOk, LocksOk, CachesOk, Instant, ByNumber, Sound, Grows, Lookup, SawRef;
    ReachableParts(w, s);
    var th := s.threads[t];
    var k := SawRefAt(s.trace, th.start, th.req.scope, th.req.ref, th.pc.pre);
    SoundBetween(w, s.trace, k, |s.trace.past|);
    LastInstant(w, s.trace);
    LookupStable(Instant(s.trace, k), s.trace.db, th.req.scope, th.req.ref);
    PointerWasGood(Instant(s.trace, k), th.pc.pre);
    ByNumberStable(Instant(s.trace, k), s.trace.db, th.pc.pre.scope, th.pc.pre.id, th.pc.pre.published);
  }

  lemma LastInstant(w: Platform, tr: Trace)
    requires HistoryOk(w, tr)
    ensures Instant(tr, |tr.past|) == tr.db && |tr.past| == |tr.log|
  {
    hide LinkOk, Consistent, Grows;
  }

  /** The UNIQUE constraints on number and idempotency key never fire, and the INSERT never waits for them. */
  lemma InsertNeverCollides(w: Platform, s: State, t: nat)
    requires t in s.threads && s.threads[t].req.CreateVersion? && s.threads[t].pc.InsertVersion?
    requires Lawful(w) && Reachable(w, s)
    ensures !UniqueViolated(s.trace.db, s.threads[t].req, s.threads[t].pc.number)
    ensures forall r :: r in VersionKeys(s.threads[t].req, s.threads[t].pc.number) ==> Free(s, t, r)
  {
    hide Lawful, Reachable, Inv, Compile, MayNumber, MaxNumber, UniqueViolated, LocksOk, CachesOk, Keyed, Numbered,
         VersionKeys;
    ReachableOk(w, s);
    InsertKnows(w, s, t);
    NoViolation(w, s.trace.db, s.threads[t].req);
    Caches(w, s);
    KeysNotTaken(s.locks, s.threads, t, s.threads[t].pc.number);
  }

  lemma InsertKnows(w: Platform, s: State, t: nat)
    requires t in s.threads && s.threads[t].req.CreateVersion? && s.threads[t].pc.InsertVersion? && Inv(w, s)
    ensures Keyed(s.trace.db) && Numbered(s.trace.db)
    ensures var req := s.threads[t].req;
      && MayNumber(s.trace.db, req) && req.newId !in s.trace.db.versions
      && s.threads[t].pc.number == MaxNumber(s.trace.db, req.scope, req.setId) + 1
  {
    hide Inv, Compile, MayNumber, MaxNumber, Remembers, CodesUnique, KeysUnique, AllShaped, Pointed, OutboxFaithful,
         Keyed, Numbered, Instant;
    CallFacts(w, s, t);
    FreshVersionId(w, s, t);
  }

  lemma KeyHolder(th: Thread, req: Request, n: int, r: Resource)
    requires req.CreateVersion? && r in VersionKeys(req, n) && r in Held(th)
    ensures th.pc.CommitVersion? && SetRow(req.setId) in Held(th)
  {}

  lemma KeysNotTaken(locks: map<Resource, nat>, threads: map<nat, Thread>, t: nat, n: int)
    requires t in threads && threads[t].req.CreateVersion? && threads[t].pc.InsertVersion? && LocksOk(locks, threads)
    ensures forall r :: r in VersionKeys(threads[t].req, n) ==> r !in locks
  {
    var req := threads[t].req;
    assert SetRow(req.setId) in Held(threads[t]);
    assert SetRow(req.setId) in locks && locks[SetRow(req.setId)] == t;
    hide Held, VersionKeys;
    forall r | r in VersionKeys(req, n) ensures r !in locks {
      if r in locks {
        KeyHolder(threads[locks[r]], req, n, r);
      }
    }
  }

  /******* The cache *******/

  /** Whatever a replica has cached, an evaluation answers as if it recompiled the stored text. */
  lemma CacheNeverMatters(w: Platform, s: State, req: Request, replica: nat, k: nat)
    requires k <= |s.trace.past| && req.Evaluate? && Lawful(w) && Reachable(w, s)
    requires Resolve(Instant(s.trace, k), req).Success?
    ensures var row := Resolve(Instant(s.trace, k), req).value;
      && Recompiles(w, row)
      && ((replica, row.checksum) in s.caches ==>
            Compile(w, row.definition) == Success(s.caches[(replica, row.checksum)])
            && Answered(w, row, s.caches[(replica, row.checksum)], req.facts)
               == AtomicEvaluate(w, Instant(s.trace, k), req))
  {
    ReachableOk(w, s);
    hide Lawful, Reachable, Inv, Compile, Instant, Consistent, Answered, Resolve;
    AlwaysConsistent(w, s, k, k);
    var row := Resolve(Instant(s.trace, k), req).value;
    PublishedRecompiles(w, Instant(s.trace, k), req, row);
    CachedIsCompiled(w, s, (replica, row.checksum), row);
  }
}
