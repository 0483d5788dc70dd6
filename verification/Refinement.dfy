/** The interleaved machine refines the atomic one: the inductive invariant. */
module Refinement {
  import opened Wrappers
  import opened Platform
  import opened Engine
  import opened Store
  import opened Lifecycle
  import opened Invariants
  import opened Machine

  /******* Histories *******/

  /** Commit `k` is one atomic transition, whose reply was composed from a row its call had read before. */
  ghost predicate LinkOk(w: Platform, tr: Trace, k: nat)
    requires k < |tr.log|
  {
    && Instant(tr, k + 1) == After(w, Instant(tr, k), tr.log[k].req, tr.log[k].seen)
    && Atomic(w, Instant(tr, k), tr.log[k].req, tr.log[k].seen).writes != NOTHING
    && SnapshotOk(Instant(tr, k), tr.log[k].req, tr.log[k].seen)
  }

  ghost predicate HistoryOk(w: Platform, tr: Trace) {
    && |tr.past| == |tr.log|
    && Instant(tr, 0) == EMPTY
    && (forall k :: 0 <= k < |tr.log| ==> LinkOk(w, tr, k))
    && (forall k :: 0 <= k <= |tr.past| ==> Consistent(w, Instant(tr, k)))
    && (forall j, k :: 0 <= j <= k <= |tr.past| ==> Grows(Instant(tr, j), Instant(tr, k)))
  }

  /******* What a call holds and knows *******/

  function Held(th: Thread): set<Resource> {
    match th.req
    case CreateSet(scope, _, code, _, _, _, _) =>
      if th.pc.CommitSet? then {CodeKey(scope, code)} else {}
    case UpdateSet(_, setId, _, _, _, _, _, _) =>
      if th.pc.CommitSwap? then {SetRow(setId)} else {}
    case CreateVersion(_, _, setId, _, _, _, _, _) =>
      (match th.pc
       case FindKey(_, _, _) => {SetRow(setId)}
       case CommitReplay(_, _) => {SetRow(setId)}
       case CountVersions(_) => {SetRow(setId)}
       case InsertVersion(_, _) => {SetRow(setId)}
       case CommitVersion(_, n) => {SetRow(setId)} + VersionKeys(th.req, n)
       case _ => {})
    case PublishVersion(_, setId, versionId, _, _, _, _) =>
      (match th.pc
       case SwapOwner(_, _, _) => {VersionRow(versionId)}
       case AppendEvent(_, _, _) => {VersionRow(versionId), SetRow(setId)}
       case CommitPublish(_, _, _) => {VersionRow(versionId), SetRow(setId)}
       case _ => {})
    case _ => {}
  }

  ghost predicate KnowsCreateSet(db: Db, th: Thread)
    requires th.req.CreateSet?
  {
    match th.pc
    case InsertSet => th.pending == NOTHING
    case CommitSet =>
      && AtomicCreateSet(db, th.req) == Transition(th.pending, SetReturned(NewSet(th.req)))
      && th.pending != NOTHING
    case _ => false
  }

  ghost predicate KnowsUpdateSet(db: Db, th: Thread)
    requires th.req.UpdateSet? && th.req.status.Some?
  {
    match th.pc
    case ReadForUpdate => th.pending == NOTHING
    case SwapSet(_) => th.pending == NOTHING
    case CommitSwap(pre) =>
      && AtomicUpdateSet(db, th.req, Some(pre))
         == Transition(th.pending, SetReturned(Renamed(pre, th.req.expected + 1, th.req)))
      && th.pending != NOTHING
    case _ => false
  }

  /** The set is locked, the key is unused, and the guard on version and status has passed. */
  ghost predicate MayNumber(db: Db, req: Request)
    requires req.CreateVersion?
  {
    var owner := SetAt(db, req.scope, req.setId);
    && owner.Some? && owner.value.audit.version == req.expected && !owner.value.status.Disabled?
    && ByKey(db, req.scope, req.setId, req.key).None?
  }

  ghost predicate KnowsCreateVersion(w: Platform, db: Db, th: Thread)
    requires th.req.CreateVersion? && Compile(w, th.req.text).Success?
  {
    var req, c := th.req, Compile(w, th.req.text).value;
    match th.pc
    case LockSet(compiled) => compiled == c && th.pending == NOTHING
    case FindKey(compiled, version, status) =>
      && compiled == c && th.pending == NOTHING
      && SetAt(db, req.scope, req.setId).Some?
      && SetAt(db, req.scope, req.setId).value.audit.version == version
      && SetAt(db, req.scope, req.setId).value.status == status
    case CommitReplay(compiled, existing) =>
      && compiled == c && th.pending == NOTHING
      && AtomicCreateVersion(w, db, req, c) == Transition(NOTHING, VersionReturned(existing, false))
      && SetAt(db, req.scope, req.setId).Some?
    case CountVersions(compiled) => compiled == c && th.pending == NOTHING && MayNumber(db, req)
    case InsertVersion(compiled, n) =>
      && compiled == c && th.pending == NOTHING && MayNumber(db, req)
      && n == MaxNumber(db, req.scope, req.setId) + 1
    case CommitVersion(compiled, n) =>
      && compiled == c && Storable(w, NewVersion(req, c, n))
      && AtomicCreateVersion(w, db, req, c) == Transition(th.pending, VersionReturned(NewVersion(req, c, n), true))
      && th.pending == NOTHING.(version := Some(Stored(w, NewVersion(req, c, n))))
    case _ => false
  }

  /** The draft the call read is the row it has locked. */
  ghost predicate LockedDraft(db: Db, req: Request, draft: RuleVersion)
    requires req.PublishVersion?
  {
    && VersionById(db, req.scope, req.setId, req.versionId) == Some(draft)
    && draft.audit.version == req.versionExpected
  }

  ghost predicate KnowsPublish(w: Platform, db: Db, th: Thread)
    requires th.req.PublishVersion?
  {
    var req := th.req;
    match th.pc
    case ReadOwner => th.pending == NOTHING
    case ReadDraft(_) => th.pending == NOTHING
    case SwapVersion(_, draft, c) => th.pending == NOTHING && Releasable(w, draft, c)
    case SwapOwner(_, draft, c) =>
      && Releasable(w, draft, c) && LockedDraft(db, req, draft)
      && th.pending == NOTHING.(version := Some(Released(draft, req.versionExpected + 1, req)))
    case AppendEvent(pre, draft, c) =>
      && Releasable(w, draft, c) && LockedDraft(db, req, draft)
      && SetAt(db, req.scope, req.setId).Some?
      && SetAt(db, req.scope, req.setId).value.audit.version == req.expected
      && th.pending == Writes(
           Some(Activated(SetAt(db, req.scope, req.setId).value, draft.number, req.expected + 1, req)),
           Some(Released(draft, req.versionExpected + 1, req)), None)
    case CommitPublish(pre, draft, c) =>
      && Releasable(w, draft, c) && LockedDraft(db, req, draft)
      && AtomicPublish(w, db, req, Some(pre))
         == Transition(th.pending, PublishReturned(Activated(pre, draft.number, req.expected + 1, req),
                                                   Released(draft, req.versionExpected + 1, req)))
      && th.pending != NOTHING
    case _ => false
  }

  predicate Releasable(w: Platform, draft: RuleVersion, c: Compiled) {
    draft.status.Draft? && Recompiles(w, draft) && Compile(w, draft.definition) == Success(c)
  }

  /** What the locks of a call guarantee about the committed rows, and what it has pending. */
  ghost predicate Knows(w: Platform, db: Db, th: Thread) {
    if th.pc.Started? || th.pc.StoreCompiled? || Finished(th.pc) then th.pending == NOTHING
    else
      && !Unacceptable(w, th.req)
      && match th.req
         case CreateSet(_, _, _, _, _, _, _) => KnowsCreateSet(db, th)
         case UpdateSet(_, _, _, _, _, _, _, _) => KnowsUpdateSet(db, th)
         case CreateVersion(_, _, _, _, _, _, _, _) => KnowsCreateVersion(w, db, th)
         case PublishVersion(_, _, _, _, _, _, _) => KnowsPublish(w, db, th)
         case GetSet(_, _) => (th.pc.GetRow? || th.pc.GetCurrent?) && th.pending == NOTHING
         case Evaluate(_, _, _, _) =>
           && (th.pc.FindSet? || th.pc.FindVersion? || th.pc.LoadCompiled? || th.pc.PutCompiled? || th.pc.RunRules?)
           && th.pending == NOTHING
  }

  /******* What a call has seen and said *******/

  /** The row was the committed one at some instant from `start` to `last`. */
  ghost predicate SawSet(tr: Trace, start: nat, last: nat, scope: Scope, setId: Id, row: RuleSet) {
    exists k: nat :: start <= k <= last && SetAt(Instant(tr, k), scope, setId) == Some(row)
  }

  ghost predicate SawDraft(tr: Trace, start: nat, scope: Scope, setId: Id, row: RuleVersion) {
    exists k: nat :: start <= k <= |tr.past| && VersionById(Instant(tr, k), scope, setId, row.id) == Some(row)
  }

  ghost predicate SawRef(tr: Trace, start: nat, scope: Scope, ref: SetRef, row: RuleSet) {
    exists k: nat :: start <= k <= |tr.past| && Lookup(Instant(tr, k), scope, ref) == Some(row)
  }

  ghost predicate Resolved(tr: Trace, start: nat, req: Request, row: RuleVersion)
    requires req.Evaluate?
  {
    exists k: nat :: start <= k <= |tr.past| && Resolve(Instant(tr, k), req) == Success(row)
  }

  ghost predicate NeverLogged(tr: Trace, t: nat) {
    forall k :: 0 <= k < |tr.log| ==> tr.log[k].tid != t
  }

  /** The atomic call, run at instant `k`, answers `outcome`; its effect is commit `k`, or there is none. */
  ghost predicate TakesEffect(w: Platform, tr: Trace, t: nat, req: Request, outcome: Outcome, k: nat) {
    if k < |tr.log| && tr.log[k].tid == t
    then tr.log[k].req == req && Atomic(w, Instant(tr, k), req, tr.log[k].seen).outcome == outcome
    else NeverLogged(tr, t) && Atomic(w, Instant(tr, k), req, None) == Transition(NOTHING, outcome)
  }

  /** `outcome` is what the call answers if it runs alone at some instant between its start and its end. */
  ghost predicate Explained(
    w: Platform, tr: Trace, t: nat, req: Request, start: nat, outcome: Outcome, end: nat)
  {
    exists k: nat ::
      && start <= k <= end <= |tr.past|
      && (k < |tr.log| && tr.log[k].tid == t ==> k < end)
      && TakesEffect(w, tr, t, req, outcome, k)
  }

  ghost predicate Remembers(w: Platform, tr: Trace, t: nat, th: Thread) {
    match th.pc
    case SwapSet(pre) => th.req.UpdateSet? && SawSet(tr, th.start, |tr.past|, th.req.scope, th.req.setId, pre)
    case CommitSwap(pre) => th.req.UpdateSet? && SawSet(tr, th.start, |tr.past|, th.req.scope, th.req.setId, pre)
    case ReadDraft(pre) => th.req.PublishVersion? && SawSet(tr, th.start, |tr.past|, th.req.scope, th.req.setId, pre)
    case SwapVersion(pre, draft, _) =>
      && th.req.PublishVersion? && SawSet(tr, th.start, |tr.past|, th.req.scope, th.req.setId, pre)
      && draft.id == th.req.versionId && SawDraft(tr, th.start, th.req.scope, th.req.setId, draft)
    case SwapOwner(pre, _, _) =>
      th.req.PublishVersion? && SawSet(tr, th.start, |tr.past|, th.req.scope, th.req.setId, pre)
    case AppendEvent(pre, _, _) =>
      th.req.PublishVersion? && SawSet(tr, th.start, |tr.past|, th.req.scope, th.req.setId, pre)
    case CommitPublish(pre, _, _) =>
      th.req.PublishVersion? && SawSet(tr, th.start, |tr.past|, th.req.scope, th.req.setId, pre)
    case GetCurrent(pre) =>
      th.req.GetSet? && pre.published != 0 && SawRef(tr, th.start, th.req.scope, th.req.ref, pre)
    case FindVersion(pre) =>
      th.req.Evaluate? && pre.status.Active? && SawRef(tr, th.start, th.req.scope, th.req.ref, pre)
    case LoadCompiled(v) => th.req.Evaluate? && Resolved(tr, th.start, th.req, v)
    case PutCompiled(v, c) =>
      th.req.Evaluate? && Resolved(tr, th.start, th.req, v) && Compile(w, v.definition) == Success(c)
      && c.checksum == v.checksum
    case RunRules(v, c) =>
      th.req.Evaluate? && Resolved(tr, th.start, th.req, v) && Compile(w, v.definition) == Success(c)
      && c.checksum == v.checksum
    case StoreCompiled(c, outcome) => Compiles(w, c) && Explained(w, tr, t, th.req, th.start, outcome, |tr.past|)
    case Done(outcome, end) => Explained(w, tr, t, th.req, th.start, outcome, end)
    case _ => true
  }

  /** The call has reported its commit, or is past the point of having one. */
  predicate Settled(pc: Pc) {
    pc.StoreCompiled? || pc.Done?
  }

  ghost predicate ThreadOk(w: Platform, tr: Trace, t: nat, th: Thread) {
    && th.start <= |tr.past|
    && Knows(w, tr.db, th)
    && Remembers(w, tr, t, th)
    && (!Settled(th.pc) ==> NeverLogged(tr, t))
  }

  /******* The whole machine *******/

  ghost predicate LocksOk(locks: map<Resource, nat>, threads: map<nat, Thread>) {
    && (forall r :: r in locks ==> locks[r] in threads && r in Held(threads[locks[r]]))
    && (forall t, r :: t in threads && r in Held(threads[t]) ==> r in locks && locks[r] == t)
  }

  ghost predicate CachesOk(w: Platform, caches: map<(nat, string), Compiled>) {
    forall key :: key in caches ==> Cached(w, key.1, caches[key])
  }

  /** Identifiers of rows still to be inserted are in no table and in no other call. */
  ghost predicate IdsOk(db: Db, threads: map<nat, Thread>) {
    && (forall t :: t in threads && threads[t].req.CreateSet? && !Settled(threads[t].pc)
          ==> threads[t].req.newId !in db.sets)
    && (forall t :: t in threads && threads[t].req.CreateVersion? && !Settled(threads[t].pc)
          ==> threads[t].req.newId !in db.versions)
    && (forall t, u :: t in threads && u in threads && t != u
          && threads[t].req.CreateSet? && threads[u].req.CreateSet?
          ==> threads[t].req.newId != threads[u].req.newId)
    && (forall t, u :: t in threads && u in threads && t != u
          && threads[t].req.CreateVersion? && threads[u].req.CreateVersion?
          ==> threads[t].req.newId != threads[u].req.newId)
  }

  /** An update or a publication, and no other call, quotes a row of its set: one that was committed by `last`. */
  ghost predicate Quotes(tr: Trace, start: nat, last: nat, req: Request, seen: Option<RuleSet>) {
    && (seen.Some? <==> req.UpdateSet? || req.PublishVersion?)
    && (seen.Some? ==> SawSet(tr, start, last, req.scope, req.setId, seen.value))
  }

  /** Each commit belongs to one call, falls after its start, and quotes a row that call had seen. */
  ghost predicate CommitOk(tr: Trace, threads: map<nat, Thread>, k: nat)
    requires k < |tr.log|
  {
    var c := tr.log[k];
    && c.tid in threads && threads[c.tid].req == c.req && threads[c.tid].start <= k
    && Quotes(tr, threads[c.tid].start, k, c.req, c.seen)
  }

  ghost predicate LogOk(tr: Trace, threads: map<nat, Thread>) {
    && |tr.past| == |tr.log|
    && (forall k :: 0 <= k < |tr.log| ==> CommitOk(tr, threads, k))
    && (forall j, k :: 0 <= j < k < |tr.log| ==> tr.log[j].tid != tr.log[k].tid)
  }

  ghost predicate Inv(w: Platform, s: State) {
    && HistoryOk(w, s.trace)
    && LogOk(s.trace, s.threads)
    && LocksOk(s.locks, s.threads)
    && CachesOk(w, s.caches)
    && IdsOk(s.trace.db, s.threads)
    && (forall t :: t in s.threads ==> ThreadOk(w, s.trace, t, s.threads[t]))
  }
}
