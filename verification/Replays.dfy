/** Idempotent creation: one version per key, however often and however concurrently it is asked for. */
module Replays {
  import opened Wrappers
  import opened Platform
  import opened Engine
  import opened Store
  import opened Lifecycle
  import opened Invariants
  import opened Machine
  import opened Refinement
  import opened Guarantees
  import StepProof

  /** Two requests that name the same key of the same set. */
  predicate SameKey(a: Request, b: Request) {
    a.CreateVersion? && b.CreateVersion? && a.scope == b.scope && a.setId == b.setId && a.key == b.key
  }

  lemma KeyFound(w: Platform, db: Db, scope: Scope, id: Id)
    requires Consistent(w, db) && id in db.versions && db.versions[id].scope == scope
    ensures ByKey(db, scope, db.versions[id].setId, db.versions[id].key) == Some(db.versions[id])
    ensures SetAt(db, scope, db.versions[id].setId).Some?
  {
    hide CodesUnique, Numbered, AllShaped, Pointed, OutboxFaithful;
    assert id in KeyIds(db, scope, db.versions[id].setId, db.versions[id].key);
  }

  /**
   Once a key is committed, a create with that key changes nothing, whatever has happened to the set since:
   the same checksum is answered with the stored version, another checksum with a conflict.
   */
  lemma KeyDecides(w: Platform, a: Db, b: Db, req: Request, id: Id)
    requires Consistent(w, b) && Grows(a, b) && id in a.versions && req.CreateVersion? && !Unacceptable(w, req)
    requires Belongs(a.versions[id], req.scope, req.setId) && a.versions[id].key == req.key
    ensures id in b.versions && VersionGrows(a.versions[id], b.versions[id])
    ensures Atomic(w, b, req, None)
         == if Compile(w, req.text).value.checksum == a.versions[id].checksum
            then Transition(NOTHING, VersionReturned(b.versions[id], false))
            else Refuse(Conflict)
  {
    hide Consistent, Compile, ByKey, SetAt, MaxNumber;
    KeyFound(w, b, req.scope, id);
  }

  /** A call that answered "created" committed the row it answered with, and nobody had used its key before. */
  lemma CreatedMeansCommitted(w: Platform, s: State, t: nat) returns (k: nat)
    requires t in s.threads && s.threads[t].pc.Done? && s.threads[t].req.CreateVersion? && Lawful(w) && Reachable(w, s)
    requires s.threads[t].pc.outcome.VersionReturned? && s.threads[t].pc.outcome.created
    ensures s.threads[t].start <= k < s.threads[t].pc.end <= |s.trace.past|
            && k < |s.trace.log| && s.trace.log[k].tid == t
    ensures var row, req := s.threads[t].pc.outcome.ruleVersion, s.threads[t].req;
      && !Unacceptable(w, req)
      && Storable(w, row)
      && row.id in Instant(s.trace, k + 1).versions && Instant(s.trace, k + 1).versions[row.id] == Stored(w, row)
      && Belongs(row, req.scope, req.setId) && row.key == req.key && row.id == req.newId
      && row.checksum == Compile(w, req.text).value.checksum
      && ByKey(Instant(s.trace, k), req.scope, req.setId, req.key).None?
  {
    hide Lawful, Reachable, Atomic, Instant, After, Stored;
    k := Linearizable(w, s, t);
    Serial(w, s);
    CreatedWrites(w, Instant(s.trace, k), s.threads[t].req, None);
    if k < |s.trace.log| && s.trace.log[k].tid == t {
      CreatedWrites(w, Instant(s.trace, k), s.threads[t].req, s.trace.log[k].seen);
    }
  }

  lemma CreatedWrites(w: Platform, db: Db, req: Request, seen: Option<RuleSet>)
    requires req.CreateVersion?
    ensures var t := Atomic(w, db, req, seen);
      t.writes != NOTHING || (t.outcome.VersionReturned? && t.outcome.created) ==>
        && t.writes != NOTHING && t.outcome.VersionReturned? && t.outcome.created
        && var row := t.outcome.ruleVersion;
        && !Unacceptable(w, req) && Storable(w, row)
        && row.id in After(w, db, req, seen).versions && After(w, db, req, seen).versions[row.id] == Stored(w, row)
        && Belongs(row, req.scope, req.setId) && row.key == req.key && row.id == req.newId
        && row.checksum == Compile(w, req.text).value.checksum
        && ByKey(db, req.scope, req.setId, req.key).None?
  {
    hide Compile, ByKey, SetAt, MaxNumber;
  }

  /** The row a creating commit leaves. */
  lemma CreatingCommit(w: Platform, s: State, k: nat)
    requires k < |s.trace.log| && s.trace.log[k].req.CreateVersion? && Lawful(w) && Reachable(w, s)
    ensures var req, b := s.trace.log[k].req, Instant(s.trace, k + 1);
      && !Unacceptable(w, req) && req.newId in b.versions && Belongs(b.versions[req.newId], req.scope, req.setId)
      && b.versions[req.newId].key == req.key
      && b.versions[req.newId].checksum == Compile(w, req.text).value.checksum
  {
    hide Lawful, Reachable, Atomic, Instant, After, Quotes, ByKey, Unacceptable, Compile;
    Serial(w, s);
    CommitsWrite(w, s, k);
    CreatedWrites(w, Instant(s.trace, k), s.trace.log[k].req, s.trace.log[k].seen);
  }

  /** However many calls race on one key, at most one of them creates. */
  lemma CreatedOnce(w: Platform, s: State, t: nat, u: nat)
    requires t in s.threads && s.threads[t].pc.Done? && u in s.threads && s.threads[u].pc.Done? && t != u
    requires SameKey(s.threads[t].req, s.threads[u].req) && Lawful(w) && Reachable(w, s)
    requires s.threads[t].pc.outcome.VersionReturned? && s.threads[t].pc.outcome.created
    ensures !(s.threads[u].pc.outcome.VersionReturned? && s.threads[u].pc.outcome.created)
  {
    hide Lawful, Reachable, Instant, Stored, ByKey, Unacceptable, Compile, Consistent, Grows;
    if s.threads[u].pc.outcome.VersionReturned? && s.threads[u].pc.outcome.created {
      var j := CreatedMeansCommitted(w, s, t);
      var k := CreatedMeansCommitted(w, s, u);
      var first, later := if j < k then t else u, if j < k then u else t;
      var i, n := if j < k then j else k, if j < k then k else j;
      assert i < n;
      AlwaysConsistent(w, s, i + 1, n);
      StoredKeeps(w, s.threads[first].pc.outcome.ruleVersion);
      KeyStays(w, Instant(s.trace, i + 1), Instant(s.trace, n), s.threads[first].pc.outcome.ruleVersion.id,
               s.threads[later].req);
    }
  }

  lemma KeyStays(w: Platform, a: Db, b: Db, id: Id, req: Request)
    requires Consistent(w, b) && Grows(a, b) && id in a.versions && req.CreateVersion?
    requires Belongs(a.versions[id], req.scope, req.setId) && a.versions[id].key == req.key
    ensures ByKey(b, req.scope, req.setId, req.key).Some?
  {
    hide Consistent, ByKey;
    KeyFound(w, b, req.scope, id);
  }

  /**
   A create that starts after the key was committed is a replay of it: same version, or a conflict; no commit.  The
   creating call may still be on its way to its answer.
   */
  lemma LaterCreatesReplay(w: Platform, s: State, k: nat, u: nat)
    requires k < |s.trace.log| && u in s.threads && s.threads[u].pc.Done? && k < s.threads[u].start
    requires SameKey(s.trace.log[k].req, s.threads[u].req) && !Unacceptable(w, s.threads[u].req)
    requires Lawful(w) && Reachable(w, s)
    ensures NeverLogged(s.trace, u) && s.trace.log[k].req.newId in Instant(s.trace, k + 1).versions
    ensures var row, reply := Instant(s.trace, k + 1).versions[s.trace.log[k].req.newId], s.threads[u].pc.outcome;
      if Compile(w, s.threads[u].req.text).value.checksum == row.checksum
      then reply.VersionReturned? && !reply.created && VersionGrows(row, reply.ruleVersion)
      else reply == Failed(Conflict)
  {
    hide Lawful, Reachable, Instant, ByKey, Unacceptable, Compile, Consistent, Grows, Atomic, NeverLogged, Quotes,
         After;
    CreatingCommit(w, s, k);
    var j := Linearizable(w, s, u);
    AlwaysConsistent(w, s, k + 1, j);
    KeyDecides(w, Instant(s.trace, k + 1), Instant(s.trace, j), s.threads[u].req, s.trace.log[k].req.newId);
    if j < |s.trace.log| && s.trace.log[j].tid == u {
      CommitsWrite(w, s, j);
      SeenIrrelevant(w, Instant(s.trace, j), s.threads[u].req, s.trace.log[j].seen);
    }
  }

  lemma StoredKeeps(w: Platform, row: RuleVersion)
    requires Storable(w, row)
    ensures var v := Stored(w, row);
      v.scope == row.scope && v.setId == row.setId && v.key == row.key && v.checksum == row.checksum && v.id == row.id
  {}

  lemma CommitsWrite(w: Platform, s: State, k: nat)
    requires k < |s.trace.log| && Lawful(w) && Reachable(w, s)
    ensures Atomic(w, Instant(s.trace, k), s.trace.log[k].req, s.trace.log[k].seen).writes != NOTHING
  {
    hide Lawful, Reachable, Atomic, Instant, After, Consistent, Grows, LogOk, LocksOk, CachesOk, ThreadOk, SnapshotOk;
    ReachableParts(w, s);
    assert LinkOk(w, s.trace, k);
  }

  lemma SeenIrrelevant(w: Platform, db: Db, req: Request, seen: Option<RuleSet>)
    requires req.CreateVersion?
    ensures Atomic(w, db, req, seen) == Atomic(w, db, req, None)
  {
    hide Unacceptable, AtomicCreateVersion, Compile;
  }

  lemma ReplayFound(w: Platform, db: Db, req: Request, seen: Option<RuleSet>)
    requires req.CreateVersion? && Keyed(db)
    ensures var t := Atomic(w, db, req, seen).outcome;
      t.VersionReturned? && !t.created ==>
        && t.ruleVersion.id in db.versions && db.versions[t.ruleVersion.id] == t.ruleVersion
        && Belongs(t.ruleVersion, req.scope, req.setId) && t.ruleVersion.key == req.key
  {
    hide Compile, SetAt, MaxNumber, Unacceptable, Storable, Stored;
  }

  /** A call that was answered with a replay was given a committed row of its key. */
  lemma ReplayedRow(w: Platform, s: State, u: nat) returns (k: nat)
    requires u in s.threads && s.threads[u].pc.Done? && s.threads[u].req.CreateVersion? && Lawful(w) && Reachable(w, s)
    requires s.threads[u].pc.outcome.VersionReturned? && !s.threads[u].pc.outcome.created
    ensures k <= |s.trace.past|
    ensures var row, req, db := s.threads[u].pc.outcome.ruleVersion, s.threads[u].req, Instant(s.trace, k);
      && row.id in db.versions && db.versions[row.id] == row && Belongs(row, req.scope, req.setId) && row.key == req.key
  {
    hide Lawful, Reachable, Instant, Atomic, NeverLogged, Quotes, Consistent, Grows, Keyed;
    k := Linearizable(w, s, u);
    AlwaysConsistent(w, s, k, k);
    StepProof.ConsistentKeyed(w, Instant(s.trace, k));
    var own := k < |s.trace.log| && s.trace.log[k].tid == u;
    ReplayFound(w, Instant(s.trace, k), s.threads[u].req, if own then s.trace.log[k].seen else None);
  }

  lemma OneRowPerKey(w: Platform, db: Db, a: RuleVersion, b: RuleVersion)
    requires Consistent(w, db) && a.id in db.versions && VersionGrows(a, db.versions[a.id])
    requires b.id in db.versions && VersionGrows(b, db.versions[b.id])
    requires a.scope == b.scope && a.setId == b.setId && a.key == b.key
    ensures a.id == b.id && a.number == b.number && a.checksum == b.checksum && a.definition == b.definition
  {
    hide Keyed, CodesUnique, Numbered, AllShaped, Pointed, OutboxFaithful;
  }

  /**
   Whatever their order, a call that created a version and a call that was answered with a replay of its key name the
   same version.  The first reply quotes the submitted text, the replay what the column made of it, so the two texts
   agree exactly when the column keeps the text.
   */
  lemma ReplayTextAgrees(w: Platform, s: State, t: nat, u: nat)
    requires t in s.threads && s.threads[t].pc.Done? && u in s.threads && s.threads[u].pc.Done?
    requires SameKey(s.threads[t].req, s.threads[u].req) && Lawful(w) && Reachable(w, s)
    requires s.threads[t].pc.outcome.VersionReturned? && s.threads[t].pc.outcome.created
    requires s.threads[u].pc.outcome.VersionReturned? && !s.threads[u].pc.outcome.created
    ensures var first, replay := s.threads[t].pc.outcome.ruleVersion, s.threads[u].pc.outcome.ruleVersion;
      && replay.id == first.id && replay.number == first.number && replay.checksum == first.checksum
      && w.column(first.definition) == Some(replay.definition)
      && (replay.definition == first.definition <==> w.column(first.definition) == Some(first.definition))
  {
    hide Lawful, Reachable, Instant, Consistent, Unacceptable, ByKey, Compile, VersionGrows;
    var j := CreatedMeansCommitted(w, s, t);
    var k := ReplayedRow(w, s, u);
    AlwaysConsistent(w, s, j + 1, |s.trace.past|);
    AlwaysConsistent(w, s, k, |s.trace.past|);
    var row := Stored(w, s.threads[t].pc.outcome.ruleVersion);
    OneRowPerKey(w, Instant(s.trace, |s.trace.past|), row, s.threads[u].pc.outcome.ruleVersion);
  }

  /** A draft can be published, its counters being right, exactly when its text still compiles to its checksum. */
  lemma PublishableExactly(w: Platform, db: Db, req: Request)
    requires req.PublishVersion? && !Unacceptable(w, req)
    requires SetAt(db, req.scope, req.setId).Some? && VersionById(db, req.scope, req.setId, req.versionId).Some?
    requires SetAt(db, req.scope, req.setId).value.audit.version == req.expected
    requires var draft := VersionById(db, req.scope, req.setId, req.versionId).value;
      draft.status.Draft? && draft.audit.version == req.versionExpected
    ensures Atomic(w, db, req, None).outcome.PublishReturned?
      <==> Recompiles(w, VersionById(db, req.scope, req.setId, req.versionId).value)
  {
    hide Recompiles, Compile, Unacceptable, SetAt, VersionById;
  }

  /** Where the column keeps a text as it is, only the size of the canonical form can stand in the way. */
  lemma FaithfulColumnPublishes(w: Platform, req: Request, number: int)
    requires Lawful(w) && req.CreateVersion? && Compile(w, req.text).Success?
    requires w.column(Compile(w, req.text).value.text) == Some(Compile(w, req.text).value.text)
    ensures var c := Compile(w, req.text).value;
      Recompiles(w, Stored(w, NewVersion(req, c, number))) <==> |c.text| <= MAX_DEFINITION_BYTES
  {
    hide Compile, Lawful;
    CanonicalFixedPoint(w, req.text);
  }

  /** A draft whose stored text does not recompile stays as it is in every later state. */
  lemma DraftForever(w: Platform, s: State, j: nat, k: nat, id: Id)
    requires j <= k <= |s.trace.past| && id in Instant(s.trace, j).versions && Lawful(w) && Reachable(w, s)
    requires !Recompiles(w, Instant(s.trace, j).versions[id])
    ensures id in Instant(s.trace, k).versions && Instant(s.trace, k).versions[id] == Instant(s.trace, j).versions[id]
    ensures Instant(s.trace, k).versions[id].status.Draft?
  {
    hide Lawful, Reachable, Instant, Compile, Keyed, CodesUnique, Numbered, KeysUnique, Pointed, OutboxFaithful;
    AlwaysConsistent(w, s, j, k);
    var a, b := Instant(s.trace, j), Instant(s.trace, k);
    assert VersionGrows(a.versions[id], b.versions[id]) && Shaped(w, a.versions[id]) && Shaped(w, b.versions[id]);
  }
}
