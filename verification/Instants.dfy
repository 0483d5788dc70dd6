/**
 Calls that read twice.  GetRuleSet and Evaluate read the set and then a version of it, with any number of
 commits in between; these lemmas find the one instant at which both reads agree.
 */
module Instants {
  import opened Wrappers
  import opened Platform
  import opened Engine
  import opened Store
  import opened Lifecycle
  import opened Invariants
  import opened Machine
  import opened Refinement

  /** What the two reads rely on. */
  ghost predicate Sound(db: Db) {
    Keyed(db) && CodesUnique(db) && Numbered(db) && Pointed(db)
  }

  /** A set that was found stays found, by the same reference, under the same id. */
  lemma LookupStable(a: Db, b: Db, scope: Scope, ref: SetRef)
    requires Sound(a) && Sound(b) && Grows(a, b) && Lookup(a, scope, ref).Some?
    ensures var row := Lookup(a, scope, ref).value;
      row.id in a.sets && a.sets[row.id] == row && row.scope == scope
      && row.id in b.sets && Lookup(b, scope, ref) == Some(b.sets[row.id])
  {
    var row := Lookup(a, scope, ref).value;
    if ref.ByCode? {
      assert row.id in CodeIds(b, scope, ref.code);
    }
  }

  lemma ByNumberExact(db: Db, scope: Scope, setId: Id, n: int)
    requires Sound(db)
    ensures forall id :: id in db.versions && Belongs(db.versions[id], scope, setId) && db.versions[id].number == n
              ==> ByNumber(db, scope, setId, n) == Some(db.versions[id])
    ensures var v := ByNumber(db, scope, setId, n);
      v.Some? ==> v.value.id in db.versions && db.versions[v.value.id] == v.value
                  && Belongs(v.value, scope, setId) && v.value.number == n
  {
    forall id | id in db.versions && Belongs(db.versions[id], scope, setId) && db.versions[id].number == n
      ensures ByNumber(db, scope, setId, n) == Some(db.versions[id])
    {
      assert id in NumberIds(db, scope, setId, n);
    }
  }

  predicate IsPublished(db: Db, id: Id) {
    id in db.versions && db.versions[id].status.Published?
  }

  /** Whatever commit publishes a version also leaves its set active. */
  lemma PublishingActivates(w: Platform, db: Db, req: Request, seen: Option<RuleSet>, id: Id)
    requires Keyed(db) && !IsPublished(db, id) && IsPublished(After(w, db, req, seen), id)
    ensures var b := After(w, db, req, seen);
      b.versions[id].setId in b.sets && b.sets[b.versions[id].setId].status.Active?
  {
    hide Compile, Unacceptable, Recompiles, CodeIds, ByKey, MaxNumber, Lookup, Resolve, Recomputed;
  }

  /** The instant at which a version came to be published. */
  lemma {:induction false} FirstPublished(w: Platform, tr: Trace, j: nat, k: nat, id: Id) returns (m: nat)
    requires HistoryOk(w, tr) && j <= k <= |tr.past|
    requires !IsPublished(Instant(tr, j), id) && IsPublished(Instant(tr, k), id)
    ensures j < m <= k && IsPublished(Instant(tr, m), id)
    ensures var db := Instant(tr, m);
      db.versions[id].setId in db.sets && db.sets[db.versions[id].setId].status.Active?
    decreases k - j
  {
    hide Consistent, Grows, After, Instant;
    if IsPublished(Instant(tr, k - 1), id) {
      m := FirstPublished(w, tr, j, k - 1, id);
    } else {
      m := k;
      assert LinkOk(w, tr, k - 1);
      SoundThen(w, tr, k - 1);
      PublishingActivates(w, Instant(tr, k - 1), tr.log[k - 1].req, tr.log[k - 1].seen, id);
    }
  }

  lemma SoundThen(w: Platform, tr: Trace, k: nat)
    requires HistoryOk(w, tr) && k <= |tr.past|
    ensures Sound(Instant(tr, k))
  {
    hide LinkOk, Grows, Instant, Keyed, CodesUnique, Numbered, AllShaped, Pointed, KeysUnique, OutboxFaithful;
    assert Consistent(w, Instant(tr, k));
  }

  lemma SoundBetween(w: Platform, tr: Trace, j: nat, k: nat)
    requires HistoryOk(w, tr) && j <= k <= |tr.past|
    ensures Sound(Instant(tr, j)) && Sound(Instant(tr, k)) && Grows(Instant(tr, j), Instant(tr, k))
  {
    SoundThen(w, tr, j);
    SoundThen(w, tr, k);
    hide LinkOk, Grows, Instant, Consistent, Sound;
  }

  /** A pointer that was read as n, n not 0, names a version that was already published then. */
  lemma PointerWasGood(db: Db, row: RuleSet)
    requires Sound(db) && row.id in db.sets && db.sets[row.id] == row && row.published != 0
    ensures var v := ByNumber(db, row.scope, row.id, row.published);
      v.Some? && v.value.status.Published?
  {
    assert PublishedNumber(db, row.id, row.published);
    var id :| id in db.versions && db.versions[id].setId == row.id && db.versions[id].number == row.published
              && db.versions[id].status.Published?;
    ByNumberExact(db, row.scope, row.id, row.published);
    assert Belongs(db.versions[id], row.scope, row.id);
  }

  /** A version found by number once is found by that number ever after, with the same contents. */
  lemma ByNumberStable(a: Db, b: Db, scope: Scope, setId: Id, n: int)
    requires Sound(a) && Sound(b) && Grows(a, b)
    ensures var v, v' := ByNumber(a, scope, setId, n), ByNumber(b, scope, setId, n);
      v.Some? ==> v'.Some? && v'.value.id == v.value.id && VersionGrows(v.value, v'.value)
  {
    ByNumberExact(a, scope, setId, n);
    ByNumberExact(b, scope, setId, n);
    hide ByNumber, Sound;
  }

  /** A row already published at `a` is what its number selects at both instants. */
  lemma PublishedThen(a: Db, b: Db, scope: Scope, setId: Id, n: int, v: RuleVersion)
    requires Sound(a) && Sound(b) && Grows(a, b)
    requires IsPublished(a, v.id) && ByNumber(b, scope, setId, n) == Some(v)
    ensures ByNumber(a, scope, setId, n) == Some(v) && a.versions[v.id] == v
  {
    ByNumberExact(a, scope, setId, n);
    ByNumberExact(b, scope, setId, n);
    hide ByNumber, Sound;
    assert VersionGrows(a.versions[v.id], b.versions[v.id]);
  }

  /******* GetRuleSet *******/

  /** The version read later is the one the pointer named when it was read: never missing, never a draft. */
  lemma GetSetAgrees(a: Db, b: Db, req: Request, pre: RuleSet)
    requires Sound(a) && Sound(b) && Grows(a, b) && req.GetSet?
    requires Lookup(a, req.scope, req.ref) == Some(pre) && pre.published != 0
    ensures var row := ByNumber(b, pre.scope, pre.id, pre.published);
      row.Some? && row.value.status.Published? && AtomicGetSet(a, req) == SetRead(pre, row)
  {
    hide Sound, Grows, ByNumber, Lookup;
    LookupStable(a, b, req.scope, req.ref);
    PointerWasGood(a, pre);
    ByNumberStable(a, b, pre.scope, pre.id, pre.published);
  }

  /******* Evaluate *******/

  /** No version at `b`, so none at `a` either. */
  lemma MissingAgrees(a: Db, b: Db, req: Request, pre: RuleSet)
    requires Sound(a) && Sound(b) && Grows(a, b) && req.Evaluate?
    requires Lookup(a, req.scope, req.ref) == Some(pre) && pre.status.Active?
    requires ByNumber(b, pre.scope, pre.id, Target(pre, req.number)).None?
    ensures Resolve(a, req) == Failure(NotFound)
  {
    hide Sound, Grows, ByNumber, Lookup;
    ByNumberStable(a, b, pre.scope, pre.id, Target(pre, req.number));
  }

  /** The number asked for was given by the caller, unless the pointer was set and so already good. */
  lemma UnpublishedWasAskedFor(a: Db, b: Db, req: Request, pre: RuleSet, v: RuleVersion)
    requires Sound(a) && Sound(b) && Grows(a, b) && req.Evaluate?
    requires pre.id in a.sets && a.sets[pre.id] == pre && !IsPublished(a, v.id)
    requires ByNumber(b, pre.scope, pre.id, Target(pre, req.number)) == Some(v)
    ensures req.number != 0
  {
    ByNumberExact(b, pre.scope, pre.id, Target(pre, req.number));
    assert v.number >= 1;
    ByNumberExact(a, pre.scope, pre.id, pre.published);
    hide Sound, Grows, ByNumber;
    if req.number == 0 {
      PointerWasGood(a, pre);
      ByNumberStable(a, b, pre.scope, pre.id, pre.published);
    }
  }

  /** Still a draft at `b`: the call conflicts there, whether its set is active or not. */
  lemma DraftAgrees(a: Db, b: Db, req: Request, pre: RuleSet)
    requires Sound(a) && Sound(b) && Grows(a, b) && req.Evaluate?
    requires Lookup(a, req.scope, req.ref) == Some(pre) && pre.status.Active?
    requires var row := ByNumber(b, pre.scope, pre.id, Target(pre, req.number));
      row.Some? && row.value.status.Draft?
    ensures Resolve(b, req) == Failure(Conflict)
  {
    var v := ByNumber(b, pre.scope, pre.id, Target(pre, req.number)).value;
    DraftsWereDrafts(a, b, v, pre.scope, pre.id, Target(pre, req.number));
    hide Sound, Grows, ByNumber, Lookup, IsPublished;
    LookupStable(a, b, req.scope, req.ref);
    LookupScope(a, b, pre);
    UnpublishedWasAskedFor(a, b, req, pre, v);
  }

  lemma DraftsWereDrafts(a: Db, b: Db, v: RuleVersion, scope: Scope, setId: Id, n: int)
    requires Sound(b) && Grows(a, b) && ByNumber(b, scope, setId, n) == Some(v) && v.status.Draft?
    ensures !IsPublished(a, v.id)
  {
    ByNumberExact(b, scope, setId, n);
    hide ByNumber, Sound;
    assert v.id in a.versions ==> VersionGrows(a.versions[v.id], b.versions[v.id]);
  }

  lemma LookupScope(a: Db, b: Db, row: RuleSet)
    requires Grows(a, b) && row.id in a.sets && a.sets[row.id] == row
    ensures row.id in b.sets && b.sets[row.id].scope == row.scope && b.sets[row.id].id == row.id
  {}

  /** Published at `m`, where the set is active: the call resolves there to the row seen at `b`. */
  lemma ResolvesAt(a: Db, m: Db, b: Db, req: Request, pre: RuleSet, v: RuleVersion)
    requires Sound(a) && Sound(m) && Sound(b) && Grows(a, m) && Grows(m, b) && req.Evaluate? && req.number != 0
    requires Lookup(a, req.scope, req.ref) == Some(pre)
    requires ByNumber(b, pre.scope, pre.id, req.number) == Some(v) && IsPublished(b, v.id)
    requires IsPublished(m, v.id) && pre.id in m.sets && m.sets[pre.id].status.Active?
    ensures Resolve(m, req) == Success(v)
  {
    ByNumberExact(b, pre.scope, pre.id, req.number);
    hide Sound, Grows, ByNumber, Lookup;
    LookupStable(a, m, req.scope, req.ref);
    LookupScope(a, m, pre);
    PublishedThen(m, b, pre.scope, pre.id, req.number, v);
  }

  /** Published at the second read: resolved at the first, or at the publication that came in between. */
  lemma PublishedInstant(w: Platform, tr: Trace, req: Request, k: nat, pre: RuleSet, v: RuleVersion) returns (m: nat)
    requires HistoryOk(w, tr) && k <= |tr.past| && req.Evaluate?
    requires Lookup(Instant(tr, k), req.scope, req.ref) == Some(pre) && pre.status.Active?
    requires ByNumber(Instant(tr, |tr.past|), pre.scope, pre.id, Target(pre, req.number)) == Some(v)
    requires v.status.Published?
    ensures k <= m <= |tr.past| && Resolve(Instant(tr, m), req) == Success(v)
  {
    hide HistoryOk, Instant, ByNumber, Grows, Lookup, Sound, Resolve;
    var n := |tr.past|;
    var a, b := Instant(tr, k), Instant(tr, n);
    SoundBetween(w, tr, k, n);
    ByNumberExact(b, pre.scope, pre.id, Target(pre, req.number));
    LookupStable(a, b, req.scope, req.ref);
    if IsPublished(a, v.id) {
      m := k;
      PublishedThen(a, b, pre.scope, pre.id, Target(pre, req.number), v);
      ResolvesNow(a, req, pre, v);
    } else {
      UnpublishedWasAskedFor(a, b, req, pre, v);
      m := FirstPublished(w, tr, k, n, v.id);
      SoundBetween(w, tr, k, m);
      SoundBetween(w, tr, m, n);
      SameOwner(Instant(tr, m), b, v.id);
      ResolvesAt(a, Instant(tr, m), b, req, pre, v);
    }
  }

  lemma ResolvesNow(a: Db, req: Request, pre: RuleSet, v: RuleVersion)
    requires req.Evaluate? && Lookup(a, req.scope, req.ref) == Some(pre) && pre.status.Active?
    requires ByNumber(a, pre.scope, pre.id, Target(pre, req.number)) == Some(v) && v.status.Published?
    ensures Resolve(a, req) == Success(v)
  {
    hide Lookup, ByNumber;
  }

  lemma SameOwner(a: Db, b: Db, id: Id)
    requires Grows(a, b) && id in a.versions
    ensures id in b.versions && a.versions[id].setId == b.versions[id].setId
  {}
}
