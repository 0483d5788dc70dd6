/**
 What each call means to its caller, row by row and field by field, in terms of the request and of the rows it finds.
 Nothing here is said through the functions that compose rows and replies; that those do what is said here is proved
 for the atomic machine, and so for every finished call and every commit of every run.
 */
module Meaning {
  import opened Wrappers
  import opened Platform
  import opened Engine
  import opened Store
  import opened Lifecycle
  import opened Invariants
  import opened Machine
  import opened Refinement
  import opened Guarantees
  import opened StepProof
  import Counting
  import Instants
  import Scopes

  /******* Codes *******/

  predicate Letter(c: char) {
    c in "abcdefghijklmnopqrstuvwxyz"
  }

  predicate Sign(c: char) {
    Letter(c) || c in "0123456789._-"
  }

  /** A letter, then one to 127 letters, digits, dots, underscores and hyphens. */
  ghost predicate WellFormedCode(code: string) {
    exists first: char, rest: string ::
      code == [first] + rest && Letter(first) && 1 <= |rest| <= 127 && forall c :: c in rest ==> Sign(c)
  }

  lemma CodesExact(code: string)
    ensures ValidCode(code) <==> WellFormedCode(code)
  {
    hide Letter, Sign, CodeStart, CodePart;
    if ValidCode(code) {
      forall c | c in code[1..] ensures Sign(c) {
        SignExact(c);
      }
      LetterExact(code[0]);
      assert code == [code[0]] + code[1..];
    }
    if WellFormedCode(code) {
      var first: char, rest: string :|
        code == [first] + rest && Letter(first) && 1 <= |rest| <= 127 && forall c :: c in rest ==> Sign(c);
      LetterExact(first);
      forall i | 1 <= i < |code| ensures CodePart(code[i]) {
        assert code[i] == rest[i - 1];
        SignExact(code[i]);
      }
    }
  }

  lemma LetterExact(c: char)
    ensures CodeStart(c) <==> Letter(c)
  {
    if CodeStart(c) {
      assert "abcdefghijklmnopqrstuvwxyz"[c as int - 'a' as int] == c;
    }
  }

  lemma SignExact(c: char)
    ensures CodePart(c) <==> Sign(c)
  {
    hide Letter;
    LetterExact(c);
    if '0' <= c <= '9' {
      assert "0123456789._-"[c as int - '0' as int] == c;
    }
  }

  /******* Finding rows *******/

  ghost predicate Named(a: RuleSet, scope: Scope, ref: SetRef) {
    a.scope == scope && match ref case ById(id) => a.id == id case ByCode(code) => a.code == code
  }

  ghost predicate WithNumber(v: RuleVersion, a: RuleSet, number: int) {
    v.scope == a.scope && v.setId == a.id && v.number == number
  }

  ghost predicate WithKey(v: RuleVersion, req: Request)
    requires req.CreateVersion?
  {
    v.scope == req.scope && v.setId == req.setId && v.key == req.key
  }

  /******* Each call *******/

  ghost predicate Refused(db: Db, db': Db, outcome: Outcome, code: Code) {
    db' == db && outcome == Failed(code)
  }

  ghost predicate CreateSetMeans(db: Db, db': Db, req: Request, outcome: Outcome)
    requires req.CreateSet?
  {
    if req.scope.tenant == "" || req.scope.application == "" || req.name == "" || !WellFormedCode(req.code) then
      Refused(db, db', outcome, Invalid)
    else if exists a :: a in db.sets.Values && a.scope == req.scope && a.code == req.code then
      Refused(db, db', outcome, Internal)
    else
      var row := RuleSet(req.newId, req.scope, req.code, req.name, req.description, Fresh, 0,
                         Audit(1, req.at, req.at, req.actor, req.actor));
      outcome == SetReturned(row) && db' == db.(sets := db.sets[req.newId := row])
  }

  ghost predicate UpdateSetMeans(db: Db, db': Db, req: Request, seen: Option<RuleSet>, outcome: Outcome)
    requires req.UpdateSet?
  {
    if req.scope.application == "" || req.setId == "" || req.name == "" || req.expected < 1 || req.status.None? then
      Refused(db, db', outcome, Invalid)
    else if req.setId !in db.sets || db.sets[req.setId].scope != req.scope then Refused(db, db', outcome, NotFound)
    else if db.sets[req.setId].audit.version != req.expected then Refused(db, db', outcome, Conflict)
    else
      var a := db.sets[req.setId];
      var read := if seen.Some? then seen.value else a;
      && db' == db.(sets := db.sets[req.setId := RuleSet(
           a.id, a.scope, a.code, req.name, req.description, req.status.value, a.published,
           Audit(a.audit.version + 1, a.audit.createdAt, req.at, a.audit.createdBy, req.actor))])
      && outcome == SetReturned(RuleSet(
           read.id, read.scope, read.code, req.name, req.description, req.status.value, read.published,
           Audit(req.expected + 1, read.audit.createdAt, req.at, read.audit.createdBy, req.actor)))
  }

  ghost predicate CreateVersionMeans(w: Platform, db: Db, db': Db, req: Request, outcome: Outcome)
    requires req.CreateVersion?
  {
    if req.scope.application == "" || req.setId == "" || req.key == "" || |req.key| > 191 || req.expected < 1
      || Compile(w, req.text).Failure? then Refused(db, db', outcome, Invalid)
    else if req.setId !in db.sets || db.sets[req.setId].scope != req.scope then Refused(db, db', outcome, NotFound)
    else
      var a, c := db.sets[req.setId], Compile(w, req.text).value;
      if exists v :: v in db.versions.Values && WithKey(v, req) then
        db' == db && forall v :: v in db.versions.Values && WithKey(v, req) ==>
          outcome == if v.checksum == c.checksum then VersionReturned(v, false) else Failed(Conflict)
      else if a.audit.version != req.expected || a.status == Disabled then Refused(db, db', outcome, Conflict)
      else if w.column(c.text).None? then Refused(db, db', outcome, Internal)
      else
        var row := RuleVersion(req.newId, req.scope, req.setId, |Counting.VersionIds(db, req.setId)| + 1, Draft, c.text,
                               c.checksum, req.key, None, Audit(1, req.at, req.at, req.actor, req.actor));
        && outcome == VersionReturned(row, true)
        && db' == db.(versions := db.versions[req.newId := row.(definition := w.column(c.text).value)])
  }

  ghost predicate PublishMeans(w: Platform, db: Db, db': Db, req: Request, seen: Option<RuleSet>, outcome: Outcome)
    requires req.PublishVersion?
  {
    if req.scope.application == "" || req.expected < 1 || req.versionExpected < 1 then
      Refused(db, db', outcome, Invalid)
    else if req.setId !in db.sets || db.sets[req.setId].scope != req.scope
      || req.versionId !in db.versions || db.versions[req.versionId].scope != req.scope
      || db.versions[req.versionId].setId != req.setId then Refused(db, db', outcome, NotFound)
    else
      var a, v := db.sets[req.setId], db.versions[req.versionId];
      var read := if seen.Some? then seen.value else a;
      var compiled := Compile(w, v.definition);
      if v.status != Draft || compiled.Failure? || compiled.value.checksum != v.checksum
        || v.audit.version != req.versionExpected || a.audit.version != req.expected then
        Refused(db, db', outcome, Conflict)
      else
        var version := RuleVersion(
          v.id, v.scope, v.setId, v.number, Published, v.definition, v.checksum, v.key, Some(req.at),
          Audit(v.audit.version + 1, v.audit.createdAt, req.at, v.audit.createdBy, req.actor));
        var row := RuleSet(
          a.id, a.scope, a.code, a.name, a.description, Active, v.number,
          Audit(a.audit.version + 1, a.audit.createdAt, req.at, a.audit.createdBy, req.actor));
        var reply := RuleSet(
          read.id, read.scope, read.code, read.name, read.description, Active, v.number,
          Audit(req.expected + 1, read.audit.createdAt, req.at, read.audit.createdBy, req.actor));
        && db' == Db(db.sets[req.setId := row], db.versions[req.versionId := version],
                     db.outbox + [Event(reply, version, req.actor, req.at)])
        && outcome == PublishReturned(reply, version)
  }

  ghost predicate GetSetMeans(db: Db, req: Request, outcome: Outcome)
    requires req.GetSet?
  {
    if req.scope.application == "" then outcome == Failed(Invalid)
    else if !exists a :: a in db.sets.Values && Named(a, req.scope, req.ref) then outcome == Failed(NotFound)
    else
      && outcome.SetRead? && outcome.ruleSet in db.sets.Values && Named(outcome.ruleSet, req.scope, req.ref)
      && (outcome.current.None? <==> outcome.ruleSet.published == 0)
      && (outcome.current.Some? ==>
            var v := outcome.current.value;
            && v in db.versions.Values && WithNumber(v, outcome.ruleSet, outcome.ruleSet.published)
            && v.status == Published)
  }

  /** What the rules of the version's own text say about the facts. */
  ghost predicate RulesSay(w: Platform, v: RuleVersion, facts: string, outcome: Outcome) {
    if |facts| == 0 || |facts| > 262144 || w.facts(facts).None? then outcome == Failed(Invalid)
    else
      && w.decode(v.definition).Single?
      && var d, known := w.decode(v.definition).definition, w.facts(facts).value;
      if exists i :: Decisive(w, d, known, i) && w.run(d.rules[i].condition, known) != True then
        outcome == Failed(Internal)
      else
        outcome.Evaluated? && outcome.ruleVersion == v && Means(w, d, known, Success(outcome.evaluation))
  }

  ghost predicate EvaluateMeans(w: Platform, db: Db, req: Request, outcome: Outcome)
    requires req.Evaluate?
  {
    if req.scope.application == "" then outcome == Failed(Invalid)
    else if !exists a :: a in db.sets.Values && Named(a, req.scope, req.ref) then outcome == Failed(NotFound)
    else
      forall a :: a in db.sets.Values && Named(a, req.scope, req.ref) ==>
        var number := if req.number == 0 then a.published else req.number;
        if a.status != Active then outcome == Failed(Conflict)
        else if !exists v :: v in db.versions.Values && WithNumber(v, a, number) then outcome == Failed(NotFound)
        else
          forall v :: v in db.versions.Values && WithNumber(v, a, number) ==>
            if v.status != Published then outcome == Failed(Conflict) else RulesSay(w, v, req.facts, outcome)
  }

  ghost predicate CallMeans(w: Platform, db: Db, db': Db, req: Request, seen: Option<RuleSet>, outcome: Outcome) {
    match req
    case CreateSet(_, _, _, _, _, _, _) => CreateSetMeans(db, db', req, outcome)
    case UpdateSet(_, _, _, _, _, _, _, _) => UpdateSetMeans(db, db', req, seen, outcome)
    case CreateVersion(_, _, _, _, _, _, _, _) => CreateVersionMeans(w, db, db', req, outcome)
    case PublishVersion(_, _, _, _, _, _, _) => PublishMeans(w, db, db', req, seen, outcome)
    case GetSet(_, _) => db' == db && GetSetMeans(db, req, outcome)
    case Evaluate(_, _, _, _) => db' == db && EvaluateMeans(w, db, req, outcome)
  }

  /******* The atomic machine does what the calls mean *******/

  lemma CreateSetIsMeant(w: Platform, db: Db, req: Request, seen: Option<RuleSet>)
    requires req.CreateSet? && Keyed(db) && NewId(db, req)
    ensures CreateSetMeans(db, After(w, db, req, seen), req, Atomic(w, db, req, seen).outcome)
  {
    hide ValidCode, WellFormedCode, CodeIds, Keyed;
    CodesExact(req.code);
    CodeTaken(db, req.scope, req.code);
  }

  lemma CodeTaken(db: Db, scope: Scope, code: string)
    ensures CodeIds(db, scope, code) != {} <==> exists a :: a in db.sets.Values && a.scope == scope && a.code == code
  {
    if id :| id in CodeIds(db, scope, code) {
      assert db.sets[id] in db.sets.Values;
    }
    if a :| a in db.sets.Values && a.scope == scope && a.code == code {
      var id :| id in db.sets && db.sets[id] == a;
      assert id in CodeIds(db, scope, code);
    }
  }

  lemma UpdateSetIsMeant(w: Platform, db: Db, req: Request, seen: Option<RuleSet>)
    requires req.UpdateSet? && Keyed(db)
    ensures UpdateSetMeans(db, After(w, db, req, seen), req, seen, Atomic(w, db, req, seen).outcome)
  {
    hide ValidCode;
  }

  lemma VersionWithKey(w: Platform, db: Db, req: Request)
    requires req.CreateVersion? && Consistent(w, db)
    ensures var found := ByKey(db, req.scope, req.setId, req.key);
      && (found.Some? <==> exists v :: v in db.versions.Values && WithKey(v, req))
      && forall v :: v in db.versions.Values && WithKey(v, req) ==> found == Some(v)
  {
    hide CodesUnique, Numbered, AllShaped, Pointed, OutboxFaithful;
    var ids := KeyIds(db, req.scope, req.setId, req.key);
    if id :| id in ids {
      assert db.versions[id] in db.versions.Values;
    }
    forall v | v in db.versions.Values && WithKey(v, req) ensures ByKey(db, req.scope, req.setId, req.key) == Some(v) {
      var id :| id in db.versions && db.versions[id] == v;
      assert id in ids;
    }
  }

  /** The next number is one more than there are versions. */
  lemma NextNumber(w: Platform, db: Db, scope: Scope, setId: Id)
    requires Consistent(w, db) && setId in db.sets && db.sets[setId].scope == scope
    ensures MaxNumber(db, scope, setId) == |Counting.VersionIds(db, setId)|
  {
    hide CodesUnique, KeysUnique, AllShaped, Pointed, OutboxFaithful, Counting.Interval, Counting.VersionIds;
    var n := |Counting.VersionIds(db, setId)|;
    Counting.NumbersAreDense(w, db, setId);
    Counting.IntervalIs(n);
    NewNumber(db, scope, setId);
    hide Keyed, Numbered, MaxNumber;
    assert forall k :: k in Numbers(db, scope, setId) <==> 1 <= k <= n;
    LastOf(Numbers(db, scope, setId), n);
    assert MaxNumber(db, scope, setId) == MaxOf(Numbers(db, scope, setId)) by { MaxIs(db, scope, setId); }
  }

  lemma MaxIs(db: Db, scope: Scope, setId: Id)
    ensures MaxNumber(db, scope, setId) == MaxOf(Numbers(db, scope, setId))
  {}

  lemma LastOf(numbers: set<int>, n: nat)
    requires forall k :: k in numbers <==> 1 <= k <= n
    ensures MaxOf(numbers) == n
  {
    assert n > 0 ==> n in numbers;
  }

  lemma CreateVersionIsMeant(w: Platform, db: Db, req: Request, seen: Option<RuleSet>)
    requires req.CreateVersion? && Consistent(w, db) && NewId(db, req)
    ensures CreateVersionMeans(w, db, After(w, db, req, seen), req, Atomic(w, db, req, seen).outcome)
  {
    hide Consistent, Compile, ByKey, MaxNumber, Counting.VersionIds, WithKey;
    VersionWithKey(w, db, req);
    if req.setId in db.sets && db.sets[req.setId].scope == req.scope {
      NextNumber(w, db, req.scope, req.setId);
    }
  }

  lemma PublishIsMeant(w: Platform, db: Db, req: Request, seen: Option<RuleSet>)
    requires req.PublishVersion? && Keyed(db)
    ensures PublishMeans(w, db, After(w, db, req, seen), req, seen, Atomic(w, db, req, seen).outcome)
  {
    hide Compile;
  }

  lemma SetNamed(w: Platform, db: Db, scope: Scope, ref: SetRef)
    requires Consistent(w, db)
    ensures var found := Lookup(db, scope, ref);
      && (found.Some? <==> exists a :: a in db.sets.Values && Named(a, scope, ref))
      && (found.Some? ==> found.value in db.sets.Values && Named(found.value, scope, ref))
      && forall a :: a in db.sets.Values && Named(a, scope, ref) ==> found == Some(a)
  {
    hide Numbered, KeysUnique, AllShaped, Pointed, OutboxFaithful;
    forall a | a in db.sets.Values && Named(a, scope, ref) ensures Lookup(db, scope, ref) == Some(a) {
      var id :| id in db.sets && db.sets[id] == a;
      if ref.ByCode? {
        assert id in CodeIds(db, scope, ref.code);
      }
    }
    if Lookup(db, scope, ref).Some? {
      assert Lookup(db, scope, ref).value in db.sets.Values;
    }
  }

  lemma VersionNumbered(w: Platform, db: Db, a: RuleSet, number: int)
    requires Consistent(w, db)
    ensures var found := ByNumber(db, a.scope, a.id, number);
      && (found.Some? <==> exists v :: v in db.versions.Values && WithNumber(v, a, number))
      && (found.Some? ==> found.value in db.versions.Values && WithNumber(found.value, a, number))
      && forall v :: v in db.versions.Values && WithNumber(v, a, number) ==> found == Some(v)
  {
    hide CodesUnique, KeysUnique, AllShaped, Pointed, OutboxFaithful, ByNumber;
    assert Instants.Sound(db);
    Instants.ByNumberExact(db, a.scope, a.id, number);
    hide Keyed, Numbered;
    forall v | v in db.versions.Values && WithNumber(v, a, number)
      ensures ByNumber(db, a.scope, a.id, number) == Some(v)
    {
      var id :| id in db.versions && db.versions[id] == v;
      assert Belongs(db.versions[id], a.scope, a.id);
    }
  }

  lemma GetSetIsMeant(w: Platform, db: Db, req: Request)
    requires req.GetSet? && Consistent(w, db)
    ensures GetSetMeans(db, req, Atomic(w, db, req, None).outcome)
  {
    hide Lookup, ByNumber, Named, WithNumber, CodesUnique, KeysUnique, AllShaped, OutboxFaithful, Keyed, Numbered,
         Pointed;
    SetNamed(w, db, req.scope, req.ref);
    var found := Lookup(db, req.scope, req.ref);
    if found.Some? && found.value.published != 0 {
      VersionNumbered(w, db, found.value, found.value.published);
      assert Instants.Sound(db);
      Instants.LookupStable(db, db, req.scope, req.ref);
      Instants.PointerWasGood(db, found.value);
    }
  }

  lemma AnsweredIsMeant(w: Platform, v: RuleVersion, facts: string)
    requires Recompiles(w, v)
    ensures RulesSay(w, v, facts, Recomputed(w, v, facts))
  {
    hide Compile, Decide, Means;
    if 1 <= |facts| <= 262144 && w.facts(facts).Some? {
      FirstMatch(w, v.definition, facts);
      MeansTells(w, w.decode(v.definition).definition, w.facts(facts).value,
                 EvaluateCompiled(w, Compile(w, v.definition).value, facts));
    }
  }

  lemma MeansTells(w: Platform, d: Definition, facts: Facts, r: Result<Evaluation, EvaluationError>)
    requires Means(w, d, facts, r)
    ensures r.Failure? ==> r.error == RuleFailed
    ensures r.Failure? <==> exists i :: Decisive(w, d, facts, i) && w.run(d.rules[i].condition, facts) != True
  {
    SomeDecisive(w, d, facts, |d.rules|);
    hide Decisive;
    if i :| Decisive(w, d, facts, i) {
      assert r == Answer(w, d.rules[i], facts) && 0 <= i < |d.rules| by { IsRule(w, d, facts, i); }
      forall k | Decisive(w, d, facts, k) ensures k == i {
        OneDecisive(w, d, facts, i, k);
      }
    }
  }

  lemma IsRule(w: Platform, d: Definition, facts: Facts, i: int)
    requires Decisive(w, d, facts, i)
    ensures 0 <= i < |d.rules|
  {}

  lemma OneDecisive(w: Platform, d: Definition, facts: Facts, i: int, k: int)
    requires Decisive(w, d, facts, i) && Decisive(w, d, facts, k)
    ensures i == k
  {}

  lemma {:induction false} SomeDecisive(w: Platform, d: Definition, facts: Facts, n: nat)
    requires n <= |d.rules|
    ensures
      || (forall i :: 0 <= i < n ==> w.run(d.rules[i].condition, facts).False?)
      || exists i :: Decisive(w, d, facts, i)
  {
    if n > 0 {
      SomeDecisive(w, d, facts, n - 1);
      if forall i :: 0 <= i < n - 1 ==> w.run(d.rules[i].condition, facts).False? {
        assert w.run(d.rules[n - 1].condition, facts).False? || Decisive(w, d, facts, n - 1);
      }
    }
  }

  lemma EvaluateIsMeant(w: Platform, db: Db, req: Request)
    requires req.Evaluate? && Consistent(w, db)
    ensures EvaluateMeans(w, db, req, Atomic(w, db, req, None).outcome)
  {
    hide Lookup, ByNumber, Named, WithNumber, Consistent, RulesSay, Recomputed, Compile, Recompiles;
    SetNamed(w, db, req.scope, req.ref);
    var found := Lookup(db, req.scope, req.ref);
    if found.Some? {
      VersionNumbered(w, db, found.value, if req.number == 0 then found.value.published else req.number);
    }
    if Resolve(db, req).Success? {
      PublishedRecompiles(w, db, req, Resolve(db, req).value);
      AnsweredIsMeant(w, Resolve(db, req).value, req.facts);
    }
  }

  /******* Every call of every run *******/

  lemma AtomicIsMeant(w: Platform, db: Db, req: Request, seen: Option<RuleSet>)
    requires Consistent(w, db) && NewId(db, req)
    ensures CallMeans(w, db, After(w, db, req, seen), req, seen, Atomic(w, db, req, seen).outcome)
  {
    hide Atomic, After, CreateSetMeans, UpdateSetMeans, CreateVersionMeans, PublishMeans, GetSetMeans, EvaluateMeans;
    assert Keyed(db) by { ConsistentKeyed(w, db); }
    hide Consistent;
    match req
    case CreateSet(_, _, _, _, _, _, _) => CreateSetIsMeant(w, db, req, seen);
    case UpdateSet(_, _, _, _, _, _, _, _) => UpdateSetIsMeant(w, db, req, seen);
    case CreateVersion(_, _, _, _, _, _, _, _) => CreateVersionIsMeant(w, db, req, seen);
    case PublishVersion(_, _, _, _, _, _, _) => PublishIsMeant(w, db, req, seen);
    case GetSet(_, _) =>
      ReadsOnly(w, db, req, seen);
      GetSetIsMeant(w, db, req);
    case Evaluate(_, _, _, _) =>
      ReadsOnly(w, db, req, seen);
      EvaluateIsMeant(w, db, req);
  }

  lemma ReadsOnly(w: Platform, db: Db, req: Request, seen: Option<RuleSet>)
    requires req.GetSet? || req.Evaluate?
    ensures After(w, db, req, seen) == db && Atomic(w, db, req, seen) == Atomic(w, db, req, None)
  {
    hide AtomicGetSet, AtomicEvaluate, Unacceptable;
  }

  /** Each commit of a run did to the tables what its call means, and its call is answered accordingly. */
  lemma CommitsMean(w: Platform, s: State, k: nat)
    requires k < |s.trace.log| && Lawful(w) && Reachable(w, s)
    ensures var c, a, b := s.trace.log[k], Instant(s.trace, k), Instant(s.trace, k + 1);
      && CallMeans(w, a, b, c.req, c.seen, Atomic(w, a, c.req, c.seen).outcome)
      && (c.tid in s.threads && s.threads[c.tid].pc.Done?
          ==> CallMeans(w, a, b, c.req, c.seen, s.threads[c.tid].pc.outcome))
  {
    hide Lawful, Reachable, Instant, Atomic, After, Consistent, Grows, CallMeans, Keyed, SnapshotOk, Quotes;
    var c := s.trace.log[k];
    Serial(w, s);
    AlwaysConsistent(w, s, k, k + 1);
    Scopes.StillNew(w, s, c.tid, k);
    AtomicIsMeant(w, Instant(s.trace, k), c.req, c.seen);
    if c.tid in s.threads && s.threads[c.tid].pc.Done? {
      AnsweredAtCommit(w, s, k);
    }
  }

  /**
   Each finished call of a run was given an answer it means, on the tables of one instant while it ran; if it has no
   commit there, it means to change nothing.
   */
  lemma AnswersMean(w: Platform, s: State, t: nat) returns (k: nat)
    requires t in s.threads && s.threads[t].pc.Done? && Lawful(w) && Reachable(w, s)
    ensures s.threads[t].start <= k <= s.threads[t].pc.end <= |s.trace.past| && |s.trace.past| == |s.trace.log|
    ensures var req, outcome, db := s.threads[t].req, s.threads[t].pc.outcome, Instant(s.trace, k);
      if k < |s.trace.log| && s.trace.log[k].tid == t
      then CallMeans(w, db, Instant(s.trace, k + 1), req, s.trace.log[k].seen, outcome)
      else CallMeans(w, db, db, req, None, outcome)
  {
    hide Lawful, Reachable, Instant, Atomic, Consistent, Grows, CallMeans, Quotes, After;
    Serial(w, s);
    k := Linearizable(w, s, t);
    if k < |s.trace.log| && s.trace.log[k].tid == t {
      CommitsMean(w, s, k);
    } else {
      AlwaysConsistent(w, s, k, k);
      Scopes.StillNew(w, s, t, k);
      AtomicIsMeant(w, Instant(s.trace, k), s.threads[t].req, None);
      assert After(w, Instant(s.trace, k), s.threads[t].req, None) == Instant(s.trace, k) by {
        WritesNothing(w, Instant(s.trace, k), s.threads[t].req);
      }
    }
  }

  lemma WritesNothing(w: Platform, db: Db, req: Request)
    requires Atomic(w, db, req, None).writes == NOTHING
    ensures After(w, db, req, None) == db
  {
    hide Atomic;
  }
}
