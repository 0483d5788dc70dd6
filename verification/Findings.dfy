/** Runs that show what the lifecycle does not promise, on libraries simple enough to write down. */
module Findings {
  import opened Wrappers
  import opened Platform
  import opened Engine
  import opened Store
  import opened Lifecycle
  import opened Invariants
  import opened Machine
  import opened Realization
  import Progress

  const OBJECT := "{}"
  const RULE := DefinitionRule("r", "c", OBJECT)
  const DEFINITION := Definition([RULE], OBJECT)

  /** Knows one text, which it decodes to one rule whose condition always holds. */
  const SIMPLE: Platform := Platform(
    (raw: string) => if raw == "d" then Single(DEFINITION) else Malformed,
    (d: Definition) => Some("d"),
    (raw: string) => raw,
    (raw: string) => raw == OBJECT,
    (raw: string) => raw,
    (text: string) => text,
    true,
    (condition: string) => Usable,
    (condition: string, facts: Facts) => True,
    (text: string) => Some(text),
    (text: string) => text,
    (text: string) => Some(text))

  /** However it reads and writes definitions, such a library accepts one well-formed rule. */
  lemma Accepts(w: Platform, text: string, d: Definition)
    requires w == SIMPLE.(decode := w.decode, marshal := w.marshal, isObject := w.isObject, canonical := w.canonical,
                          column := w.column)
    requires |text| == 1 && w.decode(text) == Single(d) && w.marshal(d).Some? && ObjectResults(w, d)
    requires |d.rules| == 1 && d.rules[0].name == "r" && d.rules[0].condition == "c"
    ensures Compile(w, text).Success?
    ensures Compile(w, text).value.text == w.marshal(d).value
    ensures Compile(w, text).value.checksum == w.marshal(d).value
  {
    ConditionsUsable(w, d.rules, 1);
    assert WellShaped(w, d);
    ShapeAccepts(w, d);
    hide ShapeIssues, ConditionIssues, WellShaped, CompileRules;
  }

  /** The assumed laws have a model, and in it a definition is accepted. */
  lemma SimpleIsLawful()
    ensures Lawful(SIMPLE) && Compile(SIMPLE, "d").Success?
    ensures Compile(SIMPLE, "d").value.text == "d" && Compile(SIMPLE, "d").value.checksum == "d"
  {
    assert Compacted(SIMPLE, DEFINITION) == DEFINITION;
    hide Compile;
    Accepts(SIMPLE, "d", DEFINITION);
  }

  const SCOPE := Scope("t", "a")

  function Creation(id: Id): Request {
    CreateSet(SCOPE, id, "ab", "name", "", "u", 0)
  }

  function Addition(id: Id, key: string): Request {
    CreateVersion(SCOPE, id, "s", "d", key, 1, "u", 0)
  }

  function Publication(id: Id, expected: int): Request {
    PublishVersion(SCOPE, "s", id, expected, 1, "u", 0)
  }

  function Renaming(): Request {
    UpdateSet(SCOPE, "s", "new", "", Some(Active), 1, "u", 0)
  }

  function Update(status: SetStatus, expected: int): Request {
    UpdateSet(SCOPE, "s", "name", "", Some(status), expected, "u", 0)
  }

  lemma Start(w: Platform)
    ensures Reachable(w, INITIAL)
  {
    assert Run(w, []) == Some(INITIAL);
  }

  function Row(version: int, status: SetStatus, published: int): RuleSet {
    RuleSet("s", SCOPE, "ab", "name", "", status, published, Audit(version, 0, 0, "u", "u"))
  }

  function Version(id: Id, number: int, key: string): RuleVersion {
    RuleVersion(id, SCOPE, "s", number, Draft, "d", "d", key, None, Audit(1, 0, 0, "u", "u"))
  }

  /** The library accepts the text, as it is. */
  ghost predicate Takes(w: Platform) {
    && Lawful(w)
    && Compile(w, "d").Success? && Compile(w, "d").value.text == "d" && Compile(w, "d").value.checksum == "d"
    && w.column("d").Some?
  }

  lemma AfterCreation(w: Platform)
    ensures After(w, EMPTY, Creation("s"), None) == Db(map["s" := Row(1, Fresh, 0)], map[], [])
  {
    assert CodeIds(EMPTY, SCOPE, "ab") == {};
  }

  lemma AfterAddition(w: Platform, db: Db, id: Id, key: string, number: int)
    requires Takes(w) && "s" in db.sets && db.sets["s"] == Row(1, Fresh, 0) && key in ["k", "l"]
    requires KeyIds(db, SCOPE, "s", key) == {} && id !in db.versions && MaxNumber(db, SCOPE, "s") + 1 == number
    ensures After(w, db, Addition(id, key), None)
         == db.(versions := db.versions[id := Stored(w, Version(id, number, key))])
    ensures Atomic(w, db, Addition(id, key), None).outcome == VersionReturned(Version(id, number, key), true)
  {
    hide Compile, MaxNumber, KeyIds, Lawful;
  }

  /** Publishing a stored draft on the counter the set has. */
  lemma AfterPublication(db: Db, id: Id, expected: int)
    requires "s" in db.sets && db.sets["s"].id == "s" && db.sets["s"].scope == SCOPE
    requires db.sets["s"].audit.version == expected >= 1
    requires id in db.versions && exists number, key :: db.versions[id] == Version(id, number, key)
    ensures var db' := After(SIMPLE, db, Publication(id, expected), None);
      && db'.sets == db.sets["s" :=
           Activated(db.sets["s"], db.versions[id].number, expected + 1, Publication(id, expected))]
      && db'.versions == db.versions[id := Released(db.versions[id], 2, Publication(id, expected))]
  {
    SimpleIsLawful();
    hide Compile;
  }

  /** A set with one draft, in a machine where nobody is at work. */
  lemma Stocked(w: Platform) returns (s: State)
    requires Takes(w)
    ensures Reachable(w, s) && s.locks == map[] && s.threads.Keys == {0, 1}
    ensures s.trace.db == Db(map["s" := Row(1, Fresh, 0)], map["v" := Stored(w, Version("v", 1, "k"))], [])
    ensures s.threads[0].req == Creation("s") && s.threads[1].req == Addition("v", "k")
    ensures s.threads[1].pc.Done? && s.threads[1].pc.outcome == VersionReturned(Version("v", 1, "k"), true)
  {
    hide Compile, Reachable, Lawful, Run;
    Start(w);
    var created := Realized(w, INITIAL, 0, Creation("s"), 0);
    AfterCreation(w);
    var db := created.trace.db;
    assert KeyIds(db, SCOPE, "s", "k") == {} && Numbers(db, SCOPE, "s") == {};
    assert MaxNumber(db, SCOPE, "s") == 0;
    s := Realized(w, created, 1, Addition("v", "k"), 0);
    AfterAddition(w, db, "v", "k", 1);
  }

  lemma Prepared() returns (s: State)
    ensures Reachable(SIMPLE, s) && s.locks == map[] && s.threads.Keys == {0, 1}
    ensures s.trace.db == Db(map["s" := Row(1, Fresh, 0)], map["v" := Version("v", 1, "k")], [])
    ensures s.threads[0].req == Creation("s") && s.threads[1].req == Addition("v", "k")
  {
    hide Compile, Reachable, Lawful, Run;
    SimpleIsLawful();
    s := Stocked(SIMPLE);
  }

  /** An update has read the set at counter 1 and is about to swap it at counter 2. */
  lemma Waiting() returns (s: State)
    ensures Reachable(SIMPLE, s) && s.locks == map[] && s.threads.Keys == {0, 1, 2}
    ensures s.trace.db == Db(map["s" := Row(1, Fresh, 0)], map["v" := Version("v", 1, "k")], [])
    ensures s.threads[2].req == Update(Active, 2) && s.threads[2].pc == SwapSet(Row(1, Fresh, 0))
  {
    hide Compile, Reachable, Lawful, Run, After, Atomic;
    s := Prepared();
    s := Next(s, Begin(2, Update(Active, 2), 0));
    s := Next(s, Advance(2));
    s := Next(s, Advance(2));
  }

  /**
   An update whose caller read the set before a publication, yet named the counter the publication left behind,
   commits; its reply still shows the pointer from before.
   */
  lemma StaleReply() returns (s: State)
    ensures Reachable(SIMPLE, s) && 2 in s.threads && s.threads[2].pc.Done? && s.threads[2].pc.outcome.SetReturned?
    ensures "s" in s.trace.db.sets && s.trace.db.sets["s"].published == 1
    ensures s.threads[2].pc.outcome.ruleSet == s.trace.db.sets["s"].(published := 0)
  {
    hide Compile, Reachable, Lawful, Run, After, Atomic;
    SimpleIsLawful();
    s := Waiting();
    AfterPublication(s.trace.db, "v", 1);
    s := Realized(SIMPLE, s, 3, Publication("v", 1), 0);
    s := Next(s, Advance(2));
    s := Next(s, Advance(2));
  }

  lemma Next(s: State, a: Action) returns (next: State)
    requires Do(SIMPLE, s, a).Some? && Reachable(SIMPLE, s)
    ensures Do(SIMPLE, s, a) == Some(next) && Reachable(SIMPLE, next)
  {
    hide Do;
    Progress.ReachableNext(SIMPLE, s, a);
    next := Do(SIMPLE, s, a).value;
  }

  /** An active set with nothing published: its default version does not exist. */
  lemma ActiveButEmpty() returns (s: State)
    ensures Reachable(SIMPLE, s) && "s" in s.trace.db.sets
    ensures s.trace.db.sets["s"].status.Active? && PublishedIds(s.trace.db, "s") == {}
    ensures Atomic(SIMPLE, s.trace.db, Evaluate(SCOPE, ById("s"), 0, "x"), None).outcome == Failed(NotFound)
  {
    hide Compile, Reachable, Lawful, Run;
    SimpleIsLawful();
    s := Prepared();
    s := Realized(SIMPLE, s, 2, Update(Active, 1), 0);
    assert NumberIds(s.trace.db, SCOPE, "s", 0) == {};
  }

  /** Disabling a set does not keep its drafts from being published, which makes it active again. */
  lemma DisabledYetPublished() returns (before: State, s: State)
    ensures Reachable(SIMPLE, before) && "s" in before.trace.db.sets && before.trace.db.sets["s"].status.Disabled?
    ensures Reachable(SIMPLE, s) && "s" in s.trace.db.sets
    ensures s.trace.db.sets["s"].status.Active? && s.trace.db.sets["s"].published == 1
  {
    hide Compile, Reachable, Lawful, Run;
    SimpleIsLawful();
    s := Prepared();
    before := Realized(SIMPLE, s, 2, Update(Disabled, 1), 0);
    hide Atomic, After;
    AfterPublication(before.trace.db, "v", 2);
    s := Realized(SIMPLE, before, 3, Publication("v", 2), 0);
  }

  /** Publishing an older draft after a newer one moves the pointer down. */
  lemma PointerFalls() returns (before: State, s: State)
    ensures Reachable(SIMPLE, before) && "s" in before.trace.db.sets && before.trace.db.sets["s"].published == 2
    ensures Reachable(SIMPLE, s) && "s" in s.trace.db.sets && s.trace.db.sets["s"].published == 1
  {
    hide Compile, Reachable, Lawful, Run, Atomic, After;
    SimpleIsLawful();
    s := Prepared();
    var db := s.trace.db;
    SecondNumber(db);
    s := Realized(SIMPLE, s, 2, Addition("x", "l"), 0);
    AfterAddition(SIMPLE, db, "x", "l", 2);
    before := Realized(SIMPLE, s, 3, Publication("x", 1), 0);
    AfterPublication(s.trace.db, "x", 1);
    s := Realized(SIMPLE, before, 4, Publication("v", 2), 0);
    AfterPublication(before.trace.db, "v", 2);
  }

  lemma SecondNumber(db: Db)
    requires db.versions == map["v" := Version("v", 1, "k")]
    ensures MaxNumber(db, SCOPE, "s") == 1 && KeyIds(db, SCOPE, "s", "l") == {}
  {
    MaxNumberBounds(db, SCOPE, "s");
    assert Belongs(db.versions["v"], SCOPE, "s");
  }

  /** A publication has read the set at counter 1. */
  lemma ReadingDraft() returns (s: State)
    ensures Reachable(SIMPLE, s) && s.locks == map[] && s.threads.Keys == {0, 1, 2}
    ensures s.trace.db == Db(map["s" := Row(1, Fresh, 0)], map["v" := Version("v", 1, "k")], [])
    ensures s.threads[2].req == Publication("v", 2) && s.threads[2].pc == ReadDraft(Row(1, Fresh, 0))
    ensures s.threads[2].pending == NOTHING
  {
    hide Compile, Reachable, Lawful, Run, After, Atomic;
    s := Prepared();
    s := Next(s, Begin(2, Publication("v", 2), 0));
    s := Next(s, Advance(2));
    s := Next(s, Advance(2));
  }

  /** It has read the draft as well. */
  lemma WaitingToPublish() returns (s: State)
    ensures Reachable(SIMPLE, s) && s.locks == map[] && s.threads.Keys == {0, 1, 2}
    ensures s.trace.db == Db(map["s" := Row(1, Fresh, 0)], map["v" := Version("v", 1, "k")], [])
    ensures s.threads[2].req == Publication("v", 2) && s.threads[2].pc.SwapVersion?
    ensures s.threads[2].pc.pre == Row(1, Fresh, 0) && s.threads[2].pc.draft == Version("v", 1, "k")
  {
    hide Reachable, Lawful, Run, Compile, After, Atomic;
    SimpleIsLawful();
    s := ReadingDraft();
    s := Next(s, Advance(2));
  }

  /** Meanwhile the set is given a new name, at counter 2. */
  lemma RenamedMeanwhile() returns (s: State)
    ensures Reachable(SIMPLE, s) && s.locks == map[] && 2 in s.threads
    ensures s.trace.db.sets == map["s" := Row(2, Active, 0).(name := "new")]
    ensures s.trace.db.versions == map["v" := Version("v", 1, "k")] && s.trace.db.outbox == []
    ensures s.threads[2].req == Publication("v", 2) && s.threads[2].pc.SwapVersion?
    ensures s.threads[2].pc.pre == Row(1, Fresh, 0) && s.threads[2].pc.draft == Version("v", 1, "k")
  {
    hide Reachable, Lawful, Run, Compile, After, Atomic;
    SimpleIsLawful();
    s := WaitingToPublish();
    AfterRenaming(s.trace.db);
    s := Realized(SIMPLE, s, 3, Renaming(), 0);
  }

  /** The publication swaps the version. */
  lemma VersionSwapped() returns (s: State)
    ensures Reachable(SIMPLE, s) && s.locks.Keys == {VersionRow("v")} && 2 in s.threads
    ensures s.trace.db.sets == map["s" := Row(2, Active, 0).(name := "new")] && s.trace.db.outbox == []
    ensures s.threads[2].req == Publication("v", 2) && s.threads[2].pc.SwapOwner?
    ensures s.threads[2].pc.pre == Row(1, Fresh, 0) && s.threads[2].pc.draft == Version("v", 1, "k")
  {
    hide Reachable, Lawful, Run, Compile, After, Atomic, Unacceptable;
    Acceptable();
    s := RenamedMeanwhile();
    s := Next(s, Advance(2));
  }

  /** The publication swaps the set. */
  lemma OwnerSwapped() returns (s: State)
    ensures Reachable(SIMPLE, s) && 2 in s.threads && s.trace.db.outbox == []
    ensures s.threads[2].req == Publication("v", 2) && s.threads[2].pc.AppendEvent?
    ensures s.threads[2].pc.pre == Row(1, Fresh, 0) && s.threads[2].pc.draft == Version("v", 1, "k")
    ensures s.threads[2].pending.set_ == Some(Row(3, Active, 1).(name := "new"))
  {
    hide Reachable, Lawful, Run, Compile, After, Atomic, Unacceptable;
    Acceptable();
    s := VersionSwapped();
    s := Next(s, Advance(2));
  }

  /** It then commits, and its reply and its event carry the old name. */
  lemma StaleEvent() returns (s: State)
    ensures Reachable(SIMPLE, s) && |s.trace.db.outbox| == 1 && "s" in s.trace.db.sets
    ensures s.trace.db.sets["s"].name == "new"
    ensures s.trace.db.outbox[0].ruleSet == s.trace.db.sets["s"].(name := "name")
  {
    hide Compile, Reachable, Lawful, Run, After, Atomic, Unacceptable;
    Acceptable();
    s := OwnerSwapped();
    s := Next(s, Advance(2));
    s := Next(s, Advance(2));
  }

  lemma AfterRenaming(db: Db)
    requires db.sets == map["s" := Row(1, Fresh, 0)]
    ensures After(SIMPLE, db, Renaming(), None) == db.(sets := map["s" := Row(2, Active, 0).(name := "new")])
  {}

  lemma Acceptable()
    ensures !Unacceptable(SIMPLE, Publication("v", 2))
  {}

  /** One object with its members in two orders, and the two definitions that have it as a result. */
  const SUBMITTED := "{b,a}"
  const SORTED := "{a,b}"
  const FIRST := Definition([DefinitionRule("r", "c", SUBMITTED)], OBJECT)
  const SECOND := Definition([DefinitionRule("r", "c", SORTED)], OBJECT)

  /** A column that sorts the members of objects, as JSONB does. */
  const SORTING := SIMPLE.(
    decode := (raw: string) => if raw == "d" then Single(FIRST) else if raw == "e" then Single(SECOND) else Malformed,
    marshal := (d: Definition) => Some(if d == SECOND then "e" else "d"),
    isObject := (raw: string) => raw == OBJECT || raw == SUBMITTED || raw == SORTED,
    canonical := (raw: string) => if raw == SUBMITTED then SORTED else raw,
    column := (text: string) => Some(if text == "d" then "e" else text))

  lemma SortingIsLawful()
    ensures Lawful(SORTING)
  {
    assert Compacted(SORTING, FIRST) == FIRST && Compacted(SORTING, SECOND) == SECOND;
  }

  /** There, an accepted and created definition is refused publication, though its counters are right. */
  lemma DraftForGood() returns (s: State)
    ensures Lawful(SORTING) && Reachable(SORTING, s) && 2 in s.threads && s.threads[2].pc.Done?
    ensures "s" in s.trace.db.sets && s.trace.db.sets["s"].audit.version == 1
    ensures s.trace.db.versions == map["v" := Stored(SORTING, Version("v", 1, "k"))]
    ensures s.threads[2].req == Publication("v", 1) && s.threads[2].pc.outcome == Failed(Conflict)
  {
    hide Compile, Reachable, Lawful, Run, Stored, Atomic, After;
    SortingIsLawful();
    Accepts(SORTING, "d", FIRST);
    s := Stocked(SORTING);
    SortedRefused(s.trace.db);
    s := Realized(SORTING, s, 2, Publication("v", 1), 0);
  }

  lemma SortedRefused(db: Db)
    requires "s" in db.sets && db.sets["s"] == Row(1, Fresh, 0)
    requires db.versions == map["v" := Stored(SORTING, Version("v", 1, "k"))]
    ensures Atomic(SORTING, db, Publication("v", 1), None) == Refuse(Conflict)
    ensures After(SORTING, db, Publication("v", 1), None) == db
  {
    hide Recompiles, Compile;
    SortedDraft();
  }

  lemma SortedDraft()
    ensures var row := Stored(SORTING, Version("v", 1, "k"));
      row == Version("v", 1, "k").(definition := "e") && !Recompiles(SORTING, row)
  {
    hide Compile;
    Accepts(SORTING, "e", SECOND);
  }

  /** There, creating the version again quotes a text the first reply did not. */
  lemma ReplayQuotesOtherText() returns (s: State)
    ensures Reachable(SORTING, s) && 1 in s.threads && 2 in s.threads
    ensures s.threads[1].req == Addition("v", "k") && s.threads[2].req == Addition("y", "k")
    ensures s.threads[1].pc.Done? && s.threads[1].pc.outcome == VersionReturned(Version("v", 1, "k"), true)
    ensures s.threads[2].pc.Done?
    ensures s.threads[2].pc.outcome == VersionReturned(Version("v", 1, "k").(definition := "e"), false)
  {
    hide Compile, Reachable, Lawful, Run, Stored, Atomic, After;
    SortingIsLawful();
    Accepts(SORTING, "d", FIRST);
    s := Stocked(SORTING);
    SortedDraft();
    ReplayOf(s.trace.db);
    s := Realized(SORTING, s, 2, Addition("y", "k"), 0);
  }

  lemma ReplayOf(db: Db)
    requires Takes(SORTING) && "s" in db.sets && db.sets["s"] == Row(1, Fresh, 0)
    requires db.versions == map["v" := Version("v", 1, "k").(definition := "e")]
    ensures Atomic(SORTING, db, Addition("y", "k"), None).outcome
         == VersionReturned(Version("v", 1, "k").(definition := "e"), false)
  {
    hide Compile, Lawful, MaxNumber;
    assert "v" in KeyIds(db, SCOPE, "s", "k");
  }

  /** A column that refuses the text, as JSONB refuses the escape of the zero character. */
  const REFUSING := SIMPLE.(column := (text: string) => None)

  /** There, an accepted definition cannot be created: an internal error, and nothing stored. */
  lemma AcceptedButRefused() returns (s: State)
    ensures Lawful(REFUSING) && Compile(REFUSING, "d").Success? && Reachable(REFUSING, s) && 1 in s.threads
    ensures s.threads[1].req == Addition("v", "k") && s.threads[1].pc.Done?
    ensures s.threads[1].pc.outcome == Failed(Internal) && s.trace.db.versions == map[]
  {
    hide Compile, Reachable, Lawful, Run, Atomic, After;
    RefusingIsLawful();
    Start(REFUSING);
    var created := Realized(REFUSING, INITIAL, 0, Creation("s"), 0);
    AfterCreation(REFUSING);
    RefusedAddition(created.trace.db);
    s := Realized(REFUSING, created, 1, Addition("v", "k"), 0);
  }

  lemma RefusingIsLawful()
    ensures Lawful(REFUSING) && Compile(REFUSING, "d").Success?
    ensures Compile(REFUSING, "d").value.text == "d" && Compile(REFUSING, "d").value.checksum == "d"
  {
    assert Compacted(REFUSING, DEFINITION) == DEFINITION;
    hide Compile;
    Accepts(REFUSING, "d", DEFINITION);
  }

  lemma RefusedAddition(db: Db)
    requires db == Db(map["s" := Row(1, Fresh, 0)], map[], [])
    ensures Atomic(REFUSING, db, Addition("v", "k"), None) == Refuse(Internal)
    ensures After(REFUSING, db, Addition("v", "k"), None) == db
  {
    hide Compile, Lawful, MaxNumber;
    RefusingIsLawful();
    assert KeyIds(db, SCOPE, "s", "k") == {};
  }

  /** A second set with a code already in use is answered as an internal error. */
  lemma DuplicateIsInternal() returns (s: State)
    ensures Reachable(SIMPLE, s) && 2 in s.threads && s.threads[2].req == Creation("z")
    ensures s.threads[2].pc.Done? && s.threads[2].pc.outcome == Failed(Internal)
  {
    hide Compile, Reachable, Lawful, Run;
    SimpleIsLawful();
    s := Prepared();
    assert "s" in CodeIds(s.trace.db, SCOPE, "ab");
    s := Realized(SIMPLE, s, 2, Creation("z"), 0);
  }

  /** One character more than a definition may have. */
  const LONG := seq(MAX_DEFINITION_BYTES + 1, (i: nat) => 'x')

  /** An encoder that escapes a short definition into a long one. */
  const GROWING := SIMPLE.(
    decode := (raw: string) => if raw == "d" || raw == LONG then Single(DEFINITION) else Malformed,
    marshal := (d: Definition) => Some(LONG))

  /** There, the canonical text of an accepted definition is not accepted. */
  lemma CanonicalTooLong()
    ensures Lawful(GROWING) && Compile(GROWING, "d").Success?
    ensures Compile(GROWING, Compile(GROWING, "d").value.text) == Failure([Issue(Root, InvalidSize)])
  {
    hide Lawful, Compile;
    GrowingIsLawful();
    Accepts(GROWING, "d", DEFINITION);
    CanonicalFixedPoint(GROWING, "d");
  }

  lemma GrowingIsLawful()
    ensures Lawful(GROWING)
  {
    assert Compacted(GROWING, DEFINITION) == DEFINITION;
  }
}
