# The rule lifecycle

A model of the rule service in `internal/rule` and of the transactions it runs in, with proofs.

Tenants own rule sets; a rule set has numbered versions; a version holds a definition, a list of named rules with
CEL conditions. A version is created as a draft and published once. Publishing makes the set active, points it at
the version and writes an outbox event, in one transaction. Evaluation looks up a set and a version, compiles the
stored text or takes it from a cache, and answers with the first rule whose condition holds. Any number of clients
and replicas do all of this at once.

The project has three layers.

- **The engine** (`Engine`). Shape validation, compilation and evaluation as the loops of `engine.go`, proved equal
  to functions, and those functions proved to mean what a definition says.
- **The atomic machine** (`Lifecycle`, `Invariants`, `Meaning`). One transition per request, on the three tables;
  every transition keeps `Consistent`, and does and answers what `Meaning` says of its call, row by row and field by
  field.
- **The interleaved machine** (`Machine` and what follows it). Each call is a program counter, local variables, pending
  rows and row locks; one statement is one step; calls begin, wait, fail and commit in any order, on any replica.
  `Refinement`, `RefinementProof`, `Instants` and `StepProof` hold the inductive invariant, `Guarantees`, `Limits`,
  `Counting`, `Replays`, `Outbox`, `Scopes` and `Progress` what follows from it. `Isolation` compares a run with what is
  left of it when other scopes are struck out; `Realization` is the converse of refinement, and `Findings` uses it.
  A statement waits while another call has the lock it needs and judges its WHERE clause on the row as it then is, as
  PostgreSQL does under READ COMMITTED.

`Repository` and `Service` are the imperative form of `repository.go`, `transaction.go` and `service.go`, one call at a
time: each method leaves the tables, and returns the answer, of the atomic transition. `Listing` is paging.

## What is assumed

- `Platform` gathers encoding/json, cel-go, SHA-256 and the column type as arbitrary deterministic functions.
  `Platform.Lawful` is all that is assumed of them: SHA-256 does not collide, the empty text is not JSON, and a decoded
  definition whose results are objects is written out and read back with only the layout of its results changed.
  `Findings.SimpleIsLawful` shows that the laws can be met. Nothing is assumed of the column: PostgreSQL's JSONB
  (migrations/postgres/000001_baseline.up.sql:10) may give back another text than it was given, and it may refuse one,
  such as a string with an escaped zero character.
- Identifiers are fresh UUIDs (`FreshId`, `NewId`).

## What the code does not promise

- A reply to `UpdateRuleSet` or `PublishRuleVersion`, and a published event, are composed from a row read before the
  transaction. When that row was older than the counter the caller named, the reply can differ from what was committed
  in the pointer (update) or in name and description (publish), and in nothing else. `Guarantees.UpdateReplies` and
  `Guarantees.PublishReplies` say exactly when, for every commit of every run; `Findings.StaleReply` and
  `Findings.StaleEvent` are runs. A caller that names a counter it has read before calling is safe: then reply and event
  are the committed rows (`Guarantees.KnownCounterReplies`).
- A draft can be published exactly when its stored text recompiles to its checksum (`Replays.PublishableExactly`), and
  if not, never will be (`Replays.DraftForever`). It may not: because the column reorders a result
  (`Findings.DraftForGood`), or because the canonical text no longer fits into 256 KiB (`Engine.CanonicalFixedPoint`,
  `Findings.CanonicalTooLong`).
- An accepted definition may be refused by the column, which is answered as an internal error: exactly then
  (`Limits.RefusedInRuns`, `Findings.AcceptedButRefused`).
- A replayed creation returns the stored text, the first reply the submitted one: they agree exactly when the column
  keeps the text (`Replays.ReplayTextAgrees`), and they need not (`Findings.ReplayQuotesOtherText`).
- The pointer can go down (`Findings.PointerFalls`): exactly when an older version is published
  (`Limits.PointerFallsInRuns`).
- An active set may have nothing published (`Findings.ActiveButEmpty`): it becomes so exactly when it is activated by
  hand while the pointer is 0 (`Limits.ActiveButEmptyInRuns`), and its default version is then not found
  (`Limits.DefaultResolvesExactly`).
- A disabled set can be published (`Findings.DisabledYetPublished`): the condition of `Replays.PublishableExactly` does
  not mention the set's status.
- A duplicate code is answered as an internal error, not a conflict, exactly when the scope has the code
  (`Limits.DuplicateInRuns`, `Findings.DuplicateIsInternal`): the insert fails and `translate` knows no better.
- A page number far enough out makes the offset wrap around, and the page may then hold other rows or fail;
  `Listing.PageExact` says exactly when it holds its own, `Listing.FarPageRepeatsTheFirst` is a page that does not.

## Model

| member | source | states |
|---|---|---|
| Engine.ValidateRule | internal/rule/engine.go:126-140 | one turn of the validation loop reports exactly the issues of that rule and leaves `seen` holding exactly the trimmed names so far |
| Engine.ValidateRules | internal/rule/engine.go:125-140 | the loop over all rules reports the issues of each rule, in order |
| Engine.ValidateShape | internal/rule/engine.go:120-145 | exactly the issues whose accusation is true are found, each once, the count first, then rule by rule name, condition and result, the default last |
| Engine.ShapeIssuesExact | internal/rule/engine.go:120-145 | an issue is reported if and only if what it accuses the definition of is so; duplicates fall on exactly the rules whose non-empty trimmed name occurred earlier |
| Engine.ShapeAccepts | internal/rule/engine.go:120-145 | no issue if and only if there are 1 to 100 rules, trimmed names are non-empty and pairwise distinct, conditions are non-blank and at most 4096 bytes, and all results are objects |
| Engine.ShapeIssuesRise | internal/rule/engine.go:120-145 | issues come in the order of what they accuse, and nothing is accused twice |
| Engine.CompileConditions | internal/rule/engine.go:87-107 | the loop with its three early continues reports each unusable condition once, at its own index with its own code, in rising order and nothing else; with no issue the compiled rules match the source rules index by index |
| Engine.ConditionIssuesExact | internal/rule/engine.go:88-105 | an issue is reported if and only if it names a condition that is unusable, by the code of the stage it fails at |
| Engine.ConditionIssuesRise | internal/rule/engine.go:87-107 | one issue a condition, in rising order |
| Engine.CompileDefinition | internal/rule/engine.go:63-118 | each text gets the failure of the first stage it fails at, with everything wrong there, or its compiled form; never an empty list of issues with a failure |
| Engine.CompileExact | internal/rule/engine.go:63-118 | which answer each text gets: size, JSON, several values, the true accusations of the shape, no engine, the unusable conditions, or names, conditions and canonical results of the rules with the canonical text and its digest |
| Engine.CompileAccepts | internal/rule/engine.go:63-118 | exactly which texts compile |
| Engine.CanonicalFixedPoint | internal/rule/engine.go:63-118 | the canonical text of an accepted definition compiles to the very same compiled definition if and only if it fits in 256 KiB; otherwise it is refused for its size |
| Engine.SameChecksumSameCompiled | internal/rule/engine.go:109-117 | two accepted texts with one checksum compile to the same rules, default, text and checksum |
| Engine.EvaluateDefinition | internal/rule/engine.go:170-196 | the early-exit loop answers what the recursive specification answers |
| Engine.FirstMatch | internal/rule/engine.go:182-195 | compile then evaluate: the answer is that of the least rule of the source definition whose condition is not false, an error when that condition fails or is no boolean, the default when there is none |
| Engine.SuffixIrrelevant | internal/rule/engine.go:182-195 | definitions that agree up to the deciding rule answer alike, whatever follows it and whatever the default |
| Meaning.CodesExact | internal/rule/service.go:51-53 | a code is accepted if and only if it is a letter followed by one to 127 letters, digits, dots, underscores and hyphens |
| Meaning.CreateSetIsMeant | internal/rule/service.go:45-61 | which creations are invalid or fail on a used code, and every field of the set otherwise stored and answered |
| Meaning.UpdateSetIsMeant | internal/rule/service.go:63-87 | which updates are invalid, not found or stale, and every field of the row otherwise stored and of the reply, author and time included |
| Meaning.CreateVersionIsMeant | internal/rule/service.go:119-146 | every outcome of creating a version, in order: invalid, not found, replay or conflict on the key, stale or disabled, refused text, or a draft numbered one more than there are versions, with every field of row and reply |
| Meaning.PublishIsMeant | internal/rule/service.go:162-202 | which publications are invalid, not found or in conflict, and every field of both rows, the reply and the event otherwise: published at the request's time, by its actor |
| Meaning.GetSetIsMeant | internal/rule/service.go:89-105 | not found if and only if the scope has no set of that id or code; otherwise that set, with no version if and only if its published number is 0, and else the published version of that number |
| Meaning.EvaluateIsMeant | internal/rule/service.go:227-263 | which evaluations are invalid, not found or in conflict; otherwise invalid exactly on bad facts, internal exactly when the deciding rule of the version's own text is not true, and else the first-match answer of that text |
| Meaning.AtomicIsMeant | internal/rule/service.go:45-263 | the atomic machine does to the tables, and answers, what each call means |
| Meaning.CommitsMean | internal/rule/service.go:45-202 | in every run each commit did to the tables what its call means, and its call is answered accordingly |
| Meaning.AnswersMean | internal/rule/service.go:45-263 | in every run each finished call, evaluations, reads and errors included, was answered what it means on the tables of one instant while it ran |
| Invariants.EmptyConsistent | migrations/postgres/000001_baseline.up.sql:1-19 | empty tables satisfy the invariant |
| Invariants.NewNumber | internal/rule/repository.go:103-105 | the numbers in use are exactly 1 to MAX, so MAX + 1 is the one number that extends them |
| Invariants.SetWriteKeeps | internal/rule/repository.go:37-45 | inserting a set with an unused code, or raising the counter of one, keeps the whole invariant and only moves rows forward |
| Invariants.InsertKeeps | internal/rule/repository.go:78-108 | inserting a draft numbered MAX + 1 under an unused key keeps the whole invariant |
| Invariants.PublishKeeps | internal/rule/repository.go:136-148 | both swaps and the event together keep the whole invariant, event order and pointer included |
| Invariants.AtomicPublishes | internal/rule/service.go:162-202 | a publication writes either nothing or exactly one released draft, its activated set and the event announcing both, at the new counter |
| Invariants.AtomicKeeps | internal/rule/service.go:45-202 | every transition keeps the invariant; rows never vanish or change identity, drafts change once, the outbox is extended only |
| StepProof.DoKeeps | internal/rule/repository.go:37-148 | every arrival, every statement and every failure of any call keeps the refinement invariant |
| StepProof.ReachableOk | internal/rule/repository.go:37-148 | the refinement invariant holds in every state of every run |
| Lifecycle.CachedExactly | internal/rule/service.go:277-280 | a definition compiled from any text, kept under its checksum, is what every row with that checksum recompiles to |
| StepProof.CachedIsCompiled | internal/rule/service.go:277-287 | in every state of every run, any entry any replica has under a version's checksum is what that version's text compiles to |
| StepProof.PublishedRecompiles | internal/rule/service.go:184-187 | a version an evaluation resolves to recompiles without issue to its stored checksum, so the uncached path never fails |
| Guarantees.Serial | internal/database/transaction.go:17-35 | the commits are one serial history of atomic transitions from the empty tables, at most one for each call, made after it began; an update or a publication, and nothing else, quotes a row of its set, committed while the call ran and by then |
| Guarantees.Linearizable | internal/rule/service.go:45-263 | every finished call, error answers included, took effect at one instant between its start and its end: its own commit, with a reply quoting nothing but a row of its set committed while it ran, or an instant where the atomic call answers the same and writes nothing |
| Guarantees.RollbackLeavesNothing | internal/database/transaction.go:25-34 | a call has a commit if and only if it has succeeded: one that is running, was rolled back, only read or replayed, or was answered with an error has contributed nothing, also a publication whose first swap had succeeded and whose second found no row |
| Guarantees.RealTimeOrder | internal/database/transaction.go:17-35 | a call that ended before another began precedes it in the serial history |
| Guarantees.ReplyIsCommitted | internal/rule/service.go:79-86 | when the row read beforehand had the counter the caller named, reply and event are those of a call that read the committed row |
| Guarantees.UpdateReplyExact | internal/rule/service.go:79-86 | the reply of an update equals the committed row except for the pointer, and equals it entirely if and only if the pointer read beforehand is the current one |
| Guarantees.PublishReplyExact | internal/rule/service.go:173-201 | the version replied and announced is the committed one; the set is, if and only if name and description read beforehand are the current ones, and differs in those alone |
| Guarantees.AnsweredAtCommit | internal/rule/service.go:45-202 | a finished call with a commit was answered what its transition answered there, on the row it had read |
| Guarantees.UpdateReplies | internal/rule/service.go:79-86 | in every run: the reply a finished update got is the row it committed except for the pointer it had read, with the exact condition |
| Guarantees.PublishReplies | internal/rule/service.go:173-201 | in every run: the version replied and the event appended are those committed, and the set replied and announced is the committed row except for the name and description the call had read, with the exact condition |
| Guarantees.KnownCounterIsCurrent | internal/rule/service.go:79-86 | no ABA: when the set had the counter the caller names, or a later one, before the call began, the row the call reads is the very row it swaps |
| Guarantees.KnownCounterReplies | internal/rule/service.go:173-201 | and then the reply to an update or a publication, and the event, are the committed rows, field for field |
| Guarantees.AlwaysConsistent | internal/rule/repository.go:37-148 | every committed state satisfies the invariant, and later ones only grow |
| Guarantees.PointerSafe | internal/rule/repository.go:136-143 | a pointer other than 0 names a published version of the same set, whose row is the same in every later state |
| Guarantees.GetNeverDangles | internal/rule/service.go:100-104 | having read a pointer, GetRuleSet finds that version, published, whatever happened in between |
| Guarantees.EvaluateNeverDangles | internal/rule/service.go:241-250 | having read a pointer, evaluating the default version finds it, published |
| Guarantees.InsertNeverCollides | internal/rule/repository.go:103-107 | the unique constraints on number and idempotency key never fire and the insert never waits for them, under any number of creators |
| Guarantees.CacheNeverMatters | internal/rule/service.go:277-287 | at every instant and on every replica, evaluating with what is cached equals recompiling the stored text |
| Instants.PublishingActivates | internal/rule/repository.go:136-143 | the transition that publishes a version leaves its set active |
| Instants.PublishedInstant | internal/rule/service.go:234-251 | a version found published at the second read of an evaluation is what the call resolves to at one instant between the reads |
| Instants.GetSetAgrees | internal/rule/service.go:96-104 | the two reads of GetRuleSet are one read at the first instant |
| Instants.MissingAgrees | internal/rule/service.go:234-247 | a version missing at the second read was missing at the first |
| Instants.DraftAgrees | internal/rule/service.go:248-250 | a version found unpublished is refused at the instant of the second read too |
| Counting.Conservation | internal/rule/repository.go:42-45 | in every state a set's counter is 1 + its committed updates + its published versions, and it has as many events as published versions |
| Counting.NumbersAreDense | internal/rule/repository.go:103-107 | the version numbers of a set are exactly 1 to n, where n is how many versions it has |
| Replays.KeyDecides | internal/rule/repository.go:89-99 | once a key is committed, a create with it changes nothing in any later state: the stored version for the same checksum, a conflict for another, whatever the set's counter and status |
| Replays.CreatedMeansCommitted | internal/rule/service.go:136-146 | a reply saying "created" has its commit while the call ran, with that row, under a key unused before |
| Replays.CreatedOnce | internal/rule/repository.go:78-108 | of any calls racing on one key at most one is told "created" |
| Replays.LaterCreatesReplay | internal/rule/repository.go:89-99 | a create beginning after the key was committed, whether or not the creating call has been answered, commits nothing and answers with that version or a conflict |
| Replays.ReplayTextAgrees | internal/rule/repository.go:95-98 | in every run and whatever the order of the two calls, a replay names the version the creating call was told of, same number and checksum, and quotes its text if and only if the column keeps that text |
| Replays.PublishableExactly | internal/rule/service.go:184-187 | a draft named with the right counters is published if and only if its stored text recompiles to its checksum |
| Replays.FaithfulColumnPublishes | internal/rule/service.go:184-187 | where the column keeps the text, a created draft recompiles if and only if its canonical text fits in 256 KiB |
| Replays.DraftForever | internal/rule/service.go:184-187 | in every run, a row whose stored text does not recompile is a draft and stays the same in every later state |
| Limits.PointerFallsExactly | internal/rule/repository.go:141-142 | a transition that writes lowers a set's pointer if and only if it publishes a version of that set with a number below the pointer |
| Limits.PointerFallsInRuns | internal/rule/repository.go:141-142 | the same at every commit of every run |
| Limits.ZeroMeansNone | internal/rule/repository.go:136-143 | a pointer is 0 if and only if the set has no published version |
| Limits.ActivatedExactly | internal/rule/service.go:69-86 | a transition leaves a set newly active with pointer 0 if and only if it is an update of that set to active while its pointer is 0 |
| Limits.ActiveButEmptyInRuns | internal/rule/service.go:69-86 | at every commit of every run, a set becomes active with nothing published if and only if it is activated by hand while its pointer is 0 |
| Limits.DefaultResolvesExactly | internal/rule/service.go:241-250 | the default version of an active set can be evaluated if and only if something is published; otherwise it is not found |
| Limits.RefusedExactly | internal/rule/repository.go:106-107 | an acceptable creation of a version fails as an internal error if and only if set, key, counter and status let it through and the column refuses its canonical text |
| Limits.RefusedInRuns | internal/rule/repository.go:106-107 | in every run, at an instant while the call ran |
| Limits.DuplicateExactly | internal/rule/service.go:59-60 | an acceptable creation fails if and only if its scope has the code already, and then as an internal error |
| Limits.DuplicateInRuns | internal/rule/service.go:59-60 | in every run, at an instant while the call ran |
| Outbox.RebuildsPointer | internal/rule/service.go:289-299 | whoever keeps the event with the largest rule-set version has the current pointer, whatever the order and repetition of delivery |
| Outbox.ConsumersConverge | internal/rule/service.go:188-197 | so does every consumer at every instant of every run |
| Outbox.LastIsLargest | internal/rule/service.go:188-197 | of a set's events the last committed has the strictly largest rule-set version, and carries the pointer |
| Scopes.OwnCall | internal/rule/repository.go:42-143 | a call answers and writes the same with and without the rows of other scopes |
| Scopes.CommitProjects | internal/rule/repository.go:42-148 | a commit does to the rows and events of its own scope what it does without the others, and nothing to theirs |
| Scopes.HistoryProjects | internal/rule/repository.go:42-148 | at every instant the rows and events of a scope are those built by its own commits alone |
| Scopes.ScopeIsolation | internal/rule/service.go:45-287 | every finished call got the answer it gets on the tables its own scope's commits build, quoting at most a row of its set in those tables while it ran |
| Isolation.SameTables | internal/rule/repository.go:37-148 | two runs with the same commits of a scope show that scope the same rows and events |
| Isolation.OwnStep | internal/rule/service.go:277-287 | what a call does next does not depend on the other scopes; only an evaluation about to load a definition that others have cached needs one step more, and that one does |
| Isolation.NonInterference | internal/rule/service.go:45-287 | from every run the actions of all other scopes can be struck out: with one Advance more wherever a cache entry is then missing, and nowhere else, the rest is a run with the same rows, events and commits of the scope, each of its calls at the same statement or with the same answer |
| Progress.BlockedByHolder | internal/rule/repository.go:86-106 | a call that cannot go on waits for one lock, and another call holds it |
| Progress.SetHolderMoves | internal/rule/repository.go:86-106 | whoever holds a set row, or a claim on a code, never waits |
| Progress.SomeoneCanStep | internal/rule/repository.go:136-143 | no deadlock: while a call is unfinished some call can take its next step |
| Progress.StepDescends | internal/rule/repository.go:37-148 | each step moves its own call nearer to its end and no other call |
| Progress.RunsEnd | internal/database/transaction.go:17-35 | without new arrivals a run has no more steps than its calls have statements left |
| Progress.Drain | internal/database/transaction.go:17-35 | from every reachable state all calls can be brought to their end, in a reachable state, without aborting any |
| Realization.RunAlone | internal/database/transaction.go:17-35 | a call nobody blocks runs to its end, commits at most once and leaves no lock behind |
| Realization.AloneIsAtomic | internal/rule/service.go:45-263 | its answer and the tables are those of its atomic transition |
| Realization.Realized | internal/rule/service.go:45-263 | every atomic transition is reached by the interleaved machine, from every reachable state without locks |
| Findings.SimpleIsLawful | internal/rule/engine.go:63-118 | the laws assumed of the libraries can be met, with a definition that compiles |
| Findings.StaleReply | internal/rule/service.go:79-86 | a run in which an update's reply differs from the committed row in the pointer |
| Findings.StaleEvent | internal/rule/service.go:188-197 | a run in which a published event carries a name the set no longer has |
| Findings.ActiveButEmpty | internal/rule/service.go:69-86 | a run to an active set with nothing published, whose evaluation is not found |
| Findings.DisabledYetPublished | internal/rule/repository.go:141-142 | a run that publishes a version of a disabled set, which becomes active |
| Findings.PointerFalls | internal/rule/repository.go:141-142 | a run in which the pointer goes from 2 to 1 |
| Findings.DraftForGood | internal/rule/service.go:184-187 | with a column that sorts the members of an object, a run in which an accepted and created definition is refused publication |
| Findings.DuplicateIsInternal | internal/rule/service.go:343-358 | a run in which a code used twice is answered as an internal error |
| Findings.ReplayQuotesOtherText | internal/rule/repository.go:95-98 | with a column that sorts the members of an object, a run in which a replay quotes another text than the first reply |
| Findings.AcceptedButRefused | internal/rule/repository.go:106-107 | with a column that refuses the text, a run in which an accepted definition ends in an internal error and no version |
| Findings.CanonicalTooLong | internal/rule/engine.go:63-66 | with an encoder that lengthens it, the canonical text of an accepted definition is refused |
| Listing.OrderedRows | internal/rule/repository.go:120-134 | the ordered listing holds exactly the selected rows |
| Listing.OrderedDescends | internal/rule/repository.go:132-132 | version numbers strictly descend |
| Listing.VersionsExact | internal/rule/repository.go:120-134 | a listing holds exactly the rows of the scope and set, of status draft or published where asked, none for any other text, by strictly descending number |
| Listing.WrappedExact | internal/rule/service.go:212-212 | the offset is the one int64 that equals the product modulo 2^64 |
| Listing.ListedExact | internal/rule/service.go:204-214 | every answer of a listing: invalid, an internal error on a negative offset, or total, page, page size (20 when not positive, at most 200) and the rows from the offset on |
| Listing.PagesPartition | internal/rule/service.go:204-214 | for every requested page size the pages there are, one after another, are the whole filtered listing, each row once |
| Listing.PageExact | internal/rule/service.go:212-212 | a page holds the rows its number means if and only if its offset fits an int64, or wraps to one past the end |
| Listing.FarPageRepeatsTheFirst | internal/rule/service.go:212-212 | a page number whose offset wraps to 0 |
| Listing.DensePages | internal/rule/service.go:330-341 | unfiltered page p of s rows is the numbers n - (p - 1)s down to max(1, n - ps + 1), total n |
| Repository.Transactor.Begin | internal/database/transaction.go:21-24 | the tables are as they were, and remembered |
| Repository.Transactor.Commit | internal/database/transaction.go:31-34 | the changes stay |
| Repository.Transactor.Rollback | internal/database/transaction.go:25-30 | the tables are as they were at the beginning |
| Repository.SQLRepository.CreateRuleSet | internal/rule/repository.go:37-40 | inserts unless the code is taken in the scope; otherwise a database error and nothing changed |
| Repository.SQLRepository.UpdateRuleSet | internal/rule/repository.go:42-45 | changes name, description, status and counter of the row at the expected counter, and no other column; otherwise stale and nothing changed |
| Repository.SQLRepository.GetRuleSet | internal/rule/repository.go:47-55 | the one row of that id or code in the scope, or not found |
| Repository.SQLRepository.GetRuleVersion | internal/rule/repository.go:110-118 | a row of the table with that id in that set and scope; not found exactly when the table has none |
| Repository.FoundByKey | internal/rule/repository.go:110-118 | the row the WHERE clause selects is the one its primary key leads to |
| Repository.SQLRepository.GetRuleVersionByNumber | internal/rule/repository.go:110-118 | the one version of that number in that set and scope, or not found |
| Repository.SQLRepository.FindByKey | internal/rule/repository.go:89-91 | the one version with the key, if any |
| Repository.SQLRepository.SelectMaxNumber | internal/rule/repository.go:103-103 | the largest version number, 0 without versions |
| Repository.SQLRepository.CreateRuleVersion | internal/rule/repository.go:78-108 | the whole decision: not found, replay, conflict, stale, refused by the column, or the row inserted with number MAX + 1, with the tables in each case |
| Repository.SQLRepository.PublishRuleVersion | internal/rule/repository.go:136-143 | succeeds exactly when both guards hold, with both rows; otherwise stale, with the first swap made exactly when its guard held, for the transaction to undo |
| Repository.SQLRepository.SortDescending | internal/rule/repository.go:132-132 | the selected rows in the order of the listing |
| Repository.SQLRepository.ListRuleVersions | internal/rule/repository.go:120-134 | a window of the ordered rows and their total number; a negative offset is an error |
| Repository.SQLRepository.AddOutbox | internal/rule/repository.go:145-148 | appends the event |
| Service.RuleService.constructor | internal/rule/service.go:38-43 | starts with empty tables and an empty cache |
| Service.RuleService.CreateRuleSet | internal/rule/service.go:45-61 | tables and answer are those of the atomic transition, and what the call means field by field |
| Service.RuleService.UpdateRuleSet | internal/rule/service.go:63-87 | tables and answer are those of the atomic transition, and what the call means field by field |
| Service.RuleService.CreateRuleVersion | internal/rule/service.go:119-146 | tables and answer are those of the atomic transition, and what the call means field by field; the cache gains the definition exactly on success |
| Service.RuleService.Announce | internal/rule/service.go:190-197 | both swaps and the event, or tables unchanged, also when only the second guard fails |
| Service.RuleService.PublishRuleVersion | internal/rule/service.go:162-202 | tables and answer are those of the atomic transition, and what the call means field by field; the cache gains the definition exactly on success |
| Service.RuleService.GetRuleSet | internal/rule/service.go:89-105 | the answer is that of the atomic transition: not found, the set alone where nothing is published, or the set with its published version |
| Service.RuleService.ListRuleVersions | internal/rule/service.go:204-214 | the page the listing specifies, page and page size normalised, offset wrapped |
| Service.RuleService.CompiledDefinition | internal/rule/service.go:277-287 | an error exactly when nothing is cached under the checksum and the text does not recompile to it; a version that does recompile gets what it recompiles to, hit or miss; what is given is cached afterwards, and nothing else changes |
| Service.RuleService.Evaluate | internal/rule/service.go:227-263 | whatever the cache holds, the answer is that of the atomic transition: the first-match answer of the version's own text |
| Service.RuleService.BatchEvaluate | internal/rule/service.go:265-275 | answers 1 to 100 inputs, each as it is answered alone, although the cache fills on the way |

## Left out

- Authentication, the application verifier and context cancellation: a caller that is refused there has no call.
- Trimming and lower-casing of arguments: inputs are taken as already trimmed, `PublishRuleVersion` does not trim while
  others do. A blank id, which falls back to a lookup by code or by number, is therefore not modelled either.
- Lexing of JSON, parsing and costing of CEL, SHA-256, UUIDs, the protobuf envelope: functions of `Platform`, or fresh
  identifiers. The outbox holds what an envelope is made from.
- The message texts of validation issues; an issue is its path and its code.
- The int64 width of counters, and the precision of timestamps, which are integers carried in rows.
- Isolation other than PostgreSQL's READ COMMITTED, and MySQL's collation and gap locks. A statement that waits re-reads
  and judges its row afterwards; it does not queue in any order.
- A commit that fails although the database applied it: a failed commit or rollback means nothing was committed.
- Begin, Commit and Rollback are three methods because a callback cannot be passed; the order of `Within` is kept.
- The set and version returned next to an error by update and publish: an error is only its code.
- SQLRepository and RuleService run one call at a time: contention, waiting and abandoned calls are those of Machine.
- ListRuleSets, whose order and LIKE depend on the collation, and the two statements of a listing taken at two instants:
  Listing fixes the tables.
- ValidateRuleVersion and the service's GetRuleVersion: compilation, or one read, without further state.
- The outbox dispatcher and cleaner, Redis, idempotency keys of the transport, rate limits, HTTP and gRPC.
- Migrations as programs: the final keys and unique constraints are what Machine enforces and Invariants proves.
- Attempts, availability and publication columns of the outbox, which only the dispatcher uses.
