/** No call waits for ever: the machine is free of deadlock and, once calls stop arriving, of endless runs. */
module Progress {
  import opened Wrappers
  import opened Platform
  import opened Engine
  import opened Store
  import opened Lifecycle
  import opened Invariants
  import opened Machine
  import opened Refinement
  import opened StepProof
  import opened Guarantees

  /******* Waiting *******/

  /** What the next statement of a call has to lock. */
  function Wanted(th: Thread): set<Resource> {
    match th.req
    case CreateSet(scope, _, code, _, _, _, _) => if th.pc.InsertSet? then {CodeKey(scope, code)} else {}
    case UpdateSet(_, setId, _, _, _, _, _, _) => if th.pc.SwapSet? then {SetRow(setId)} else {}
    case CreateVersion(_, _, setId, _, _, _, _, _) => if th.pc.LockSet? then {SetRow(setId)} else {}
    case PublishVersion(_, setId, versionId, _, _, _, _) =>
      if th.pc.SwapVersion? then {VersionRow(versionId)}
      else if th.pc.SwapOwner? then {SetRow(setId)} else {}
    case _ => {}
  }

  /** A call that cannot go on wants one resource, and another call has it. */
  lemma BlockedByHolder(w: Platform, s: State, t: nat) returns (r: Resource)
    requires t in s.threads && !Finished(s.threads[t].pc) && Step(w, s, t).None? && Inv(w, s)
    requires s.threads[t].req.CreateVersion? && s.threads[t].pc.InsertVersion? ==>
      forall k :: k in VersionKeys(s.threads[t].req, s.threads[t].pc.number) ==> Free(s, t, k)
    ensures r in Wanted(s.threads[t]) && r in s.locks && s.locks[r] != t
  {
    hide Inv, Consistent, Remembers, NeverLogged, Instant, Knows;
    CallFacts(w, s, t);
    var th := s.threads[t];
    assert Wanted(th) != {} by {
      match th.req
      case CreateVersion(_, _, _, _, _, _, _, _) => CreateVersionWaits(w, s, t);
      case PublishVersion(_, _, _, _, _, _, _) => PublishWaits(w, s, t);
      case _ => OthersWait(w, s, t);
    }
    r :| r in Wanted(th);
    WantedTaken(w, s, t, r);
  }

  lemma WantedTaken(w: Platform, s: State, t: nat, r: Resource)
    requires t in s.threads && r in Wanted(s.threads[t]) && Knows(w, s.trace.db, s.threads[t]) && Step(w, s, t).None?
    ensures !Free(s, t, r)
  {
    hide Consistent, Compile, SetAt, VersionById, ByKey, MaxNumber, CodeIds, Finish, Goto, Acquire, CommitThen, Release,
         Renamed, Activated, Released, NewSet, NewVersion, Stored, Recompiles;
  }

  lemma CreateVersionWaits(w: Platform, s: State, t: nat)
    requires t in s.threads && s.threads[t].req.CreateVersion? && !Finished(s.threads[t].pc)
    requires Knows(w, s.trace.db, s.threads[t]) && Step(w, s, t).None?
    requires s.threads[t].pc.InsertVersion? ==>
      forall k :: k in VersionKeys(s.threads[t].req, s.threads[t].pc.number) ==> Free(s, t, k)
    ensures Wanted(s.threads[t]) != {}
  {
    hide Compile, SetAt, ByKey, MaxNumber, Finish, Goto, Acquire, CommitThen, Release, NewVersion, Stored, MayNumber,
         UniqueViolated, VersionKeys, Free, AtomicCreateVersion;
    var th := s.threads[t];
    assert th.pc.LockSet?;
  }

  lemma PublishWaits(w: Platform, s: State, t: nat)
    requires t in s.threads && s.threads[t].req.PublishVersion? && !Finished(s.threads[t].pc)
    requires Knows(w, s.trace.db, s.threads[t]) && Step(w, s, t).None?
    ensures Wanted(s.threads[t]) != {}
  {
    hide Compile, SetAt, VersionById, Finish, Goto, Acquire, CommitThen, Release, Released, Activated, Free,
         AtomicPublish, Recompiles, Releasable, LockedDraft;
    var th := s.threads[t];
    assert th.pc.SwapVersion? || th.pc.SwapOwner?;
  }

  lemma OthersWait(w: Platform, s: State, t: nat)
    requires t in s.threads && !s.threads[t].req.CreateVersion? && !s.threads[t].req.PublishVersion?
    requires Knows(w, s.trace.db, s.threads[t]) && Step(w, s, t).None? && !Finished(s.threads[t].pc)
    ensures Wanted(s.threads[t]) != {}
  {
    hide Compile, SetAt, CodeIds, Lookup, ByNumber, Finish, Goto, Acquire, CommitThen, Release, NewSet, Renamed, Free,
         AtomicCreateSet, AtomicUpdateSet, Recompiles, Answered, Target;
    var th := s.threads[t];
    assert th.pc.InsertSet? || th.pc.SwapSet?;
  }

  /** The holder of a set row, or of a claim on a code, never waits. */
  lemma SetHolderMoves(w: Platform, s: State, u: nat, r: Resource)
    requires u in s.threads && r in Held(s.threads[u]) && (r.SetRow? || r.CodeKey?) && Inv(w, s)
    requires s.threads[u].req.CreateVersion? && s.threads[u].pc.InsertVersion? ==>
      forall k :: k in VersionKeys(s.threads[u].req, s.threads[u].pc.number) ==> Free(s, u, k)
    ensures Step(w, s, u).Some? && !Finished(s.threads[u].pc)
  {
    hide Inv, Consistent, Remembers, NeverLogged, Instant, Compile, SetAt, VersionById, ByKey, MaxNumber, CodeIds,
         Finish, Goto, Acquire, CommitThen, Release, Unacceptable, Lookup, ByNumber, UniqueViolated, VersionKeys,
         AtomicCreateSet, AtomicUpdateSet, AtomicCreateVersion, AtomicPublish, Renamed, Activated, Released, NewSet,
         NewVersion, Stored, MayNumber, LockedDraft, Releasable, Recompiles, Answered;
    CallFacts(w, s, u);
  }

  lemma InsertsFree(w: Platform, s: State, t: nat)
    requires t in s.threads && Lawful(w) && Reachable(w, s)
    ensures s.threads[t].req.CreateVersion? && s.threads[t].pc.InsertVersion? ==>
      forall k :: k in VersionKeys(s.threads[t].req, s.threads[t].pc.number) ==> Free(s, t, k)
  {
    hide Lawful, Reachable, VersionKeys, UniqueViolated;
    if s.threads[t].req.CreateVersion? && s.threads[t].pc.InsertVersion? {
      InsertNeverCollides(w, s, t);
    }
  }

  lemma HolderOf(w: Platform, s: State, r: Resource)
    requires r in s.locks && Inv(w, s)
    ensures s.locks[r] in s.threads && r in Held(s.threads[s.locks[r]])
  {
    hide Inv, CachesOk, Held;
    Caches(w, s);
  }

  lemma VersionHolder(th: Thread, r: Resource)
    requires r in Held(th) && r.VersionRow?
    ensures th.req.PublishVersion? && (th.pc.SwapOwner? || SetRow(th.req.setId) in Held(th))
    ensures !Finished(th.pc)
    ensures forall wanted :: wanted in Wanted(th) ==> wanted.SetRow?
  {}

  lemma WantedKinds(th: Thread)
    ensures forall r :: r in Wanted(th) ==> r.SetRow? || r.CodeKey? || r.VersionRow?
  {}

  /** While any call is unfinished, some unfinished call can take its next step. */
  lemma SomeoneCanStep(w: Platform, s: State, t: nat) returns (u: nat)
    requires t in s.threads && !Finished(s.threads[t].pc) && Lawful(w) && Reachable(w, s)
    ensures u in s.threads && !Finished(s.threads[u].pc) && Step(w, s, u).Some?
  {
    hide Lawful, Reachable, Inv, Step, Held, Wanted, VersionKeys, Free;
    ReachableOk(w, s);
    u := t;
    if Step(w, s, u).None? {
      InsertsFree(w, s, u);
      var r := BlockedByHolder(w, s, u);
      WantedKinds(s.threads[u]);
      HolderOf(w, s, r);
      u := s.locks[r];
      InsertsFree(w, s, u);
      if r.VersionRow? {
        VersionHolder(s.threads[u], r);
        if Step(w, s, u).None? {
          r := BlockedByHolder(w, s, u);
          HolderOf(w, s, r);
          u := s.locks[r];
          InsertsFree(w, s, u);
          SetHolderMoves(w, s, u, r);
        }
      } else {
        SetHolderMoves(w, s, u, r);
      }
    }
  }

  /******* Termination *******/

  /** How many statements a call has left at most. */
  function Rank(pc: Pc): nat {
    match pc
    case Started => 8
    case ReadOwner => 7
    case ReadDraft(_) => 6
    case SwapVersion(_, _, _) => 5
    case SwapOwner(_, _, _) => 4
    case AppendEvent(_, _, _) => 3
    case CommitPublish(_, _, _) => 2
    case LockSet(_) => 6
    case FindKey(_, _, _) => 5
    case CountVersions(_) => 4
    case InsertVersion(_, _) => 3
    case CommitVersion(_, _) => 2
    case CommitReplay(_, _) => 2
    case StoreCompiled(_, _) => 1
    case InsertSet => 2
    case CommitSet => 1
    case ReadForUpdate => 3
    case SwapSet(_) => 2
    case CommitSwap(_) => 1
    case GetRow => 2
    case GetCurrent(_) => 1
    case FindSet => 5
    case FindVersion(_) => 4
    case LoadCompiled(_) => 3
    case PutCompiled(_, _) => 2
    case RunRules(_, _) => 1
    case Done(_, _) => 0
    case Aborted(_) => 0
  }

  function TotalRank(threads: map<nat, Thread>): nat
    decreases |threads|
  {
    if |threads| == 0 then 0
    else
      var t := Least(threads.Keys);
      assert |(threads - {t}).Keys| == |threads.Keys - {t}|;
      Rank(threads[t].pc) + TotalRank(threads - {t})
  }

  function Least(ts: set<nat>): (t: nat)
    requires |ts| > 0
    ensures t in ts
  {
    LeastExists(ts);
    var t :| t in ts && forall u :: u in ts ==> t <= u;
    t
  }

  lemma {:induction false} LeastExists(ts: set<nat>)
    requires |ts| > 0
    ensures exists t :: t in ts && forall u :: u in ts ==> t <= u
    decreases |ts|
  {
    var t :| t in ts;
    if |ts - {t}| > 0 {
      LeastExists(ts - {t});
      var m :| m in ts - {t} && forall u :: u in ts - {t} ==> m <= u;
      var least := if m < t then m else t;
      assert forall u :: u in ts ==> u == t || u in ts - {t};
      assert least in ts && forall u :: u in ts ==> least <= u;
    } else {
      assert ts - {t} == {};
      assert forall u :: u in ts ==> u == t || u in ts - {t};
    }
  }

  lemma {:induction false} TakeOut(threads: map<nat, Thread>, t: nat)
    requires t in threads
    ensures TotalRank(threads) == Rank(threads[t].pc) + TotalRank(threads - {t})
    decreases |threads|
  {
    hide Rank;
    var first := Least(threads.Keys);
    if first != t {
      assert |(threads - {first}).Keys| == |threads.Keys - {first}|;
      TakeOut(threads - {first}, t);
      assert (threads - {first}) - {t} == (threads - {t}) - {first};
      assert first in (threads - {t}).Keys;
      assert Least((threads - {t}).Keys) == first;
    }
  }

  lemma Replace(threads: map<nat, Thread>, t: nat, th: Thread)
    requires t in threads && Rank(th.pc) < Rank(threads[t].pc)
    ensures TotalRank(threads[t := th]) < TotalRank(threads)
  {
    TakeOut(threads, t);
    TakeOut(threads[t := th], t);
    assert threads[t := th] - {t} == threads - {t};
  }

  /** From `s` to `s'` call `t` alone has moved, nearer to its end. */
  ghost predicate Descends(s: State, s': State, t: nat)
    requires t in s.threads
  {
    t in s'.threads && s'.threads == s.threads[t := s'.threads[t]] && Rank(s'.threads[t].pc) < Rank(s.threads[t].pc)
  }

  lemma WritersDescend(w: Platform, s: State, t: nat)
    requires t in s.threads
    ensures s.threads[t].req.CreateSet? && StepCreateSet(s, t).Some? ==> Descends(s, StepCreateSet(s, t).value, t)
    ensures s.threads[t].req.UpdateSet? && s.threads[t].req.status.Some? && StepUpdateSet(s, t).Some?
      ==> Descends(s, StepUpdateSet(s, t).value, t)
  {
    hide CodeIds, SetAt, NewSet, Renamed, Freed, Taken, Extended, Free;
  }

  lemma CreateVersionDescends(w: Platform, s: State, t: nat)
    requires t in s.threads && s.threads[t].req.CreateVersion? && StepCreateVersion(w, s, t).Some?
    ensures Descends(s, StepCreateVersion(w, s, t).value, t)
  {
    hide SetAt, ByKey, MaxNumber, UniqueViolated, VersionKeys, NewVersion, Stored, Freed, Taken, Extended, Free;
  }

  lemma PublishDescends(w: Platform, s: State, t: nat)
    requires t in s.threads && s.threads[t].req.PublishVersion? && StepPublish(w, s, t).Some?
    ensures Descends(s, StepPublish(w, s, t).value, t)
  {
    hide SetAt, VersionById, Compile, Recompiles, Released, Activated, Freed, Taken, Extended, Free;
  }

  lemma GetSetDescends(s: State, t: nat)
    requires t in s.threads && s.threads[t].req.GetSet? && StepGetSet(s, t).Some?
    ensures Descends(s, StepGetSet(s, t).value, t)
  {
    hide Lookup, ByNumber, Freed;
  }

  lemma EvaluateReadsDescend(w: Platform, s: State, t: nat)
    requires t in s.threads && s.threads[t].req.Evaluate? && StepEvaluate(w, s, t).Some?
    requires s.threads[t].pc.FindSet? || s.threads[t].pc.FindVersion?
    ensures Descends(s, StepEvaluate(w, s, t).value, t)
  {
    hide Lookup, ByNumber, Target, Freed;
  }

  lemma EvaluateRunsDescend(w: Platform, s: State, t: nat)
    requires t in s.threads && s.threads[t].req.Evaluate? && StepEvaluate(w, s, t).Some?
    requires !s.threads[t].pc.FindSet? && !s.threads[t].pc.FindVersion?
    ensures Descends(s, StepEvaluate(w, s, t).value, t)
  {
    hide Compile, Recompiles, Answered, Freed;
  }

  lemma EvaluateDescends(w: Platform, s: State, t: nat)
    requires t in s.threads && s.threads[t].req.Evaluate? && StepEvaluate(w, s, t).Some?
    ensures Descends(s, StepEvaluate(w, s, t).value, t)
  {
    hide StepEvaluate, Descends;
    if s.threads[t].pc.FindSet? || s.threads[t].pc.FindVersion? {
      EvaluateReadsDescend(w, s, t);
    } else {
      EvaluateRunsDescend(w, s, t);
    }
  }

  /** Each step of a call brings it nearer to its end and moves no other call. */
  lemma StepDescends(w: Platform, s: State, t: nat)
    requires t in s.threads && Step(w, s, t).Some?
    ensures Descends(s, Step(w, s, t).value, t)
  {
    hide Compile, Unacceptable, StepCreateSet, StepUpdateSet, StepCreateVersion, StepPublish, StepGetSet, StepEvaluate,
         Freed;
    var th := s.threads[t];
    if !th.pc.Started? && !th.pc.StoreCompiled? {
      hide Descends;
      match th.req
      case CreateVersion(_, _, _, _, _, _, _, _) => CreateVersionDescends(w, s, t);
      case PublishVersion(_, _, _, _, _, _, _) => PublishDescends(w, s, t);
      case CreateSet(_, _, _, _, _, _, _) => WritersDescend(w, s, t);
      case UpdateSet(_, _, _, _, _, _, _, _) =>
        StatusGiven(w, th.req);
        WritersDescend(w, s, t);
      case GetSet(_, _) => GetSetDescends(s, t);
      case Evaluate(_, _, _, _) => EvaluateDescends(w, s, t);
    }
  }

  lemma StatusGiven(w: Platform, req: Request)
    requires req.UpdateSet? && !Unacceptable(w, req)
    ensures req.status.Some?
  {}

  predicate Arrival(a: Action) {
    a.Begin?
  }

  lemma DoDescends(w: Platform, s: State, a: Action)
    requires !Arrival(a) && Do(w, s, a).Some?
    ensures TotalRank(Do(w, s, a).value.threads) < TotalRank(s.threads)
  {
    hide Step, TotalRank;
    match a
    case Advance(t) =>
      StepDescends(w, s, t);
      Replace(s.threads, t, Step(w, s, t).value.threads[t]);
    case Abort(t) =>
      Replace(s.threads, t, s.threads[t].(pc := Aborted(|s.trace.past|), pending := NOTHING));
  }

  /** Without new arrivals a run is no longer than the statements its calls have left. */
  lemma {:induction false} RunsEnd(w: Platform, s: State, actions: seq<Action>)
    requires RunFrom(w, s, actions).Some? && forall a :: a in actions ==> !Arrival(a)
    ensures |actions| + TotalRank(RunFrom(w, s, actions).value.threads) <= TotalRank(s.threads)
    decreases |actions|
  {
    hide Do, TotalRank, Arrival;
    if actions != [] {
      var rest, a := actions[..|actions| - 1], actions[|actions| - 1];
      RunsEnd(w, s, rest);
      DoDescends(w, RunFrom(w, s, rest).value, a);
    }
  }

  lemma ReachableNext(w: Platform, s: State, a: Action)
    requires Reachable(w, s) && Do(w, s, a).Some?
    ensures Reachable(w, Do(w, s, a).value)
  {
    hide Do;
    var actions :| Run(w, actions) == Some(s);
    assert (actions + [a])[..|actions|] == actions;
    assert Run(w, actions + [a]) == Do(w, s, a);
  }

  lemma {:induction false} RunPrepend(w: Platform, s: State, a: Action, actions: seq<Action>)
    requires Do(w, s, a).Some?
    ensures RunFrom(w, s, [a] + actions) == RunFrom(w, Do(w, s, a).value, actions)
    decreases |actions|
  {
    hide Do;
    var all := [a] + actions;
    if actions == [] {
      assert all[..|all| - 1] == [];
    } else {
      RunPrepend(w, s, a, actions[..|actions| - 1]);
      assert all[..|all| - 1] == [a] + actions[..|actions| - 1];
    }
  }

  /** From every reachable state the calls in progress can all be brought to their end. */
  lemma {:induction false} Drain(w: Platform, s: State) returns (actions: seq<Action>, end: State)
    requires Lawful(w) && Reachable(w, s)
    ensures RunFrom(w, s, actions) == Some(end) && forall a :: a in actions ==> a.Advance?
    ensures Reachable(w, end) && forall t :: t in end.threads ==> Finished(end.threads[t].pc)
    decreases TotalRank(s.threads)
  {
    hide Lawful, Reachable, Step, TotalRank, Finished;
    if t :| t in s.threads && !Finished(s.threads[t].pc) {
      var u := SomeoneCanStep(w, s, t);
      var a := Advance(u);
      DoDescends(w, s, a);
      ReachableNext(w, s, a);
      var rest;
      rest, end := Drain(w, Do(w, s, a).value);
      RunPrepend(w, s, a, rest);
      actions := [a] + rest;
    } else {
      actions, end := [], s;
    }
  }
}
