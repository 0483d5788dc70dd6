/** What a consumer of the outbox can rebuild, in whatever order and however often events reach it. */
module Outbox {
  import opened Wrappers
  import opened Platform
  import opened Store
  import opened Invariants
  import opened Machine
  import opened Guarantees

  /** The consumer keeps, for one set, the event with the largest rule-set version it has been handed. */
  function Newest(delivered: seq<Event>, setId: Id): Option<Event> {
    if delivered == [] then None
    else
      var e := delivered[|delivered| - 1];
      var best := Newest(delivered[..|delivered| - 1], setId);
      if e.ruleSet.id == setId && (best.None? || best.value.ruleSet.audit.version < e.ruleSet.audit.version)
      then Some(e) else best
  }

  function Rebuilt(delivered: seq<Event>, setId: Id): int {
    if Newest(delivered, setId).None? then 0 else Newest(delivered, setId).value.ruleSet.published
  }

  lemma {:induction false} NewestIsLargest(delivered: seq<Event>, setId: Id)
    ensures var best := Newest(delivered, setId);
      && (best.None? ==> forall e :: e in delivered ==> e.ruleSet.id != setId)
      && (best.Some? ==>
            && best.value in delivered && best.value.ruleSet.id == setId
            && forall e :: e in delivered && e.ruleSet.id == setId
                 ==> e.ruleSet.audit.version <= best.value.ruleSet.audit.version)
  {
    if delivered != [] {
      NewestIsLargest(delivered[..|delivered| - 1], setId);
      assert forall e :: e in delivered <==>
        e in delivered[..|delivered| - 1] || e == delivered[|delivered| - 1] by {
        assert delivered == delivered[..|delivered| - 1] + [delivered[|delivered| - 1]];
      }
    }
  }

  /** In commit order, the last event of a set is the one with the largest version. */
  lemma {:induction false} LastIsLargest(outbox: seq<Event>, setId: Id) returns (i: int)
    requires forall i, j | 0 <= i < j < |outbox| && outbox[i].ruleSet.id == outbox[j].ruleSet.id
                       :: outbox[i].ruleSet.audit.version < outbox[j].ruleSet.audit.version
    ensures -1 <= i < |outbox|
    ensures i == -1 ==> LastPointer(outbox, setId) == 0 && forall e :: e in outbox ==> e.ruleSet.id != setId
    ensures i >= 0 ==>
      && outbox[i].ruleSet.id == setId && LastPointer(outbox, setId) == outbox[i].ruleSet.published
      && forall e :: e in outbox && e.ruleSet.id == setId && e != outbox[i]
           ==> e.ruleSet.audit.version < outbox[i].ruleSet.audit.version
  {
    if outbox == [] {
      i := -1;
    } else if outbox[|outbox| - 1].ruleSet.id == setId {
      i := |outbox| - 1;
    } else {
      i := LastIsLargest(outbox[..|outbox| - 1], setId);
      assert forall e :: e in outbox ==> e in outbox[..|outbox| - 1] || e == outbox[|outbox| - 1] by {
        assert outbox == outbox[..|outbox| - 1] + [outbox[|outbox| - 1]];
      }
    }
  }

  /** A delivery that loses nothing and invents nothing; order and repetition are free. */
  ghost predicate Delivers(delivered: seq<Event>, outbox: seq<Event>, setId: Id) {
    && (forall e :: e in delivered ==> e in outbox)
    && (forall e :: e in outbox && e.ruleSet.id == setId ==> e in delivered)
  }

  lemma RebuildsPointer(db: Db, delivered: seq<Event>, setId: Id)
    requires OutboxFaithful(db) && setId in db.sets && Delivers(delivered, db.outbox, setId)
    ensures Rebuilt(delivered, setId) == db.sets[setId].published
  {
    hide Announces;
    NewestIsLargest(delivered, setId);
    var i := LastIsLargest(db.outbox, setId);
    hide Newest, LastPointer;
    if i >= 0 {
      assert db.outbox[i] in delivered;
    }
  }

  /** At every instant, any complete delivery of the committed events rebuilds every set's published pointer. */
  lemma ConsumersConverge(w: Platform, s: State, k: nat, delivered: seq<Event>, setId: Id)
    requires k <= |s.trace.past| && Lawful(w) && Reachable(w, s)
    requires setId in Instant(s.trace, k).sets && Delivers(delivered, Instant(s.trace, k).outbox, setId)
    ensures Rebuilt(delivered, setId) == Instant(s.trace, k).sets[setId].published
  {
    hide Lawful, Reachable, Instant, Grows, Delivers, Rebuilt, Keyed, CodesUnique, Numbered, KeysUnique, AllShaped,
         Pointed,
         OutboxFaithful;
    AlwaysConsistent(w, s, k, k);
    RebuildsPointer(Instant(s.trace, k), delivered, setId);
  }
}
