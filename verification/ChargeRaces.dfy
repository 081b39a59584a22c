/**
 * One charge row under concurrent transactions at read-committed isolation. Every statement sees what
 * was committed before it; a row lock is held to the end of its transaction. Refreshing, posting and editing with
 * keys lock the row and then look for a journal entry; returning and deleting look first; an edit without keys
 * locks and never looks.
 */
module ChargeRaces {
  import opened Outcomes

  type Session = nat

  datatype Kind = Refreshing | Editing | KeylessEditing | Posting | Returning | Deleting

  predicate LocksFirst(k: Kind) {
    k.Refreshing? || k.Editing? || k.KeylessEditing? || k.Posting?
  }

  predicate Looks(k: Kind) {
    !k.KeylessEditing?
  }

  /** Looks for an entry under the lock. */
  predicate Guarded(k: Kind) {
    LocksFirst(k) && Looks(k)
  }

  /** `sawEntry` is what the look for a journal entry found; `write` what the transaction will commit. */
  datatype Tx = Tx(kind: Kind, sawEntry: Option<bool>, locked: bool, write: Option<Write>)

  /** A new cost for the row, its deletion, or a journal entry for the amount. */
  datatype Write = Cost(cost: real) | Gone | Entry(amount: real)

  /** `cost` is the committed row, `posted` the amount of the committed entry. */
  datatype World = World(cost: Option<real>, posted: Option<real>, lock: Option<Session>, txs: map<Session, Tx>)

  datatype Step =
    | Begin(s: Session, kind: Kind)
    | Look(s: Session)
    | Lock(s: Session)
    | Put(s: Session, write: Write)
    | Commit(s: Session)
    | Abort(s: Session)

  // ----- Steps -----------------------------------------------------------------------------------

  /** Look and lock come at most once each, in the order of the transaction's kind. */
  predicate Enabled(w: World, a: Step) {
    match a
    case Begin(s, _) => s !in w.txs
    case Look(s) => s in w.txs && Looks(w.txs[s].kind) && w.txs[s].sawEntry.None?
                    && (LocksFirst(w.txs[s].kind) ==> w.txs[s].locked)
    case Lock(s) => s in w.txs && !w.txs[s].locked && w.lock.None? && w.cost.Some?
                    && (!LocksFirst(w.txs[s].kind) ==> w.txs[s].sawEntry == Some(false))
    case Put(s, write) => s in w.txs && w.txs[s].locked && w.txs[s].write.None?
                          && (Looks(w.txs[s].kind) ==> w.txs[s].sawEntry == Some(false))
                          && Fits(w.txs[s].kind, write, w.cost)
    case Commit(s) => s in w.txs
    case Abort(s) => s in w.txs
  }

  /** Posting enters the cost it reads under the lock. */
  predicate Fits(k: Kind, write: Write, cost: Option<real>) {
    match k
    case Posting => cost.Some? && write == Entry(cost.value)
    case Deleting => write == Gone
    case _ => write.Cost?
  }

  function Unlocked(w: World, s: Session): World {
    w.(txs := w.txs - {s}, lock := if w.lock == Some(s) then None else w.lock)
  }

  function Next(w: World, a: Step): World
    requires Enabled(w, a)
  {
    match a
    case Begin(s, kind) => w.(txs := w.txs[s := Tx(kind, None, false, None)])
    case Look(s) => w.(txs := w.txs[s := w.txs[s].(sawEntry := Some(w.posted.Some?))])
    case Lock(s) => w.(txs := w.txs[s := w.txs[s].(locked := true)], lock := Some(s))
    case Put(s, write) => w.(txs := w.txs[s := w.txs[s].(write := Some(write))])
    case Abort(s) => Unlocked(w, s)
    case Commit(s) =>
      match w.txs[s].write
      case None => Unlocked(w, s)
      case Some(Cost(c)) => Unlocked(w, s).(cost := Some(c))
      case Some(Gone) => Unlocked(w, s).(cost := None)
      case Some(Entry(amount)) => Unlocked(w, s).(posted := Some(amount))
  }

  ghost predicate Possible(w: World, steps: seq<Step>)
    decreases |steps|
  {
    steps == [] || (Enabled(w, steps[0]) && Possible(Next(w, steps[0]), steps[1..]))
  }

  function After(w: World, steps: seq<Step>): World
    requires Possible(w, steps)
    decreases |steps|
  {
    if steps == [] then w else After(Next(w, steps[0]), steps[1..])
  }

  // ----- Agreement -------------------------------------------------------------------------------

  predicate Agrees(w: World) {
    w.posted.Some? ==> w.cost == w.posted
  }

  /** Lock bookkeeping, and: a transaction that saw no entry under the lock still holds off every entry. */
  ghost predicate Sound(w: World) {
    && (w.lock.Some? ==> w.lock.value in w.txs && w.txs[w.lock.value].locked)
    && (forall s | s in w.txs && w.txs[s].locked :: w.lock == Some(s))
    && (forall s | s in w.txs && w.txs[s].write.Some? ::
          && w.txs[s].locked && (Looks(w.txs[s].kind) ==> w.txs[s].sawEntry == Some(false))
          && Fits(w.txs[s].kind, w.txs[s].write.value, w.cost))
    && (forall s | s in w.txs && Guarded(w.txs[s].kind) && w.txs[s].sawEntry.Some? :: w.txs[s].locked)
    && (forall s | s in w.txs && Guarded(w.txs[s].kind) && w.txs[s].sawEntry == Some(false) :: w.posted.None?)
  }

  /** A write to a posted row: by a return or deletion that looked before the posting, or by an edit without keys. */
  predicate Overtaken(w: World, a: Step) {
    a.Commit? && a.s in w.txs && !Guarded(w.txs[a.s].kind) && w.posted.Some? && w.txs[a.s].write.Some?
  }

  predicate WritesPostedCost(w: World, a: Step) {
    a.Commit? && a.s in w.txs && w.posted.Some? && w.txs[a.s].write == Some(Cost(w.posted.value))
  }

  lemma StepKeepsSound(w: World, a: Step)
    requires Sound(w) && Enabled(w, a)
    ensures Sound(Next(w, a))
  {
  }

  /** A step breaks the agreement exactly when it commits such a write with another cost. */
  lemma StepAgreesIff(w: World, a: Step)
    requires Sound(w) && Agrees(w) && Enabled(w, a)
    ensures Agrees(Next(w, a)) <==> !Overtaken(w, a) || WritesPostedCost(w, a)
  {
  }

  /** No step of the run writes another cost, or nothing, over a posted cost. */
  ghost predicate NeverOverwritten(w: World, steps: seq<Step>)
    requires Possible(w, steps)
    decreases |steps|
  {
    || steps == []
    || ((!Overtaken(w, steps[0]) || WritesPostedCost(w, steps[0])) && NeverOverwritten(Next(w, steps[0]), steps[1..]))
  }

  ghost predicate AgreesThroughout(w: World, steps: seq<Step>)
    requires Possible(w, steps)
    decreases |steps|
  {
    Agrees(w) && (steps == [] || AgreesThroughout(Next(w, steps[0]), steps[1..]))
  }

  /** In every interleaving of any number of transactions, row and entry agree throughout exactly if no step does it. */
  lemma {:induction false} RunAgrees(w: World, steps: seq<Step>)
    requires Sound(w) && Agrees(w) && Possible(w, steps)
    ensures AgreesThroughout(w, steps) <==> NeverOverwritten(w, steps)
    ensures Sound(After(w, steps)) && (NeverOverwritten(w, steps) ==> Agrees(After(w, steps)))
    decreases |steps|
  {
    if steps != [] {
      StepKeepsSound(w, steps[0]);
      StepAgreesIff(w, steps[0]);
      if Agrees(Next(w, steps[0])) {
        RunAgrees(Next(w, steps[0]), steps[1..]);
      } else {
        assert !AgreesThroughout(Next(w, steps[0]), steps[1..]);
        RunKeepsSound(Next(w, steps[0]), steps[1..]);
      }
    }
  }

  lemma {:induction false} RunKeepsSound(w: World, steps: seq<Step>)
    requires Sound(w) && Possible(w, steps)
    ensures Sound(After(w, steps))
    decreases |steps|
  {
    if steps != [] {
      StepKeepsSound(w, steps[0]);
      RunKeepsSound(Next(w, steps[0]), steps[1..]);
    }
  }

  ghost predicate AllGuarded(w: World) {
    forall s | s in w.txs :: Guarded(w.txs[s].kind)
  }

  /** With refreshing, posting and editing with keys alone, which look under the lock, no interleaving breaks it. */
  lemma {:induction false} LockingFirstIsSafe(w: World, steps: seq<Step>)
    requires Sound(w) && Agrees(w) && AllGuarded(w) && Possible(w, steps)
    requires forall a | a in steps :: a.Begin? ==> Guarded(a.kind)
    ensures Agrees(After(w, steps))
    decreases |steps|
  {
    if steps != [] {
      assert steps[0] in steps && forall a | a in steps[1..] :: a in steps;
      StepKeepsSound(w, steps[0]);
      StepAgreesIff(w, steps[0]);
      LockingFirstIsSafe(Next(w, steps[0]), steps[1..]);
    }
  }

  /**
   * In no interleaving whatever, overtakings and edits without keys included, is a charge posted twice: once an
   * entry is committed, it stays the one entry.
   */
  lemma {:induction false} NeverPostedTwice(w: World, steps: seq<Step>)
    requires Sound(w) && Possible(w, steps) && w.posted.Some?
    ensures After(w, steps).posted == w.posted
    decreases |steps|
  {
    if steps != [] {
      StepKeepsSound(w, steps[0]);
      StepKeepsEntry(w, steps[0]);
      NeverPostedTwice(Next(w, steps[0]), steps[1..]);
    }
  }

  lemma StepKeepsEntry(w: World, a: Step)
    requires Sound(w) && Enabled(w, a) && w.posted.Some?
    ensures Next(w, a).posted == w.posted
  {
  }

  lemma Prepend(w: World, a: Step, rest: seq<Step>)
    requires Enabled(w, a) && Possible(Next(w, a), rest)
    ensures Possible(w, [a] + rest) && After(w, [a] + rest) == After(Next(w, a), rest)
  {
    assert ([a] + rest)[1..] == rest;
  }

  /** A posting that runs from start to finish while nobody holds the lock. */
  lemma PostingRuns(w: World, s: Session, rest: seq<Step>) returns (steps: seq<Step>)
    requires s !in w.txs && w.lock.None? && w.posted.None? && w.cost.Some?
    requires Possible(w.(posted := w.cost), rest)
    ensures Possible(w, steps) && After(w, steps) == After(w.(posted := w.cost), rest)
  {
    var w1 := Next(w, Begin(s, Posting));
    var w2 := Next(w1, Lock(s));
    var w3 := Next(w2, Look(s));
    var w4 := Next(w3, Put(s, Entry(w.cost.value)));
    assert Next(w4, Commit(s)) == w.(posted := w.cost) by {
      assert w4.txs - {s} == w.txs;
    }
    Prepend(w4, Commit(s), rest);
    var r3 := [Commit(s)] + rest;
    Prepend(w3, Put(s, Entry(w.cost.value)), r3);
    var r2 := [Put(s, Entry(w.cost.value))] + r3;
    Prepend(w2, Look(s), r2);
    var r1 := [Look(s)] + r2;
    Prepend(w1, Lock(s), r1);
    var r0 := [Lock(s)] + r1;
    Prepend(w, Begin(s, Posting), r0);
    steps := [Begin(s, Posting)] + r0;
  }

  /**
   * A return or deletion that looks before a posting commits, and locks after it, writes over a posted charge: the
   * return another cost, the deletion nothing.
   */
  lemma OvertakenByPosting(w: World, kind: Kind, write: Write) returns (steps: seq<Step>)
    requires w.txs == map[] && w.lock.None? && w.posted.None? && w.cost.Some?
    requires (kind == Returning && write.Cost? && Some(write.cost) != w.cost) || (kind == Deleting && write == Gone)
    ensures Sound(w) && Agrees(w) && Possible(w, steps) && !Agrees(After(w, steps))
    ensures After(w, steps) == w.(cost := if write.Cost? then Some(write.cost) else None, posted := w.cost)
  {
    var w1 := Next(w, Begin(1, kind));
    var w2 := Next(w1, Look(1));
    var v := w2.(posted := w2.cost);
    var v1 := Next(v, Lock(1));
    var v2 := Next(v1, Put(1, write));
    var done := Next(v2, Commit(1));
    assert done == w.(cost := if write.Cost? then Some(write.cost) else None, posted := w.cost) by {
      assert v2.txs - {1} == map[];
    }
    assert After(done, []) == done;
    Prepend(v2, Commit(1), []);
    Prepend(v1, Put(1, write), [Commit(1)] + []);
    var r := [Put(1, write)] + ([Commit(1)] + []);
    Prepend(v, Lock(1), r);
    var rest := PostingRuns(w2, 2, [Lock(1)] + r);
    Prepend(w1, Look(1), rest);
    Prepend(w, Begin(1, kind), [Look(1)] + rest);
    steps := [Begin(1, kind)] + ([Look(1)] + rest);
  }

  /** An edit without keys, run alone after a posting, writes whatever cost it comes to. */
  lemma KeylessEditOverwrites(w: World, cost: real) returns (steps: seq<Step>)
    requires w.txs == map[] && w.lock.None? && w.posted.Some? && w.cost == w.posted && w.cost != Some(cost)
    ensures Sound(w) && Agrees(w) && Possible(w, steps)
    ensures After(w, steps) == w.(cost := Some(cost)) && !Agrees(After(w, steps))
  {
    var w1 := Next(w, Begin(1, KeylessEditing));
    var w2 := Next(w1, Lock(1));
    var w3 := Next(w2, Put(1, Cost(cost)));
    var done := Next(w3, Commit(1));
    assert done == w.(cost := Some(cost)) by {
      assert w3.txs - {1} == map[];
    }
    assert After(done, []) == done;
    Prepend(w3, Commit(1), []);
    steps := [Commit(1)] + [];
    Prepend(w2, Put(1, Cost(cost)), steps);
    steps := [Put(1, Cost(cost))] + steps;
    Prepend(w1, Lock(1), steps);
    steps := [Lock(1)] + steps;
    Prepend(w, Begin(1, KeylessEditing), steps);
    steps := [Begin(1, KeylessEditing)] + steps;
  }
}
