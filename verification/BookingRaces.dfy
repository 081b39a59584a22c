/**
 * Quoting, cancelling and confirming as concurrent transactions at read-committed isolation. Each first reads its
 * booking under a row lock that it holds to the end, then writes; other transactions commit in between.
 */
module BookingRaces {
  import opened Outcomes
  import opened Bookings

  type Session = nat

  /** What a transaction will commit: its booking, and the shipment it makes, if it makes one. */
  datatype Change = Change(booking: Booking, shipment: Option<Shipment>)

  /** `seen` is the booking as it was read under the lock. */
  datatype Tx = Tx(call: Call, seen: Option<Booking>, change: Option<Change>)

  /** `log` are the calls that changed the tables, in the order of their commits. */
  datatype World = World(tables: State, locks: map<Id, Session>, txs: map<Session, Tx>, log: seq<Call>)

  datatype Step =
    | Begin(s: Session, call: Call)
    | Lock(s: Session)
    | Write(s: Session)
    | Commit(s: Session)
    | Abort(s: Session)

  // ----- Steps -----------------------------------------------------------------------------------

  predicate Succeeds(t: State, c: Call) {
    match c
    case Quoting(id, q) => QuoteBooking(t, id, q).Ok?
    case Cancelling(id) => CancelBooking(t, id).Ok?
    case Confirming(id, d, made) => ConfirmBooking(t, id, d, made).Ok?
  }

  function ChangeOf(t: State, c: Call): Change
    requires Succeeds(t, c)
  {
    var u := After(t, c);
    Change(u.bookings[c.id],
           if c.Confirming? && c.made !in t.shipments && c.made in u.shipments then Some(u.shipments[c.made]) else None)
  }

  function Apply(t: State, c: Call, x: Change): State {
    t.(bookings := t.bookings[c.id := x.booking],
       shipments := if c.Confirming? && x.shipment.Some? then t.shipments[c.made := x.shipment.value] else t.shipments)
  }

  /** The tables as a transaction takes them to be: its booking as read, all else as committed by now. */
  function Seen(t: State, c: Call, b: Booking): State {
    t.(bookings := t.bookings[c.id := b])
  }

  /** Shipments get ids of their own. */
  predicate OwnShipment(w: World, c: Call) {
    c.Confirming? ==>
      && c.made !in w.tables.shipments
      && forall o | o in w.txs && w.txs[o].call.Confirming? :: w.txs[o].call.made != c.made
  }

  predicate Enabled(w: World, a: Step) {
    match a
    case Begin(s, c) => s !in w.txs && OwnShipment(w, c)
    case Lock(s) => s in w.txs && w.txs[s].seen.None?
                    && w.txs[s].call.id in w.tables.bookings && w.txs[s].call.id !in w.locks
    case Write(s) => s in w.txs && w.txs[s].seen.Some? && w.txs[s].change.None?
                     && Succeeds(Seen(w.tables, w.txs[s].call, w.txs[s].seen.value), w.txs[s].call)
    case Commit(s) => s in w.txs && w.txs[s].change.Some?
    case Abort(s) => s in w.txs
  }

  function Ended(w: World, s: Session): World
    requires s in w.txs
  {
    w.(txs := w.txs - {s}, locks := if w.txs[s].seen.Some? then w.locks - {w.txs[s].call.id} else w.locks)
  }

  function Next(w: World, a: Step): World
    requires Enabled(w, a)
  {
    match a
    case Begin(s, c) => w.(txs := w.txs[s := Tx(c, None, None)])
    case Lock(s) =>
      var id := w.txs[s].call.id;
      w.(txs := w.txs[s := w.txs[s].(seen := Some(w.tables.bookings[id]))], locks := w.locks[id := s])
    case Write(s) =>
      var x := ChangeOf(Seen(w.tables, w.txs[s].call, w.txs[s].seen.value), w.txs[s].call);
      w.(txs := w.txs[s := w.txs[s].(change := Some(x))])
    case Commit(s) =>
      Ended(w, s).(tables := Apply(w.tables, w.txs[s].call, w.txs[s].change.value), log := w.log + [w.txs[s].call])
    case Abort(s) => Ended(w, s)
  }

  ghost predicate Possible(w: World, steps: seq<Step>)
    decreases |steps|
  {
    steps == [] || (Enabled(w, steps[0]) && Possible(Next(w, steps[0]), steps[1..]))
  }

  function Reached(w: World, steps: seq<Step>): World
    requires Possible(w, steps)
    decreases |steps|
  {
    if steps == [] then w else Reached(Next(w, steps[0]), steps[1..])
  }

  // ----- Serial order ----------------------------------------------------------------------------

  /** A change about to be committed is what the whole call would do to the tables as they are now. */
  predicate Current(t: State, x: Tx) {
    && x.call.id in t.bookings && x.seen == Some(t.bookings[x.call.id])
    && (x.change.Some? ==> After(t, x.call) == Apply(t, x.call, x.change.value))
  }

  ghost predicate Locked(w: World) {
    && (forall s | s in w.txs && w.txs[s].seen.Some? :: w.txs[s].call.id in w.locks && w.locks[w.txs[s].call.id] == s)
    && (forall s | s in w.txs && w.txs[s].change.Some? :: w.txs[s].seen.Some?)
    && (forall id | id in w.locks :: w.locks[id] in w.txs && w.txs[w.locks[id]].seen.Some?
                                     && w.txs[w.locks[id]].call.id == id)
  }

  ghost predicate OwnShipments(w: World) {
    && (forall s | s in w.txs && w.txs[s].call.Confirming? :: w.txs[s].call.made !in w.tables.shipments)
    && (forall s, o | s in w.txs && o in w.txs && s != o && w.txs[s].call.Confirming? && w.txs[o].call.Confirming? ::
          w.txs[s].call.made != w.txs[o].call.made)
  }

  ghost predicate Consistent(w: World) {
    && Locked(w) && OwnShipments(w)
    && forall s | s in w.txs && w.txs[s].seen.Some? :: Current(w.tables, w.txs[s])
  }

  /** The committed tables are those of the logged calls, made whole, one after the other. */
  ghost predicate Serial(start: State, w: World) {
    w.tables == Run(start, w.log) && FreshIds(start, w.log)
  }

  lemma ChangeIsAfter(t: State, c: Call)
    requires Succeeds(t, c) && (c.Confirming? ==> c.made !in t.shipments)
    ensures After(t, c) == Apply(t, c, ChangeOf(t, c))
  {
    if c.Confirming? && After(t, c).shipments == t.shipments {
      assert After(t, c) == t;
    }
    assert t.bookings[c.id := t.bookings[c.id]] == t.bookings;
  }

  /** Commits to other bookings do not touch it. */
  lemma OthersKeepCurrent(t: State, x: Tx, c: Call, y: Change)
    requires Current(t, x) && c.id != x.call.id && c.id in t.bookings
    requires x.call.Confirming? ==> x.call.made !in t.shipments && !(c.Confirming? && c.made == x.call.made)
    ensures Current(Apply(t, c, y), x)
  {
    var u := Apply(t, c, y);
    if x.change.Some? {
      AfterOnRow(t, u, x.call, x.change.value);
    }
  }

  /** A call does the same to its own booking in any tables with that booking and those rate cards. */
  lemma AfterOnRow(t: State, u: State, c: Call, x: Change)
    requires c.id in t.bookings && c.id in u.bookings && t.bookings[c.id] == u.bookings[c.id] && t.cards == u.cards
    requires c.Confirming? ==> c.made !in t.shipments && c.made !in u.shipments
    requires After(t, c) == Apply(t, c, x)
    ensures After(u, c) == Apply(u, c, x)
  {
    assert After(t, c).bookings[c.id] == x.booking;
    assert u.bookings[c.id := u.bookings[c.id]] == u.bookings;
    if c.Confirming? {
      var made := After(t, c).shipments;
      assert x.shipment.Some? <==> c.made in made;
      assert x.shipment.Some? ==> made[c.made] == x.shipment.value;
      if x.shipment.None? {
        assert After(t, c).bookings[c.id] == t.bookings[c.id];
      }
    }
  }

  lemma NextKeepsLocked(w: World, a: Step)
    requires Locked(w) && Enabled(w, a)
    ensures Locked(Next(w, a))
  {
  }

  lemma NextKeepsShipments(w: World, a: Step)
    requires OwnShipments(w) && Enabled(w, a)
    ensures OwnShipments(Next(w, a))
  {
  }

  lemma NextKeepsConsistent(w: World, a: Step)
    requires Consistent(w) && Enabled(w, a)
    ensures Consistent(Next(w, a))
  {
    NextKeepsLocked(w, a);
    NextKeepsShipments(w, a);
    var v := Next(w, a);
    forall s | s in v.txs && v.txs[s].seen.Some? ensures Current(v.tables, v.txs[s]) {
      if a.Write? && a.s == s {
        SeenIsNow(w, s);
        ChangeIsAfter(w.tables, w.txs[s].call);
      } else if a.Commit? {
        OthersKeepCurrent(w.tables, w.txs[s], w.txs[a.s].call, w.txs[a.s].change.value);
      }
    }
  }

  lemma SeenIsNow(w: World, s: Session)
    requires Consistent(w) && s in w.txs && w.txs[s].seen.Some?
    ensures Seen(w.tables, w.txs[s].call, w.txs[s].seen.value) == w.tables
  {
    var c := w.txs[s].call;
    assert w.tables.bookings[c.id := w.tables.bookings[c.id]] == w.tables.bookings;
  }

  lemma {:induction false} RunAppend(t: State, calls: seq<Call>, c: Call)
    ensures Run(t, calls + [c]) == After(Run(t, calls), c)
    ensures FreshIds(t, calls) && (c.Confirming? ==> c.made !in Run(t, calls).shipments) ==> FreshIds(t, calls + [c])
    decreases |calls|
  {
    if calls == [] {
      assert [] + [c] == [c] && [c][1..] == [];
      assert Run(t, [c]) == Run(After(t, c), []);
    } else {
      assert (calls + [c])[0] == calls[0] && (calls + [c])[1..] == calls[1..] + [c];
      RunAppend(After(t, calls[0]), calls[1..], c);
    }
  }

  /**
   * In every interleaving of any number of transactions, aborts included, the committed tables are those that the
   * committed calls leave when made whole, one after the other, in the order of their commits.
   */
  lemma {:induction false} InterleavingsAreSerial(start: State, w: World, steps: seq<Step>)
    requires Consistent(w) && Serial(start, w) && Possible(w, steps)
    ensures Consistent(Reached(w, steps)) && Serial(start, Reached(w, steps))
    decreases |steps|
  {
    if steps != [] {
      var a := steps[0];
      NextKeepsConsistent(w, a);
      if a.Commit? {
        assert Current(w.tables, w.txs[a.s]);
        RunAppend(start, w.log, w.txs[a.s].call);
      }
      InterleavingsAreSerial(start, Next(w, a), steps[1..]);
    }
  }

  /**
   * So from sound tables, in every interleaving, statuses only advance, a confirmed booking stays as it is, and no
   * booking gets two shipments, however many confirmations of it run at once.
   */
  lemma OneShipmentInAnyInterleaving(start: State, steps: seq<Step>)
    requires Sound(start) && Possible(World(start, map[], map[], []), steps)
    ensures var t := Reached(World(start, map[], map[], []), steps).tables;
            && Sound(t)
            && (forall id | id in start.bookings ::
                  id in t.bookings && Advances(start.bookings[id].status, t.bookings[id].status)
                  && (start.bookings[id].status == Confirmed ==> t.bookings[id] == start.bookings[id]))
            && (forall j, k | j in t.shipments && k in t.shipments && t.shipments[j].booking.Some?
                              && t.shipments[j].booking == t.shipments[k].booking :: j == k)
  {
    var w := World(start, map[], map[], []);
    InterleavingsAreSerial(start, w, steps);
    RunKeepsSound(start, Reached(w, steps).log);
  }
}
