/** The life of a freight booking: numbered, quoted, confirmed into one shipment, or cancelled. */
module Bookings {
  import opened Outcomes
  import opened Texts
  import Numbers = BookingNumbers

  type Id = nat

  datatype Status = Requested | Quoted | Confirmed | Cancelled

  datatype Booking = Booking(
    mode: string, origin: string, destination: string, currency: string, status: Status, card: Option<Id>,
    carrier: Option<Id>, vessel: Option<string>, carrierRef: Option<string>, billNumber: Option<string>,
    shipment: Option<Id>)

  datatype Card = Card(carrier: Id, mode: string, origin: string, destination: string, currency: string)

  /** `booking` is the booking whose confirmation made the shipment, if one did. */
  datatype Shipment = Shipment(booking: Option<Id>, vessel: string, billNumber: Option<string>)

  datatype State = State(bookings: map<Id, Booking>, cards: map<Id, Card>, shipments: map<Id, Shipment>)

  datatype Refusal =
    | NotFound | NotRequested | NotQuoted | WrongCarrier | WrongLane
    | DifferentDetails | BlankReference | AlreadyConfirmed

  datatype Quote = Quote(card: Option<Id>, carrier: Option<Id>, currency: Option<string>)

  datatype Details = Details(vessel: string, carrierRef: Option<string>, billNumber: Option<string>)

  /** Absent and empty texts count the same. */
  predicate Given(t: Option<string>) {
    t.Some? && t.value != ""
  }

  function OrNone(t: Option<string>): Option<string> {
    if Given(t) then t else None
  }

  // ----- The calls -------------------------------------------------------------------------------

  function QuoteBooking(s: State, id: Id, q: Quote): Result<State, Refusal> {
    if id !in s.bookings then Err(NotFound)
    else if s.bookings[id].status != Requested then Err(NotRequested)
    else if q.card.Some? && q.card.value !in s.cards then Err(NotFound)
    else
      var b := s.bookings[id];
      var card := if q.card.Some? then Some(s.cards[q.card.value]) else None;
      if card.Some? && q.carrier.Some? && card.value.carrier != q.carrier.value then Err(WrongCarrier)
      else if card.Some?
              && (card.value.mode != b.mode || card.value.origin != b.origin || card.value.destination != b.destination)
      then Err(WrongLane)
      else
        var carrier := if q.carrier.Some? then q.carrier else if card.Some? then Some(card.value.carrier) else None;
        var currency := if Given(q.currency) then q.currency.value
                        else if card.Some? && card.value.currency != "" then card.value.currency
                        else if b.currency != "" then b.currency else "USD";
        Ok(s.(bookings :=
                s.bookings[id := b.(card := q.card, carrier := carrier, currency := currency, status := Quoted)]))
  }

  function CancelBooking(s: State, id: Id): Result<State, Refusal> {
    if id !in s.bookings then Err(NotFound)
    else if s.bookings[id].status == Confirmed then Err(AlreadyConfirmed)
    else Ok(s.(bookings := s.bookings[id := s.bookings[id].(status := Cancelled)]))
  }

  predicate Differs(b: Booking, d: Details) {
    || b.vessel != Some(d.vessel)
    || (Given(d.carrierRef) && b.carrierRef != d.carrierRef)
    || (Given(d.billNumber) && b.billNumber != d.billNumber)
  }

  /** `made` is the id of the shipment, should one be made. The carrier adapter trims the reference it is given. */
  function ConfirmBooking(s: State, id: Id, d: Details, made: Id): Result<(State, Id), Refusal> {
    if id !in s.bookings then Err(NotFound)
    else
      var b := s.bookings[id];
      if b.status == Confirmed && b.shipment.Some? then
        if Differs(b, d) then Err(DifferentDetails)
        else if b.shipment.value !in s.shipments then Err(NotFound)
        else Ok((s, b.shipment.value))
      else if b.status != Quoted then Err(NotQuoted)
      else if Given(d.carrierRef) && Trim(d.carrierRef.value) == "" then Err(BlankReference)
      else
        var ref := if Given(d.carrierRef) then Some(Trim(d.carrierRef.value)) else None;
        var confirmed := b.(status := Confirmed, vessel := Some(d.vessel), carrierRef := ref,
                            billNumber := OrNone(d.billNumber), shipment := Some(made));
        Ok((s.(bookings := s.bookings[id := confirmed],
               shipments := s.shipments[made := Shipment(Some(id), d.vessel, OrNone(d.billNumber))]), made))
  }

  // ----- Runs ------------------------------------------------------------------------------------

  datatype Call =
    | Quoting(id: Id, quote: Quote)
    | Cancelling(id: Id)
    | Confirming(id: Id, details: Details, made: Id)

  /** Each call locks its booking first; BookingRaces shows that any interleaving is a sequence of whole calls. */
  function After(s: State, c: Call): State {
    match c
    case Quoting(id, q) => (match QuoteBooking(s, id, q) case Ok(t) => t case Err(_) => s)
    case Cancelling(id) => (match CancelBooking(s, id) case Ok(t) => t case Err(_) => s)
    case Confirming(id, d, made) => (match ConfirmBooking(s, id, d, made) case Ok((t, _)) => t case Err(_) => s)
  }

  function Run(s: State, calls: seq<Call>): State
    decreases |calls|
  {
    if calls == [] then s else Run(After(s, calls[0]), calls[1..])
  }

  /** New shipments get ids not in use. */
  ghost predicate FreshIds(s: State, calls: seq<Call>)
    decreases |calls|
  {
    calls == []
    || ((calls[0].Confirming? ==> calls[0].made !in s.shipments) && FreshIds(After(s, calls[0]), calls[1..]))
  }

  /** Forward only: requested, quoted, confirmed; or cancelled from either of the first two. */
  predicate Advances(a: Status, b: Status) {
    || a == b
    || a == Requested
    || (a == Quoted && b != Requested)
  }

  /** A booking is confirmed exactly when it has a shipment; shipment and booking point at each other. */
  ghost predicate Sound(s: State) {
    && (forall id | id in s.bookings :: s.bookings[id].status == Confirmed <==> s.bookings[id].shipment.Some?)
    && (forall id | id in s.bookings && s.bookings[id].shipment.Some? ::
          s.bookings[id].shipment.value in s.shipments
          && s.shipments[s.bookings[id].shipment.value].booking == Some(id))
    && (forall k | k in s.shipments && s.shipments[k].booking.Some? ::
          s.shipments[k].booking.value in s.bookings && s.bookings[s.shipments[k].booking.value].shipment == Some(k))
  }

  ghost predicate KeptBy(s: State, t: State) {
    && Sound(t)
    && forall id | id in s.bookings ::
         id in t.bookings && Advances(s.bookings[id].status, t.bookings[id].status)
         && (s.bookings[id].status == Confirmed ==> t.bookings[id] == s.bookings[id])
  }

  lemma QuotingKeepsSound(s: State, id: Id, q: Quote)
    requires Sound(s)
    ensures KeptBy(s, After(s, Quoting(id, q)))
  {
  }

  lemma CancellingKeepsSound(s: State, id: Id)
    requires Sound(s)
    ensures KeptBy(s, After(s, Cancelling(id)))
  {
  }

  lemma ConfirmingKeepsSound(s: State, id: Id, d: Details, made: Id)
    requires Sound(s) && made !in s.shipments
    ensures KeptBy(s, After(s, Confirming(id, d, made)))
  {
  }

  lemma CallKeepsSound(s: State, c: Call)
    requires Sound(s) && (c.Confirming? ==> c.made !in s.shipments)
    ensures KeptBy(s, After(s, c))
  {
    match c
    case Quoting(id, q) => QuotingKeepsSound(s, id, q);
    case Cancelling(id) => CancellingKeepsSound(s, id);
    case Confirming(id, d, made) => ConfirmingKeepsSound(s, id, d, made);
  }

  /** Over any run, statuses only advance, confirmed bookings stay as they are, and no booking has two shipments. */
  lemma {:induction false} RunKeepsSound(s: State, calls: seq<Call>)
    requires Sound(s) && FreshIds(s, calls)
    ensures var t := Run(s, calls);
            && Sound(t)
            && (forall id | id in s.bookings ::
                  id in t.bookings && Advances(s.bookings[id].status, t.bookings[id].status)
                  && (s.bookings[id].status == Confirmed ==> t.bookings[id] == s.bookings[id]))
            && (forall j, k | j in t.shipments && k in t.shipments && t.shipments[j].booking.Some?
                              && t.shipments[j].booking == t.shipments[k].booking :: j == k)
    decreases |calls|
  {
    if calls != [] {
      CallKeepsSound(s, calls[0]);
      RunKeepsSound(After(s, calls[0]), calls[1..]);
    }
  }

  /** A repeat with matching details, at any later time, returns the same shipment and changes nothing. */
  lemma RepeatConfirm(s: State, id: Id, d: Details, made: Id, calls: seq<Call>, again: Details, other: Id)
    requires Sound(s) && ConfirmBooking(s, id, d, made).Ok? && made !in s.shipments
    requires var t := ConfirmBooking(s, id, d, made).value.0;
             FreshIds(t, calls) && id in Run(t, calls).bookings && !Differs(Run(t, calls).bookings[id], again)
    ensures var (t, shipment) := ConfirmBooking(s, id, d, made).value;
            ConfirmBooking(Run(t, calls), id, again, other) == Ok((Run(t, calls), shipment))
  {
    var (t, shipment) := ConfirmBooking(s, id, d, made).value;
    assert t == After(s, Confirming(id, d, made));
    CallKeepsSound(s, Confirming(id, d, made));
    assert t.bookings[id].status == Confirmed && t.bookings[id].shipment == Some(shipment);
    RunKeepsSound(t, calls);
  }

  /** Nothing but blanks, and not nothing. */
  predicate Blank(t: Option<string>) {
    t.Some? && t.value != "" && Trim(t.value) == ""
  }

  /**
   * A quoted booking is confirmed unless its reference is blank. A shipment is added under the id given, for this
   * booking, with the vessel and the bill given; the booking takes vessel, bill, trimmed reference and shipment,
   * and nothing else changes.
   */
  lemma FirstConfirm(s: State, id: Id, d: Details, made: Id)
    requires id in s.bookings && s.bookings[id].status == Quoted
    ensures var r := ConfirmBooking(s, id, d, made);
            if Blank(d.carrierRef) then r == Err(BlankReference)
            else
              && r.Ok? && r.value.1 == made
              && var t := r.value.0;
                 && t.cards == s.cards && id in t.bookings && made in t.shipments
                 && t.bookings - {id} == s.bookings - {id} && t.shipments - {made} == s.shipments - {made}
                 && var b, k, was := t.bookings[id], t.shipments[made], s.bookings[id];
                    && k.booking == Some(id) && k.vessel == d.vessel
                    && k.billNumber == (if d.billNumber == Some("") then None else d.billNumber)
                    && b.status == Confirmed && b.shipment == Some(made) && b.vessel == Some(d.vessel)
                    && b.billNumber == (if d.billNumber == Some("") then None else d.billNumber)
                    && b.carrierRef == (if d.carrierRef.None? || d.carrierRef.value == "" then None
                                        else Some(Trim(d.carrierRef.value)))
                    && (b.mode, b.origin, b.destination, b.currency, b.card, b.carrier)
                       == (was.mode, was.origin, was.destination, was.currency, was.card, was.carrier)
  {
  }

  /** Vessel and bill match, and so does a reference or bill that is given. */
  predicate Matches(b: Booking, d: Details) {
    && b.vessel == Some(d.vessel)
    && (d.carrierRef.Some? && d.carrierRef.value != "" ==> b.carrierRef == d.carrierRef)
    && (d.billNumber.Some? && d.billNumber.value != "" ==> b.billNumber == d.billNumber)
  }

  /**
   * A booking that does not exist is not found, one requested or cancelled is not confirmed, a confirmed one only
   * matched.
   */
  lemma ConfirmOtherwise(s: State, id: Id, d: Details, made: Id)
    requires id in s.bookings ==> s.bookings[id].status != Quoted
    requires id in s.bookings && s.bookings[id].status == Confirmed ==>
               s.bookings[id].shipment.Some? && s.bookings[id].shipment.value in s.shipments
    ensures ConfirmBooking(s, id, d, made) ==
            if id !in s.bookings then Err(NotFound)
            else if s.bookings[id].status != Confirmed then Err(NotQuoted)
            else if Matches(s.bookings[id], d) then Ok((s, s.bookings[id].shipment.value))
            else Err(DifferentDetails)
  {
  }

  /** A booking can be cancelled unless it is confirmed; that and nothing else changes. */
  lemma CancelOutcome(s: State, id: Id)
    ensures var r := CancelBooking(s, id);
            if id !in s.bookings then r == Err(NotFound)
            else if s.bookings[id].status == Confirmed then r == Err(AlreadyConfirmed)
            else
              && r.Ok? && (r.value.cards, r.value.shipments) == (s.cards, s.shipments)
              && id in r.value.bookings && r.value.bookings - {id} == s.bookings - {id}
              && r.value.bookings[id] == s.bookings[id].(status := Cancelled)
  {
  }

  /**
   * A requested booking is quoted unless its rate card is unknown, is another carrier's than the one given, or is for
   * another lane or mode. Carrier and currency are those given, or else the card's, or else the booking's, or dollars.
   */
  lemma QuoteOutcome(s: State, id: Id, q: Quote)
    requires id in s.bookings && s.bookings[id].status == Requested
    ensures var r, was := QuoteBooking(s, id, q), s.bookings[id];
            if q.card.Some? && q.card.value !in s.cards then r == Err(NotFound)
            else
              var card := if q.card.Some? then Some(s.cards[q.card.value]) else None;
              if card.Some? && q.carrier.Some? && card.value.carrier != q.carrier.value then r == Err(WrongCarrier)
              else if card.Some? && (card.value.mode, card.value.origin, card.value.destination)
                                    != (was.mode, was.origin, was.destination) then r == Err(WrongLane)
              else
                && r.Ok? && (r.value.cards, r.value.shipments) == (s.cards, s.shipments)
                && id in r.value.bookings && r.value.bookings - {id} == s.bookings - {id}
                && var b := r.value.bookings[id];
                   && b == was.(card := q.card, carrier := b.carrier, currency := b.currency, status := Quoted)
                   && b.carrier == (if q.carrier.Some? || card.None? then q.carrier else Some(card.value.carrier))
                   && b.currency == (if q.currency.Some? && q.currency.value != "" then q.currency.value
                                     else if card.Some? && card.value.currency != "" then card.value.currency
                                     else if was.currency != "" then was.currency else "USD")
  {
  }

  /** Only a requested booking is quoted. */
  lemma QuoteOtherwise(s: State, id: Id, q: Quote)
    requires id in s.bookings ==> s.bookings[id].status != Requested
    ensures QuoteBooking(s, id, q) == if id in s.bookings then Err(NotRequested) else Err(NotFound)
  {
  }

  /** A call that is refused changes nothing. */
  lemma RefusedChangesNothing(s: State, id: Id, q: Quote, d: Details, made: Id)
    ensures After(s, Quoting(id, q)) == QuoteBooking(s, id, q).GetOr(s)
    ensures After(s, Cancelling(id)) == CancelBooking(s, id).GetOr(s)
    ensures After(s, Confirming(id, d, made)) == ConfirmBooking(s, id, d, made).GetOr((s, id)).0
  {
  }

  /** Every confirmed booking and its shipment have one vessel and one bill. */
  ghost predicate Agreed(s: State) {
    forall id | id in s.bookings && s.bookings[id].shipment.Some? && s.bookings[id].shipment.value in s.shipments ::
      var b, k := s.bookings[id], s.shipments[s.bookings[id].shipment.value];
      b.vessel == Some(k.vessel) && b.billNumber == k.billNumber
  }

  lemma CallKeepsAgreed(s: State, c: Call)
    requires Sound(s) && Agreed(s) && (c.Confirming? ==> c.made !in s.shipments)
    ensures Agreed(After(s, c))
  {
  }

  /** Over any run, every confirmed booking and its shipment agree on vessel and bill. */
  lemma {:induction false} RunKeepsAgreed(s: State, calls: seq<Call>)
    requires Sound(s) && Agreed(s) && FreshIds(s, calls)
    ensures var t := Run(s, calls);
            && Agreed(t)
            && forall id | id in t.bookings && t.bookings[id].status == Confirmed ::
                 && t.bookings[id].shipment.Some? && t.bookings[id].shipment.value in t.shipments
                 && var k := t.shipments[t.bookings[id].shipment.value];
                    k.booking == Some(id) && t.bookings[id].vessel == Some(k.vessel)
                    && t.bookings[id].billNumber == k.billNumber
    decreases |calls|
  {
    if calls != [] {
      CallKeepsSound(s, calls[0]);
      CallKeepsAgreed(s, calls[0]);
      RunKeepsAgreed(After(s, calls[0]), calls[1..]);
    }
  }

  lemma ConfirmAgain(s: State, id: Id, d: Details, other: Id)
    requires id in s.bookings && s.bookings[id].status == Confirmed
    requires s.bookings[id].shipment.Some? && s.bookings[id].shipment.value in s.shipments
    ensures ConfirmBooking(s, id, d, other)
            == if Differs(s.bookings[id], d) then Err(DifferentDetails) else Ok((s, s.bookings[id].shipment.value))
  {
  }

  /** The very same confirmation matches itself exactly when its carrier reference is absent or was trimmed already. */
  lemma SameConfirmRepeatsIff(s: State, id: Id, d: Details, made: Id, other: Id)
    requires Sound(s) && id in s.bookings && s.bookings[id].status == Quoted && ConfirmBooking(s, id, d, made).Ok?
    ensures var t := ConfirmBooking(s, id, d, made).value.0;
            ConfirmBooking(t, id, d, other) == Ok((t, made)) <==>
                !Given(d.carrierRef) || Trim(d.carrierRef.value) == d.carrierRef.value
  {
    FirstConfirm(s, id, d, made);
    ConfirmAgain(ConfirmBooking(s, id, d, made).value.0, id, d, other);
  }

  lemma TrimsBlank(reference: string)
    requires reference != "" && !IsSpace(reference[0]) && !IsSpace(reference[|reference| - 1])
    ensures Trim(reference + " ") == reference
  {
    var s := reference + " ";
    assert TrimStart(s) == s && s[..|s| - 1] == reference && s[|s| - 1] == ' ';
    assert IsSpace(' ') && TrimEnd(s) == TrimEnd(reference);
  }

  /** A booking quoted and confirmed under a reference with a blank after it: the same confirmation again is refused. */
  lemma TrailingBlankBreaksRepeat(s: State, id: Id, vessel: string, reference: string, made: Id, other: Id)
    requires id in s.bookings && s.bookings[id].status == Requested && made !in s.shipments
    requires reference != "" && !IsSpace(reference[0]) && !IsSpace(reference[|reference| - 1])
    ensures var d := Details(vessel, Some(reference + " "), None);
            var t := Run(s, [Quoting(id, Quote(None, None, None)), Confirming(id, d, made)]);
            && id in t.bookings && t.bookings[id].status == Confirmed && t.bookings[id].carrierRef == Some(reference)
            && ConfirmBooking(t, id, d, other) == Err(DifferentDetails)
  {
    TrimsBlank(reference);
    var d := Details(vessel, Some(reference + " "), None);
    QuotedWithoutCard(s, id);
    var quoted := After(s, Quoting(id, Quote(None, None, None)));
    assert |reference + " "| == |reference| + 1;
    RunTwo(s, Quoting(id, Quote(None, None, None)), Confirming(id, d, made));
    ConfirmedUnder(quoted, id, d, made, reference, other);
  }

  lemma QuotedWithoutCard(s: State, id: Id)
    requires id in s.bookings && s.bookings[id].status == Requested
    ensures var t := After(s, Quoting(id, Quote(None, None, None)));
            id in t.bookings && t.bookings[id].status == Quoted && t.shipments == s.shipments
  {
  }

  lemma ConfirmedUnder(s: State, id: Id, d: Details, made: Id, reference: string, other: Id)
    requires id in s.bookings && s.bookings[id].status == Quoted && made !in s.shipments
    requires Given(d.carrierRef) && Trim(d.carrierRef.value) == reference && reference != ""
             && d.carrierRef.value != reference
    ensures var t := After(s, Confirming(id, d, made));
            && id in t.bookings && t.bookings[id].status == Confirmed && t.bookings[id].carrierRef == Some(reference)
            && ConfirmBooking(t, id, d, other) == Err(DifferentDetails)
  {
  }

  lemma RunTwo(s: State, a: Call, b: Call)
    ensures Run(s, [a, b]) == After(After(s, a), b)
  {
    assert [a, b][1..] == [b] && [b][1..] == [];
    assert Run(After(s, a), [b]) == After(After(s, a), b);
  }

  /** A quote by a rate card is for the card's own carrier, on the booking's own lane and mode. */
  lemma QuoteFitsCard(s: State, id: Id, q: Quote)
    requires QuoteBooking(s, id, q).Ok?
    ensures var t := QuoteBooking(s, id, q).value;
            && id in s.bookings && t.bookings.Keys == s.bookings.Keys
            && t.cards == s.cards && t.shipments == s.shipments
            && var was, b := s.bookings[id], t.bookings[id];
               && was.status == Requested && b.status == Quoted && b.card == q.card
               && (forall other | other in s.bookings && other != id :: t.bookings[other] == s.bookings[other])
               && (b.card.Some? ==>
                     && b.card.value in s.cards
                     && var card := s.cards[b.card.value];
                        b.carrier == Some(card.carrier)
                            && (b.mode, b.origin, b.destination) == (card.mode, card.origin, card.destination)
                        && (!Given(q.currency) && card.currency != "" ==> b.currency == card.currency))
               && (q.carrier.Some? ==> b.carrier == q.carrier) && b.currency != ""
  {
  }

  // ----- The service -----------------------------------------------------------------------------

  class FreightDesk {
    var bookings: map<Id, Booking>
    var cards: map<Id, Card>
    var shipments: map<Id, Shipment>
    var numbers: set<Numbers.Booking>
    var counters: map<Numbers.Key, nat>

    ghost function Tables(): State
      reads this
    {
      State(bookings, cards, shipments)
    }

    constructor ()
      ensures Tables() == State(map[], map[], map[]) && Sound(Tables()) && numbers == {} && counters == map[]
    {
      bookings, cards, shipments, numbers, counters := map[], map[], map[], {}, map[];
    }

    /** The highest number in use for a tenant and year, found by going through the table once. */
    method HighestNumber(k: Numbers.Key, odd: string -> nat) returns (highest: nat)
      ensures Numbers.IsHighest(numbers, k, odd, highest)
    {
      var rest := numbers;
      highest := 0;
      while rest != {}
        invariant rest <= numbers && Numbers.IsHighest(numbers - rest, k, odd, highest)
      {
        var b :| b in rest;
        rest := rest - {b};
        assert numbers - rest == (numbers - (rest + {b})) + {b};
        if Numbers.Matches(b, k) && highest < Numbers.NumberOf(b.number, odd) {
          highest := Numbers.NumberOf(b.number, odd);
        }
      }
      assert numbers - rest == numbers;
    }

    /** Creates a requested booking; `id` is new. Its number exceeds every number of its tenant and year. */
    method CreateBooking(id: Id, k: Numbers.Key, mode: string, origin: string, destination: string, odd: string -> nat)
      returns (number: string)
      requires id !in bookings
      modifies `bookings, `numbers, `counters
      ensures bookings == old(bookings)[id :=
                Booking(mode, origin, destination, "USD", Requested, None, None, None, None, None, None)]
      ensures k in counters && number == Numbers.NumberText(k.year, counters[k])
              && counters == old(counters)[k := counters[k]]
      ensures numbers == old(numbers) + {Numbers.Booking(k.tenant, number)}
              && Numbers.Booking(k.tenant, number) !in old(numbers)
      ensures forall b | b in old(numbers) && Numbers.Matches(b, k) :: Numbers.NumberOf(b.number, odd) < counters[k]
      ensures k in old(counters) ==> old(counters)[k] < counters[k]
      ensures || counters[k] == 1
              || (k in old(counters) && counters[k] == old(counters)[k] + 1)
              || exists b ::
                   b in old(numbers) && Numbers.Matches(b, k) && counters[k] == Numbers.NumberOf(b.number, odd) + 1
    {
      var highest := HighestNumber(k, odd);
      counters := counters[k := Numbers.Bumped(counters, k, highest)];
      number := Numbers.NumberText(k.year, counters[k]);
      Numbers.NumberRoundTrip(k.year, counters[k], odd);
      assert Numbers.Matches(Numbers.Booking(k.tenant, number), k);
      numbers := numbers + {Numbers.Booking(k.tenant, number)};
      bookings := bookings[id :=
        Booking(mode, origin, destination, "USD", Requested, None, None, None, None, None, None)];
    }

    method Confirm(id: Id, d: Details, made: Id) returns (r: Result<Id, Refusal>)
      modifies `bookings, `shipments
      ensures Tables() == After(old(Tables()), Confirming(id, d, made))
      ensures match ConfirmBooking(old(Tables()), id, d, made) case Ok((_, k)) => r == Ok(k) case Err(e) => r == Err(e)
    {
      if id !in bookings {
        return Err(NotFound);
      }
      var booking := bookings[id];
      if booking.status == Confirmed && booking.shipment.Some? {
        if Differs(booking, d) {
          return Err(DifferentDetails);
        }
        if booking.shipment.value !in shipments {
          return Err(NotFound);
        }
        return Ok(booking.shipment.value);
      }
      if booking.status != Quoted {
        return Err(NotQuoted);
      }
      var carrierRef: Option<string> := None;
      if Given(d.carrierRef) {
        if Trim(d.carrierRef.value) == "" {
          return Err(BlankReference);
        }
        carrierRef := Some(Trim(d.carrierRef.value));
      }
      shipments := shipments[made := Shipment(Some(id), d.vessel, OrNone(d.billNumber))];
      bookings := bookings[id := booking.(status := Confirmed, vessel := Some(d.vessel), carrierRef := carrierRef,
                                          billNumber := OrNone(d.billNumber), shipment := Some(made))];
      return Ok(made);
    }
  }
}
