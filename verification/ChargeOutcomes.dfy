/** What each call on a charge comes to, told in days, rates and amounts. */
module ChargeOutcomes {
  import opened Outcomes
  import opened Texts
  import opened Tiers
  import opened Calendar
  import opened Charges
  import opened ChargeRuns
  import opened ChargeHistory

  // ----- Tariffs ---------------------------------------------------------------------------------

  predicate Fits(t: Tariff, carrier: string, size: string, day: int) {
    t.active && t.carrier == carrier && t.size == size && t.effectiveFrom <= day
  }

  /**
   * The pin is a tariff of the table that fits, and no other that fits is in force from later on or, from then,
   * younger.
   */
  ghost predicate NewestFit(q: Snapshot, tariffs: seq<Tariff>, carrier: string, size: string, day: int) {
    exists t :: t in tariffs && Fits(t, carrier, size, day)
                && q == Snapshot(t.id, t.currency, t.tiers, t.effectiveFrom)
                && forall u | u in tariffs && Fits(u, carrier, size, day) ::
                     u.effectiveFrom < t.effectiveFrom
                     || (u.effectiveFrom == t.effectiveFrom && u.createdAt <= t.createdAt)
  }

  /** A charge is quoted the newest tariff that fits, and none only without a carrier or a fit. */
  lemma QuotedIsNewestFit(tariffs: seq<Tariff>, carrier: Option<string>, size: string, day: int)
    ensures match Quoted(tariffs, carrier, size, day)
            case Some(q) => carrier.Some? && carrier.value != "" && NewestFit(q, tariffs, carrier.value, size, day)
            case None =>
              carrier.None? || carrier.value == "" || forall t | t in tariffs :: !Fits(t, carrier.value, size, day)
  {
    if carrier.Some? {
      var q := Select(tariffs, carrier.value, size, day);
      assert forall t | t in tariffs :: Fits(t, carrier.value, size, day) <==> Applies(t, carrier.value, size, day);
      if q.Some? {
        var t := q.value;
        assert forall u | u in tariffs && Fits(u, carrier.value, size, day) :: !Newer(u, t);
      }
    }
  }

  // ----- Days and prices -------------------------------------------------------------------------

  /** Counted from one day to the day of a moment; the days beyond the free ones are owed. */
  predicate CountsDays(r: Row, from: int, ms: int) {
    && r.totalDays == CountedDay(DayOf(ms)) - CountedDay(from)
    && r.demurrageDays == if r.totalDays <= r.freeDays then 0 else r.totalDays - r.freeDays
  }

  /** The rates of the days owed, added up and rounded to the cent, in the tariff's currency. */
  predicate PricedAs(r: Row, tariff: Snapshot) {
    && Accepted(tariff.tiers) && r.currency == tariff.currency
    && r.cost == if r.demurrageDays <= 0 then 0.0 else RoundCents(Charge(tariff.tiers, 0, r.demurrageDays))
  }

  lemma RepriceOutcome(row: Row, from: int, ms: int, tariff: Option<Snapshot>)
    ensures var r := Reprice(row, CountedDay(DayOf(ms)) - CountedDay(from), tariff);
            && (r.Err? <==> tariff.Some? && !Accepted(tariff.value.tiers))
            && (r.Err? ==> r.error == BadTiers)
            && (r.Ok? ==>
                  && CountsDays(r.value, from, ms)
                  && r.value == row.(totalDays := r.value.totalDays, demurrageDays := r.value.demurrageDays,
                                     cost := r.value.cost, currency := r.value.currency, snapshot := r.value.snapshot)
                  && if tariff.Some? then PricedAs(r.value, tariff.value) && r.value.snapshot == tariff
                     else (r.value.cost, r.value.currency, r.value.snapshot) == (row.cost, row.currency, row.snapshot))
  {
  }

  // ----- Refreshing ------------------------------------------------------------------------------

  /**
   * A refresh leaves alone what is settled, waived, undated, still to be discharged or posted. It counts the days of
   * every other charge, and prices it by its pin or else by the tariff for its own terms, if there is one.
   */
  lemma RefreshOutcome(row: Row, tariffs: seq<Tariff>, posted: bool, now: int)
    ensures var r := RefreshRow(row, tariffs, posted, now);
            if row.status != Active || row.discharge.None? || now < row.discharge.value * MS_PER_DAY || posted
            then r == Ok(row)
            else
              var tariff := if row.snapshot.Some? then row.snapshot
                            else Quoted(tariffs, row.carrier, row.size, row.discharge.value);
              && (r.Err? <==> tariff.Some? && !Accepted(tariff.value.tiers))
              && (r.Ok? ==>
                    && CountsDays(r.value, row.discharge.value, now)
                    && (r.value.carrier, r.value.size, r.value.discharge, r.value.freeDays, r.value.status,
                        r.value.absorbed)
                       == (row.carrier, row.size, row.discharge, row.freeDays, row.status, row.absorbed)
                    && if tariff.Some? then PricedAs(r.value, tariff.value) && r.value.snapshot == tariff
                       else
                         (r.value.cost, r.value.currency, r.value.snapshot) == (row.cost, row.currency, row.snapshot))
  {
    if !(row.status != Active || row.discharge.None? || now < row.discharge.value * MS_PER_DAY || posted) {
      ElapsedCounts(row.discharge.value, now);
      RepriceOutcome(row, row.discharge.value, now, Basis(row, tariffs));
    }
  }

  // ----- Recording -------------------------------------------------------------------------------

  /** A new charge holds what it was given, with seven free days and no carrier where none was. */
  lemma OpenedTerms(c: NewCharge, tariffs: seq<Tariff>, now: int)
    requires OpenRow(c, tariffs, now).Ok?
    ensures var r := OpenRow(c, tariffs, now).value;
            && r.carrier == (if c.carrier == Some("") then None else c.carrier) && r.size == c.size
            && r.freeDays == (if c.freeDays.Some? then c.freeDays.value else 7) && 0 <= r.freeDays <= 3650
            && r.discharge == (if c.discharge.Some? then Some(LocalDay(c.discharge.value)) else None)
            && r.status == Active && !r.absorbed && r.returned.None? && r.gateOut.None?
            && (c.discharge.None? ==> r.totalDays == 0 == r.demurrageDays && r.cost == 0.0 && r.snapshot.None?)
  {
  }

  /**
   * It is counted and priced from the UTC day of its discharge, by the tariff quoted for that day. It is refused for
   * free days out of range, a discharge still to come, days owed without a tariff, or a tariff with bad tiers.
   */
  lemma OpenOutcome(c: NewCharge, tariffs: seq<Tariff>, now: int)
    requires c.discharge.Some?
    ensures var r, m := OpenRow(c, tariffs, now), c.discharge.value;
            if c.freeDays.Some? && !(0 <= c.freeDays.value <= 3650) then r == Err(BadInput)
            else if now < m.ms then r == Err(BadDate)
            else
              var tariff := Quoted(tariffs, c.carrier, c.size, DayOf(m.ms));
              && (r.Ok? ==> CountsDays(r.value, DayOf(m.ms), now))
              && if tariff.Some? then
                   && (r.Ok? <==> Accepted(tariff.value.tiers))
                   && (r.Err? ==> r == Err(BadTiers))
                   && (r.Ok? ==> PricedAs(r.value, tariff.value) && r.value.snapshot == tariff)
                 else
                   && (r.Ok? <==> CountedDay(DayOf(now)) - CountedDay(DayOf(m.ms)) <= c.freeDays.GetOr(7))
                   && (r.Err? ==> r == Err(NoTariff))
                   && (r.Ok? ==> (r.value.cost, r.value.currency, r.value.snapshot) == (0.0, "USD", None))
  {
    var m := c.discharge.value;
    if FreeDaysAllowed(c.freeDays) && m.ms <= now {
      DaysBetweenCounts(m.ms, now);
      var total := CountedDay(DayOf(now)) - CountedDay(DayOf(m.ms));
      OpenRowReprices(c, tariffs, now, total);
      RepriceOutcome(Blank(c), DayOf(m.ms), now, Quoted(tariffs, c.carrier, c.size, DayOf(m.ms)));
    }
  }

  function Blank(c: NewCharge): Row
    requires c.discharge.Some?
  {
    Row(if c.carrier == Some("") then None else c.carrier, c.size, Some(LocalDay(c.discharge.value)), None, None,
        c.freeDays.GetOr(7), 0, 0, 0.0, "USD", None, Active, false)
  }

  lemma OpenRowReprices(c: NewCharge, tariffs: seq<Tariff>, now: int, total: int)
    requires c.discharge.Some? && FreeDaysAllowed(c.freeDays)
    requires DaysBetween(At(c.discharge.value.ms), At(now)) == Ok(total)
    ensures var tariff := Quoted(tariffs, c.carrier, c.size, DayOf(c.discharge.value.ms));
            OpenRow(c, tariffs, now)
            == if tariff.None? && Chargeable(total, c.freeDays.GetOr(7)) > 0 then Err(NoTariff)
               else Reprice(Blank(c), total, tariff)
  {
    var carrier := if c.carrier == Some("") then None else c.carrier;
    assert forall day :: Quoted(tariffs, carrier, c.size, day) == Quoted(tariffs, c.carrier, c.size, day);
  }

  // ----- Settling --------------------------------------------------------------------------------

  /**
   * A return counts the days from the stored discharge to the day of the return. With a carrier it is priced by the
   * pin or else by the tariff for the row's own terms, which is not pinned; without one, or without a tariff, it
   * costs nothing and is refused if days are owed.
   */
  lemma SettleOutcome(row: Row, tariffs: seq<Tariff>, at: Option<Moment>)
    ensures var r := SettleRow(row, tariffs, at);
            if row.discharge.None? then r == Err(NoDischargeDate)
            else if at.None? || at.value.ms < row.discharge.value * MS_PER_DAY then r == Err(BadDate)
            else
              var total := CountedDay(DayOf(at.value.ms)) - CountedDay(row.discharge.value);
              var tariff := if row.carrier.None? || row.carrier.value == "" then None
                            else if row.snapshot.Some? then row.snapshot
                            else Quoted(tariffs, row.carrier, row.size, row.discharge.value);
              && (r.Err? ==> r.error == if tariff.Some? then BadTiers else NoTariff)
              && (r.Ok? <==> if tariff.Some? then Accepted(tariff.value.tiers) else total <= row.freeDays)
              && (r.Ok? ==>
                    && CountsDays(r.value, row.discharge.value, at.value.ms)
                    && r.value.returned == Some(LocalDay(at.value)) && r.value.status == Completed
                    && r.value == row.(returned := r.value.returned, totalDays := r.value.totalDays,
                                       status := Completed, demurrageDays := r.value.demurrageDays,
                                       cost := r.value.cost, currency := r.value.currency)
                    && if tariff.Some? then PricedAs(r.value, tariff.value)
                       else r.value.cost == 0.0 && r.value.currency == row.currency)
  {
    if row.discharge.Some? && at.Some? && row.discharge.value * MS_PER_DAY <= at.value.ms {
      ElapsedCounts(row.discharge.value, at.value.ms);
    }
  }

  // ----- Editing ---------------------------------------------------------------------------------

  /** The keys of an edit that a settled charge no longer takes. */
  predicate TouchesTerms(p: Patch) {
    p.carrier.Some? || p.size.Some? || p.discharge.Some? || p.freeDays.Some? || p.status.Some? || p.particulars
  }

  /** An edit writes the keys it names and keeps the others; a discharge is stored as its local day. */
  lemma EditedTerms(row: Row, p: Patch, tariffs: seq<Tariff>, now: int)
    requires EditRow(row, p, tariffs, now).Ok?
    ensures var r := EditRow(row, p, tariffs, now).value;
            && r.carrier == (if p.carrier.Some? then p.carrier.value else row.carrier)
            && r.size == (if p.size.Some? then p.size.value else row.size)
            && r.freeDays == (if p.freeDays.Some? then p.freeDays.value else row.freeDays)
            && r.status == (if p.status.Some? then p.status.value else row.status)
            && r.absorbed == (if p.absorbed.Some? then p.absorbed.value else row.absorbed)
            && r.discharge == (match p.discharge
                               case None => row.discharge
                               case Some(None) => None
                               case Some(Some(m)) => Some(LocalDay(m)))
            && r.returned == row.returned && r.gateOut == row.gateOut
  {
    if row.status == Active && Overwrite(row, p).discharge.Some? {
      EditedRow(row, p, tariffs, now);
    }
  }

  /** The moment an edit counts from, if the edited charge has a discharge. */
  function CountedFrom(row: Row, p: Patch): Option<int> {
    match p.discharge
    case None => (match row.discharge case None => None case Some(day) => Some(day * MS_PER_DAY))
    case Some(None) => None
    case Some(Some(m)) => Some(m.ms)
  }

  /**
   * The tariff of the edited terms: none without a carrier; the pin, if neither carrier nor size nor discharge is
   * named; otherwise the one quoted for the day counted from.
   */
  function TariffOf(row: Row, p: Patch, tariffs: seq<Tariff>, start: int): Option<Snapshot> {
    var carrier := if p.carrier.Some? then p.carrier.value else row.carrier;
    if carrier.None? || carrier.value == "" then None
    else if p.carrier.None? && p.size.None? && p.discharge.None? && row.snapshot.Some? then row.snapshot
    else Quoted(tariffs, carrier, if p.size.Some? then p.size.value else row.size, DayOf(start))
  }

  /** An edit is refused for free days out of range, terms of a settled charge, or a discharge still to come. */
  lemma EditRefusals(row: Row, p: Patch, tariffs: seq<Tariff>, now: int)
    ensures var r, start := EditRow(row, p, tariffs, now), CountedFrom(row, p);
            if p.freeDays.Some? && !(0 <= p.freeDays.value <= 3650) then r == Err(BadInput)
            else if row.status != Active && TouchesTerms(p) then r == Err(AlreadySettled)
            else if row.status != Active || start.None? then
              r.Ok? && (r.value.totalDays, r.value.demurrageDays, r.value.cost, r.value.currency, r.value.snapshot)
                       == (row.totalDays, row.demurrageDays, row.cost, row.currency, row.snapshot)
            else now < start.value ==> r == Err(BadDate)
  {
    assert Overwrite(row, p).discharge.Some? <==> CountedFrom(row, p).Some?;
  }

  /**
   * Otherwise it counts an active charge from the UTC day of the discharge it names, or else from the stored one, and
   * prices it by the tariff of the edited terms, or at nothing without one; only bad tiers refuse it then.
   */
  lemma EditOutcome(row: Row, p: Patch, tariffs: seq<Tariff>, now: int)
    requires row.status == Active && (p.freeDays.Some? ==> 0 <= p.freeDays.value <= 3650)
    requires CountedFrom(row, p).Some? && CountedFrom(row, p).value <= now
    ensures var r, start := EditRow(row, p, tariffs, now), CountedFrom(row, p).value;
            var tariff := TariffOf(row, p, tariffs, start);
            && (r.Err? ==> r.error == BadTiers)
            && (r.Ok? <==> (tariff.Some? ==> Accepted(tariff.value.tiers)))
            && (r.Ok? ==>
                  && CountsDays(r.value, DayOf(start), now)
                  && if tariff.Some? then PricedAs(r.value, tariff.value) && r.value.snapshot == tariff
                     else (r.value.cost, r.value.currency, r.value.snapshot) == (0.0, row.currency, row.snapshot))
  {
    var edited, start := Overwrite(row, p).(cost := 0.0), CountedFrom(row, p).value;
    SameTariff(row, p, tariffs);
    EditReprices(row, p, tariffs, now);
    RepriceOutcome(edited, DayOf(start), now, TariffOf(row, p, tariffs, start));
  }

  lemma SameTariff(row: Row, p: Patch, tariffs: seq<Tariff>)
    requires CountedFrom(row, p).Some?
    ensures Overwrite(row, p).discharge.Some? && StartOf(row, p) == CountedFrom(row, p).value
    ensures EditBasis(row, p, tariffs) == TariffOf(row, p, tariffs, StartOf(row, p))
  {
  }

  lemma EditReprices(row: Row, p: Patch, tariffs: seq<Tariff>, now: int)
    requires FreeDaysAllowed(p.freeDays) && row.status == Active && Overwrite(row, p).discharge.Some?
    requires StartOf(row, p) <= now
    ensures EditRow(row, p, tariffs, now)
            == Reprice(Overwrite(row, p).(cost := 0.0), CountedDay(DayOf(now)) - CountedDay(DayOf(StartOf(row, p))),
                       EditBasis(row, p, tariffs))
  {
    DaysBetweenCounts(StartOf(row, p), now);
  }

  // ----- Posting ---------------------------------------------------------------------------------

  /** The amount in whole cents nearest to another, halves upwards. */
  ghost predicate ToTheCent(a: real, exact: real) {
    InCents(a) && exact - 0.005 < a <= exact + 0.005
  }

  /** A positive rate into shillings: quoted directly, or else, but for dollars, by way of the dollar. */
  ghost predicate RateIntoShillings(books: Books, currency: string, day: int, rate: real) {
    && rate > 0.0
    && match books.rate(currency, "TZS", day)
       case Some(direct) => rate == direct
       case None =>
         && currency != "USD" && books.rate(currency, "USD", day).Some? && books.rate("USD", "TZS", day).Some?
         && rate == books.rate(currency, "USD", day).value * books.rate("USD", "TZS", day).value
  }

  /** The day of an entry: of the return, or else of the gate-out, or else today. */
  predicate DatedFor(day: int, row: Row, now: int) {
    && (row.returned.Some? ==> day == row.returned.value)
    && (row.returned.None? && row.gateOut.Some? ==> day == row.gateOut.value)
    && (row.returned.None? && row.gateOut.None? ==> day == DayOf(now))
  }

  /** Debited to the party at fault and credited to payables, one amount: the cost at the rate, to the cent. */
  ghost predicate BooksCharge(e: Entry, id: Id, row: Row) {
    && e.source == id && !e.voided && e.reverses.None?
    && exists a :: ToTheCent(a, row.cost * e.rate)
                   && e.lines == [Line(if row.absorbed then "5003" else "1100", a, 0.0), Line("2000", 0.0, a)]
  }

  /** The entry that posting owes this charge: its amount, its rate and its day, in an open period. */
  ghost predicate PostedFor(e: Entry, id: Id, row: Row, now: int, books: Books) {
    && BooksCharge(e, id, row) && DatedFor(e.day, row, now)
    && RateIntoShillings(books, row.currency, e.day, e.rate) && !books.closed(e.day)
  }

  lemma AmountToTheCent(cost: real, rate: real)
    ensures ToTheCent(LedgerAmount(cost, rate), cost * rate)
  {
    RoundCentsFacts(cost * rate);
    assert LedgerAmount(cost, rate) == RoundCents(cost * rate);
    assert InCents(RoundCents(cost * rate)) by {
      assert RoundCents(cost * rate) == Cents(HalfUp(cost * rate * 100.0));
    }
  }

  lemma RateIsShillings(books: Books, currency: string, day: int)
    ensures match ShillingRate(books, currency, day)
            case Some(rate) => rate > 0.0 ==> RateIntoShillings(books, currency, day, rate)
            case None => forall rate :: !RateIntoShillings(books, currency, day, rate)
    ensures ShillingRate(books, currency, day).Some? && ShillingRate(books, currency, day).value <= 0.0 ==>
            forall rate :: !RateIntoShillings(books, currency, day, rate)
  {
  }

  lemma EntryBooksCharge(id: Id, row: Row, day: int, rate: real)
    ensures BooksCharge(ChargeEntry(id, row, day, rate), id, row)
  {
    AmountToTheCent(row.cost, rate);
  }

  /**
   * Posting skips a charge that is posted, costs nothing or is waived. It refuses one that is active and owes days
   * without a pin, one without a positive rate on the day of its entry, and one whose period is closed.
   */
  lemma PostRowOutcome(id: Id, row: Row, posted: bool, now: int, books: Books)
    ensures var r := PostRow(id, row, posted, now, books);
            if posted then r == Ok(None)
            else if row.status == Active && row.demurrageDays > 0 && row.snapshot.None? then r == Err(Unpriced)
            else if row.cost <= 0.0 || row.status == Waived then r == Ok(None)
            else
              exists day :: DatedFor(day, row, now)
                && if forall rate :: !RateIntoShillings(books, row.currency, day, rate) then r == Err(NoExchangeRate)
                   else if books.closed(day) then r == Err(PeriodClosed)
                   else r.Ok? && r.value.Some? && PostedFor(r.value.value, id, row, now, books)
  {
    var day := EntryDay(row, now);
    assert DatedFor(day, row, now);
    RateIsShillings(books, row.currency, day);
    var rate := ShillingRate(books, row.currency, day);
    if rate.Some? {
      EntryBooksCharge(id, row, day, rate.value);
    }
  }

  /** A charge that posting must book: unposted, at a cost and not waived. */
  predicate ToBeBooked(s: State, id: Id) {
    id in s.rows && !Frozen(s.journal, id) && s.rows[id].cost > 0.0 && s.rows[id].status != Waived
  }

  /**
   * The entries added book the charges to be booked, in the order of the visit, each as it is owed, and nothing
   * else.
   */
  ghost predicate Booked(s: State, added: seq<Entry>, order: seq<Id>, now: int, books: Books) {
    && (forall e | e in added :: ToBeBooked(s, e.source) && PostedFor(e, e.source, s.rows[e.source], now, books))
    && (forall id | id in order && ToBeBooked(s, id) :: exists e :: e in added && e.source == id)
  }

  lemma {:induction false} PostRowsBook(s: State, added: seq<Entry>, order: seq<Id>, now: int, books: Books)
    returns (more: seq<Entry>)
    requires PostRows(s.(journal := s.journal + added), s.journal, order, now, books).Ok?
    ensures PostRows(s.(journal := s.journal + added), s.journal, order, now, books).value
            == s.(journal := s.journal + added + more)
    ensures Booked(s, more, order, now, books)
    decreases |order|
  {
    if order == [] {
      more := [];
      assert s.journal + added + [] == s.journal + added;
    } else {
      var id, first := order[0], [];
      if id in s.rows {
        PostRowOutcome(id, s.rows[id], Frozen(s.journal, id), now, books);
        var r := PostRow(id, s.rows[id], Frozen(s.journal, id), now, books).value;
        if r.Some? {
          first := [r.value];
          assert s.journal + added + first == s.journal + (added + first);
        }
      }
      if first == [] {
        assert added + first == added;
      }
      var rest := PostRowsBook(s, added + first, order[1..], now, books);
      more := first + rest;
      assert s.journal + (added + first) + rest == s.journal + added + more;
      assert forall i | i in order :: i == id || i in order[1..];
      assert forall e :: e in more <==> e in first || e in rest;
    }
  }

  /**
   * A posting that succeeds adds to the journal an entry for every unposted charge with a cost that is not waived, and
   * no other: dated by its return, gate-out or today, in an open period, debited by fault and credited to payables for
   * its cost at the rate into shillings of that day, to the cent. It leaves the charges and tariffs as they were.
   */
  lemma PostingBooksEachCharge(s: State, now: int, books: Books) returns (added: seq<Entry>)
    requires DatabaseOrder(s, books.order) && Outcome(s, Post(now, books)).Ok?
    ensures Outcome(s, Post(now, books)) == Ok(s.(journal := s.journal + added))
    ensures forall e | e in added :: ToBeBooked(s, e.source) && PostedFor(e, e.source, s.rows[e.source], now, books)
    ensures forall id | ToBeBooked(s, id) :: exists e :: e in added && e.source == id
  {
    assert s.(journal := s.journal + []) == s;
    added := PostRowsBook(s, [], books.order, now, books);
    assert s.journal + [] + added == s.journal + added;
  }

  /**
   * The books hold a posted charge, its cost at the rate it was posted at, to the cent, debited to the party at fault
   * and credited to payables, or nothing at all, by turns with each void.
   */
  lemma BooksHoldTheChargeOrNothing(s: State, id: Id) returns (a: real)
    requires LedgerOk(s) && Frozen(s.journal, id)
    ensures id in s.rows && EntriesOf(s.journal, id) != []
    ensures ToTheCent(a, s.rows[id].cost * EntriesOf(s.journal, id)[0].rate)
    ensures forall account ::
              Net(EntriesOf(s.journal, id), account)
              == if |EntriesOf(s.journal, id)| % 2 == 0 then 0.0
                 else (if account == (if s.rows[id].absorbed then "5003" else "1100") then a else 0.0)
                      - (if account == "2000" then a else 0.0)
  {
    assert SourceOk(s, id);
    FrozenIffEverPosted(s, id);
    var row, q := s.rows[id], EntriesOf(s.journal, id);
    a := LedgerAmount(row.cost, q[0].rate);
    AmountToTheCent(row.cost, q[0].rate);
    forall account ensures
      Net(q, account) == if |q| % 2 == 0 then 0.0
                         else (if account == (if row.absorbed then "5003" else "1100") then a else 0.0)
                              - (if account == "2000" then a else 0.0)
    {
      NetOfPosted(s, id, account);
    }
  }

  // ----- Voiding ---------------------------------------------------------------------------------

  /**
   * A void is refused for an entry that does not exist or is voided, or in a closed period. Otherwise it marks the
   * entry and adds one for the same charge, dated today at the same rate, with debits and credits exchanged; no
   * other changes.
   */
  lemma VoidOutcome(s: State, k: nat, today: int, closed: int -> bool)
    ensures var r := Outcome(s, Void(k, today, closed));
            if |s.journal| <= k then r == Err(NotFound)
            else if s.journal[k].voided then r == Err(AlreadyVoided)
            else if closed(today) then r == Err(PeriodClosed)
            else
              && r.Ok? && (r.value.rows, r.value.tariffs) == (s.rows, s.tariffs)
              && |r.value.journal| == |s.journal| + 1
              && (forall i | 0 <= i < |s.journal| ::
                    r.value.journal[i] == if i == k then s.journal[i].(voided := true) else s.journal[i])
              && var was, e := s.journal[k], r.value.journal[|s.journal|];
                 && (e.source, e.day, e.rate, e.voided, e.reverses) == (was.source, today, was.rate, false, Some(k))
                 && |e.lines| == |was.lines|
                 && forall i | 0 <= i < |was.lines| ::
                      (e.lines[i].account, e.lines[i].debit, e.lines[i].credit)
                      == (was.lines[i].account, was.lines[i].credit, was.lines[i].debit)
  {
  }

  // ----- The table of charges --------------------------------------------------------------------

  /** A call that is refused changes nothing, and answers why; one that is not leaves what it comes to. */
  lemma RefusedChangesNothing(s: State, c: Call)
    ensures match Outcome(s, c)
            case Ok(t) => After(s, c) == t && RefusalOf(s, c) == None
            case Err(e) => After(s, c) == s && RefusalOf(s, c) == Some(e)
  {
  }

  /** The posting service refreshes, and if that is not refused, posts; a refused posting keeps the refresh. */
  lemma PostServiceOutcome(s: State, now: int, books: Books)
    ensures match Outcome(s, Refresh(now))
            case Err(e) => PostCharges(s, now, books) == (s, Some(e))
            case Ok(t) =>
              match Outcome(t, Post(now, books))
              case Ok(u) => PostCharges(s, now, books) == (u, None)
              case Err(e) => PostCharges(s, now, books) == (t, Some(e))
  {
  }

  /** The tables are as they were but for one charge. */
  predicate OnlyCharge(s: State, t: State, id: Id) {
    (t.tariffs, t.journal) == (s.tariffs, s.journal) && t.rows - {id} == s.rows - {id}
  }

  /** Recording a charge touches no other. */
  lemma AddOutcome(s: State, id: Id, c: NewCharge, now: int)
    ensures match Outcome(s, Add(id, c, now))
            case Ok(t) => OnlyCharge(s, t, id) && id in t.rows && OpenRow(c, s.tariffs, now) == Ok(t.rows[id])
            case Err(e) => OpenRow(c, s.tariffs, now) == Err(e)
  {
  }

  /** Nor does deleting one; an unposted charge is deleted, and it is no error if it does not exist. */
  lemma DeleteOutcome(s: State, id: Id)
    ensures match Outcome(s, Delete(id))
            case Ok(t) => OnlyCharge(s, t, id) && !Frozen(s.journal, id) && id !in t.rows
            case Err(e) => e == AlreadyPosted && Frozen(s.journal, id)
  {
  }

  /** Returning a charge touches no other, and is refused to one that is posted or does not exist. */
  lemma ReturnOutcome(s: State, id: Id, at: Option<Moment>)
    ensures match Outcome(s, Return(id, at))
            case Ok(t) => OnlyCharge(s, t, id) && !Frozen(s.journal, id) && id in s.rows && id in t.rows
                          && SettleRow(s.rows[id], s.tariffs, at) == Ok(t.rows[id])
            case Err(e) => if Frozen(s.journal, id) then e == AlreadyPosted
                           else if id !in s.rows then e == NotFound else SettleRow(s.rows[id], s.tariffs, at) == Err(e)
  {
  }

  /**
   * Editing a charge touches no other, and is refused to one that does not exist, or is posted unless no key is
   * named.
   */
  lemma UpdateOutcome(s: State, id: Id, p: Patch, now: int)
    ensures match Outcome(s, Edit(id, p, now))
            case Ok(t) => OnlyCharge(s, t, id) && id in s.rows && id in t.rows
                          && (Frozen(s.journal, id) ==> p == NO_KEYS)
                          && EditRow(s.rows[id], p, s.tariffs, now) == Ok(t.rows[id])
            case Err(e) => || (e == NotFound && id !in s.rows)
                           || (e == AlreadyPosted && Frozen(s.journal, id) && p != NO_KEYS)
                           || (e == BadInput && p.freeDays.Some? && !(0 <= p.freeDays.value <= 3650))
                           || (id in s.rows && EditRow(s.rows[id], p, s.tariffs, now) == Err(e))
  {
  }

  /**
   * A refresh touches every charge in its own way, or none if one has bad tiers, and leaves tariffs and journal
   * alone.
   */
  lemma RefreshTouchesEach(s: State, now: int)
    ensures match Outcome(s, Refresh(now))
            case Ok(t) =>
              && (t.tariffs, t.journal) == (s.tariffs, s.journal) && t.rows.Keys == s.rows.Keys
              && forall id | id in s.rows ::
                   RefreshRow(s.rows[id], s.tariffs, Frozen(s.journal, id), now) == Ok(t.rows[id])
            case Err(e) =>
              e == BadTiers
              && exists id :: id in s.rows && RefreshRow(s.rows[id], s.tariffs, Frozen(s.journal, id), now) == Err(e)
  {
    if Refreshed(s, now).Err? {
      var id :| id in s.rows && RefreshAt(s, id, now).Err?;
      RefreshOutcome(s.rows[id], s.tariffs, Frozen(s.journal, id), now);
    } else {
      assert forall id | id in s.rows :: RefreshAt(s, id, now).Ok?;
    }
  }

  // ----- The tariff table ------------------------------------------------------------------------

  /**
   * A tariff is saved exactly when its names are not blank or too long, its free days and currency are allowed and its
   * tiers accepted.
   */
  lemma SaveAcceptedIff(s: State, id: nat, n: NewTariff, now: Moment)
    ensures Outcome(s, CreateTariff(id, n, now)).Ok? <==> TermsFit(n) && Accepted(n.tiers)
  {
    AllowedIffFit(n);
  }

  lemma AllowedIffFit(n: NewTariff)
    ensures TermsAllowed(n) <==> TermsFit(n)
  {
  }

  predicate TermsFit(n: NewTariff) {
    && 1 <= |Trim(n.carrier)| <= 200 && 1 <= |Trim(n.size)| <= 30 && 0 <= n.freeDays <= 3650
    && (n.currency.Some? ==> |n.currency.value| == 3 && forall i | 0 <= i < 3 :: 'A' <= n.currency.value[i] <= 'Z')
  }

  /**
   * It is then the last of the table: active, in dollars if no currency was given, and in force from the local day
   * given or else today's.
   */
  lemma SaveOutcome(s: State, id: nat, n: NewTariff, now: Moment)
    requires Outcome(s, CreateTariff(id, n, now)).Ok?
    ensures var t := Tariff(id, n.carrier, n.size, n.tiers, if n.currency.Some? then n.currency.value else "USD", true,
                            LocalDay(if n.effectiveFrom.Some? then n.effectiveFrom.value else now), now.ms);
            Outcome(s, CreateTariff(id, n, now)) == Ok(State(s.tariffs + [t], s.rows, s.journal))
  {
  }

  /** A text given and not empty replaces the old one. */
  predicate Replaces(given: Option<string>, before: string, after: string) {
    after == if given.Some? && given.value != "" then given.value else before
  }

  /**
   * An edit of a tariff changes what it names of the tariffs with its id, and nothing else: no other tariff, no
   * charge.
   */
  lemma EditTariffOutcome(s: State, id: nat, c: TariffEdit)
    ensures var r := Outcome(s, EditTariff(id, c));
            && (r.Ok? ==>
                  && (r.value.rows, r.value.journal) == (s.rows, s.journal) && |r.value.tariffs| == |s.tariffs|
                  && forall i | 0 <= i < |s.tariffs| ::
                       var t, u := s.tariffs[i], r.value.tariffs[i];
                       if t.id != id then u == t
                       else
                         && Replaces(c.carrier, t.carrier, u.carrier) && Replaces(c.size, t.size, u.size)
                         && Replaces(c.currency, t.currency, u.currency)
                         && u.tiers == (if c.tiers.Some? then c.tiers.value else t.tiers)
                         && u.active == (if c.active.Some? then c.active.value else t.active)
                         && (u.id, u.effectiveFrom, u.createdAt) == (t.id, t.effectiveFrom, t.createdAt))
            && (r == Err(BadTiers) ==> c.tiers.Some? && !Accepted(c.tiers.value))
            && (c.tiers.Some? && !Accepted(c.tiers.value) ==> r.Err?)
            && (r == Err(NotFound) ==> forall t | t in s.tariffs :: t.id != id)
            && (r.Ok? ==> exists t :: t in s.tariffs && t.id == id)
  {
  }

  /** Dropping a tariff drops those with its id and no other, and touches no charge: what is pinned stays pinned. */
  lemma DropTariffOutcome(s: State, id: nat)
    ensures var r := Outcome(s, DropTariff(id));
            && r.Ok? && (r.value.rows, r.value.journal) == (s.rows, s.journal)
            && forall t :: t in r.value.tariffs <==> t in s.tariffs && t.id != id
  {
  }
}
