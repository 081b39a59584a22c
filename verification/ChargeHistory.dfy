/** The price of a charge does not depend on when, or how often, it was looked at. */
module ChargeHistory {
  import opened Outcomes
  import opened Tiers
  import opened Calendar
  import opened Charges
  import opened ChargeRuns

  // ----- Refreshes -------------------------------------------------------------------------------

  lemma RepriceTwice(row: Row, total1: int, total2: int, basis: Option<Snapshot>)
    requires Reprice(row, total1, basis).Ok?
    ensures Reprice(Reprice(row, total1, basis).value, total2, basis) == Reprice(row, total2, basis)
  {
  }

  lemma RowRefreshAbsorbed(row: Row, tariffs: seq<Tariff>, frozen: bool, t1: int, t2: int)
    requires t1 <= t2 && RefreshRow(row, tariffs, frozen, t1).Ok?
    ensures RefreshRow(RefreshRow(row, tariffs, frozen, t1).value, tariffs, frozen, t2)
            == RefreshRow(row, tariffs, frozen, t2)
  {
    if Due(row, frozen, t1) {
      var total1, total2 := Elapsed(row.discharge.value, t1).value, Elapsed(row.discharge.value, t2).value;
      RepriceTwice(row, total1, total2, Basis(row, tariffs));
      var first := Reprice(row, total1, Basis(row, tariffs)).value;
      assert Basis(first, tariffs) == Basis(row, tariffs) && Due(first, frozen, t2) && Due(row, frozen, t2);
      assert RefreshRow(first, tariffs, frozen, t2) == Reprice(first, total2, Basis(first, tariffs));
    }
  }

  lemma RefreshedTwice(s: State, t1: int, t2: int)
    requires t1 <= t2 && Refreshed(s, t1).Ok?
    ensures Refreshed(Refreshed(s, t1).value, t2) == Refreshed(s, t2)
  {
    var first := Refreshed(s, t1).value;
    forall id | id in s.rows ensures RefreshAt(first, id, t2) == RefreshAt(s, id, t2) {
      assert RefreshAt(s, id, t1).Ok?;
      RowRefreshAbsorbed(s.rows[id], s.tariffs, Frozen(s.journal, id), t1, t2);
    }
    assert first.rows.Keys == s.rows.Keys;
    if Refreshed(s, t2).Ok? {
      assert Refreshed(first, t2).value.rows == Refreshed(s, t2).value.rows;
    }
  }

  lemma AfterRefresh(s: State, now: int)
    ensures After(s, Refresh(now)) == if Refreshed(s, now).Ok? then Refreshed(s, now).value else s
  {
  }

  /**
   * A later refresh has the outcome it would have had without an earlier one, with no tariff change in
   * between; so with sound prices the earlier one is as if it had not been.
   */
  lemma RefreshAbsorbed(s: State, t1: int, t2: int)
    requires t1 <= t2
    ensures Refreshed(After(s, Refresh(t1)), t2) == Refreshed(s, t2)
    ensures PricesSound(s) ==> After(After(s, Refresh(t1)), Refresh(t2)) == After(s, Refresh(t2))
  {
    AfterRefresh(s, t1);
    if Refreshed(s, t1).Ok? {
      RefreshedTwice(s, t1, t2);
    }
    AfterRefresh(After(s, Refresh(t1)), t2);
    AfterRefresh(s, t2);
    if PricesSound(s) {
      RefreshNeverFails(s, t2);
    }
  }

  /** All tariffs in use pass the schema: so it is while every tariff came in through the service. */
  ghost predicate PricesSound(s: State) {
    && (forall t | t in s.tariffs :: Accepted(t.tiers))
    && (forall id | id in s.rows && s.rows[id].snapshot.Some? :: Accepted(s.rows[id].snapshot.value.tiers))
  }

  lemma QuotedSound(s: State, carrier: Option<string>, size: string, day: int)
    requires PricesSound(s)
    ensures var q := Quoted(s.tariffs, carrier, size, day); q.Some? ==> Accepted(q.value.tiers)
  {
  }

  /** With sound prices a refresh is never turned away: one bad row cannot stop the others. */
  lemma RefreshNeverFails(s: State, now: int)
    requires PricesSound(s)
    ensures Refreshed(s, now).Ok?
    ensures PricesSound(After(s, Refresh(now)))
  {
    forall id | id in s.rows
      ensures var r := RefreshAt(s, id, now);
              r.Ok? && (r.value.snapshot.Some? ==> Accepted(r.value.snapshot.value.tiers))
    {
      var row := s.rows[id];
      if row.discharge.Some? {
        QuotedSound(s, row.carrier, row.size, row.discharge.value);
      }
    }
  }

  lemma OpenedPinIsSound(s: State, c: NewCharge, now: int)
    requires PricesSound(s)
    ensures var r := OpenRow(c, s.tariffs, now);
            r.Ok? && r.value.snapshot.Some? ==> Accepted(r.value.snapshot.value.tiers)
  {
    if c.discharge.Some? {
      QuotedSound(s, if c.carrier == Some("") then None else c.carrier, c.size, DayOf(c.discharge.value.ms));
    }
  }

  lemma CallKeepsPricesSound(s: State, c: Call)
    requires PricesSound(s)
    ensures PricesSound(After(s, c))
  {
    match c
    case Refresh(now) => RefreshNeverFails(s, now);
    case Post(now, books) => PostRowsRows(s, s.journal, books.order, now, books);
    case Add(id, charge, now) => OpenedPinIsSound(s, charge, now);
    case Edit(id, p, now) => EditKeepsPricesSound(s, id, p, now);
    case EditTariff(id, change) => EditTariffKeepsPricesSound(s, id, change);
    case _ =>
  }

  lemma EditKeepsPricesSound(s: State, id: Id, p: Patch, now: int)
    requires PricesSound(s)
    ensures PricesSound(After(s, Edit(id, p, now)))
  {
    if id in s.rows {
      EditedPinIsSound(s, s.rows[id], p, now);
    }
  }

  lemma EditedPinIsSound(s: State, row: Row, p: Patch, now: int)
    requires PricesSound(s) && (row.snapshot.Some? ==> Accepted(row.snapshot.value.tiers))
    ensures var r := EditRow(row, p, s.tariffs, now);
            r.Ok? && r.value.snapshot.Some? ==> Accepted(r.value.snapshot.value.tiers)
  {
    assert Overwrite(row, p).snapshot == row.snapshot;
  }

  lemma EditTariffKeepsPricesSound(s: State, id: nat, change: TariffEdit)
    requires PricesSound(s)
    ensures PricesSound(After(s, EditTariff(id, change)))
  {
    var r := ChangeTariffs(s.tariffs, id, change);
    forall t | t in r ensures change.tiers.Some? ==> Accepted(change.tiers.value) ==> Accepted(t.tiers) {
      var i :| 0 <= i < |r| && r[i] == t;
      assert s.tariffs[i] in s.tariffs;
    }
  }

  /** Over any run of calls through the service, refreshing always succeeds. */
  lemma {:induction false} RefreshAlwaysAvailable(s: State, calls: seq<Call>, now: int)
    requires PricesSound(s)
    ensures PricesSound(Run(s, calls)) && Refreshed(Run(s, calls), now).Ok?
    decreases |calls|
  {
    if calls == [] {
      RefreshNeverFails(s, now);
    } else {
      CallKeepsPricesSound(s, calls[0]);
      RefreshAlwaysAvailable(After(s, calls[0]), calls[1..], now);
    }
  }

  // ----- Accrual ---------------------------------------------------------------------------------

  lemma PinnedRefresh(row: Row, tariffs: seq<Tariff>, now: int)
    requires Due(row, false, now) && row.snapshot.Some? && Accepted(row.snapshot.value.tiers)
    ensures var total := Elapsed(row.discharge.value, now).value;
            var days := Chargeable(total, row.freeDays);
            RefreshRow(row, tariffs, false, now) ==
            Ok(row.(totalDays := total, demurrageDays := days, cost := CostOf(row.snapshot.value.tiers, days),
                    currency := row.snapshot.value.currency))
  {
  }

  lemma ElapsedGrows(discharge: int, t1: int, t2: int)
    requires discharge * MS_PER_DAY <= t1 <= t2 && EraOf(CivilFromDay(DayOf(t1))) == EraOf(CivilFromDay(DayOf(t2)))
    ensures Elapsed(discharge, t1).value <= Elapsed(discharge, t2).value
  {
    CountsAddUp(discharge * MS_PER_DAY, t1, t2);
    DaysBetweenIsExact(t1, t2);
  }

  lemma CostGrowth(tiers: seq<RateTier>, d1: nat, d2: int)
    requires Accepted(tiers) && d1 <= d2
    ensures var grown, charge := CostOf(tiers, d2) - CostOf(tiers, d1), Charge(tiers, d1, d2);
            && 0.0 <= grown && charge - 0.01 <= grown <= charge + 0.01
            && ((forall t | t in tiers :: InCents(t.dailyRate)) ==> grown == charge)
  {
    CostMonotone(tiers, d1, d2);
    AccrualGrowth(tiers, d1, d2);
  }

  /**
   * While a charge stays pinned, a later refresh never shows less, and what it shows more is the
   * rates of the chargeable days in between, to the cent when all rates are in cents.
   */
  lemma AccrualBetweenRefreshes(row: Row, tariffs: seq<Tariff>, t1: int, t2: int)
    requires Due(row, false, t1) && t1 <= t2 && EraOf(CivilFromDay(DayOf(t1))) == EraOf(CivilFromDay(DayOf(t2)))
    requires row.snapshot.Some? && Accepted(row.snapshot.value.tiers) && 0 <= row.freeDays
    ensures var r1, r2 := RefreshRow(row, tariffs, false, t1), RefreshRow(row, tariffs, false, t2);
            && r1.Ok? && r2.Ok? && 0 <= r1.value.demurrageDays <= r2.value.demurrageDays
            && var grown := r2.value.cost - r1.value.cost;
               var tiers := row.snapshot.value.tiers;
               var charge := Charge(tiers, r1.value.demurrageDays, r2.value.demurrageDays);
               && 0.0 <= grown && charge - 0.01 <= grown <= charge + 0.01
               && ((forall t | t in tiers :: InCents(t.dailyRate)) ==> grown == charge)
  {
    PinnedRefresh(row, tariffs, t1);
    PinnedRefresh(row, tariffs, t2);
    ElapsedGrows(row.discharge.value, t1, t2);
    var d1 := RefreshRow(row, tariffs, false, t1).value.demurrageDays;
    var d2 := RefreshRow(row, tariffs, false, t2).value.demurrageDays;
    CostGrowth(row.snapshot.value.tiers, d1, d2);
  }

  // ----- New charges -----------------------------------------------------------------------------

  /** Days from one day to the day of a moment, as daysBetween counts them. */
  function Counted(day: int, now: int): int {
    CountedDay(DayOf(now)) - CountedDay(day)
  }

  /** Less the free ones. */
  function Owed(day: int, now: int, freeDays: int): int {
    Chargeable(Counted(day, now), freeDays)
  }

  lemma ElapsedCounts(day: int, now: int)
    requires day * MS_PER_DAY <= now
    ensures Elapsed(day, now) == Ok(Counted(day, now))
  {
    assert DayOf(day * MS_PER_DAY) == day;
    DaysBetweenCounts(day * MS_PER_DAY, now);
  }

  ghost predicate PriceSticks(row: Row, tariffs: seq<Tariff>, now: int) {
    var r := RefreshRow(row, tariffs, false, now);
    r.Ok? && r.value.cost == row.cost && r.value.currency == row.currency
  }

  /** A new charge counts from the UTC day of its discharge and stores the local day, which refreshes count from. */
  lemma OpenedRow(c: NewCharge, tariffs: seq<Tariff>, now: int)
    requires c.discharge.Some? && OpenRow(c, tariffs, now).Ok?
    ensures var m, r := c.discharge.value, OpenRow(c, tariffs, now).value;
            && r.discharge == Some(LocalDay(m)) && r.status == Active
            && r.totalDays == Counted(DayOf(m.ms), now)
            && r.demurrageDays == Owed(DayOf(m.ms), now, r.freeDays)
            && r.snapshot == Quoted(tariffs, r.carrier, r.size, DayOf(m.ms))
            && r.snapshot == Quoted(tariffs, c.carrier, c.size, DayOf(m.ms)) && r.freeDays == c.freeDays.GetOr(7)
            && Quoted(tariffs, r.carrier, r.size, LocalDay(m)) == Quoted(tariffs, c.carrier, c.size, LocalDay(m))
            && (r.demurrageDays > 0 ==> r.snapshot.Some?)
            && (if r.snapshot.Some? then
                  Priced(r.demurrageDays, r.snapshot.value.tiers) == Ok(r.cost)
                  && r.currency == r.snapshot.value.currency
                else r.cost == 0.0 && r.currency == "USD")
  {
    DaysBetweenCounts(c.discharge.value.ms, now);
  }

  /**
   * The refresh right after leaves a new charge as it was recorded exactly when the stored day is still to come, or
   * counts like the UTC day and brings up no tariff where the UTC day had none. No charge is recorded with days owed
   * and no tariff.
   */
  lemma NewChargeSticks(c: NewCharge, tariffs: seq<Tariff>, now: int)
    requires c.discharge.Some? && OpenRow(c, tariffs, now).Ok?
    ensures var r := OpenRow(c, tariffs, now).value;
            var day, stored := DayOf(c.discharge.value.ms), LocalDay(c.discharge.value);
            var tariff, later := Quoted(tariffs, c.carrier, c.size, day), Quoted(tariffs, c.carrier, c.size, stored);
            && (r.demurrageDays > 0 ==> r.snapshot.Some?)
            && (RefreshRow(r, tariffs, false, now) == Ok(r) <==>
                  || now < stored * MS_PER_DAY
                  || (CountedDay(stored) == CountedDay(day) && (tariff.Some? || later.None?)))
  {
    OpenedRow(c, tariffs, now);
    var r, stored := OpenRow(c, tariffs, now).value, LocalDay(c.discharge.value);
    if stored * MS_PER_DAY <= now {
      RefreshFromDay(r, tariffs, stored, now);
    }
  }

  /**
   * It leaves the price exactly when the stored day is to come, or the tariff of the UTC day charges both days alike,
   * or there was none and the tariff of the stored day, if any, charges no dollar.
   */
  lemma NewPriceSticks(c: NewCharge, tariffs: seq<Tariff>, now: int)
    requires c.discharge.Some? && OpenRow(c, tariffs, now).Ok?
    ensures var day, stored := DayOf(c.discharge.value.ms), LocalDay(c.discharge.value);
            var tariff, later := Quoted(tariffs, c.carrier, c.size, day), Quoted(tariffs, c.carrier, c.size, stored);
            var free := c.freeDays.GetOr(7);
            PriceSticks(OpenRow(c, tariffs, now).value, tariffs, now) <==>
            || now < stored * MS_PER_DAY
            || if tariff.Some? then
                 CostOf(tariff.value.tiers, Owed(stored, now, free)) == CostOf(tariff.value.tiers, Owed(day, now, free))
               else
                 || later.None?
                 || (Priced(Owed(stored, now, free), later.value.tiers) == Ok(0.0) && later.value.currency == "USD")
  {
    OpenedRow(c, tariffs, now);
    var r, stored := OpenRow(c, tariffs, now).value, LocalDay(c.discharge.value);
    if stored * MS_PER_DAY <= now {
      PriceFromDays(r, tariffs, DayOf(c.discharge.value.ms), stored, now);
    }
  }

  lemma RefreshesByBasis(r: Row, tariffs: seq<Tariff>, day: int, now: int)
    requires r.discharge == Some(day) && r.status == Active && day * MS_PER_DAY <= now
    ensures RefreshRow(r, tariffs, false, now) == Reprice(r, Counted(day, now), Basis(r, tariffs))
  {
    ElapsedCounts(day, now);
  }

  /** A refresh of an active charge that is priced by its own pin, or has none. */
  lemma RefreshFromDay(r: Row, tariffs: seq<Tariff>, day: int, now: int)
    requires r.discharge == Some(day) && r.status == Active && day * MS_PER_DAY <= now
    requires r.demurrageDays == Chargeable(r.totalDays, r.freeDays)
    requires r.snapshot.Some? ==> Priced(r.demurrageDays, r.snapshot.value.tiers) == Ok(r.cost)
                                  && r.currency == r.snapshot.value.currency
    ensures RefreshRow(r, tariffs, false, now) == Ok(r) <==>
            Counted(day, now) == r.totalDays
            && (r.snapshot.Some? || Quoted(tariffs, r.carrier, r.size, day).None?)
  {
    RefreshesByBasis(r, tariffs, day, now);
  }

  /** A row priced from one day, by its pin or not at all, and refreshed from another. */
  lemma PriceFromDays(r: Row, tariffs: seq<Tariff>, day: int, stored: int, now: int)
    requires r.discharge == Some(stored) && r.status == Active && stored * MS_PER_DAY <= now
    requires if r.snapshot.Some? then
               Priced(Owed(day, now, r.freeDays), r.snapshot.value.tiers) == Ok(r.cost)
               && r.currency == r.snapshot.value.currency
             else r.cost == 0.0 && r.currency == "USD"
    ensures var later := Quoted(tariffs, r.carrier, r.size, stored);
            PriceSticks(r, tariffs, now) <==>
            if r.snapshot.Some? then
              CostOf(r.snapshot.value.tiers, Owed(stored, now, r.freeDays))
              == CostOf(r.snapshot.value.tiers, Owed(day, now, r.freeDays))
            else
              || later.None?
              || (Priced(Owed(stored, now, r.freeDays), later.value.tiers) == Ok(0.0) && later.value.currency == "USD")
  {
    PriceFromDay(r, tariffs, stored, now);
  }

  lemma PriceFromDay(r: Row, tariffs: seq<Tariff>, day: int, now: int)
    requires r.discharge == Some(day) && r.status == Active && day * MS_PER_DAY <= now
    ensures PriceSticks(r, tariffs, now) <==>
            || Basis(r, tariffs).None?
            || (Priced(Owed(day, now, r.freeDays), Basis(r, tariffs).value.tiers) == Ok(r.cost)
                && Basis(r, tariffs).value.currency == r.currency)
  {
    RefreshesByBasis(r, tariffs, day, now);
  }

  // ----- Pinned charges --------------------------------------------------------------------------

  ghost predicate Pinned(s: State, id: Id) {
    id in s.rows && s.rows[id].status == Active && s.rows[id].snapshot.Some?
    && Accepted(s.rows[id].snapshot.value.tiers)
  }

  predicate SameTerms(a: Row, b: Row) {
    a.carrier == b.carrier && a.size == b.size && a.discharge == b.discharge && a.freeDays == b.freeDays
    && a.snapshot == b.snapshot && a.status == b.status
  }

  /** The call does not return, delete or re-term the charge; it may do anything else. */
  predicate Spares(c: Call, id: Id) {
    match c
    case Return(i, _) => i != id
    case Delete(i) => i != id
    case Edit(i, p, _) => i == id ==> !EditsTerms(p) && p.freeDays.None? && p.status.None?
    case _ => true
  }

  lemma CallKeepsPinned(s: State, c: Call, id: Id)
    requires Pinned(s, id) && Lawful(s, c) && Spares(c, id)
    ensures Pinned(After(s, c), id) && SameTerms(s.rows[id], After(s, c).rows[id])
  {
    if c.Post? {
      PostRowsRows(s, s.journal, c.books.order, c.now, c.books);
    } else if c.Edit? && c.id == id {
      var row := s.rows[id];
      assert EditBasis(row, c.patch, s.tariffs)
             == if HasCarrier(row) && row.discharge.Some? then row.snapshot else None;
    }
  }

  lemma {:induction false} RunKeepsPinned(s: State, calls: seq<Call>, id: Id)
    requires Pinned(s, id) && LawfulRun(s, calls) && forall c | c in calls :: Spares(c, id)
    ensures Pinned(Run(s, calls), id) && SameTerms(s.rows[id], Run(s, calls).rows[id])
    decreases |calls|
  {
    if calls != [] {
      assert calls[0] in calls && forall c | c in calls[1..] :: c in calls;
      CallKeepsPinned(s, calls[0], id);
      RunKeepsPinned(After(s, calls[0]), calls[1..], id);
    }
  }

  /** What it takes to settle a charge: a discharge not after the return and, with days owed, a carrier and a tariff. */
  predicate Settles(row: Row, tariffs: seq<Tariff>, at: Option<Moment>) {
    && row.discharge.Some? && at.Some? && row.discharge.value * MS_PER_DAY <= at.value.ms
    && (Owed(row.discharge.value, at.value.ms, row.freeDays) > 0 ==> HasCarrier(row) && Basis(row, tariffs).Some?)
  }

  /** At sound prices nothing else stands in the way. So a pinned charge whose carrier was cleared accrues unsettled. */
  lemma SettlesIff(row: Row, tariffs: seq<Tariff>, at: Option<Moment>)
    requires row.snapshot.Some? ==> Accepted(row.snapshot.value.tiers)
    requires forall t | t in tariffs :: Accepted(t.tiers)
    ensures SettleRow(row, tariffs, at).Ok? <==> Settles(row, tariffs, at)
  {
    if row.discharge.Some? && at.Some? && row.discharge.value * MS_PER_DAY <= at.value.ms {
      ElapsedCounts(row.discharge.value, at.value.ms);
    }
  }

  /**
   * Whatever refreshes, tariff changes, postings, voids and calls on other charges come first, returning a
   * pinned charge gives the cost of its pinned tiers from discharge to return, in the pinned currency.
   */
  lemma HistoryIndependence(s: State, calls: seq<Call>, id: Id, at: Moment)
    requires Pinned(s, id) && LawfulRun(s, calls) && forall c | c in calls :: Spares(c, id)
    requires var row := s.rows[id];
             row.discharge.Some? && row.discharge.value * MS_PER_DAY <= at.ms && HasCarrier(row)
    ensures var row, t := s.rows[id], Run(s, calls);
            var days := Chargeable(Elapsed(row.discharge.value, at.ms).value, row.freeDays);
            if Frozen(t.journal, id) then ReturnCharge(t, id, Some(at)) == Err(AlreadyPosted)
            else
              var r := ReturnCharge(t, id, Some(at));
              && r.Ok? && id in r.value.rows
              && var done := r.value.rows[id];
                 && done.cost == CostOf(row.snapshot.value.tiers, days)
                 && done.currency == row.snapshot.value.currency
                 && done.demurrageDays == days && done.status == Completed && done.returned == Some(LocalDay(at))
  {
    RunKeepsPinned(s, calls, id);
  }

  // ----- Editing the terms -----------------------------------------------------------------------

  /** An edit of an active, discharged charge reprices its overwritten row, counting from the UTC day given. */
  lemma EditedRow(row: Row, p: Patch, tariffs: seq<Tariff>, now: int)
    requires row.status == Active && EditRow(row, p, tariffs, now).Ok? && Overwrite(row, p).discharge.Some?
    ensures EditRow(row, p, tariffs, now)
            == Reprice(Overwrite(row, p).(cost := 0.0), Counted(DayOf(StartOf(row, p)), now),
                       EditBasis(row, p, tariffs))
  {
    DaysBetweenCounts(StartOf(row, p), now);
  }

  /** The refresh right after an edit leaves the edited row as the edit priced it. */
  ghost predicate EditSticks(row: Row, p: Patch, tariffs: seq<Tariff>, now: int) {
    var r := EditRow(row, p, tariffs, now);
    r.Ok? ==> RefreshRow(r.value, tariffs, false, now) == r
  }

  /** A row priced for one number of days, by this tariff or none, stays as it is when refreshed for another. */
  predicate SticksFor(edited: Row, total: int, basis: Option<Snapshot>, later: int, tariffs: seq<Tariff>)
    requires edited.discharge.Some?
  {
    && later == total
    && if basis.Some? then true
       else if edited.snapshot.Some? then
         CostOf(edited.snapshot.value.tiers, Chargeable(total, edited.freeDays)) == 0.0
         && edited.snapshot.value.currency == edited.currency
       else Quoted(tariffs, edited.carrier, edited.size, edited.discharge.value).None?
  }

  lemma RepricedSticksIff(r: Row, base: Row, total: int, basis: Option<Snapshot>, later: int, tariffs: seq<Tariff>)
    requires base.discharge.Some? && base.cost == 0.0 && Ok(r) == Reprice(base, total, basis)
    requires base.snapshot.Some? ==> Accepted(base.snapshot.value.tiers)
    ensures Reprice(r, later, Basis(r, tariffs)) == Ok(r) <==> SticksFor(base, total, basis, later, tariffs)
  {
  }

  lemma RefreshSticksIff(
    r: Row, base: Row, total: int, basis: Option<Snapshot>, day: int, tariffs: seq<Tariff>, now: int)
    requires r.discharge == Some(day) && base.discharge == Some(day) && r.status == Active && day * MS_PER_DAY <= now
    requires base.cost == 0.0 && Ok(r) == Reprice(base, total, basis)
    requires base.snapshot.Some? ==> Accepted(base.snapshot.value.tiers)
    ensures RefreshRow(r, tariffs, false, now) == Ok(r) <==> SticksFor(base, total, basis, Counted(day, now), tariffs)
  {
    RefreshesByBasis(r, tariffs, day, now);
    RepricedSticksIff(r, base, total, basis, Counted(day, now), tariffs);
  }

  lemma DueSticksIff(
    r: Result<Row, Refusal>, base: Row, total: int, basis: Option<Snapshot>, tariffs: seq<Tariff>, now: int)
    requires r.Ok? && r == Reprice(base, total, basis) && Due(base, false, now) && base.cost == 0.0
    requires base.snapshot.Some? ==> Accepted(base.snapshot.value.tiers)
    ensures RefreshRow(r.value, tariffs, false, now) == r <==>
            SticksFor(base, total, basis, Counted(base.discharge.value, now), tariffs)
  {
    RepriceKeepsTerms(base, total, basis);
    RefreshSticksIff(r.value, base, total, basis, base.discharge.value, tariffs, now);
  }

  /**
   * An edit that finds no tariff leaves the old pin in place, and the next refresh prices by it. So an edit
   * sticks exactly when the charge is off the clock, or its stored day counts like the day the edit counted from and
   * the edit found a tariff, or the old pin charges nothing in the currency the row has anyway, or there
   * was no pin and there is no tariff for the stored day.
   */
  lemma EditSticksIff(row: Row, p: Patch, tariffs: seq<Tariff>, now: int)
    requires EditRow(row, p, tariffs, now).Ok?
    requires row.snapshot.Some? ==> Accepted(row.snapshot.value.tiers)
    ensures var edited := Overwrite(row, p).(cost := 0.0);
            EditSticks(row, p, tariffs, now) <==>
            || !Due(edited, false, now)
            || SticksFor(edited, Counted(DayOf(StartOf(row, p)), now), EditBasis(row, p, tariffs),
                         Counted(edited.discharge.value, now), tariffs)
  {
    var edited := Overwrite(row, p).(cost := 0.0);
    if Due(edited, false, now) {
      EditedRow(row, p, tariffs, now);
      DueSticksIff(EditRow(row, p, tariffs, now), edited, Counted(DayOf(StartOf(row, p)), now),
                   EditBasis(row, p, tariffs), tariffs, now);
    } else {
      EditOffClock(row, p, tariffs, now);
    }
  }

  lemma RepriceKeepsTerms(row: Row, total: int, basis: Option<Snapshot>)
    requires Reprice(row, total, basis).Ok?
    ensures var r := Reprice(row, total, basis).value;
            r.discharge == row.discharge && r.status == row.status && r.carrier == row.carrier && r.size == row.size
  {
  }

  lemma EditOffClock(row: Row, p: Patch, tariffs: seq<Tariff>, now: int)
    requires EditRow(row, p, tariffs, now).Ok? && !Due(Overwrite(row, p), false, now)
    ensures EditSticks(row, p, tariffs, now)
  {
    var edited, r := Overwrite(row, p), EditRow(row, p, tariffs, now).value;
    assert r.status == edited.status && r.discharge == edited.discharge;
  }

  lemma SameDayCount(start: int, now: int, day: int)
    requires DayOf(start) == day && start <= now
    ensures day * MS_PER_DAY <= now && Elapsed(day, now) == DaysBetween(At(start), At(now))
  {
    assert DayOf(day * MS_PER_DAY) == day;
    TimeOfDayIsIrrelevant(start, now, day * MS_PER_DAY, now);
  }

  // ----- Waived charges --------------------------------------------------------------------------

  ghost predicate WaivedOut(s: State, id: Id) {
    !Frozen(s.journal, id) && (id in s.rows ==> s.rows[id].status == Waived)
  }

  lemma {:induction false} PostRowsSkipWaived(s: State, posted: seq<Entry>, order: seq<Id>, now: int, books: Books,
                                              id: Id)
    requires WaivedOut(s, id)
    ensures var r := PostRows(s, posted, order, now, books); r.Ok? ==> WaivedOut(r.value, id)
    decreases |order|
  {
    if order != [] {
      if order[0] !in s.rows {
        PostRowsSkipWaived(s, posted, order[1..], now, books, id);
      } else {
        var r := PostRow(order[0], s.rows[order[0]], Frozen(posted, order[0]), now, books);
        if r.Ok? {
          var t := s;
          if r.value.Some? {
            t := s.(journal := s.journal + [r.value.value]);
            AppendFreezes(s.journal, r.value.value, id);
          }
          PostRowsSkipWaived(t, posted, order[1..], now, books, id);
        }
      }
    }
  }

  lemma VoidSkipsUnposted(s: State, k: nat, today: int, closed: int -> bool, id: Id)
    requires !Frozen(s.journal, id)
    ensures var r := VoidEntry(s, k, today, closed); r.Ok? ==> !Frozen(r.value.journal, id)
  {
    var r := VoidEntry(s, k, today, closed);
    if r.Ok? {
      assert s.journal[k] in s.journal;
      forall e | e in r.value.journal && e.source == id ensures e.voided {
        var i :| 0 <= i < |r.value.journal| && r.value.journal[i] == e;
        if i < |s.journal| && i != k {
          assert s.journal[i] in s.journal;
        }
      }
    }
  }

  predicate Returns(s: State, c: Call, id: Id) {
    c.Return? && c.id == id && ReturnCharge(s, id, c.at).Ok?
  }

  /** A call changes that exactly when it is a successful return of the charge. */
  lemma CallKeepsWaivedOut(s: State, c: Call, id: Id)
    requires WaivedOut(s, id) && (c.Add? ==> c.id != id)
    ensures WaivedOut(After(s, c), id) <==> !Returns(s, c, id)
  {
    match c
    case Post(now, books) => PostRowsSkipWaived(s, s.journal, books.order, now, books, id);
    case Void(k, today, closed) => VoidSkipsUnposted(s, k, today, closed, id);
    case Edit(i, p, now) =>
      if i == id && id in s.rows {
        EditKeepsWaived(s.rows[id], p, s.tariffs, now);
      }
    case _ =>
  }

  lemma EditKeepsWaived(row: Row, p: Patch, tariffs: seq<Tariff>, now: int)
    requires row.status == Waived
    ensures var r := EditRow(row, p, tariffs, now); r.Ok? ==> r.value.status == Waived
  {
  }

  ghost predicate WaivedThroughout(s: State, calls: seq<Call>, id: Id)
    decreases |calls|
  {
    WaivedOut(s, id) && (calls == [] || WaivedThroughout(After(s, calls[0]), calls[1..], id))
  }

  ghost predicate NeverReturned(s: State, calls: seq<Call>, id: Id)
    decreases |calls|
  {
    calls == [] || (!Returns(s, calls[0], id) && NeverReturned(After(s, calls[0]), calls[1..], id))
  }

  /**
   * Once waived before it was posted, a charge stays waived and out of the journal, at every moment of a run,
   * exactly when it is never successfully returned.
   */
  lemma {:induction false} WaivedStaysOut(s: State, calls: seq<Call>, id: Id)
    requires WaivedOut(s, id) && forall c | c in calls :: c.Add? ==> c.id != id
    ensures WaivedThroughout(s, calls, id) <==> NeverReturned(s, calls, id)
    ensures NeverReturned(s, calls, id) ==> WaivedOut(Run(s, calls), id)
    decreases |calls|
  {
    if calls != [] {
      assert calls[0] in calls && forall c | c in calls[1..] :: c in calls;
      CallKeepsWaivedOut(s, calls[0], id);
      if !Returns(s, calls[0], id) {
        WaivedStaysOut(After(s, calls[0]), calls[1..], id);
      } else {
        assert !WaivedThroughout(After(s, calls[0]), calls[1..], id);
      }
    }
  }

  /** A waived charge is returned like any other, under the same conditions, and then it is waived no more. */
  lemma ReturnUnwaives(s: State, id: Id, at: Option<Moment>)
    requires PricesSound(s) && WaivedOut(s, id) && id in s.rows
    ensures Returns(s, Return(id, at), id) <==> Settles(s.rows[id], s.tariffs, at)
    ensures var t := After(s, Return(id, at));
            id in t.rows && t.rows[id].status == if Settles(s.rows[id], s.tariffs, at) then Completed else Waived
  {
    SettlesIff(s.rows[id], s.tariffs, at);
  }
}
