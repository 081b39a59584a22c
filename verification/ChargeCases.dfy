/**
 * Runs from the empty tables in which a charge goes wrong: one tariff and one charge. They go wrong at all prices and
 * on all days; the last section has them at a flat rate in January 2026.
 */
module ChargeCases {
  import opened Outcomes
  import opened Texts
  import opened Tiers
  import opened Calendar
  import opened Charges
  import opened ChargeRuns
  import opened ChargeHistory
  import opened ChargeSummary

  const EMPTY := State([], map[], [])

  // ----- Days and prices -------------------------------------------------------------------------

  /** 1 January 2026. */
  const NEW_YEAR := 20454

  /** Fifty a day, up to ten days and beyond. */
  const FLAT := [RateTier(1, 10, 50.0)]

  /** Days are counted in January 2026, whatever the clock says at the end. */
  lemma InJanuary(a: int, now: int)
    requires NEW_YEAR <= a <= DayOf(now) < NEW_YEAR + 31
    ensures Elapsed(a, now) == Ok(DayOf(now) - a)
  {
    YearOfDay(a);
    YearOfDay(DayOf(now));
    SameEra(a, now);
  }

  lemma SameEra(a: int, now: int)
    requires a <= DayOf(now) && EraOf(CivilFromDay(a)) == EraOf(CivilFromDay(DayOf(now)))
    ensures Elapsed(a, now) == Ok(DayOf(now) - a)
  {
    DayStarts(a, now);
    DaysBetweenIsExact(a * MS_PER_DAY, now);
  }

  lemma DayStarts(a: int, now: int)
    requires a <= DayOf(now)
    ensures DayOf(a * MS_PER_DAY) == a && a * MS_PER_DAY <= now
  {
  }

  lemma YearOfDay(n: int)
    requires NEW_YEAR <= n < NEW_YEAR + 31
    ensures CivilFromDay(n).year == 2026
  {
    assert DayFromYear(2026) == NEW_YEAR && DayFromYear(2027) == NEW_YEAR + 365;
    YearHolds(n);
    YearIsUnique(n, 2026, YearOf(n));
  }

  lemma FlatIsAccepted()
    ensures Accepted(FLAT)
  {
    assert FLAT[1..] == [];
    assert SortByStart(FLAT) == FLAT;
  }

  /** At the flat rate two days cost 100, three 150 and four 200. */
  lemma FlatRate(days: nat)
    requires days <= 4
    ensures Accepted(FLAT) && CostOf(FLAT, days) == 50.0 * days as real
  {
    FlatIsAccepted();
    forall d | 1 <= d <= 4 ensures DayRate(FLAT, d) == 50.0 {
      DayRateIsATiersRate(FLAT, d);
    }
    assert Charge(FLAT, 0, days) == 50.0 * days as real by {
      assert Charge(FLAT, 0, 0) == 0.0;
      if days > 0 { assert Charge(FLAT, 0, 1) == 50.0; }
      if days > 1 { assert Charge(FLAT, 0, 2) == 100.0; }
      if days > 2 { assert Charge(FLAT, 0, 3) == 150.0; }
    }
    var c := Charge(FLAT, 0, days);
    assert c * 100.0 == (5000 * days) as real;
  }

  // ----- One charge ------------------------------------------------------------------------------

  function SaveTariff(tiers: seq<RateTier>, from: Moment): Call {
    CreateTariff(1, NewTariff("MSC", "40HC", 0, tiers, Some("USD"), Some(from)), from)
  }

  function Saved(tiers: seq<RateTier>, from: Moment): seq<Tariff> {
    [Tariff(1, "MSC", "40HC", tiers, "USD", true, LocalDay(from), from.ms)]
  }

  function Pin(tiers: seq<RateTier>, from: Moment): Snapshot {
    Snapshot(1, "USD", tiers, LocalDay(from))
  }

  function WithoutFreeDays(carrier: Option<string>, discharged: Moment): NewCharge {
    NewCharge(carrier, "40HC", Some(discharged), Some(0))
  }

  const NO_CARRIER := Patch(Some(None), None, None, None, None, None, false, false)

  /** Dollars and shillings at par, no closed period, and the charge alone in the table. */
  const BOOKS := Books((_, _, _) => Some(1.0), _ => false, [1])

  /** The charge while it is active. */
  function Running(pin: Option<Snapshot>, carrier: Option<string>, discharge: int, days: int, cost: real): Row {
    Row(carrier, "40HC", Some(discharge), None, None, 0, days, days, cost, "USD", pin, Active, false)
  }

  function Holding(tariffs: seq<Tariff>, row: Row): State {
    State(tariffs, map[1 := row], [])
  }

  lemma CarrierFits()
    ensures |Trim("MSC")| == 3
  {
    TrimmedAlready("MSC");
  }

  lemma SizeFits()
    ensures |Trim("40HC")| == 4
  {
    TrimmedAlready("40HC");
  }

  lemma CurrencyFits()
    ensures CurrencyAllowed(Some("USD"))
  {
  }

  lemma TermsFit(n: NewTariff)
    requires |Trim(n.carrier)| == 3 && |Trim(n.size)| == 4 && n.freeDays == 0 && CurrencyAllowed(n.currency)
    ensures TermsAllowed(n)
  {
  }

  lemma NamesAllowed(n: NewTariff)
    requires n.carrier == "MSC" && n.size == "40HC" && n.freeDays == 0 && n.currency == Some("USD")
    ensures TermsAllowed(n)
  {
    CarrierFits();
    SizeFits();
    CurrencyFits();
    TermsFit(n);
  }

  lemma TariffSaved(tiers: seq<RateTier>, from: Moment)
    requires Accepted(tiers)
    ensures After(EMPTY, SaveTariff(tiers, from)) == State(Saved(tiers, from), map[], [])
  {
    var n := NewTariff("MSC", "40HC", 0, tiers, Some("USD"), Some(from));
    NamesAllowed(n);
    TariffWrites(n, from, Saved(tiers, from)[0]);
  }

  lemma TariffWrites(n: NewTariff, from: Moment, t: Tariff)
    requires TermsAllowed(n) && Accepted(n.tiers) && n.effectiveFrom == Some(from) && n.currency == Some(t.currency)
    requires t == Tariff(1, n.carrier, n.size, n.tiers, t.currency, true, LocalDay(from), from.ms)
    ensures After(EMPTY, CreateTariff(1, n, from)) == State([t], map[], [])
  {
    assert OpenTariff(1, n, from) == Ok(t);
    assert [] + [t] == [t];
  }

  lemma TariffFound(tiers: seq<RateTier>, from: Moment, day: int)
    requires LocalDay(from) <= day
    ensures Quoted(Saved(tiers, from), Some("MSC"), "40HC", day) == Some(Pin(tiers, from))
  {
    assert Saved(tiers, from)[1..] == [];
  }

  lemma Opened(tiers: seq<RateTier>, from: Moment, m: Moment, now: int, days: nat)
    requires Accepted(tiers) && LocalDay(from) <= DayOf(m.ms)
    requires DaysBetween(At(m.ms), At(now)) == Ok(days)
    ensures OpenRow(WithoutFreeDays(Some("MSC"), m), Saved(tiers, from), now)
            == Ok(Running(Some(Pin(tiers, from)), Some("MSC"), LocalDay(m), days, CostOf(tiers, days)))
  {
    TariffFound(tiers, from, DayOf(m.ms));
    OpenedPriced(WithoutFreeDays(Some("MSC"), m), Saved(tiers, from), now, days, Pin(tiers, from));
  }

  lemma OpenedPriced(c: NewCharge, tariffs: seq<Tariff>, now: int, days: nat, pin: Snapshot)
    requires c.discharge.Some? && c.freeDays == Some(0) && c.carrier.Some? && c.carrier.value != ""
    requires DaysBetween(At(c.discharge.value.ms), At(now)) == Ok(days) && Accepted(pin.tiers)
    requires Quoted(tariffs, c.carrier, c.size, DayOf(c.discharge.value.ms)) == Some(pin)
    ensures OpenRow(c, tariffs, now)
            == Ok(Row(c.carrier, c.size, Some(LocalDay(c.discharge.value)), None, None, 0, days, days,
                      CostOf(pin.tiers, days), pin.currency, Some(pin), Active, false))
  {
  }

  lemma AddWrites(tariffs: seq<Tariff>, c: NewCharge, now: int, row: Row)
    requires OpenRow(c, tariffs, now) == Ok(row)
    ensures After(State(tariffs, map[], []), Add(1, c, now)) == Holding(tariffs, row)
  {
  }

  lemma RunTwo(s: State, a: Call, b: Call)
    ensures Run(s, [a, b]) == After(After(s, a), b)
  {
    assert [a, b][1..] == [b] && [b][1..] == [];
    assert Run(After(s, a), [b]) == Run(After(After(s, a), b), []);
  }

  /** A tariff saved and a charge recorded, with that many days owed. */
  function Recorded(tiers: seq<RateTier>, from: Moment, m: Moment, now: int): State {
    Run(EMPTY, [SaveTariff(tiers, from), Add(1, WithoutFreeDays(Some("MSC"), m), now)])
  }

  lemma RecordedRow(tiers: seq<RateTier>, from: Moment, m: Moment, now: int, days: nat)
    requires Accepted(tiers) && LocalDay(from) <= DayOf(m.ms)
    requires DaysBetween(At(m.ms), At(now)) == Ok(days)
    ensures Recorded(tiers, from, m, now) ==
            Holding(Saved(tiers, from),
                    Running(Some(Pin(tiers, from)), Some("MSC"), LocalDay(m), days, CostOf(tiers, days)))
  {
    TariffSaved(tiers, from);
    Opened(tiers, from, m, now, days);
    AddWrites(Saved(tiers, from), WithoutFreeDays(Some("MSC"), m), now,
              Running(Some(Pin(tiers, from)), Some("MSC"), LocalDay(m), days, CostOf(tiers, days)));
    RunTwo(EMPTY, SaveTariff(tiers, from), Add(1, WithoutFreeDays(Some("MSC"), m), now));
  }

  // ----- Clearing the carrier --------------------------------------------------------------------

  lemma PinnedRefreshes(tariffs: seq<Tariff>, pin: Snapshot, row: Row, day: int, now: int, days: nat)
    requires row == Running(Some(pin), row.carrier, day, row.totalDays, row.cost) && pin.currency == "USD"
    requires Accepted(pin.tiers) && day * MS_PER_DAY <= now && Elapsed(day, now) == Ok(days)
    ensures After(Holding(tariffs, row), Refresh(now))
            == Holding(tariffs, Running(Some(pin), row.carrier, day, days, CostOf(pin.tiers, days)))
  {
    PinnedRefresh(row, tariffs, now);
    RefreshedTable(tariffs, row, now, Running(Some(pin), row.carrier, day, days, CostOf(pin.tiers, days)));
  }

  lemma RefreshedTable(tariffs: seq<Tariff>, row: Row, now: int, later: Row)
    requires RefreshRow(row, tariffs, false, now) == Ok(later)
    ensures After(Holding(tariffs, row), Refresh(now)) == Holding(tariffs, later)
    ensures Refreshed(Holding(tariffs, row), now).Ok?
  {
    var s := Holding(tariffs, row);
    assert RefreshAt(s, 1, now) == Ok(later);
    assert Refreshed(s, now).value.rows == map[1 := later];
  }

  lemma CarrierCleared(tariffs: seq<Tariff>, row: Row, pin: Snapshot, day: int, now: int, days: nat)
    requires row == Running(Some(pin), Some("MSC"), day, days, row.cost)
    requires day * MS_PER_DAY <= now && Elapsed(day, now) == Ok(days)
    ensures After(Holding(tariffs, row), Edit(1, NO_CARRIER, now))
            == Holding(tariffs, Running(Some(pin), None, day, days, 0.0))
  {
    assert Overwrite(row, NO_CARRIER) == row.(carrier := None);
    assert StartOf(row, NO_CARRIER) == day * MS_PER_DAY;
    assert EditRow(row, NO_CARRIER, tariffs, now) == Ok(Running(Some(pin), None, day, days, 0.0));
    EditWrites(tariffs, row, NO_CARRIER, now, Running(Some(pin), None, day, days, 0.0));
  }

  lemma EditWrites(tariffs: seq<Tariff>, row: Row, p: Patch, now: int, edited: Row)
    requires EditRow(row, p, tariffs, now) == Ok(edited)
    ensures After(Holding(tariffs, row), Edit(1, p, now)) == Holding(tariffs, edited)
  {
    EditChargeWrites(Holding(tariffs, row), p, now, edited);
    assert map[1 := row][1 := edited] == map[1 := edited];
    var c := Edit(1, p, now);
    assert Outcome(Holding(tariffs, row), c) == EditCharge(Holding(tariffs, row), 1, p, now);
  }

  lemma EditChargeWrites(s: State, p: Patch, now: int, edited: Row)
    requires 1 in s.rows && s.journal == [] && EditRow(s.rows[1], p, s.tariffs, now) == Ok(edited)
    ensures EditCharge(s, 1, p, now) == Ok(s.(rows := s.rows[1 := edited]))
  {
  }

  /** A charge discharged at midnight, recorded, and then its carrier cleared. */
  function Cleared(tiers: seq<RateTier>, from: Moment, day: int, now: int): State {
    After(Recorded(tiers, from, Moment(day * MS_PER_DAY, 0), now), Edit(1, NO_CARRIER, now))
  }

  /** A charge discharged on a day on which its tariff is in force, looked at that many days later. */
  predicate Owing(tiers: seq<RateTier>, from: Moment, day: int, now: int, days: nat) {
    Accepted(tiers) && LocalDay(from) <= day && day * MS_PER_DAY <= now && Elapsed(day, now) == Ok(days)
  }

  /** At any accepted prices, a charge owes the days it has run in January 2026. */
  lemma OwingInJanuary(tiers: seq<RateTier>, from: Moment, day: int, now: int, days: nat)
    requires Accepted(tiers) && LocalDay(from) == NEW_YEAR <= day && DayOf(now) == day + days < NEW_YEAR + 31
    ensures Owing(tiers, from, day, now, days)
  {
    DayStarts(day, now);
    InJanuary(day, now);
  }

  lemma RecordedAtMidnight(tiers: seq<RateTier>, from: Moment, day: int, now: int, days: nat)
    requires Owing(tiers, from, day, now, days)
    ensures Recorded(tiers, from, Moment(day * MS_PER_DAY, 0), now) ==
            Holding(Saved(tiers, from), Running(Some(Pin(tiers, from)), Some("MSC"), day, days, CostOf(tiers, days)))
  {
    MidnightMoment(day);
    RecordedRow(tiers, from, Moment(day * MS_PER_DAY, 0), now, days);
  }

  lemma ClearedRow(tiers: seq<RateTier>, from: Moment, day: int, now: int, days: nat)
    requires Owing(tiers, from, day, now, days)
    ensures Cleared(tiers, from, day, now)
            == Holding(Saved(tiers, from), Running(Some(Pin(tiers, from)), None, day, days, 0.0))
  {
    RecordedAtMidnight(tiers, from, day, now, days);
    CarrierCleared(Saved(tiers, from), Running(Some(Pin(tiers, from)), Some("MSC"), day, days, CostOf(tiers, days)),
                   Pin(tiers, from), day, now, days);
  }

  lemma ClearedRefreshes(tiers: seq<RateTier>, from: Moment, day: int, now: int, days: nat)
    requires Owing(tiers, from, day, now, days)
    ensures After(Cleared(tiers, from, day, now), Refresh(now)) ==
            Holding(Saved(tiers, from), Running(Some(Pin(tiers, from)), None, day, days, CostOf(tiers, days)))
  {
    ClearedRow(tiers, from, day, now, days);
    PinnedRefreshes(Saved(tiers, from), Pin(tiers, from), Running(Some(Pin(tiers, from)), None, day, days, 0.0),
                    day, now, days);
  }

  /**
   * Clearing the carrier of a pinned charge prices it at nothing; the next refresh charges by the old pin again, and
   * with days owed the charge cannot be settled any more.
   */
  lemma EditLosesItsTariff(tiers: seq<RateTier>, from: Moment, day: int, now: int, days: nat, zone: int)
    requires Owing(tiers, from, day, now, days) && 0 < days
    ensures var s := Cleared(tiers, from, day, now);
            && s.rows == map[1 := Running(Some(Pin(tiers, from)), None, day, days, 0.0)]
            && After(s, Refresh(now)).rows
               == map[1 := Running(Some(Pin(tiers, from)), None, day, days, CostOf(tiers, days))]
            && ReturnCharge(s, 1, Some(Moment(now, zone))) == Err(NoTariff)
  {
    ClearedRow(tiers, from, day, now, days);
    ClearedRefreshes(tiers, from, day, now, days);
    CannotReturn(Saved(tiers, from), Running(Some(Pin(tiers, from)), None, day, days, 0.0), Moment(now, zone), days);
  }

  lemma CannotReturn(tariffs: seq<Tariff>, row: Row, at: Moment, days: nat)
    requires row.carrier.None? && row.freeDays == 0 && row.discharge.Some?
    requires row.discharge.value * MS_PER_DAY <= at.ms && Elapsed(row.discharge.value, at.ms) == Ok(days) && 0 < days
    ensures ReturnCharge(Holding(tariffs, row), 1, Some(at)) == Err(NoTariff)
  {
  }

  // ----- Edits without keys ----------------------------------------------------------------------

  predicate Postable(row: Row) {
    row.status == Active && row.snapshot.Some? && row.returned.None? && row.gateOut.None? && row.cost > 0.0
  }

  lemma PostedAt(tariffs: seq<Tariff>, row: Row, now: int)
    requires Postable(row)
    ensures After(Holding(tariffs, row), Post(now, BOOKS))
            == Holding(tariffs, row).(journal := [ChargeEntry(1, row, DayOf(now), 1.0)])
    ensures Lawful(Holding(tariffs, row), Post(now, BOOKS))
  {
    assert BOOKS.order[1..] == [];
    assert ShillingRate(BOOKS, row.currency, DayOf(now)) == Some(1.0);
    var e := ChargeEntry(1, row, DayOf(now), 1.0);
    assert PostRow(1, row, false, now, BOOKS) == Ok(Some(e));
    assert [] + [e] == [e];
  }

  /** Two and a half thousand shillings to any other money, no closed period, and the charge alone in the table. */
  const SHILLING_BOOKS := Books((_, _, _) => Some(2500.0), _ => false, [1])

  lemma DearAmount()
    ensures LedgerAmount(150.0, 2500.0) == 375_000.0
  {
    assert Times(150.0, 2500.0) == 375_000.0;
    assert InCents(375_000.0) by { assert 375_000.0 == Cents(37_500_000); }
    RoundCentsFacts(375_000.0);
  }

  /** A charge of 150 dollars that the customer owes is posted at 375000 shillings. */
  lemma PostedInShillings(tariffs: seq<Tariff>, row: Row, now: int)
    requires Postable(row) && row.cost == 150.0 && !row.absorbed
    ensures After(Holding(tariffs, row), Post(now, SHILLING_BOOKS)).journal
            == [Entry(1, DayOf(now), 2500.0,
                      [Line("1100", 375_000.0, 0.0), Line("2000", 0.0, 375_000.0)], false, None)]
  {
    DearAmount();
    var e := ChargeEntry(1, row, DayOf(now), 2500.0);
    assert SHILLING_BOOKS.order[1..] == [];
    assert ShillingRate(SHILLING_BOOKS, row.currency, DayOf(now)) == Some(2500.0);
    assert PostRow(1, row, false, now, SHILLING_BOOKS) == Ok(Some(e));
    assert [] + [e] == [e];
  }

  /** A posted charge whose cost an edit without keys overwrites. */
  lemma Overwritten(tariffs: seq<Tariff>, row: Row, posted: int, now: int, cost: real)
    requires Postable(row) && KeylessCost(row, tariffs, now) == Some(cost)
    requires LedgerAmount(cost, 1.0) != LedgerAmount(row.cost, 1.0)
    ensures var s := After(Holding(tariffs, row), Post(posted, BOOKS));
            var t := After(s, Edit(1, NO_KEYS, now));
            LedgerOk(s) && !LedgerOk(t) && 1 in t.rows && t.rows[1].cost == cost
  {
    PostedAt(tariffs, row, posted);
    var s := After(Holding(tariffs, row), Post(posted, BOOKS));
    var e := ChargeEntry(1, row, DayOf(posted), 1.0);
    CallKeepsLedger(Holding(tariffs, row), Post(posted, BOOKS));
    assert e in s.journal && !e.voided;
    EntriesOfAppend([], e, 1);
    assert [] + [e] == [e];
    assert EntriesOf(s.journal, 1) == [e];
    EmptyEditReprices(s, 1, now);
  }

  lemma AtPar(tiers: seq<RateTier>, days: int)
    ensures LedgerAmount(CostOf(tiers, days), 1.0) == CostOf(tiers, days)
  {
    var cost := CostOf(tiers, days);
    assert Times(cost, 1.0) == cost;
    assert InCents(cost) by {
      assert cost == Cents(if days <= 0 then 0 else HalfUp(Charge(tiers, 0, days) * 100.0));
    }
    RoundCentsFacts(cost);
  }

  lemma KeylessCosts(tariffs: seq<Tariff>, pin: Snapshot, carrier: Option<string>, day: int, shown: nat, cost: real,
                     now: int, days: nat)
    requires Accepted(pin.tiers) && day * MS_PER_DAY <= now && Elapsed(day, now) == Ok(days)
    ensures KeylessCost(Running(Some(pin), carrier, day, shown, cost), tariffs, now)
            == Some(if carrier.Some? && carrier.value != "" then CostOf(pin.tiers, days) else 0.0)
  {
  }

  /**
   * With the carrier cleared, posting first refreshes by the old pin; an edit without keys then writes no cost over
   * it.
   */
  lemma KeylessEditWithoutCarrier(tiers: seq<RateTier>, from: Moment, day: int, now: int, days: nat)
    requires Owing(tiers, from, day, now, days) && 0.0 < CostOf(tiers, days)
    ensures var posted := After(After(Cleared(tiers, from, day, now), Refresh(now)), Post(now, BOOKS));
            var edited := After(posted, Edit(1, NO_KEYS, now));
            LedgerOk(posted) && !LedgerOk(edited) && 1 in edited.rows && edited.rows[1].cost == 0.0
  {
    ClearedRefreshes(tiers, from, day, now, days);
    KeylessCosts(Saved(tiers, from), Pin(tiers, from), None, day, days, CostOf(tiers, days), now, days);
    AtPar(tiers, days);
    AtPar(tiers, 0);
    Overwritten(Saved(tiers, from), Running(Some(Pin(tiers, from)), None, day, days, CostOf(tiers, days)),
                now, now, 0.0);
  }

  /** A charge posted while it is still running is repriced by an edit without keys some days later. */
  lemma KeylessEditLater(tiers: seq<RateTier>, from: Moment, day: int, now: int, days: nat, later: int, more: nat)
    requires Owing(tiers, from, day, now, days) && Owing(tiers, from, day, later, more)
    requires 0.0 < CostOf(tiers, days) < CostOf(tiers, more)
    ensures var posted := After(Recorded(tiers, from, Moment(day * MS_PER_DAY, 0), now), Post(now, BOOKS));
            var edited := After(posted, Edit(1, NO_KEYS, later));
            LedgerOk(posted) && !LedgerOk(edited) && 1 in edited.rows && edited.rows[1].cost == CostOf(tiers, more)
  {
    RecordedAtMidnight(tiers, from, day, now, days);
    KeylessCosts(Saved(tiers, from), Pin(tiers, from), Some("MSC"), day, days, CostOf(tiers, days), later, more);
    AtPar(tiers, days);
    AtPar(tiers, more);
    Overwritten(Saved(tiers, from), Running(Some(Pin(tiers, from)), Some("MSC"), day, days, CostOf(tiers, days)),
                now, later, CostOf(tiers, more));
  }

  // ----- Local days ------------------------------------------------------------------------------

  /** Ten in the evening, when a clock three hours ahead shows the next day. */
  lemma LateIsTheNextDay(day: int)
    ensures var m := Moment(day * MS_PER_DAY + 22 * 3_600_000, 3 * 3_600_000);
            DayOf(m.ms) == day && LocalDay(m) == day + 1
  {
  }

  /** A charge is priced from the UTC day of its discharge when it is recorded, and from the local day ever after. */
  lemma LocalDayLosesADay(
    tiers: seq<RateTier>, from: Moment, m: Moment, day: int, next: int, now: int, days: nat, more: nat)
    requires DayOf(m.ms) == day && LocalDay(m) == next && m.ms <= now
    requires Owing(tiers, from, day, now, more) && Owing(tiers, from, next, now, days)
    ensures var s := Recorded(tiers, from, m, now);
            var t := After(s, Refresh(now));
            && 1 in s.rows && s.rows[1].demurrageDays == more && s.rows[1].cost == CostOf(tiers, more)
            && 1 in t.rows && t.rows[1].demurrageDays == days && t.rows[1].cost == CostOf(tiers, days)
  {
    SameDayCount(m.ms, now, day);
    RecordedRow(tiers, from, m, now, more);
    var row := Running(Some(Pin(tiers, from)), Some("MSC"), next, more, CostOf(tiers, more));
    PinnedRefreshes(Saved(tiers, from), Pin(tiers, from), row, next, now, days);
  }

  // ----- Free days -------------------------------------------------------------------------------

  /** The charge with seven free days. */
  function RunningFree(pin: Snapshot, day: int, total: int, days: int, cost: real): Row {
    Row(Some("MSC"), "40HC", Some(day), None, None, 7, total, days, cost, "USD", Some(pin), Active, false)
  }

  lemma OpenedFree(tariffs: seq<Tariff>, m: Moment, now: int, pin: Snapshot, days: nat)
    requires Accepted(pin.tiers) && pin.currency == "USD" && DaysBetween(At(m.ms), At(now)) == Ok(7 + days)
    requires Quoted(tariffs, Some("MSC"), "40HC", DayOf(m.ms)) == Some(pin)
    ensures OpenRow(NewCharge(Some("MSC"), "40HC", Some(m), None), tariffs, now)
            == Ok(RunningFree(pin, LocalDay(m), 7 + days, days, CostOf(pin.tiers, days)))
  {
  }

  lemma FreeRefreshes(tariffs: seq<Tariff>, row: Row, pin: Snapshot, day: int, now: int, days: nat)
    requires row == RunningFree(pin, day, row.totalDays, row.demurrageDays, row.cost)
    requires Accepted(pin.tiers) && pin.currency == "USD"
    requires day * MS_PER_DAY <= now && Elapsed(day, now) == Ok(7 + days)
    ensures After(Holding(tariffs, row), Refresh(now))
            == Holding(tariffs, RunningFree(pin, day, 7 + days, days, CostOf(pin.tiers, days)))
  {
    PinnedRefresh(row, tariffs, now);
    RefreshedTable(tariffs, row, now, RunningFree(pin, day, 7 + days, days, CostOf(pin.tiers, days)));
  }

  /**
   * A charge recorded without free days of its own has seven: the days beyond them are owed, when it is recorded and
   * when it is refreshed later.
   */
  lemma SevenDaysAreFree(tiers: seq<RateTier>, from: Moment, day: int, now: int, days: nat, later: int, more: nat)
    requires Owing(tiers, from, day, now, 7 + days) && Owing(tiers, from, day, later, 7 + more)
    ensures var charge := NewCharge(Some("MSC"), "40HC", Some(Moment(day * MS_PER_DAY, 0)), None);
            var s := After(After(EMPTY, SaveTariff(tiers, from)), Add(1, charge, now));
            var t := After(s, Refresh(later));
            && 1 in s.rows && s.rows[1].totalDays == 7 + days && s.rows[1].demurrageDays == days
            && s.rows[1].cost == CostOf(tiers, days)
            && 1 in t.rows && t.rows[1].totalDays == 7 + more && t.rows[1].demurrageDays == more
            && t.rows[1].cost == CostOf(tiers, more)
  {
    var m, pin, tariffs := Moment(day * MS_PER_DAY, 0), Pin(tiers, from), Saved(tiers, from);
    MidnightMoment(day);
    TariffSaved(tiers, from);
    TariffFound(tiers, from, day);
    OpenedFree(tariffs, m, now, pin, days);
    var row := RunningFree(pin, day, 7 + days, days, CostOf(tiers, days));
    AddWrites(tariffs, NewCharge(Some("MSC"), "40HC", Some(m), None), now, row);
    FreeRefreshes(tariffs, row, pin, day, later, more);
  }

  // ----- A waived charge returned ----------------------------------------------------------------

  const WAIVE := Patch(None, None, None, None, Some(Status.Waived), None, false, false)

  lemma WaivedWrites(tariffs: seq<Tariff>, pin: Snapshot, day: int, now: int, days: nat)
    requires Accepted(pin.tiers) && pin.currency == "USD" && day * MS_PER_DAY <= now && Elapsed(day, now) == Ok(days)
    ensures var row := Running(Some(pin), Some("MSC"), day, days, CostOf(pin.tiers, days));
            After(Holding(tariffs, row), Edit(1, WAIVE, now)) == Holding(tariffs, row.(status := Status.Waived))
  {
    var row := Running(Some(pin), Some("MSC"), day, days, CostOf(pin.tiers, days));
    assert Overwrite(row, WAIVE) == row.(status := Status.Waived);
    assert StartOf(row, WAIVE) == day * MS_PER_DAY;
    assert EditRow(row, WAIVE, tariffs, now) == Ok(row.(status := Status.Waived));
    EditWrites(tariffs, row, WAIVE, now, row.(status := Status.Waived));
  }

  lemma ReturnWrites(tariffs: seq<Tariff>, row: Row, at: Moment, settled: Row)
    requires SettleRow(row, tariffs, Some(at)) == Ok(settled)
    ensures After(Holding(tariffs, row), Return(1, Some(at))) == Holding(tariffs, settled)
  {
    ReturnChargeWrites(Holding(tariffs, row), at, settled);
    assert map[1 := row][1 := settled] == map[1 := settled];
  }

  lemma ReturnChargeWrites(s: State, at: Moment, settled: Row)
    requires 1 in s.rows && s.journal == [] && SettleRow(s.rows[1], s.tariffs, Some(at)) == Ok(settled)
    ensures After(s, Return(1, Some(at))) == s.(rows := s.rows[1 := settled])
  {
  }

  lemma WaivedSettles(tariffs: seq<Tariff>, pin: Snapshot, day: int, at: Moment, days: nat, cost: real)
    requires Accepted(pin.tiers) && pin.currency == "USD"
    requires day * MS_PER_DAY <= at.ms && Elapsed(day, at.ms) == Ok(days)
    ensures var row := Running(Some(pin), Some("MSC"), day, days, cost).(status := Status.Waived);
            SettleRow(row, tariffs, Some(at))
            == Ok(row.(status := Completed, returned := Some(LocalDay(at)), cost := CostOf(pin.tiers, days)))
  {
  }

  lemma PostsCompleted(tariffs: seq<Tariff>, row: Row, now: int)
    requires row.status == Completed && row.returned.Some? && row.cost > 0.0
    ensures Frozen(After(Holding(tariffs, row), Post(now, BOOKS)).journal, 1)
  {
    var e := ChargeEntry(1, row, row.returned.value, 1.0);
    assert BOOKS.order[1..] == [];
    assert ShillingRate(BOOKS, row.currency, row.returned.value) == Some(1.0);
    assert PostRow(1, row, false, now, BOOKS) == Ok(Some(e));
    assert [] + [e] == [e];
    assert e in [e];
  }

  /** A charge is recorded, waived and returned: it is charged in full after all, and the next posting books it. */
  lemma WaivedThenReturned(tiers: seq<RateTier>, from: Moment, day: int, now: int, days: nat, zone: int)
    requires Owing(tiers, from, day, now, days) && 0.0 < CostOf(tiers, days)
    ensures var waived := After(Recorded(tiers, from, Moment(day * MS_PER_DAY, 0), now), Edit(1, WAIVE, now));
            var t := After(waived, Return(1, Some(Moment(now, zone))));
            && WaivedOut(waived, 1) && 1 in waived.rows && waived.rows[1].status == Status.Waived
            && 1 in t.rows && t.rows[1].status == Completed && t.rows[1].cost == CostOf(tiers, days)
            && Frozen(After(t, Post(now, BOOKS)).journal, 1)
  {
    var tariffs, pin := Saved(tiers, from), Pin(tiers, from);
    RecordedAtMidnight(tiers, from, day, now, days);
    WaivedWrites(tariffs, pin, day, now, days);
    WaivedSettles(tariffs, pin, day, Moment(now, zone), days, CostOf(tiers, days));
    var row := Running(Some(pin), Some("MSC"), day, days, CostOf(tiers, days)).(status := Status.Waived);
    var settled :=
      row.(status := Completed, returned := Some(LocalDay(Moment(now, zone))), cost := CostOf(tiers, days));
    ReturnWrites(tariffs, row, Moment(now, zone), settled);
    PostsCompleted(tariffs, settled, now);
  }

  // ----- A summary and a later posting -----------------------------------------------------------

  lemma UnnamedOpens(day: int, now: int)
    requires day * MS_PER_DAY <= now && Elapsed(day, now) == Ok(0)
    ensures OpenRow(WithoutFreeDays(None, Moment(day * MS_PER_DAY, 0)), [], now) == Ok(Running(None, None, day, 0, 0.0))
  {
    MidnightMoment(day);
    OpenedUnnamed(Moment(day * MS_PER_DAY, 0), now);
  }

  lemma OpenedUnnamed(m: Moment, now: int)
    requires DaysBetween(At(m.ms), At(now)) == Ok(0)
    ensures OpenRow(WithoutFreeDays(None, m), [], now) == Ok(Running(None, None, LocalDay(m), 0, 0.0))
  {
  }

  lemma MidnightMoment(day: int)
    ensures var m := Moment(day * MS_PER_DAY, 0); DayOf(m.ms) == day && LocalDay(m) == day
  {
  }

  lemma UnnamedRefreshes(day: int, now: int, days: nat)
    requires day * MS_PER_DAY <= now && Elapsed(day, now) == Ok(days)
    ensures RefreshRow(Running(None, None, day, 0, 0.0), [], false, now) == Ok(Running(None, None, day, days, 0.0))
    ensures StaysUnpriced(Running(None, None, day, 0, 0.0), [], now) <==> 0 < days
  {
  }

  lemma StoppedPosting(row: Row, now: int, later: Row)
    requires RefreshRow(row, [], false, now) == Ok(later) && StaysUnpriced(row, [], now)
    ensures PostCharges(Holding([], row), now, BOOKS).1 == Some(Refusal.Unpriced)
  {
    RefreshedTable([], row, now, later);
    assert StopsPosting(Holding([], row), 1, now) && BOOKS.order[0] == 1;
    UnpricedRefusal(Holding([], row), now, BOOKS);
  }

  /**
   * A charge without carrier or free days: on the day of discharge a summary reports nothing unpriced; any number of
   * days later, posting is refused as unpriced.
   */
  lemma SummaryGoesStale(day: int, now: int, later: int, days: nat)
    requires day * MS_PER_DAY <= now && Elapsed(day, now) == Ok(0)
    requires day * MS_PER_DAY <= later && Elapsed(day, later) == Ok(days) && 0 < days
    ensures var s := After(EMPTY, Add(1, WithoutFreeDays(None, Moment(day * MS_PER_DAY, 0)), now));
            var t := After(s, Refresh(now));
            && 1 in t.rows && Summarised(Listed(t.rows, BOOKS.order)).unpriced == 0
            && PostCharges(t, later, BOOKS).1 == Some(Refusal.Unpriced)
  {
    var row := Running(None, None, day, 0, 0.0);
    UnnamedOpens(day, now);
    AddWrites([], WithoutFreeDays(None, Moment(day * MS_PER_DAY, 0)), now, row);
    UnnamedRefreshes(day, now, 0);
    RefreshedTable([], row, now, row);
    UnpricedCounts(map[1 := row], [1]);
    UnnamedRefreshes(day, later, days);
    StoppedPosting(row, later, Running(None, None, day, days, 0.0));
  }

  // ----- At a flat rate in January ---------------------------------------------------------------

  /** Prices at which two days cost 100, three 150 and four 200. */
  lemma FlatPrices() returns (tiers: seq<RateTier>)
    ensures Accepted(tiers) && CostOf(tiers, 2) == 100.0 && CostOf(tiers, 3) == 150.0 && CostOf(tiers, 4) == 200.0
  {
    tiers := FLAT;
    FlatRate(2);
    FlatRate(3);
    FlatRate(4);
  }

  /** Posted at 150 with the carrier cleared, then overwritten with nothing. */
  lemma CarrierlessInJanuary(from: Moment, day: int, now: int) returns (tiers: seq<RateTier>)
    requires LocalDay(from) == NEW_YEAR <= day && DayOf(now) == day + 3 < NEW_YEAR + 31
    ensures var posted := After(After(Cleared(tiers, from, day, now), Refresh(now)), Post(now, BOOKS));
            var edited := After(posted, Edit(1, NO_KEYS, now));
            CostOf(tiers, 3) == 150.0
            && LedgerOk(posted) && !LedgerOk(edited) && 1 in edited.rows && edited.rows[1].cost == 0.0
  {
    tiers := FlatPrices();
    OwingInJanuary(tiers, from, day, now, 3);
    KeylessEditWithoutCarrier(tiers, from, day, now, 3);
  }

  /** Posted at 150, then overwritten with 200 a day later. */
  lemma KeylessEditInJanuary(from: Moment, day: int, now: int, later: int) returns (tiers: seq<RateTier>)
    requires LocalDay(from) == NEW_YEAR <= day && DayOf(now) == day + 3 && DayOf(later) == day + 4 < NEW_YEAR + 31
    ensures var posted := After(Recorded(tiers, from, Moment(day * MS_PER_DAY, 0), now), Post(now, BOOKS));
            var edited := After(posted, Edit(1, NO_KEYS, later));
            CostOf(tiers, 3) == 150.0
            && LedgerOk(posted) && !LedgerOk(edited) && 1 in edited.rows && edited.rows[1].cost == 200.0
  {
    tiers := FlatPrices();
    OwingInJanuary(tiers, from, day, now, 3);
    OwingInJanuary(tiers, from, day, later, 4);
    KeylessEditLater(tiers, from, day, now, 3, later, 4);
  }

  lemma OwingFromEither(tiers: seq<RateTier>, from: Moment, day: int, next: int, now: int)
    requires Accepted(tiers) && LocalDay(from) == NEW_YEAR <= day && next == day + 1
    requires DayOf(now) == day + 3 < NEW_YEAR + 31
    ensures Owing(tiers, from, day, now, 3) && Owing(tiers, from, next, now, 2)
  {
    OwingInJanuary(tiers, from, day, now, 3);
    OwingInJanuary(tiers, from, next, now, 2);
  }

  /**
   * Discharged when the local clock is past midnight and UTC is not: charged 150 when it is recorded, and 100 at the
   * next refresh.
   */
  lemma LateInJanuary(from: Moment, m: Moment, day: int, next: int, now: int) returns (tiers: seq<RateTier>)
    requires LocalDay(from) == NEW_YEAR <= day && DayOf(m.ms) == day && LocalDay(m) == next && next == day + 1
    requires m.ms <= now && DayOf(now) == day + 3 < NEW_YEAR + 31
    ensures var s := Recorded(tiers, from, m, now);
            var t := After(s, Refresh(now));
            1 in s.rows && s.rows[1].cost == 150.0 && 1 in t.rows && t.rows[1].cost == 100.0
  {
    tiers := FlatPrices();
    OwingFromEither(tiers, from, day, next, now);
    LocalDayLosesADay(tiers, from, m, day, next, now, 2, 3);
  }

  /** Ten days after discharge three are owed, for 150, and eleven days after it four, for 200. */
  lemma FreeDaysInJanuary(from: Moment, day: int, now: int, later: int) returns (tiers: seq<RateTier>)
    requires LocalDay(from) == NEW_YEAR <= day && DayOf(now) == day + 10 && DayOf(later) == day + 11 < NEW_YEAR + 31
    ensures var charge := NewCharge(Some("MSC"), "40HC", Some(Moment(day * MS_PER_DAY, 0)), None);
            var s := After(After(EMPTY, SaveTariff(tiers, from)), Add(1, charge, now));
            var t := After(s, Refresh(later));
            && 1 in s.rows && s.rows[1].demurrageDays == 3 && s.rows[1].cost == 150.0
            && 1 in t.rows && t.rows[1].demurrageDays == 4 && t.rows[1].cost == 200.0
  {
    tiers := FlatPrices();
    OwingInJanuary(tiers, from, day, now, 10);
    OwingInJanuary(tiers, from, day, later, 11);
    SevenDaysAreFree(tiers, from, day, now, 3, later, 4);
  }

  /** Waived, then returned and posted at 150. */
  lemma WaivedInJanuary(from: Moment, day: int, now: int, zone: int) returns (tiers: seq<RateTier>)
    requires LocalDay(from) == NEW_YEAR <= day && DayOf(now) == day + 3 < NEW_YEAR + 31
    ensures var waived := After(Recorded(tiers, from, Moment(day * MS_PER_DAY, 0), now), Edit(1, WAIVE, now));
            var t := After(waived, Return(1, Some(Moment(now, zone))));
            && WaivedOut(waived, 1) && 1 in waived.rows && waived.rows[1].status == Status.Waived
            && 1 in t.rows && t.rows[1].status == Completed && t.rows[1].cost == 150.0
            && Frozen(After(t, Post(now, BOOKS)).journal, 1)
  {
    tiers := FlatPrices();
    OwingInJanuary(tiers, from, day, now, 3);
    WaivedThenReturned(tiers, from, day, now, 3, zone);
  }

  /** Nothing unpriced on the day of discharge, refused as unpriced on the next. */
  lemma StaleInJanuary(day: int, now: int, later: int)
    requires NEW_YEAR <= day == DayOf(now) && DayOf(later) == day + 1 < NEW_YEAR + 31
    ensures var s := After(EMPTY, Add(1, WithoutFreeDays(None, Moment(day * MS_PER_DAY, 0)), now));
            var t := After(s, Refresh(now));
            Summarised(Listed(t.rows, BOOKS.order)).unpriced == 0
            && PostCharges(t, later, BOOKS).1 == Some(Refusal.Unpriced)
  {
    DayStarts(day, now);
    DayStarts(day, later);
    InJanuary(day, now);
    InJanuary(day, later);
    SummaryGoesStale(day, now, later, 1);
  }
}
