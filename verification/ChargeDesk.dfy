/** The demurrage and cost-posting services as the program runs them, over tables they update in place. */
module ChargeDesks {
  import opened Outcomes
  import opened Tiers
  import opened Calendar
  import opened Charges
  import opened ChargeRuns
  import opened ChargeHistory

  class ChargeDesk {
    var tariffs: seq<Tariff>
    var rows: map<Id, Row>
    var journal: seq<Entry>

    ghost function Tables(): State
      reads this
    {
      State(tariffs, rows, journal)
    }

    constructor ()
      ensures Tables() == State([], map[], []) && LedgerOk(Tables()) && PricesSound(Tables())
    {
      tariffs, rows, journal := [], map[], [];
    }

    predicate HasLiveEntry(id: Id)
      reads this
    {
      Frozen(journal, id)
    }

    /** The loop body of the refresh: what one locked row becomes. */
    method RefreshOne(row: Row, posted: bool, now: int) returns (r: Result<Row, Refusal>)
      ensures r == RefreshRow(row, tariffs, posted, now)
    {
      if row.status != Active || row.discharge.None? || now < row.discharge.value * MS_PER_DAY || posted {
        return Ok(row);
      }
      var total := Elapsed(row.discharge.value, now).value;
      var days := Chargeable(total, row.freeDays);
      var tariff := row.snapshot;
      if tariff.None? {
        tariff := Quoted(tariffs, row.carrier, row.size, row.discharge.value);
      }
      if tariff.None? {
        return Ok(row.(totalDays := total, demurrageDays := days));
      }
      var cost := CalculateDemurrageCost(days, tariff.value.tiers);
      if cost.Err? {
        return Err(BadTiers);
      }
      return Ok(row.(totalDays := total, demurrageDays := days, cost := cost.value, currency := tariff.value.currency,
                     snapshot := tariff));
    }

    /** Reprices every active, discharged, unposted charge in one transaction. */
    method RefreshCharges(now: int) returns (refused: Option<Refusal>)
      modifies `rows
      ensures refused == RefusalOf(old(Tables()), Refresh(now)) && Tables() == After(old(Tables()), Refresh(now))
    {
      var locked, written := rows.Keys, rows;
      ghost var s := Tables();
      while locked != {}
        invariant Tables() == s && locked <= s.rows.Keys && written.Keys == s.rows.Keys
        invariant forall id | id in s.rows && id in locked :: written[id] == s.rows[id]
        invariant forall id | id in s.rows && id !in locked :: RefreshAt(s, id, now) == Ok(written[id])
      {
        var id :| id in locked;
        var row := RefreshOne(written[id], HasLiveEntry(id), now);
        assert row == RefreshAt(s, id, now);
        if row.Err? {
          RefreshFails(s, id, now);
          return Some(BadTiers);
        }
        locked, written := locked - {id}, written[id := row.value];
      }
      assert Refreshed(s, now).Ok? && Refreshed(s, now).value.rows == written;
      rows := written;
      refused := None;
    }

    static lemma RefreshFails(s: State, id: Id, now: int)
      requires id in s.rows && RefreshAt(s, id, now).Err?
      ensures RefusalOf(s, Refresh(now)) == Some(BadTiers) && After(s, Refresh(now)) == s
    {
    }

    static lemma AddOutcome(s: State, id: Id, c: NewCharge, now: int)
      ensures var r := OpenRow(c, s.tariffs, now);
              && RefusalOf(s, Add(id, c, now)) == (if r.Ok? then None else Some(r.error))
              && After(s, Add(id, c, now)) == if r.Ok? then s.(rows := s.rows[id := r.value]) else s
    {
    }

    /** The row a new charge starts with. */
    method OpenNew(c: NewCharge, now: int) returns (r: Result<Row, Refusal>)
      ensures r == OpenRow(c, tariffs, now)
    {
      if c.freeDays.Some? && !(0 <= c.freeDays.value <= 3650) {
        return Err(BadInput);
      }
      var freeDays := if c.freeDays.Some? then c.freeDays.value else 7;
      var carrier := if c.carrier == Some("") then None else c.carrier;
      var row := Row(carrier, c.size, None, None, None, freeDays, 0, 0, 0.0, "USD", None, Active, false);
      if c.discharge.None? {
        return Ok(row);
      }
      var counted := DaysBetween(At(c.discharge.value.ms), At(now));
      if counted.Err? {
        return Err(BadDate);
      }
      var demurrageDays := Chargeable(counted.value, freeDays);
      row := row.(discharge := Some(LocalDay(c.discharge.value)), totalDays := counted.value,
                  demurrageDays := demurrageDays);
      var tariff := Quoted(tariffs, carrier, c.size, DayOf(c.discharge.value.ms));
      if tariff.None? {
        return if demurrageDays > 0 then Err(NoTariff) else Ok(row);
      }
      var cost := CalculateDemurrageCost(demurrageDays, tariff.value.tiers);
      if cost.Err? {
        return Err(BadTiers);
      }
      return Ok(row.(cost := cost.value, currency := tariff.value.currency, snapshot := tariff));
    }

    method AddContainer(id: Id, c: NewCharge, now: int) returns (refused: Option<Refusal>)
      modifies `rows
      ensures refused == RefusalOf(old(Tables()), Add(id, c, now)) && Tables() == After(old(Tables()), Add(id, c, now))
    {
      AddOutcome(Tables(), id, c, now);
      var row := OpenNew(c, now);
      if row.Err? {
        return Some(row.error);
      }
      rows := rows[id := row.value];
      refused := None;
    }

    method MarkReturned(id: Id, at: Option<Moment>) returns (refused: Option<Refusal>)
      modifies `rows
      ensures refused == RefusalOf(old(Tables()), Return(id, at)) && Tables() == After(old(Tables()), Return(id, at))
    {
      if HasLiveEntry(id) {
        return Some(AlreadyPosted);
      }
      if id !in rows {
        return Some(NotFound);
      }
      var container := rows[id];
      if container.discharge.None? {
        return Some(NoDischargeDate);
      }
      if at.None? {
        return Some(BadDate);
      }
      var counted := DaysBetween(At(container.discharge.value * MS_PER_DAY), At(at.value.ms));
      if counted.Err? {
        return Some(BadDate);
      }
      var demurrageDays := Chargeable(counted.value, container.freeDays);
      var demurrageCost, currency, tariffFound := 0.0, container.currency, false;
      if HasCarrier(container) {
        var tariff := container.snapshot;
        if tariff.None? {
          tariff := Quoted(tariffs, container.carrier, container.size, container.discharge.value);
        }
        if tariff.Some? {
          var cost := CalculateDemurrageCost(demurrageDays, tariff.value.tiers);
          if cost.Err? {
            return Some(BadTiers);
          }
          demurrageCost, currency, tariffFound := cost.value, tariff.value.currency, true;
        }
      }
      if demurrageDays > 0 && !tariffFound {
        return Some(NoTariff);
      }
      rows := rows[id := container.(returned := Some(LocalDay(at.value)), totalDays := counted.value,
                                    demurrageDays := demurrageDays, cost := demurrageCost, currency := currency,
                                    status := Completed)];
      refused := None;
    }

    static lemma EditOutcome(s: State, id: Id, p: Patch, now: int)
      ensures var r := EditCharge(s, id, p, now);
              && RefusalOf(s, Edit(id, p, now)) == (if r.Ok? then None else Some(r.error))
              && After(s, Edit(id, p, now)) == if r.Ok? then r.value else s
    {
    }

    method UpdateContainer(id: Id, p: Patch, now: int) returns (refused: Option<Refusal>)
      modifies `rows
      ensures refused == RefusalOf(old(Tables()), Edit(id, p, now))
              && Tables() == After(old(Tables()), Edit(id, p, now))
    {
      EditOutcome(Tables(), id, p, now);
      if p.freeDays.Some? && !(0 <= p.freeDays.value <= 3650) {
        return Some(BadInput);
      }
      if id !in rows {
        return Some(NotFound);
      }
      var existing := rows[id];
      if EditsAnything(p) && HasLiveEntry(id) {
        return Some(AlreadyPosted);
      }
      if existing.status != Active && EditsSettled(p) {
        return Some(AlreadySettled);
      }
      var patched := Overwrite(existing, p);
      if existing.status == Active && patched.discharge.Some? {
        var start := if p.discharge.Some? then p.discharge.value.value.ms else existing.discharge.value * MS_PER_DAY;
        var counted := DaysBetween(At(start), At(now));
        if counted.Err? {
          return Some(BadDate);
        }
        var demurrageDays := Chargeable(counted.value, patched.freeDays);
        var demurrageCost := 0.0;
        if HasCarrier(patched) {
          var tariff := if EditsTerms(p) then None else existing.snapshot;
          if tariff.None? {
            tariff := Quoted(tariffs, patched.carrier, patched.size, DayOf(start));
          }
          if tariff.Some? {
            var cost := CalculateDemurrageCost(demurrageDays, tariff.value.tiers);
            if cost.Err? {
              return Some(BadTiers);
            }
            demurrageCost := cost.value;
            patched := patched.(currency := tariff.value.currency, snapshot := tariff);
          }
        }
        patched := patched.(totalDays := counted.value, demurrageDays := demurrageDays, cost := demurrageCost);
      }
      rows := rows[id := patched];
      refused := None;
    }

    method DeleteContainer(id: Id) returns (refused: Option<Refusal>)
      modifies `rows
      ensures refused == RefusalOf(old(Tables()), Delete(id)) && Tables() == After(old(Tables()), Delete(id))
    {
      if HasLiveEntry(id) {
        return Some(AlreadyPosted);
      }
      rows := rows - {id};
      refused := None;
    }

    method SaveTariff(id: nat, n: NewTariff, now: Moment) returns (refused: Option<Refusal>)
      modifies `tariffs
      ensures refused == RefusalOf(old(Tables()), CreateTariff(id, n, now))
      ensures Tables() == After(old(Tables()), CreateTariff(id, n, now))
    {
      if !TermsAllowed(n) {
        return Some(BadInput);
      }
      var valid := CheckTiers(n.tiers);
      if !valid {
        return Some(BadTiers);
      }
      var from := if n.effectiveFrom.Some? then n.effectiveFrom.value else now;
      tariffs := tariffs +
        [Tariff(id, n.carrier, n.size, n.tiers, n.currency.GetOr("USD"), true, LocalDay(from), now.ms)];
      refused := None;
    }

    /** The posting transaction, over the rows as the database returns them; any refusal drops all its entries. */
    method PostEntries(now: int, books: Books) returns (refused: Option<Refusal>)
      modifies `journal
      ensures refused == RefusalOf(old(Tables()), Post(now, books))
              && Tables() == After(old(Tables()), Post(now, books))
    {
      ghost var s := Tables();
      var entries := journal;
      for i := 0 to |books.order|
        invariant rows == s.rows && journal == s.journal && tariffs == s.tariffs
        invariant PostRows(s.(journal := entries), journal, books.order[i..], now, books)
                  == PostRows(s, journal, books.order, now, books)
      {
        var id := books.order[i];
        assert books.order[i..][0] == id && books.order[i..][1..] == books.order[i + 1..];
        if id !in rows {
          continue;
        }
        var c := rows[id];
        if HasLiveEntry(id) {
          continue;
        }
        if c.status == Active && c.demurrageDays > 0 && c.snapshot.None? {
          return Some(Unpriced);
        }
        if c.cost <= 0.0 || c.status == Waived {
          continue;
        }
        var day := EntryDay(c, now);
        var fx := ShillingRate(books, c.currency, day);
        if fx.None? || fx.value <= 0.0 {
          return Some(NoExchangeRate);
        }
        if books.closed(day) {
          return Some(PeriodClosed);
        }
        entries := entries + [ChargeEntry(id, c, day, fx.value)];
      }
      journal := entries;
      refused := None;
    }

    /** A refresh in its own transaction, then the posting; other calls may come between the two. */
    method PostDemurrage(now: int, books: Books) returns (refused: Option<Refusal>)
      modifies `rows, `journal
      ensures var s := old(Tables());
              refused == PostCharges(s, now, books).1 && Tables() == PostCharges(s, now, books).0
    {
      refused := RefreshCharges(now);
      if refused.None? {
        refused := PostEntries(now, books);
      }
    }

    method VoidJournalEntry(k: nat, today: int, closed: int -> bool) returns (refused: Option<Refusal>)
      modifies `journal
      ensures refused == RefusalOf(old(Tables()), Void(k, today, closed))
      ensures Tables() == After(old(Tables()), Void(k, today, closed))
    {
      if |journal| <= k {
        return Some(NotFound);
      }
      var entry := journal[k];
      if entry.voided {
        return Some(AlreadyVoided);
      }
      if closed(today) {
        return Some(PeriodClosed);
      }
      journal := journal + [Entry(entry.source, today, entry.rate, Mirrored(entry.lines), false, Some(k))];
      journal := journal[k := entry.(voided := true)];
      refused := None;
    }
  }
}
