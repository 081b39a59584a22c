/**
 * Demurrage charges of one tenant: what each service call does to the tariff table, the charge rows
 * and the journal. A call that is refused changes nothing: it runs in one database transaction.
 */
module Charges {
  import opened Outcomes
  import opened Texts
  import opened Tiers
  import opened Calendar

  type Id = nat

  datatype Tariff = Tariff(
    id: nat, carrier: string, size: string, tiers: seq<RateTier>, currency: string, active: bool,
    effectiveFrom: int, createdAt: int)

  /** The tariff evidence stored in a charge row. */
  datatype Snapshot = Snapshot(tariffId: nat, currency: string, tiers: seq<RateTier>, effectiveFrom: int)

  datatype Status = Active | Completed | Waived

  /** Discharge, gate-out and return are date columns, held as epoch days; nothing here writes a gate-out. */
  datatype Row = Row(
    carrier: Option<string>, size: string, discharge: Option<int>, gateOut: Option<int>, returned: Option<int>,
    freeDays: int, totalDays: int, demurrageDays: int, cost: real, currency: string, snapshot: Option<Snapshot>,
    status: Status, absorbed: bool)

  datatype Line = Line(account: string, debit: real, credit: real)

  /** An expense journal entry; its index in the journal is its id. */
  datatype Entry = Entry(source: Id, day: int, rate: real, lines: seq<Line>, voided: bool, reverses: Option<nat>)

  datatype State = State(tariffs: seq<Tariff>, rows: map<Id, Row>, journal: seq<Entry>)

  datatype Refusal =
    | NotFound | AlreadyPosted | AlreadySettled | AlreadyVoided | NoDischargeDate | NoTariff
    | Unpriced | NoExchangeRate | PeriodClosed | BadDate | BadTiers | BadInput

  // ----- Recording a tariff ----------------------------------------------------------------------

  /** The free days of a tariff are checked, but have no effect on a charge. */
  datatype NewTariff = NewTariff(
    carrier: string, size: string, freeDays: int, tiers: seq<RateTier>, currency: Option<string>,
    effectiveFrom: Option<Moment>)

  predicate FreeDaysAllowed(n: Option<int>) {
    n.Some? ==> 0 <= n.value <= 3650
  }

  predicate CurrencyAllowed(c: Option<string>) {
    c.Some? ==> |c.value| == 3 && forall i | 0 <= i < 3 :: 'A' <= c.value[i] <= 'Z'
  }

  predicate TermsAllowed(n: NewTariff) {
    && 1 <= |Trim(n.carrier)| <= 200 && 1 <= |Trim(n.size)| <= 30
    && FreeDaysAllowed(Some(n.freeDays)) && CurrencyAllowed(n.currency)
  }

  function OpenTariff(id: nat, n: NewTariff, now: Moment): Result<Tariff, Refusal> {
    if !TermsAllowed(n) then Err(BadInput)
    else if !Accepted(n.tiers) then Err(BadTiers)
    else Ok(Tariff(id, n.carrier, n.size, n.tiers, n.currency.GetOr("USD"), true,
                   LocalDay(n.effectiveFrom.GetOr(now)), now.ms))
  }

  // ----- Choosing a tariff -----------------------------------------------------------------------

  predicate Applies(t: Tariff, carrier: string, size: string, day: int) {
    t.active && t.carrier == carrier && t.size == size && t.effectiveFrom <= day
  }

  predicate Newer(a: Tariff, b: Tariff) {
    b.effectiveFrom < a.effectiveFrom || (b.effectiveFrom == a.effectiveFrom && b.createdAt < a.createdAt)
  }

  /** The newest tariff effective on the discharge day. */
  function Select(tariffs: seq<Tariff>, carrier: string, size: string, day: int): (r: Option<Tariff>)
    ensures r.None? <==> forall t | t in tariffs :: !Applies(t, carrier, size, day)
    ensures r.Some? ==> r.value in tariffs && Applies(r.value, carrier, size, day)
                        && forall t | t in tariffs && Applies(t, carrier, size, day) :: !Newer(t, r.value)
  {
    if tariffs == [] then None
    else
      var rest := Select(tariffs[1..], carrier, size, day);
      assert forall t :: t in tariffs <==> t == tariffs[0] || t in tariffs[1..];
      if Applies(tariffs[0], carrier, size, day) && (rest.None? || !Newer(rest.value, tariffs[0]))
      then Some(tariffs[0]) else rest
  }

  function Pin(t: Tariff): Snapshot {
    Snapshot(t.id, t.currency, t.tiers, t.effectiveFrom)
  }

  /** The tariff in force for the given terms; an empty carrier name is no carrier. */
  function Quoted(tariffs: seq<Tariff>, carrier: Option<string>, size: string, day: int): Option<Snapshot> {
    if carrier.None? || carrier.value == "" then None
    else match Select(tariffs, carrier.value, size, day) case None => None case Some(t) => Some(Pin(t))
  }

  predicate HasCarrier(row: Row) {
    row.carrier.Some? && row.carrier.value != ""
  }

  // ----- Refreshing ------------------------------------------------------------------------------

  predicate Frozen(journal: seq<Entry>, id: Id) {
    exists e | e in journal :: e.source == id && !e.voided
  }

  function Chargeable(total: int, freeDays: int): int {
    if total <= freeDays then 0 else total - freeDays
  }

  /** Days since discharge, counted up to `now`. */
  function Elapsed(discharge: int, now: int): Result<int, DateError> {
    DaysBetween(At(discharge * MS_PER_DAY), At(now))
  }

  predicate Due(row: Row, frozen: bool, now: int) {
    row.status == Active && row.discharge.Some? && row.discharge.value * MS_PER_DAY <= now && !frozen
  }

  /** The pinned tariff, or else the one in force for the row's own terms. */
  function Basis(row: Row, tariffs: seq<Tariff>): Option<Snapshot>
    requires row.discharge.Some?
  {
    if row.snapshot.Some? then row.snapshot else Quoted(tariffs, row.carrier, row.size, row.discharge.value)
  }

  /** Without a tariff only the day counts move; with one, the charge is priced by it and pinned to it. */
  function Reprice(row: Row, total: int, basis: Option<Snapshot>): Result<Row, Refusal> {
    var days := Chargeable(total, row.freeDays);
    var counted := row.(totalDays := total, demurrageDays := days);
    if basis.None? then Ok(counted)
    else
      match Priced(days, basis.value.tiers)
      case Err(_) => Err(BadTiers)
      case Ok(cost) => Ok(counted.(cost := cost, currency := basis.value.currency, snapshot := basis))
  }

  function RefreshRow(row: Row, tariffs: seq<Tariff>, frozen: bool, now: int): Result<Row, Refusal> {
    if Due(row, frozen, now) then Reprice(row, Elapsed(row.discharge.value, now).value, Basis(row, tariffs))
    else Ok(row)
  }

  function RefreshAt(s: State, id: Id, now: int): Result<Row, Refusal>
    requires id in s.rows
  {
    RefreshRow(s.rows[id], s.tariffs, Frozen(s.journal, id), now)
  }

  function Refreshed(s: State, now: int): Result<State, Refusal> {
    if exists id | id in s.rows :: RefreshAt(s, id, now).Err? then Err(BadTiers)
    else Ok(s.(rows := map id | id in s.rows :: RefreshAt(s, id, now).value))
  }

  // ----- Recording, returning, editing and deleting a charge -------------------------------------

  datatype NewCharge = NewCharge(
    carrier: Option<string>, size: string, discharge: Option<Moment>, freeDays: Option<int>)

  /** Days are counted and the tariff is chosen by the UTC day of the moment given; the row keeps its local day. */
  function OpenRow(c: NewCharge, tariffs: seq<Tariff>, now: int): Result<Row, Refusal> {
    var free := if c.freeDays.Some? then c.freeDays.value else 7;
    var carrier := if c.carrier == Some("") then None else c.carrier;
    var blank := Row(carrier, c.size, None, None, None, free, 0, 0, 0.0, "USD", None, Active, false);
    if !FreeDaysAllowed(c.freeDays) then Err(BadInput)
    else if c.discharge.None? then Ok(blank)
    else
      match DaysBetween(At(c.discharge.value.ms), At(now))
      case Err(_) => Err(BadDate)
      case Ok(total) =>
        var basis := Quoted(tariffs, carrier, c.size, DayOf(c.discharge.value.ms));
        if basis.None? && Chargeable(total, free) > 0 then Err(NoTariff)
        else Reprice(blank.(discharge := Some(LocalDay(c.discharge.value))), total, basis)
  }

  /**
   * Settles a charge at its return; a pinned tariff is used only for a row that names its carrier. No moment
   * means that the date validator refused the text.
   */
  function SettleRow(row: Row, tariffs: seq<Tariff>, at: Option<Moment>): Result<Row, Refusal> {
    if row.discharge.None? then Err(NoDischargeDate)
    else if at.None? then Err(BadDate)
    else
      match DaysBetween(At(row.discharge.value * MS_PER_DAY), At(at.value.ms))
      case Err(_) => Err(BadDate)
      case Ok(total) =>
        var days := Chargeable(total, row.freeDays);
        var done := row.(returned := Some(LocalDay(at.value)), totalDays := total, demurrageDays := days,
                         cost := 0.0, status := Completed);
        var basis := if !HasCarrier(row) then None
                     else if row.snapshot.Some? then row.snapshot
                     else Quoted(tariffs, row.carrier, row.size, row.discharge.value);
        if basis.None? then (if days > 0 then Err(NoTariff) else Ok(done))
        else
          match Priced(days, basis.value.tiers)
          case Err(_) => Err(BadTiers)
          case Ok(cost) => Ok(done.(cost := cost, currency := basis.value.currency))
  }

  /**
   * The keys present in an edit. `particulars` stands for the keys without effect on the price (container
   * number, seal, shipment); `remark` for the reason and the notes, which settled charges still take.
   */
  datatype Patch = Patch(
    carrier: Option<Option<string>>, size: Option<string>, discharge: Option<Option<Moment>>,
    freeDays: Option<int>, status: Option<Status>, absorbed: Option<bool>, particulars: bool, remark: bool)

  predicate EditsTerms(p: Patch) {
    p.carrier.Some? || p.size.Some? || p.discharge.Some?
  }

  predicate EditsSettled(p: Patch) {
    EditsTerms(p) || p.freeDays.Some? || p.status.Some? || p.particulars
  }

  predicate EditsAnything(p: Patch) {
    EditsSettled(p) || p.absorbed.Some? || p.remark
  }

  /** The row with the keys of the edit written over it, before any repricing. */
  function Overwrite(row: Row, p: Patch): Row {
    row.(carrier := if p.carrier.Some? then p.carrier.value else row.carrier,
         size := if p.size.Some? then p.size.value else row.size,
         discharge := if p.discharge.None? then row.discharge
                      else match p.discharge.value case None => None case Some(m) => Some(LocalDay(m)),
         freeDays := if p.freeDays.Some? then p.freeDays.value else row.freeDays,
         status := if p.status.Some? then p.status.value else row.status,
         absorbed := if p.absorbed.Some? then p.absorbed.value else row.absorbed)
  }

  function EditRow(row: Row, p: Patch, tariffs: seq<Tariff>, now: int): Result<Row, Refusal> {
    if !FreeDaysAllowed(p.freeDays) then Err(BadInput)
    else if row.status != Active && EditsSettled(p) then Err(AlreadySettled)
    else
      var edited := Overwrite(row, p);
      if row.status != Active || edited.discharge.None? then Ok(edited)
      else
        match DaysBetween(At(StartOf(row, p)), At(now))
        case Err(_) => Err(BadDate)
        case Ok(total) => Reprice(edited.(cost := 0.0), total, EditBasis(row, p, tariffs))
  }

  /** The moment an edited charge counts its days from. */
  function StartOf(row: Row, p: Patch): int
    requires Overwrite(row, p).discharge.Some?
  {
    if p.discharge.Some? then p.discharge.value.value.ms else row.discharge.value * MS_PER_DAY
  }

  /** What an edit prices by: the pinned tariff unless terms are edited, otherwise the one now in force. */
  function EditBasis(row: Row, p: Patch, tariffs: seq<Tariff>): Option<Snapshot> {
    var edited := Overwrite(row, p);
    if !HasCarrier(edited) || edited.discharge.None? then None
    else if !EditsTerms(p) && row.snapshot.Some? then row.snapshot
    else Quoted(tariffs, edited.carrier, edited.size, DayOf(StartOf(row, p)))
  }

  // ----- The journal -----------------------------------------------------------------------------

  /** Exchange rates on a day, closed accounting periods, and the order the database returns the rows in. */
  datatype Books = Books(rate: (string, string, int) -> Option<real>, closed: int -> bool, order: seq<Id>)

  const EXPENSE := "5003"
  const RECEIVABLE := "1100"
  const PAYABLE := "2000"

  /** A direct rate into shillings, or else one by way of the dollar. */
  function ShillingRate(books: Books, currency: string, day: int): Option<real> {
    var direct := books.rate(currency, "TZS", day);
    if direct.Some? || currency == "USD" then direct
    else
      var usd, base := books.rate(currency, "USD", day), books.rate("USD", "TZS", day);
      if usd.Some? && base.Some? then Some(Times(usd.value, base.value)) else None
  }

  function Times(x: real, y: real): real {
    x * y
  }

  function LedgerAmount(cost: real, rate: real): real {
    RoundCents(Times(cost, rate))
  }

  function EntryDay(row: Row, now: int): int {
    if row.returned.Some? then row.returned.value else if row.gateOut.Some? then row.gateOut.value else DayOf(now)
  }

  function ChargeEntry(id: Id, row: Row, day: int, rate: real): Entry {
    var amount := LedgerAmount(row.cost, rate);
    Entry(id, day, rate,
          [Line(if row.absorbed then EXPENSE else RECEIVABLE, amount, 0.0), Line(PAYABLE, 0.0, amount)], false, None)
  }

  /** What posting does for one row: nothing, a new entry, or a refusal of the whole posting run. */
  function PostRow(id: Id, row: Row, frozen: bool, now: int, books: Books): Result<Option<Entry>, Refusal> {
    if frozen then Ok(None)
    else if row.status == Active && row.demurrageDays > 0 && row.snapshot.None? then Err(Unpriced)
    else if row.cost <= 0.0 || row.status == Waived then Ok(None)
    else
      var day := EntryDay(row, now);
      match ShillingRate(books, row.currency, day)
      case None => Err(NoExchangeRate)
      case Some(rate) =>
        if rate <= 0.0 then Err(NoExchangeRate)
        else if books.closed(day) then Err(PeriodClosed)
        else Ok(Some(ChargeEntry(id, row, day, rate)))
  }

  /** Rows are visited in the database's order; `posted` is the journal as it stood before the first of them. */
  function PostRows(s: State, posted: seq<Entry>, order: seq<Id>, now: int, books: Books): Result<State, Refusal>
    decreases |order|
  {
    if order == [] then Ok(s)
    else if order[0] !in s.rows then PostRows(s, posted, order[1..], now, books)
    else
      match PostRow(order[0], s.rows[order[0]], Frozen(posted, order[0]), now, books)
      case Err(e) => Err(e)
      case Ok(None) => PostRows(s, posted, order[1..], now, books)
      case Ok(Some(entry)) => PostRows(s.(journal := s.journal + [entry]), posted, order[1..], now, books)
  }

  ghost predicate DatabaseOrder(s: State, order: seq<Id>) {
    (forall i, j :: 0 <= i < j < |order| ==> order[i] != order[j]) && (forall id :: id in order <==> id in s.rows)
  }

  function Mirrored(lines: seq<Line>): (r: seq<Line>)
    ensures |r| == |lines|
  {
    seq(|lines|, i requires 0 <= i < |lines| => Line(lines[i].account, lines[i].credit, lines[i].debit))
  }

  /** Voiding keeps the entry, marks it, and adds its mirror image under the same source, itself not voided. */
  function Voided(journal: seq<Entry>, k: nat, today: int, closed: int -> bool): Result<seq<Entry>, Refusal> {
    if |journal| <= k then Err(NotFound)
    else if journal[k].voided then Err(AlreadyVoided)
    else if closed(today) then Err(PeriodClosed)
    else
      var e := journal[k];
      Ok(journal[k := e.(voided := true)] + [Entry(e.source, today, e.rate, Mirrored(e.lines), false, Some(k))])
  }
}
