/** Runs of service calls over the charge tables, and what holds after any of them. */
module ChargeRuns {
  import opened Outcomes
  import opened Tiers
  import opened Calendar
  import opened Charges

  datatype TariffEdit = TariffEdit(
    carrier: Option<string>, size: Option<string>, freeDays: Option<int>, tiers: Option<seq<RateTier>>,
    currency: Option<string>, active: Option<bool>)

  /** `Post` is the posting transaction alone; the refresh that precedes it is a call of its own. */
  datatype Call =
    | Refresh(now: int)
    | CreateTariff(tariffId: nat, terms: NewTariff, created: Moment)
    | EditTariff(tariffId: nat, change: TariffEdit)
    | DropTariff(tariffId: nat)
    | Add(id: Id, charge: NewCharge, now: int)
    | Return(id: Id, at: Option<Moment>)
    | Edit(id: Id, patch: Patch, now: int)
    | Delete(id: Id)
    | Post(now: int, books: Books)
    | Void(entry: nat, today: int, closed: int -> bool)

  // ----- One call --------------------------------------------------------------------------------

  /** Blank texts in an edit are skipped, as are absent ones. */
  function Kept(change: Option<string>, current: string): string {
    if change.Some? && change.value != "" then change.value else current
  }

  function ChangeTariff(t: Tariff, c: TariffEdit): Tariff {
    t.(carrier := Kept(c.carrier, t.carrier), size := Kept(c.size, t.size),
       currency := Kept(c.currency, t.currency), tiers := if c.tiers.Some? then c.tiers.value else t.tiers,
       active := if c.active.Some? then c.active.value else t.active)
  }

  function ChangeTariffs(ts: seq<Tariff>, id: nat, c: TariffEdit): (r: seq<Tariff>)
    ensures |r| == |ts|
    ensures forall i | 0 <= i < |ts| :: r[i] == if ts[i].id == id then ChangeTariff(ts[i], c) else ts[i]
  {
    if ts == [] then []
    else [if ts[0].id == id then ChangeTariff(ts[0], c) else ts[0]] + ChangeTariffs(ts[1..], id, c)
  }

  function WithoutTariff(ts: seq<Tariff>, id: nat): (r: seq<Tariff>)
    ensures forall t :: t in r <==> t in ts && t.id != id
  {
    if ts == [] then [] else (if ts[0].id == id then [] else [ts[0]]) + WithoutTariff(ts[1..], id)
  }

  function EditTariffs(s: State, id: nat, c: TariffEdit): Result<State, Refusal> {
    if !FreeDaysAllowed(c.freeDays) || !CurrencyAllowed(c.currency) then Err(BadInput)
    else if c.tiers.Some? && !Accepted(c.tiers.value) then Err(BadTiers)
    else if !exists t | t in s.tariffs :: t.id == id then Err(NotFound)
    else Ok(s.(tariffs := ChangeTariffs(s.tariffs, id, c)))
  }

  function AddTariff(s: State, id: nat, n: NewTariff, created: Moment): Result<State, Refusal> {
    match OpenTariff(id, n, created) case Err(e) => Err(e) case Ok(t) => Ok(s.(tariffs := s.tariffs + [t]))
  }

  function AddCharge(s: State, id: Id, c: NewCharge, now: int): Result<State, Refusal> {
    match OpenRow(c, s.tariffs, now)
    case Err(e) => Err(e)
    case Ok(row) => Ok(s.(rows := s.rows[id := row]))
  }

  function ReturnCharge(s: State, id: Id, at: Option<Moment>): Result<State, Refusal> {
    if Frozen(s.journal, id) then Err(AlreadyPosted)
    else if id !in s.rows then Err(NotFound)
    else
      match SettleRow(s.rows[id], s.tariffs, at)
      case Err(e) => Err(e)
      case Ok(row) => Ok(s.(rows := s.rows[id := row]))
  }

  function EditCharge(s: State, id: Id, p: Patch, now: int): Result<State, Refusal> {
    if !FreeDaysAllowed(p.freeDays) then Err(BadInput)
    else if id !in s.rows then Err(NotFound)
    else if EditsAnything(p) && Frozen(s.journal, id) then Err(AlreadyPosted)
    else
      match EditRow(s.rows[id], p, s.tariffs, now)
      case Err(e) => Err(e)
      case Ok(row) => Ok(s.(rows := s.rows[id := row]))
  }

  function DeleteCharge(s: State, id: Id): Result<State, Refusal> {
    if Frozen(s.journal, id) then Err(AlreadyPosted) else Ok(s.(rows := s.rows - {id}))
  }

  /** The transaction that posts: all unposted charges, or none if one is refused. */
  function PostUnposted(s: State, now: int, books: Books): Result<State, Refusal> {
    PostRows(s, s.journal, books.order, now, books)
  }

  function VoidEntry(s: State, k: nat, today: int, closed: int -> bool): Result<State, Refusal> {
    match Voided(s.journal, k, today, closed) case Err(e) => Err(e) case Ok(j) => Ok(s.(journal := j))
  }

  function Outcome(s: State, c: Call): Result<State, Refusal> {
    match c
    case Refresh(now) => Refreshed(s, now)
    case CreateTariff(id, n, created) => AddTariff(s, id, n, created)
    case EditTariff(id, change) => EditTariffs(s, id, change)
    case DropTariff(id) => Ok(s.(tariffs := WithoutTariff(s.tariffs, id)))
    case Add(id, charge, now) => AddCharge(s, id, charge, now)
    case Return(id, at) => ReturnCharge(s, id, at)
    case Edit(id, p, now) => EditCharge(s, id, p, now)
    case Delete(id) => DeleteCharge(s, id)
    case Post(now, books) => PostUnposted(s, now, books)
    case Void(k, today, closed) => VoidEntry(s, k, today, closed)
  }

  /** Why a call is refused, if it is. */
  function RefusalOf(s: State, c: Call): Option<Refusal> {
    match Outcome(s, c) case Ok(_) => None case Err(e) => Some(e)
  }

  function After(s: State, c: Call): State {
    match Outcome(s, c) case Ok(t) => t case Err(_) => s
  }

  /**
   * The posting service, when no call comes between its refresh and its posting: a failed posting keeps the
   * refresh.
   */
  function PostCharges(s: State, now: int, books: Books): (State, Option<Refusal>) {
    var refused, refreshed := RefusalOf(s, Refresh(now)), After(s, Refresh(now));
    if refused.Some? then (s, refused)
    else (After(refreshed, Post(now, books)), RefusalOf(refreshed, Post(now, books)))
  }

  /** What the database supplies: fresh row ids, and every row once when rows are listed. */
  ghost predicate Lawful(s: State, c: Call) {
    match c
    case Add(id, _, _) => id !in s.rows
    case Post(_, books) => DatabaseOrder(s, books.order)
    case _ => true
  }

  function Run(s: State, calls: seq<Call>): State
    decreases |calls|
  {
    if calls == [] then s else Run(After(s, calls[0]), calls[1..])
  }

  ghost predicate LawfulRun(s: State, calls: seq<Call>)
    decreases |calls|
  {
    calls == [] || (Lawful(s, calls[0]) && LawfulRun(After(s, calls[0]), calls[1..]))
  }

  // ----- The journal entries of one charge -------------------------------------------------------

  function EntriesOf(j: seq<Entry>, id: Id): seq<Entry> {
    if j == [] then []
    else EntriesOf(j[..|j| - 1], id) + if j[|j| - 1].source == id then [j[|j| - 1]] else []
  }

  lemma EntriesOfAppend(j: seq<Entry>, e: Entry, id: Id)
    ensures EntriesOf(j + [e], id) == EntriesOf(j, id) + if e.source == id then [e] else []
  {
    assert (j + [e])[..|j|] == j;
  }

  lemma {:induction false} EntriesOfMembers(j: seq<Entry>, id: Id, e: Entry)
    ensures e in EntriesOf(j, id) <==> e in j && e.source == id
  {
    if j != [] {
      EntriesOfMembers(j[..|j| - 1], id, e);
      assert j == j[..|j| - 1] + [j[|j| - 1]];
    }
  }

  /** Replacing entry k replaces one entry of its source and none of any other. */
  lemma {:induction false} EntriesOfReplace(j: seq<Entry>, k: nat, e: Entry, id: Id) returns (p: nat)
    requires k < |j| && e.source == j[k].source
    ensures j[k].source != id ==> EntriesOf(j[k := e], id) == EntriesOf(j, id)
    ensures j[k].source == id ==> p < |EntriesOf(j, id)| && EntriesOf(j, id)[p] == j[k]
                                  && EntriesOf(j[k := e], id) == EntriesOf(j, id)[p := e]
  {
    var init, last := j[..|j| - 1], j[|j| - 1];
    if k == |j| - 1 {
      assert j[k := e][..|j| - 1] == init;
      p := |EntriesOf(init, id)|;
    } else {
      p := EntriesOfReplace(init, k, e, id);
      assert j[k := e][..|j| - 1] == init[k := e];
    }
  }

  /** One posting, then reversals only; all but the last are voided. */
  ghost predicate Chain(q: seq<Entry>) {
    && (forall i | 0 <= i < |q| :: q[i].voided <==> i + 1 < |q|)
    && (forall i | 0 <= i < |q| :: q[i].reverses.None? <==> i == 0)
  }

  /**
   * The entries of a posted charge: first the posting, which agrees with the row as it still stands,
   * then for each void a mirror image of the entry before it.
   */
  ghost predicate Posted(q: seq<Entry>, id: Id, row: Row) {
    && q != []
    && Chain(q)
    && q[0].(voided := false) == ChargeEntry(id, row, q[0].day, q[0].rate)
    && (forall i | 0 < i < |q| :: q[i].lines == Mirrored(q[i - 1].lines))
  }

  ghost predicate SourceOk(s: State, id: Id) {
    EntriesOf(s.journal, id) != [] ==> id in s.rows && Posted(EntriesOf(s.journal, id), id, s.rows[id])
  }

  ghost predicate LedgerOk(s: State) {
    forall id :: SourceOk(s, id)
  }

  /** A charge is frozen exactly when the journal has ever had an entry for it, voided or not. */
  lemma FrozenIffEverPosted(s: State, id: Id)
    requires Chain(EntriesOf(s.journal, id))
    ensures Frozen(s.journal, id) <==> EntriesOf(s.journal, id) != []
  {
    var q := EntriesOf(s.journal, id);
    if q != [] {
      EntriesOfMembers(s.journal, id, q[|q| - 1]);
    }
    if Frozen(s.journal, id) {
      var e :| e in s.journal && e.source == id && !e.voided;
      EntriesOfMembers(s.journal, id, e);
    }
  }

  // ----- One call and the ledger -----------------------------------------------------------------

  /** A call that leaves the journal and every ever-posted row alone keeps the agreement. */
  lemma LedgerOkCarries(s: State, t: State)
    requires LedgerOk(s) && t.journal == s.journal
    requires forall id | id in s.rows && Frozen(s.journal, id) :: id in t.rows && t.rows[id] == s.rows[id]
    ensures LedgerOk(t)
  {
    forall id ensures SourceOk(t, id) {
      assert SourceOk(s, id);
      FrozenIffEverPosted(s, id);
    }
  }

  lemma {:induction false} PostRowsKeepLedger(s: State, posted: seq<Entry>, order: seq<Id>, now: int, books: Books)
    requires LedgerOk(s)
    requires forall i, j :: 0 <= i < j < |order| ==> order[i] != order[j]
    requires forall id | id in order :: Frozen(posted, id) <==> Frozen(s.journal, id)
    ensures var r := PostRows(s, posted, order, now, books);
            r.Ok? ==> LedgerOk(r.value) && r.value.rows == s.rows && r.value.tariffs == s.tariffs
    decreases |order|
  {
    if order != [] {
      assert forall i | 0 <= i < |order| - 1 :: order[1..][i] == order[i + 1];
      if order[0] !in s.rows {
        PostRowsKeepLedger(s, posted, order[1..], now, books);
      } else {
        var id := order[0];
        var r := PostRow(id, s.rows[id], Frozen(posted, id), now, books);
        if r == Ok(None) {
          PostRowsKeepLedger(s, posted, order[1..], now, books);
        } else if r.Ok? {
          var t := s.(journal := s.journal + [r.value.value]);
          assert !Frozen(s.journal, id);
          AppendKeepsLedger(s, id, r.value.value);
          forall other | other in order[1..] ensures Frozen(posted, other) <==> Frozen(t.journal, other) {
            assert other != id;
            AppendFreezes(s.journal, r.value.value, other);
          }
          PostRowsKeepLedger(t, posted, order[1..], now, books);
        }
      }
    }
  }

  lemma AppendFreezes(j: seq<Entry>, e: Entry, id: Id)
    requires e.source != id
    ensures Frozen(j + [e], id) <==> Frozen(j, id)
  {
    forall x | x in j + [e] && x.source == id ensures x in j { }
    forall x | x in j ensures x in j + [e] { }
  }

  lemma AppendKeepsLedger(s: State, id: Id, e: Entry)
    requires LedgerOk(s) && id in s.rows && !Frozen(s.journal, id)
    requires e == ChargeEntry(id, s.rows[id], e.day, e.rate)
    ensures LedgerOk(s.(journal := s.journal + [e]))
  {
    forall other ensures SourceOk(s.(journal := s.journal + [e]), other) {
      assert SourceOk(s, other);
      FrozenIffEverPosted(s, other);
      EntriesOfAppend(s.journal, e, other);
    }
  }

  lemma VoidKeepsSource(s: State, k: nat, today: int, closed: int -> bool, id: Id)
    requires VoidEntry(s, k, today, closed).Ok? && SourceOk(s, id)
    ensures SourceOk(VoidEntry(s, k, today, closed).value, id)
  {
    var e := s.journal[k];
    var mirror := Entry(e.source, today, e.rate, Mirrored(e.lines), false, Some(k));
    var p := EntriesOfReplace(s.journal, k, e.(voided := true), id);
    EntriesOfAppend(s.journal[k := e.(voided := true)], mirror, id);
    if e.source == id {
      var q := EntriesOf(s.journal, id);
      assert q[p] == e && p == |q| - 1;
      VoidedChain(q, id, s.rows[id], mirror);
    }
  }

  lemma VoidKeepsLedger(s: State, k: nat, today: int, closed: int -> bool)
    requires LedgerOk(s)
    ensures var r := VoidEntry(s, k, today, closed); r.Ok? ==> LedgerOk(r.value)
  {
    if VoidEntry(s, k, today, closed).Ok? {
      forall id ensures SourceOk(VoidEntry(s, k, today, closed).value, id) {
        assert SourceOk(s, id);
        VoidKeepsSource(s, k, today, closed, id);
      }
    }
  }

  lemma VoidedChain(q: seq<Entry>, id: Id, row: Row, mirror: Entry)
    requires Posted(q, id, row)
    requires !mirror.voided && mirror.reverses.Some? && mirror.lines == Mirrored(q[|q| - 1].lines)
    ensures Posted(q[|q| - 1 := q[|q| - 1].(voided := true)] + [mirror], id, row)
  {
  }

  lemma {:induction false} PostRowsOnlyAppend(s: State, posted: seq<Entry>, order: seq<Id>, now: int, books: Books)
    ensures var r := PostRows(s, posted, order, now, books);
            r.Ok? ==> s.journal <= r.value.journal && forall id :: Frozen(s.journal, id) ==> Frozen(r.value.journal, id)
    decreases |order|
  {
    if order != [] {
      if order[0] !in s.rows {
        PostRowsOnlyAppend(s, posted, order[1..], now, books);
      } else {
        var r := PostRow(order[0], s.rows[order[0]], Frozen(posted, order[0]), now, books);
        if r == Ok(None) {
          PostRowsOnlyAppend(s, posted, order[1..], now, books);
        } else if r.Ok? {
          var t := s.(journal := s.journal + [r.value.value]);
          PostRowsOnlyAppend(t, posted, order[1..], now, books);
          assert forall e | e in s.journal :: e in t.journal;
        }
      }
    }
  }

  // ----- Ledger agreement over whole runs --------------------------------------------------------

  const NO_KEYS := Patch(None, None, None, None, None, None, false, false)

  /**
   * The cost that an edit without keys writes, if it is not refused: none without a carrier or a tariff, the
   * pinned tariff's up to now, or what was there, off the clock.
   */
  function KeylessCost(row: Row, tariffs: seq<Tariff>, now: int): Option<real> {
    if row.status != Active || row.discharge.None? then Some(row.cost)
    else if now < row.discharge.value * MS_PER_DAY then None
    else if !HasCarrier(row) || Basis(row, tariffs).None? then Some(0.0)
    else
      var days := Chargeable(Elapsed(row.discharge.value, now).value, row.freeDays);
      match Priced(days, Basis(row, tariffs).value.tiers) case Ok(cost) => Some(cost) case Err(_) => None
  }

  lemma KeylessBasis(row: Row, tariffs: seq<Tariff>)
    requires row.discharge.Some?
    ensures Overwrite(row, NO_KEYS) == row && StartOf(row, NO_KEYS) == row.discharge.value * MS_PER_DAY
    ensures EditBasis(row, NO_KEYS, tariffs) == if HasCarrier(row) then Basis(row, tariffs) else None
  {
    assert Overwrite(row, NO_KEYS) == row;
    assert DayOf(row.discharge.value * MS_PER_DAY) == row.discharge.value;
  }

  lemma KeylessOnClock(row: Row, tariffs: seq<Tariff>, now: int)
    requires row.status == Active && row.discharge.Some?
    ensures EditRow(row, NO_KEYS, tariffs, now) ==
            if now < row.discharge.value * MS_PER_DAY then Err(BadDate)
            else Reprice(row.(cost := 0.0), Elapsed(row.discharge.value, now).value,
                         if HasCarrier(row) then Basis(row, tariffs) else None)
  {
    KeylessBasis(row, tariffs);
  }

  lemma KeylessEditWrites(row: Row, tariffs: seq<Tariff>, now: int)
    ensures var r := EditRow(row, NO_KEYS, tariffs, now);
            && (r.Ok? <==> KeylessCost(row, tariffs, now).Some?)
            && (r.Ok? ==> Some(r.value.cost) == KeylessCost(row, tariffs, now) && r.value.absorbed == row.absorbed)
  {
    if row.status == Active && row.discharge.Some? {
      KeylessOnClock(row, tariffs, now);
    } else {
      assert Overwrite(row, NO_KEYS) == row;
    }
  }

  /** The call is no edit without keys of a posted charge, or one whose cost posts to the posted amount. */
  ghost predicate KeepsAmount(s: State, c: Call) {
    c.Edit? && KeylessEdit(c, c.id) && c.id in s.rows && Frozen(s.journal, c.id) ==>
      var row, q := s.rows[c.id], EntriesOf(s.journal, c.id);
      var cost := KeylessCost(row, s.tariffs, c.now);
      cost.Some? && q != [] ==> LedgerAmount(cost.value, q[0].rate) == LedgerAmount(row.cost, q[0].rate)
  }

  /** Writing another cost over a posted row keeps the ledger sound exactly when it posts to the same amount. */
  lemma OverwrittenPostedRow(s: State, id: Id, row: Row)
    requires LedgerOk(s) && Frozen(s.journal, id) && id in s.rows && row.absorbed == s.rows[id].absorbed
    ensures EntriesOf(s.journal, id) != []
    ensures LedgerOk(s.(rows := s.rows[id := row])) <==>
            var rate := EntriesOf(s.journal, id)[0].rate;
            LedgerAmount(row.cost, rate) == LedgerAmount(s.rows[id].cost, rate)
  {
    var t := s.(rows := s.rows[id := row]);
    assert SourceOk(s, id);
    FrozenIffEverPosted(s, id);
    var q := EntriesOf(s.journal, id);
    var day, rate := q[0].day, q[0].rate;
    assert ChargeEntry(id, s.rows[id], day, rate).lines[1].credit == LedgerAmount(s.rows[id].cost, rate);
    assert ChargeEntry(id, row, day, rate).lines[1].credit == LedgerAmount(row.cost, rate);
    if LedgerAmount(row.cost, rate) == LedgerAmount(s.rows[id].cost, rate) {
      assert ChargeEntry(id, row, day, rate) == ChargeEntry(id, s.rows[id], day, rate);
      forall other ensures SourceOk(t, other) {
        assert SourceOk(s, other);
      }
    } else {
      assert ChargeEntry(id, row, day, rate) != ChargeEntry(id, s.rows[id], day, rate);
      assert !SourceOk(t, id);
    }
  }

  lemma EmptyEditAfter(s: State, id: Id, now: int)
    requires id in s.rows
    ensures var r := EditRow(s.rows[id], NO_KEYS, s.tariffs, now);
            After(s, Edit(id, NO_KEYS, now)) == s.(rows := s.rows[id := if r.Ok? then r.value else s.rows[id]])
  {
    assert s.rows[id := s.rows[id]] == s.rows;
    assert !EditsAnything(NO_KEYS);
  }

  /**
   * An edit without keys reprices a posted charge. The ledger then still agrees exactly when the new cost posts
   * to the same amount.
   */
  lemma EmptyEditReprices(s: State, id: Id, now: int)
    requires LedgerOk(s) && Frozen(s.journal, id) && id in s.rows
    ensures EntriesOf(s.journal, id) != []
    ensures var row, t, cost := s.rows[id], After(s, Edit(id, NO_KEYS, now)), KeylessCost(s.rows[id], s.tariffs, now);
            && t.journal == s.journal && id in t.rows && t.rows[id].cost == cost.GetOr(row.cost)
            && (LedgerOk(t) <==>
                  var rate := EntriesOf(s.journal, id)[0].rate;
                  LedgerAmount(cost.GetOr(row.cost), rate) == LedgerAmount(row.cost, rate))
  {
    var row := s.rows[id];
    KeylessEditWrites(row, s.tariffs, now);
    var r := EditRow(row, NO_KEYS, s.tariffs, now);
    EmptyEditAfter(s, id, now);
    OverwrittenPostedRow(s, id, if r.Ok? then r.value else row);
  }

  /** A call breaks the agreement exactly when it is an edit without keys that reprices a posted charge. */
  lemma CallKeepsLedger(s: State, c: Call)
    requires LedgerOk(s) && Lawful(s, c)
    ensures LedgerOk(After(s, c)) <==> KeepsAmount(s, c)
  {
    forall id | Frozen(s.journal, id) ensures id in s.rows {
      assert SourceOk(s, id);
      FrozenIffEverPosted(s, id);
    }
    match c
    case Void(k, today, closed) => VoidKeepsLedger(s, k, today, closed);
    case Post(now, books) => PostRowsKeepLedger(s, s.journal, books.order, now, books);
    case Edit(id, p, now) =>
      if KeylessEdit(c, id) && Frozen(s.journal, id) {
        assert p == NO_KEYS;
        EmptyEditReprices(s, id, now);
      } else {
        LedgerOkCarries(s, After(s, c));
      }
    case _ => LedgerOkCarries(s, After(s, c));
  }

  /** The ledger agrees now and after each call of the run. */
  ghost predicate AgreesThroughout(s: State, calls: seq<Call>)
    decreases |calls|
  {
    LedgerOk(s) && (calls == [] || AgreesThroughout(After(s, calls[0]), calls[1..]))
  }

  ghost predicate KeepsAmounts(s: State, calls: seq<Call>)
    decreases |calls|
  {
    calls == [] || (KeepsAmount(s, calls[0]) && KeepsAmounts(After(s, calls[0]), calls[1..]))
  }

  /**
   * Over any run, posted charges and their entries agree at every moment exactly when no edit without keys
   * changes the amount of a posted charge.
   */
  lemma {:induction false} RunKeepsLedger(s: State, calls: seq<Call>)
    requires LedgerOk(s) && LawfulRun(s, calls)
    ensures AgreesThroughout(s, calls) <==> KeepsAmounts(s, calls)
    ensures KeepsAmounts(s, calls) ==> LedgerOk(Run(s, calls))
    decreases |calls|
  {
    if calls != [] {
      CallKeepsLedger(s, calls[0]);
      if KeepsAmount(s, calls[0]) {
        RunKeepsLedger(After(s, calls[0]), calls[1..]);
      } else {
        assert !AgreesThroughout(After(s, calls[0]), calls[1..]);
      }
    }
  }

  // ----- No charge is posted twice ---------------------------------------------------------------

  ghost predicate PostedOnce(s: State) {
    forall id :: Chain(EntriesOf(s.journal, id))
  }

  lemma VoidKeepsPostedOnce(s: State, k: nat, today: int, closed: int -> bool)
    requires PostedOnce(s)
    ensures var r := VoidEntry(s, k, today, closed); r.Ok? ==> PostedOnce(r.value)
  {
    var r := VoidEntry(s, k, today, closed);
    if r.Ok? {
      var e := s.journal[k];
      var mirror := Entry(e.source, today, e.rate, Mirrored(e.lines), false, Some(k));
      forall id ensures Chain(EntriesOf(r.value.journal, id)) {
        var q := EntriesOf(s.journal, id);
        assert Chain(q);
        var p := EntriesOfReplace(s.journal, k, e.(voided := true), id);
        EntriesOfAppend(s.journal[k := e.(voided := true)], mirror, id);
        assert e.source == id ==> q[p] == e && p == |q| - 1;
      }
    }
  }

  lemma AppendKeepsPostedOnce(s: State, e: Entry)
    requires PostedOnce(s) && !Frozen(s.journal, e.source) && !e.voided && e.reverses.None?
    ensures PostedOnce(s.(journal := s.journal + [e]))
  {
    forall id ensures Chain(EntriesOf(s.journal + [e], id)) {
      assert Chain(EntriesOf(s.journal, id));
      FrozenIffEverPosted(s, id);
      EntriesOfAppend(s.journal, e, id);
    }
  }

  lemma {:induction false} PostRowsKeepPostedOnce(s: State, posted: seq<Entry>, order: seq<Id>, now: int, books: Books)
    requires PostedOnce(s)
    requires forall i, j :: 0 <= i < j < |order| ==> order[i] != order[j]
    requires forall id | id in order :: Frozen(posted, id) <==> Frozen(s.journal, id)
    ensures var r := PostRows(s, posted, order, now, books); r.Ok? ==> PostedOnce(r.value)
    decreases |order|
  {
    if order != [] {
      assert forall i | 0 <= i < |order| - 1 :: order[1..][i] == order[i + 1];
      var id, t := order[0], s;
      if id in s.rows {
        var r := PostRow(id, s.rows[id], Frozen(posted, id), now, books);
        if r.Ok? && r.value.Some? {
          t := s.(journal := s.journal + [r.value.value]);
          AppendKeepsPostedOnce(s, r.value.value);
          forall other | other in order[1..] ensures Frozen(posted, other) <==> Frozen(t.journal, other) {
            AppendFreezes(s.journal, r.value.value, other);
          }
        }
      }
      PostRowsKeepPostedOnce(t, posted, order[1..], now, books);
    }
  }

  lemma CallKeepsPostedOnce(s: State, c: Call)
    requires PostedOnce(s) && Lawful(s, c)
    ensures PostedOnce(After(s, c))
  {
    match c
    case Void(k, today, closed) => VoidKeepsPostedOnce(s, k, today, closed);
    case Post(now, books) => PostRowsKeepPostedOnce(s, s.journal, books.order, now, books);
    case _ => assert After(s, c).journal == s.journal;
  }

  lemma {:induction false} RunKeepsPostedOnce(s: State, calls: seq<Call>)
    requires PostedOnce(s) && LawfulRun(s, calls)
    ensures PostedOnce(Run(s, calls))
    decreases |calls|
  {
    if calls != [] {
      CallKeepsPostedOnce(s, calls[0]);
      RunKeepsPostedOnce(After(s, calls[0]), calls[1..]);
    }
  }

  /**
   * Over any run at all, edits without keys included, a charge is posted at most once: every entry
   * after its first reverses another, and only the last of them is not voided.
   */
  lemma PostedAtMostOnce(s: State, calls: seq<Call>, id: Id)
    requires PostedOnce(s) && LawfulRun(s, calls)
    ensures var q := EntriesOf(Run(s, calls).journal, id);
            forall i | 0 <= i < |q| :: (q[i].reverses.None? <==> i == 0) && (q[i].voided <==> i + 1 < |q|)
  {
    RunKeepsPostedOnce(s, calls);
    assert Chain(EntriesOf(Run(s, calls).journal, id));
  }

  // ----- A posted charge stays posted ------------------------------------------------------------

  /** An edit with no keys at all passes by the look for a journal entry. */
  predicate KeylessEdit(c: Call, id: Id) {
    c.Edit? && c.id == id && !EditsAnything(c.patch)
  }

  lemma VoidKeepsFrozen(s: State, k: nat, today: int, closed: int -> bool, id: Id)
    requires Frozen(s.journal, id)
    ensures Frozen(After(s, Void(k, today, closed)).journal, id)
  {
    var t := After(s, Void(k, today, closed));
    if VoidEntry(s, k, today, closed).Ok? {
      var e :| e in s.journal && e.source == id && !e.voided;
      var i :| 0 <= i < |s.journal| && s.journal[i] == e;
      assert t.journal[if i == k then |s.journal| else i] in t.journal;
    }
  }

  lemma CallKeepsPosted(s: State, c: Call, id: Id)
    requires Frozen(s.journal, id) && Lawful(s, c)
    ensures Frozen(After(s, c).journal, id) && (id in s.rows ==> id in After(s, c).rows)
    ensures id in s.rows && !KeylessEdit(c, id) ==> After(s, c).rows[id] == s.rows[id]
  {
    match c
    case Void(k, today, closed) => VoidKeepsFrozen(s, k, today, closed, id);
    case Post(now, books) =>
      PostRowsOnlyAppend(s, s.journal, books.order, now, books);
      PostRowsRows(s, s.journal, books.order, now, books);
    case _ =>
  }

  lemma {:induction false} RunKeepsPosted(s: State, calls: seq<Call>, id: Id)
    requires Frozen(s.journal, id) && LawfulRun(s, calls)
    ensures Frozen(Run(s, calls).journal, id) && (id in s.rows ==> id in Run(s, calls).rows)
    ensures id in s.rows && (forall c | c in calls :: !KeylessEdit(c, id)) ==> Run(s, calls).rows[id] == s.rows[id]
    decreases |calls|
  {
    if calls != [] {
      assert calls[0] in calls && forall c | c in calls[1..] :: c in calls;
      CallKeepsPosted(s, calls[0], id);
      RunKeepsPosted(After(s, calls[0]), calls[1..], id);
    }
  }

  lemma EverPostedIsFrozen(s: State, id: Id, e: Entry)
    requires PostedOnce(s) && e in s.journal && e.source == id
    ensures Frozen(s.journal, id)
  {
    assert Chain(EntriesOf(s.journal, id));
    EntriesOfMembers(s.journal, id, e);
    FrozenIffEverPosted(s, id);
  }

  /**
   * A charge once posted is frozen for good. Whatever follows, voids and edits without keys included, it takes
   * no return, deletion or edit that names a key, and only edits without keys change its row.
   */
  lemma VoidDoesNotReopen(s: State, calls: seq<Call>, id: Id, e: Entry)
    requires PostedOnce(s) && LawfulRun(s, calls) && e in s.journal && e.source == id
    ensures var t := Run(s, calls);
            && (forall at :: ReturnCharge(t, id, at) == Err(AlreadyPosted))
            && DeleteCharge(t, id) == Err(AlreadyPosted)
            && (forall p, now | EditsAnything(p) && FreeDaysAllowed(p.freeDays) && id in t.rows ::
                  EditCharge(t, id, p, now) == Err(AlreadyPosted))
            && (id in s.rows ==> id in t.rows)
            && (id in s.rows && (forall c | c in calls :: !KeylessEdit(c, id)) ==> t.rows[id] == s.rows[id])
  {
    EverPostedIsFrozen(s, id, e);
    RunKeepsPosted(s, calls, id);
  }

  /** After any run, a return is turned away as posted exactly when any entry was ever made for the charge. */
  lemma ReturnRefusedIffEverPosted(s: State, calls: seq<Call>, id: Id, at: Option<Moment>)
    requires PostedOnce(s) && LawfulRun(s, calls)
    ensures var t := Run(s, calls);
            ReturnCharge(t, id, at) == Err(AlreadyPosted) <==> exists e :: e in t.journal && e.source == id
  {
    RunKeepsPostedOnce(s, calls);
    FrozenIffAnyEntry(Run(s, calls), id);
    ReturnRefusedIffFrozen(Run(s, calls), id, at);
  }

  lemma ReturnRefusedIffFrozen(s: State, id: Id, at: Option<Moment>)
    ensures ReturnCharge(s, id, at) == Err(AlreadyPosted) <==> Frozen(s.journal, id)
  {
  }

  lemma FrozenIffAnyEntry(s: State, id: Id)
    requires PostedOnce(s)
    ensures Frozen(s.journal, id) <==> exists e :: e in s.journal && e.source == id
  {
    if e :| e in s.journal && e.source == id {
      EverPostedIsFrozen(s, id, e);
    }
  }

  // ----- What a posting completes ----------------------------------------------------------------

  predicate Billable(row: Row) {
    row.cost > 0.0 && row.status != Waived
  }

  lemma {:induction false} PostRowsPostBillable(s: State, posted: seq<Entry>, order: seq<Id>, now: int,
                                                books: Books, id: Id)
    requires forall i, j :: 0 <= i < j < |order| ==> order[i] != order[j]
    requires id in s.rows && (id in order ==> (Frozen(posted, id) <==> Frozen(s.journal, id)))
    ensures var r := PostRows(s, posted, order, now, books);
            r.Ok? ==> (Frozen(r.value.journal, id) <==> Frozen(s.journal, id) || (id in order && Billable(s.rows[id])))
    decreases |order|
  {
    if order != [] {
      assert forall i | 0 <= i < |order| - 1 :: order[1..][i] == order[i + 1];
      assert id in order <==> id == order[0] || id in order[1..];
      var t := s;
      if order[0] in s.rows {
        var r := PostRow(order[0], s.rows[order[0]], Frozen(posted, order[0]), now, books);
        if r.Ok? && r.value.Some? {
          t := s.(journal := s.journal + [r.value.value]);
          if order[0] == id {
            assert r.value.value in t.journal;
          } else {
            AppendFreezes(s.journal, r.value.value, id);
          }
        }
      }
      PostRowsPostBillable(t, posted, order[1..], now, books, id);
    }
  }

  /** A posting that succeeds leaves in the journal what was there and every billable charge, and nothing else. */
  lemma PostingIsComplete(s: State, now: int, books: Books, id: Id)
    requires DatabaseOrder(s, books.order) && id in s.rows && PostUnposted(s, now, books).Ok?
    ensures var t := PostUnposted(s, now, books).value;
            t.rows == s.rows && (Frozen(t.journal, id) <==> Frozen(s.journal, id) || Billable(s.rows[id]))
  {
    PostRowsPostBillable(s, s.journal, books.order, now, books, id);
    PostRowsRows(s, s.journal, books.order, now, books);
  }

  lemma {:induction false} PostRowsRows(s: State, posted: seq<Entry>, order: seq<Id>, now: int, books: Books)
    ensures var r := PostRows(s, posted, order, now, books);
            r.Ok? ==> r.value.rows == s.rows && r.value.tariffs == s.tariffs
    decreases |order|
  {
    if order != [] {
      var t := s;
      if order[0] in s.rows {
        var r := PostRow(order[0], s.rows[order[0]], Frozen(posted, order[0]), now, books);
        if r.Ok? && r.value.Some? {
          t := s.(journal := s.journal + [r.value.value]);
        }
      }
      PostRowsRows(t, posted, order[1..], now, books);
    }
  }

  // ----- What the ledger adds up to --------------------------------------------------------------

  function LineNet(lines: seq<Line>, account: string): real {
    if lines == [] then 0.0
    else (if lines[0].account == account then lines[0].debit - lines[0].credit else 0.0) + LineNet(lines[1..], account)
  }

  /** Debits less credits on an account, voided entries included: they stay in the trial balance. */
  function Net(q: seq<Entry>, account: string): real {
    if q == [] then 0.0 else Net(q[..|q| - 1], account) + LineNet(q[|q| - 1].lines, account)
  }

  lemma {:induction false} MirrorCancels(lines: seq<Line>, account: string)
    ensures LineNet(Mirrored(lines), account) == -LineNet(lines, account)
  {
    if lines != [] {
      MirrorCancels(lines[1..], account);
      assert Mirrored(lines)[1..] == Mirrored(lines[1..]);
    }
  }

  lemma {:induction false} ChainNet(q: seq<Entry>, account: string)
    requires q != [] && forall i | 0 < i < |q| :: q[i].lines == Mirrored(q[i - 1].lines)
    ensures LineNet(q[|q| - 1].lines, account)
            == if |q| % 2 == 1 then LineNet(q[0].lines, account) else -LineNet(q[0].lines, account)
    ensures Net(q, account) == if |q| % 2 == 1 then LineNet(q[0].lines, account) else 0.0
  {
    if |q| > 1 {
      var init := q[..|q| - 1];
      ChainNet(init, account);
      MirrorCancels(init[|init| - 1].lines, account);
    } else {
      assert q[..0] == [];
    }
  }

  lemma PostingNet(id: Id, row: Row, day: int, rate: real, account: string)
    ensures LineNet(ChargeEntry(id, row, day, rate).lines, account) ==
            BookedOn(row, rate, account)
  {
    TwoLines(ChargeEntry(id, row, day, rate).lines, account);
  }

  lemma TwoLines(lines: seq<Line>, account: string)
    requires |lines| == 2
    ensures LineNet(lines, account) == (if lines[0].account == account then lines[0].debit - lines[0].credit else 0.0)
                                       + if lines[1].account == account then lines[1].debit - lines[1].credit else 0.0
  {
    assert lines[1..][0] == lines[1] && lines[1..][1..] == [];
    assert LineNet(lines[1..][1..], account) == 0.0;
  }

  /** What a posted charge puts on an account. */
  function BookedOn(row: Row, rate: real, account: string): real {
    (if account == (if row.absorbed then EXPENSE else RECEIVABLE) then LedgerAmount(row.cost, rate) else 0.0)
    - (if account == PAYABLE then LedgerAmount(row.cost, rate) else 0.0)
  }

  lemma NetOfPosted(s: State, id: Id, account: string)
    requires LedgerOk(s) && Frozen(s.journal, id)
    ensures id in s.rows && EntriesOf(s.journal, id) != []
    ensures var q := EntriesOf(s.journal, id);
            Net(q, account) == if |q| % 2 == 1 then BookedOn(s.rows[id], q[0].rate, account) else 0.0
  {
    assert SourceOk(s, id);
    FrozenIffEverPosted(s, id);
    var row, q := s.rows[id], EntriesOf(s.journal, id);
    assert q[0].lines == ChargeEntry(id, row, q[0].day, q[0].rate).lines;
    PostingNet(id, row, q[0].day, q[0].rate, account);
    ChainNet(q, account);
  }
}
