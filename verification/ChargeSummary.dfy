/** The dashboard's totals: amounts of different currencies are kept apart, never added together. */
module ChargeSummary {
  import opened Outcomes
  import opened Calendar
  import opened Charges
  import opened ChargeRuns
  import opened ChargeHistory

  datatype Summary = Summary(
    unpriced: nat, total: Option<real>, currency: Option<string>, byCurrency: map<string, real>)

  /** The currencies that occur, each once, in the order of their first rows. */
  function Currencies(rows: seq<Row>): (cs: seq<string>)
    ensures forall c :: c in cs <==> exists row :: row in rows && row.currency == c
    ensures forall i, j | 0 <= i < j < |cs| :: cs[i] != cs[j]
  {
    if rows == [] then []
    else
      var before, last := Currencies(rows[..|rows| - 1]), rows[|rows| - 1];
      assert rows == rows[..|rows| - 1] + [last];
      assert forall row :: row in rows <==> row in rows[..|rows| - 1] || row == last;
      if last.currency in before then before else before + [last.currency]
  }

  function Total(rows: seq<Row>): real {
    if rows == [] then 0.0 else Total(rows[..|rows| - 1]) + rows[|rows| - 1].cost
  }

  function InCurrency(rows: seq<Row>, c: string): seq<Row> {
    if rows == [] then []
    else InCurrency(rows[..|rows| - 1], c) + if rows[|rows| - 1].currency == c then [rows[|rows| - 1]] else []
  }

  /** An active charge with days owed and no tariff to price them by. */
  predicate LacksPrice(row: Row) {
    row.status == Active && row.demurrageDays > 0 && row.snapshot.None?
  }

  function Unpriced(rows: seq<Row>): nat {
    if rows == [] then 0 else Unpriced(rows[..|rows| - 1]) + if LacksPrice(rows[|rows| - 1]) then 1 else 0
  }

  function Summarised(rows: seq<Row>): Summary {
    var cs := Currencies(rows);
    Summary(Unpriced(rows),
            if |cs| <= 1 then Some(Total(rows)) else None,
            if |cs| == 1 then Some(cs[0]) else None,
            map c | c in cs :: Total(InCurrency(rows, c)))
  }

  /** The grouped totals, added up over a list of currencies. */
  function Grouped(rows: seq<Row>, cs: seq<string>): real {
    if cs == [] then 0.0 else Total(InCurrency(rows, cs[0])) + Grouped(rows, cs[1..])
  }

  lemma {:induction false} OneMoreRow(rows: seq<Row>, row: Row, cs: seq<string>)
    requires forall i, j | 0 <= i < j < |cs| :: cs[i] != cs[j]
    ensures Grouped(rows + [row], cs) == Grouped(rows, cs) + if row.currency in cs then row.cost else 0.0
  {
    if cs != [] {
      OneMoreRow(rows, row, cs[1..]);
      assert (rows + [row])[..|rows|] == rows;
      var group := InCurrency(rows, cs[0]);
      assert InCurrency(rows + [row], cs[0]) == group + if row.currency == cs[0] then [row] else [];
      assert (group + [row])[..|group|] == group;
      assert group + [] == group;
      assert row.currency in cs <==> row.currency == cs[0] || row.currency in cs[1..];
    }
  }

  lemma {:induction false} NoRowsOf(rows: seq<Row>, c: string)
    requires forall row | row in rows :: row.currency != c
    ensures InCurrency(rows, c) == []
  {
    if rows != [] {
      var init := rows[..|rows| - 1];
      assert rows[|rows| - 1] in rows && forall row | row in init :: row in rows;
      NoRowsOf(init, c);
    }
  }

  lemma {:induction false} GroupedAppend(rows: seq<Row>, cs: seq<string>, c: string)
    ensures Grouped(rows, cs + [c]) == Grouped(rows, cs) + Total(InCurrency(rows, c))
  {
    if cs == [] {
      assert [c][1..] == [];
      assert [] + [c] == [c];
    } else {
      GroupedAppend(rows, cs[1..], c);
      assert (cs + [c])[1..] == cs[1..] + [c];
    }
  }

  lemma {:induction false} GroupsConserve(rows: seq<Row>)
    ensures Grouped(rows, Currencies(rows)) == Total(rows)
  {
    if rows != [] {
      var init, last := rows[..|rows| - 1], rows[|rows| - 1];
      GroupsConserve(init);
      assert rows == init + [last];
      OneMoreRow(init, last, Currencies(init));
      if last.currency !in Currencies(init) {
        NoRowsOf(init, last.currency);
        GroupedAppend(rows, Currencies(init), last.currency);
        assert InCurrency(rows, last.currency) == [last];
        assert [last][..0] == [];
      }
    }
  }

  lemma OneCurrency(rows: seq<Row>)
    ensures |Currencies(rows)| <= 1 <==> forall a, b | a in rows && b in rows :: a.currency == b.currency
    ensures |Currencies(rows)| == 0 <==> rows == []
  {
    var cs := Currencies(rows);
    assert forall row | row in rows :: row.currency in cs;
    if |cs| > 1 {
      assert cs[0] in cs && cs[1] in cs;
    }
    if rows != [] {
      assert rows[0] in rows;
    }
  }

  /** Totals add up: of nothing, of one charge, and of two lists put together. */
  lemma {:induction false} TotalAdds(a: seq<Row>, b: seq<Row>, row: Row)
    ensures Total([]) == 0.0 && Total([row]) == row.cost && Total(a + b) == Total(a) + Total(b)
  {
    assert [row][..0] == [];
    if b == [] {
      assert a + b == a;
    } else {
      assert (a + b)[..|a + b| - 1] == a + b[..|b| - 1];
      TotalAdds(a, b[..|b| - 1], row);
    }
  }

  /** The amount charged in one currency, row by row. */
  function AmountIn(rows: seq<Row>, currency: string): real {
    if rows == [] then 0.0
    else (if rows[0].currency == currency then rows[0].cost else 0.0) + AmountIn(rows[1..], currency)
  }

  lemma {:induction false} AmountOfOneMore(rows: seq<Row>, row: Row, currency: string)
    ensures AmountIn(rows + [row], currency)
            == AmountIn(rows, currency) + if row.currency == currency then row.cost else 0.0
  {
    if rows == [] {
      assert [] + [row] == [row] && [row][1..] == [];
    } else {
      assert (rows + [row])[0] == rows[0] && (rows + [row])[1..] == rows[1..] + [row];
      AmountOfOneMore(rows[1..], row, currency);
    }
  }

  /** Each currency is shown with what the charges in it come to. */
  lemma {:induction false} GroupIsAmount(rows: seq<Row>, currency: string)
    ensures Total(InCurrency(rows, currency)) == AmountIn(rows, currency)
  {
    if rows != [] {
      var init, last := rows[..|rows| - 1], rows[|rows| - 1];
      GroupIsAmount(init, currency);
      AmountOfOneMore(init, last, currency);
      assert rows == init + [last];
      var group := InCurrency(init, currency);
      assert group + [] == group;
      TotalAdds(group, [last], last);
    }
  }

  /** The places of the active charges that owe days and have no pin. */
  ghost function PlacesUnpriced(rows: seq<Row>): set<int> {
    set i | 0 <= i < |rows| && rows[i].status == Active && rows[i].demurrageDays > 0 && rows[i].snapshot.None?
  }

  lemma OneMorePlace(rows: seq<Row>, row: Row)
    ensures PlacesUnpriced(rows + [row])
            == PlacesUnpriced(rows) + if LacksPrice(row) then {|rows|} else {}
  {
    assert forall i | 0 <= i < |rows| :: (rows + [row])[i] == rows[i];
  }

  lemma {:induction false} UnpricedIsCount(rows: seq<Row>)
    ensures Summarised(rows).unpriced == |PlacesUnpriced(rows)|
  {
    if rows != [] {
      var init, last := rows[..|rows| - 1], rows[|rows| - 1];
      UnpricedIsCount(init);
      assert rows == init + [last];
      OneMorePlace(init, last);
      assert |init| !in PlacesUnpriced(init);
    }
  }

  /**
   * Grouping conserves money: the totals per currency add up to the total of all rows. One total is shown
   * exactly when no two rows differ in currency, and it is shown with that currency.
   */
  lemma SummaryConserves(rows: seq<Row>)
    ensures Grouped(rows, Currencies(rows)) == Total(rows)
    ensures forall c :: c in Summarised(rows).byCurrency <==> exists row :: row in rows && row.currency == c
    ensures forall c | c in Summarised(rows).byCurrency :: Summarised(rows).byCurrency[c] == AmountIn(rows, c)
    ensures Summarised(rows).total.Some? <==> forall a, b | a in rows && b in rows :: a.currency == b.currency
    ensures Summarised(rows).total.Some? ==> Summarised(rows).total.value == Total(rows)
    ensures Summarised(rows).currency.Some? <==> Summarised(rows).total.Some? && rows != []
    ensures Summarised(rows).currency.Some? ==>
              forall row | row in rows :: Summarised(rows).currency == Some(row.currency)
  {
    forall c ensures Total(InCurrency(rows, c)) == AmountIn(rows, c) {
      GroupIsAmount(rows, c);
    }
    GroupsConserve(rows);
    OneCurrency(rows);
  }

  // ----- Unpriced charges and posting ------------------------------------------------------------

  /** What a refresh at `now` would leave without a price, told from the row as it stands. */
  predicate StaysUnpriced(row: Row, tariffs: seq<Tariff>, now: int) {
    && row.status == Active && row.snapshot.None?
    && if Due(row, false, now) then
         Quoted(tariffs, row.carrier, row.size, row.discharge.value).None?
         && Chargeable(Elapsed(row.discharge.value, now).value, row.freeDays) > 0
       else row.demurrageDays > 0
  }

  predicate StopsPosting(s: State, id: Id, now: int) {
    id in s.rows && !Frozen(s.journal, id) && StaysUnpriced(s.rows[id], s.tariffs, now)
  }

  lemma RefreshLeavesUnpriced(s: State, id: Id, now: int)
    requires id in s.rows && !Frozen(s.journal, id) && RefreshAt(s, id, now).Ok?
    ensures LacksPrice(RefreshAt(s, id, now).value) <==> StaysUnpriced(s.rows[id], s.tariffs, now)
  {
  }

  /** Nothing in the way of this charge's posting: it is skipped, or there is a rate and an open period for it. */
  predicate PostsOrSkips(s: State, id: Id, now: int, books: Books) {
    id in s.rows ==> PostRow(id, s.rows[id], Frozen(s.journal, id), now, books).Ok?
  }

  /** The charge at place k lacks a price, and none before it is in the way. */
  ghost predicate FirstInTheWay(s: State, order: seq<Id>, k: int, now: int, books: Books) {
    && 0 <= k < |order| && order[k] in s.rows && !Frozen(s.journal, order[k]) && LacksPrice(s.rows[order[k]])
    && forall i | 0 <= i < k :: PostsOrSkips(s, order[i], now, books)
  }

  lemma {:induction false} PostRowsUnpriced(s: State, added: seq<Entry>, order: seq<Id>, now: int, books: Books)
    ensures var r := PostRows(s.(journal := s.journal + added), s.journal, order, now, books);
            r == Err(Refusal.Unpriced) <==> exists k :: FirstInTheWay(s, order, k, now, books)
    ensures PostRows(s.(journal := s.journal + added), s.journal, order, now, books).Ok? ==>
            forall id | id in order :: PostsOrSkips(s, id, now, books)
    decreases |order|
  {
    if order != [] {
      var more := added;
      if order[0] in s.rows {
        var r := PostRow(order[0], s.rows[order[0]], Frozen(s.journal, order[0]), now, books);
        if r.Ok? && r.value.Some? {
          more := added + [r.value.value];
          assert s.journal + added + [r.value.value] == s.journal + more;
        }
      }
      PostRowsUnpriced(s, more, order[1..], now, books);
      FirstShifts(s, order, now, books);
    }
  }

  lemma FirstShifts(s: State, order: seq<Id>, now: int, books: Books)
    requires order != []
    ensures (exists k :: FirstInTheWay(s, order, k, now, books)) <==>
            || FirstInTheWay(s, order, 0, now, books)
            || (PostsOrSkips(s, order[0], now, books) && exists k :: FirstInTheWay(s, order[1..], k, now, books))
  {
    if k :| FirstInTheWay(s, order, k, now, books) {
      assert k > 0 ==> FirstInTheWay(s, order[1..], k - 1, now, books) by {
        assert forall i | 0 <= i < k :: i > 0 ==> order[1..][i - 1] == order[i];
      }
    }
    if PostsOrSkips(s, order[0], now, books) {
      forall k | FirstInTheWay(s, order[1..], k, now, books) ensures FirstInTheWay(s, order, k + 1, now, books) {
        assert forall i | 0 < i < k + 1 :: order[i] == order[1..][i - 1];
      }
    }
  }

  /**
   * Posting is refused for a missing tariff exactly when some active, unposted charge has no pin and will owe a
   * day after the refresh with which posting begins, and no charge before it in the database's order is refused
   * for its exchange rate or period. With such a charge nothing is posted at all.
   */
  lemma UnpricedRefusal(s: State, now: int, books: Books)
    requires DatabaseOrder(s, books.order) && Refreshed(s, now).Ok?
    ensures var t, refused, order := After(s, Refresh(now)), PostCharges(s, now, books).1, books.order;
            && (refused == Some(Refusal.Unpriced) <==>
                  exists k :: 0 <= k < |order| && StopsPosting(s, order[k], now)
                              && forall i | 0 <= i < k :: PostsOrSkips(t, order[i], now, books))
            && ((exists id :: StopsPosting(s, id, now)) ==> refused.Some?)
  {
    var t, order := After(s, Refresh(now)), books.order;
    PostingFollows(s, now, books);
    PostingRefusedIff(t, now, books);
    forall k ensures FirstInTheWay(t, order, k, now, books) <==>
      0 <= k < |order| && StopsPosting(s, order[k], now)
      && forall i | 0 <= i < k :: PostsOrSkips(t, order[i], now, books)
    {
      if 0 <= k < |order| {
        StopsIffLacks(s, order[k], now);
      }
    }
    forall id | StopsPosting(s, id, now) ensures PostUnposted(t, now, books).Err? {
      AnyStops(s, id, now, books);
    }
  }

  lemma PostingFollows(s: State, now: int, books: Books)
    requires Refreshed(s, now).Ok?
    ensures var r := PostUnposted(After(s, Refresh(now)), now, books);
            PostCharges(s, now, books).1 == if r.Ok? then None else Some(r.error)
  {
  }

  lemma AnyStops(s: State, id: Id, now: int, books: Books)
    requires DatabaseOrder(s, books.order) && Refreshed(s, now).Ok? && StopsPosting(s, id, now)
    ensures PostUnposted(After(s, Refresh(now)), now, books).Err?
  {
    var t := After(s, Refresh(now));
    PostingRefusedIff(t, now, books);
    StopsIffLacks(s, id, now);
    assert id in books.order && !PostsOrSkips(t, id, now, books);
  }

  lemma StopsIffLacks(s: State, id: Id, now: int)
    requires Refreshed(s, now).Ok?
    ensures var t := After(s, Refresh(now));
            StopsPosting(s, id, now) <==> id in t.rows && !Frozen(t.journal, id) && LacksPrice(t.rows[id])
  {
    if id in s.rows && !Frozen(s.journal, id) {
      assert RefreshAt(s, id, now).Ok?;
      RefreshLeavesUnpriced(s, id, now);
    }
  }

  lemma PostingRefusedIff(t: State, now: int, books: Books)
    ensures var r := PostUnposted(t, now, books);
            && (r == Err(Refusal.Unpriced) <==> exists k :: FirstInTheWay(t, books.order, k, now, books))
            && (r.Ok? ==> forall id | id in books.order :: PostsOrSkips(t, id, now, books))
  {
    assert t.(journal := t.journal + []) == t;
    PostRowsUnpriced(t, [], books.order, now, books);
  }

  /** The charges as the summary reads them. */
  function Listed(rows: map<Id, Row>, order: seq<Id>): seq<Row> {
    if order == [] then []
    else Listed(rows, order[..|order| - 1])
         + if order[|order| - 1] in rows then [rows[order[|order| - 1]]] else []
  }

  lemma {:induction false} UnpricedCounts(rows: map<Id, Row>, order: seq<Id>)
    ensures Unpriced(Listed(rows, order)) > 0 <==> exists id :: id in order && id in rows && LacksPrice(rows[id])
  {
    if order != [] {
      var init, last := order[..|order| - 1], order[|order| - 1];
      UnpricedCounts(rows, init);
      assert forall id :: id in order <==> id in init || id == last;
      var before := Listed(rows, init);
      if last in rows {
        assert Listed(rows, order) == before + [rows[last]];
        assert (before + [rows[last]])[..|before|] == before;
      } else {
        assert Listed(rows, order) == before + [];
        assert before + [] == before;
      }
    }
  }

  /**
   * When a summary, which refreshes first, reports nothing unpriced, posting at that moment is not refused for a
   * missing tariff. A day later it may be: see ChargeCases.
   */
  lemma NothingUnpricedPosts(s: State, now: int, books: Books)
    requires DatabaseOrder(s, books.order) && Refreshed(s, now).Ok?
    requires Summarised(Listed(After(s, Refresh(now)).rows, books.order)).unpriced == 0
    ensures PostCharges(After(s, Refresh(now)), now, books).1 != Some(Refusal.Unpriced)
  {
    var t := After(s, Refresh(now));
    RefreshAbsorbed(s, now, now);
    AfterRefresh(t, now);
    PostingFollows(t, now, books);
    PostingRefusedIff(t, now, books);
    UnpricedCounts(t.rows, books.order);
    NoneInTheWay(t, now, books);
  }

  lemma NoneInTheWay(t: State, now: int, books: Books)
    requires !exists id :: id in books.order && id in t.rows && LacksPrice(t.rows[id])
    ensures !exists k :: FirstInTheWay(t, books.order, k, now, books)
  {
    assert forall k | 0 <= k < |books.order| :: books.order[k] in books.order;
  }
}
