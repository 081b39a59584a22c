/** Progressive demurrage rates: which tier lists are accepted, and what they charge. */
module Tiers {
  import opened Outcomes

  datatype RateTier = RateTier(fromDay: int, toDay: int, dailyRate: real)

  // ----- Acceptance ----------------------------------------------------------------------------

  predicate WellShaped(t: RateTier) {
    1 <= t.fromDay && 1 <= t.toDay && 0.0 <= t.dailyRate
  }

  /** Stable insertion: `t` stood before every tier of `s` in the list being sorted. */
  function Insert(t: RateTier, s: seq<RateTier>): (r: seq<RateTier>)
    ensures |r| == |s| + 1
  {
    if s == [] || t.fromDay <= s[0].fromDay then [t] + s else [s[0]] + Insert(t, s[1..])
  }

  function SortByStart(s: seq<RateTier>): (r: seq<RateTier>)
    ensures |r| == |s|
  {
    if s == [] then [] else Insert(s[0], SortByStart(s[1..]))
  }

  /** The sorted tiers run on from day `next` with no gap, no overlap and no empty tier. */
  predicate Chained(s: seq<RateTier>, next: int) {
    s == [] || (s[0].fromDay == next && s[0].fromDay <= s[0].toDay && Chained(s[1..], s[0].toDay + 1))
  }

  predicate Accepted(tiers: seq<RateTier>) {
    && 1 <= |tiers| <= 100
    && (forall t | t in tiers :: WellShaped(t))
    && Chained(SortByStart(tiers), 1)
  }

  /** The schema check: one pass over the sorted tiers, remembering the day that must come next. */
  method CheckTiers(tiers: seq<RateTier>) returns (ok: bool)
    ensures ok <==> Accepted(tiers)
    ensures ok <==>
            1 <= |tiers| <= 100 && (forall t | t in tiers :: WellShaped(t)) && exists n :: Partitions(tiers, 1, n)
  {
    AcceptedIffPartition(tiers);
    if !(1 <= |tiers| <= 100) || exists t | t in tiers :: !WellShaped(t) {
      return false;
    }
    var sorted := SortByStart(tiers);
    var next := 1;
    ok := true;
    for i := 0 to |sorted|
      invariant ok ==> (Chained(sorted, 1) <==> Chained(sorted[i..], next))
      invariant !ok ==> !Chained(sorted, 1)
    {
      assert sorted[i..][1..] == sorted[i + 1..];
      if sorted[i].fromDay != next || sorted[i].toDay < sorted[i].fromDay {
        ok := false;
      }
      next := sorted[i].toDay + 1;
    }
  }

  // ----- Every day has one rate ------------------------------------------------------------------

  predicate Covers(t: RateTier, day: int) {
    t.fromDay <= day <= t.toDay
  }

  function CoverCount(s: seq<RateTier>, day: int): nat {
    if s == [] then 0 else (if Covers(s[0], day) then 1 else 0) + CoverCount(s[1..], day)
  }

  /** Non-empty tiers that, in whatever order, give each day of lo..hi exactly one tier and no other day any. */
  ghost predicate Partitions(s: seq<RateTier>, lo: int, hi: int) {
    && (forall t | t in s :: t.fromDay <= t.toDay)
    && (forall day: int :: CoverCount(s, day) == if lo <= day <= hi then 1 else 0)
  }

  ghost predicate SortedByStart(s: seq<RateTier>) {
    s == [] || ((forall t | t in s[1..] :: s[0].fromDay <= t.fromDay) && SortedByStart(s[1..]))
  }

  lemma {:induction false} InsertElements(t: RateTier, s: seq<RateTier>)
    ensures multiset(Insert(t, s)) == multiset{t} + multiset(s)
  {
    if s != [] && s[0].fromDay < t.fromDay {
      InsertElements(t, s[1..]);
      assert s == [s[0]] + s[1..];
    }
  }

  lemma {:induction false} InsertSorted(t: RateTier, s: seq<RateTier>)
    requires SortedByStart(s)
    ensures SortedByStart(Insert(t, s))
  {
    if s != [] && s[0].fromDay < t.fromDay {
      var rest := Insert(t, s[1..]);
      InsertSorted(t, s[1..]);
      InsertElements(t, s[1..]);
      forall u | u in rest ensures s[0].fromDay <= u.fromDay {
        assert u in multiset(rest);
      }
      assert ([s[0]] + rest)[1..] == rest;
    } else {
      assert ([t] + s)[1..] == s;
      assert s != [] ==> s == [s[0]] + s[1..];
    }
  }

  lemma {:induction false} InsertCovers(t: RateTier, s: seq<RateTier>, day: int)
    ensures CoverCount(Insert(t, s), day) == CoverCount([t] + s, day)
    ensures CoveringRate(Insert(t, s), day) == CoveringRate([t] + s, day)
    ensures LastDay(Insert(t, s)) == LastDay([t] + s)
  {
    assert ([t] + s)[1..] == s;
    if s != [] && s[0].fromDay < t.fromDay {
      InsertCovers(t, s[1..], day);
      assert ([t] + s[1..])[1..] == s[1..];
    }
  }

  lemma {:induction false} SortSorts(s: seq<RateTier>)
    ensures SortedByStart(SortByStart(s))
    ensures multiset(SortByStart(s)) == multiset(s)
  {
    if s != [] {
      SortSorts(s[1..]);
      InsertSorted(s[0], SortByStart(s[1..]));
      InsertElements(s[0], SortByStart(s[1..]));
      assert s == [s[0]] + s[1..];
    }
  }

  lemma {:induction false} SortCovers(s: seq<RateTier>, day: int)
    ensures CoverCount(SortByStart(s), day) == CoverCount(s, day)
    ensures CoveringRate(SortByStart(s), day) == CoveringRate(s, day)
    ensures LastDay(SortByStart(s)) == LastDay(s)
  {
    if s != [] {
      SortCovers(s[1..], day);
      InsertCovers(s[0], SortByStart(s[1..]), day);
    }
  }

  lemma {:induction false} ChainPartitions(s: seq<RateTier>, lo: int) returns (hi: int)
    requires Chained(s, lo)
    ensures lo - 1 <= hi && Partitions(s, lo, hi)
    ensures hi == if s == [] then lo - 1 else s[|s| - 1].toDay
  {
    if s == [] {
      hi := lo - 1;
    } else {
      hi := ChainPartitions(s[1..], s[0].toDay + 1);
      assert forall t | t in s :: t == s[0] || t in s[1..];
      assert s[1..] != [] ==> s[1..][|s[1..]| - 1] == s[|s| - 1];
    }
  }

  lemma {:induction false} LaterStartsCoverNothing(s: seq<RateTier>, day: int)
    requires forall t | t in s :: day < t.fromDay
    ensures CoverCount(s, day) == 0 && CoveringRate(s, day) == 0.0
  {
    if s != [] { LaterStartsCoverNothing(s[1..], day); }
  }

  lemma {:induction false} PartitionChains(s: seq<RateTier>, lo: int, hi: int)
    requires SortedByStart(s) && lo - 1 <= hi && Partitions(s, lo, hi)
    ensures Chained(s, lo)
  {
    if s != [] {
      var first, rest := s[0], s[1..];
      assert CoverCount(s, first.fromDay) >= 1 && CoverCount(s, first.toDay) >= 1;
      if lo < first.fromDay {
        LaterStartsCoverNothing(s, lo);
        assert false;
      }
      forall day: int
        ensures CoverCount(rest, day) == if first.toDay + 1 <= day <= hi then 1 else 0
      {
        assert CoverCount(s, day) == if lo <= day <= hi then 1 else 0;
      }
      PartitionChains(rest, first.toDay + 1, hi);
    }
  }

  /** A tier list is accepted exactly when its tiers share out the days 1..n for some n. */
  lemma AcceptedIffPartition(tiers: seq<RateTier>)
    ensures Accepted(tiers) <==>
            1 <= |tiers| <= 100 && (forall t | t in tiers :: WellShaped(t)) && exists n :: Partitions(tiers, 1, n)
  {
    var sorted := SortByStart(tiers);
    SortSorts(tiers);
    forall day ensures CoverCount(sorted, day) == CoverCount(tiers, day) { SortCovers(tiers, day); }
    assert forall t :: t in tiers <==> t in multiset(tiers);
    assert forall t :: t in sorted <==> t in multiset(sorted);
    if Accepted(tiers) {
      var n := ChainPartitions(sorted, 1);
      assert Partitions(tiers, 1, n);
    }
    if 1 <= |tiers| <= 100 && (forall t | t in tiers :: WellShaped(t)) && exists n :: Partitions(tiers, 1, n) {
      var n :| Partitions(tiers, 1, n);
      assert CoverCount(tiers, tiers[0].fromDay) >= 1;
      PartitionChains(sorted, 1, n);
    }
  }

  // ----- Price -----------------------------------------------------------------------------------

  /** The sum of the rates of all tiers that cover the day: one tier's rate, for an accepted list. */
  function CoveringRate(s: seq<RateTier>, day: int): real {
    if s == [] then 0.0 else (if Covers(s[0], day) then s[0].dailyRate else 0.0) + CoveringRate(s[1..], day)
  }

  function LastDay(s: seq<RateTier>): int {
    if s == [] then 0 else var r := LastDay(s[1..]); if s[0].toDay < r then r else s[0].toDay
  }

  /** What the `day`-th chargeable day costs; days past the last tier keep the last tier's rate. */
  function DayRate(s: seq<RateTier>, day: int): real {
    CoveringRate(s, if day <= LastDay(s) then day else LastDay(s))
  }

  /** The rates of the chargeable days lo+1 .. hi, added up. */
  function Charge(s: seq<RateTier>, lo: nat, hi: int): real
    decreases hi - lo
  {
    if hi <= lo then 0.0 else Charge(s, lo, hi - 1) + DayRate(s, hi)
  }

  /** Rounding to the nearest integer, halves upwards. */
  function HalfUp(x: real): int {
    (x + 0.5).Floor
  }

  function Cents(n: int): real {
    n as real / 100.0
  }

  function RoundCents(x: real): real {
    Cents(HalfUp(x * 100.0))
  }

  function CostOf(s: seq<RateTier>, days: int): real {
    if days <= 0 then 0.0 else RoundCents(Charge(s, 0, days))
  }
  datatype PriceError = InvalidTiers

  /** Pricing refuses a list the schema would refuse, whatever the number of days. */
  function Priced(days: int, tiers: seq<RateTier>): Result<real, PriceError> {
    if Accepted(tiers) then Ok(CostOf(tiers, days)) else Err(InvalidTiers)
  }

  method CalculateDemurrageCost(days: int, tiers: seq<RateTier>) returns (r: Result<real, PriceError>)
    ensures r == Priced(days, tiers)
  {
    var valid := CheckTiers(tiers);
    if !valid {
      return Err(InvalidTiers);
    }
    if days <= 0 {
      return Ok(0.0);
    }
    var cost := ChargeTierByTier(SortByStart(tiers), days);
    ChargeSorted(tiers, days);
    return Ok(RoundCents(cost));
  }

  /** Walks the sorted tiers, using up the chargeable days, then charges what is left at the last rate. */
  method ChargeTierByTier(sorted: seq<RateTier>, days: int) returns (cost: real)
    requires sorted != [] && Chained(sorted, 1) && 0 < days
    ensures cost == Charge(sorted, 0, days)
  {
    cost := 0.0;
    var remaining := days;
    for i := 0 to |sorted|
      invariant 0 <= remaining <= days
      invariant cost == Charge(sorted, 0, days - remaining)
      invariant remaining > 0 ==> Chained(sorted[i..], days - remaining + 1)
      invariant remaining > 0 && i > 0 ==> days - remaining == sorted[i - 1].toDay
    {
      if remaining <= 0 {
        break;
      }
      var tier := sorted[i];
      var tierRange := tier.toDay - tier.fromDay + 1;
      var daysInTier := if remaining < tierRange then remaining else tierRange;
      assert sorted[i..][0] == tier && sorted[i..][1..] == sorted[i + 1..];
      TierStretch(sorted, i, days - remaining, days - remaining + daysInTier);
      cost := cost + Product(daysInTier, tier.dailyRate);
      remaining := remaining - daysInTier;
    }
    if remaining > 0 {
      ChainLastAbove(sorted, 1, |sorted| - 1);
      TierStretch(sorted, |sorted| - 1, days - remaining, days);
      cost := cost + Product(remaining, sorted[|sorted| - 1].dailyRate);
    }
  }

  lemma {:induction false} ChainStarts(s: seq<RateTier>, next: int)
    requires Chained(s, next)
    ensures forall t | t in s :: next <= t.fromDay <= t.toDay
  {
    if s != [] {
      ChainStarts(s[1..], s[0].toDay + 1);
      assert forall t | t in s :: t == s[0] || t in s[1..];
    }
  }

  lemma {:induction false} ChainLast(s: seq<RateTier>, next: int)
    requires Chained(s, next) && 1 <= next && s != []
    ensures LastDay(s) == s[|s| - 1].toDay
  {
    if s[1..] != [] {
      ChainLast(s[1..], s[0].toDay + 1);
      ChainStarts(s[1..], s[0].toDay + 1);
      assert s[1..][|s[1..]| - 1] == s[|s| - 1];
      assert s[|s| - 1] in s[1..];
    }
  }

  lemma {:induction false} ChainLastAbove(s: seq<RateTier>, next: int, i: nat)
    requires Chained(s, next) && i < |s|
    ensures next <= s[i].fromDay <= s[i].toDay <= LastDay(s)
  {
    if i > 0 { ChainLastAbove(s[1..], s[0].toDay + 1, i - 1); }
  }

  lemma {:induction false} ChainRate(s: seq<RateTier>, next: int, i: nat, day: int)
    requires Chained(s, next) && i < |s| && Covers(s[i], day)
    ensures CoveringRate(s, day) == s[i].dailyRate
  {
    ChainStarts(s[1..], s[0].toDay + 1);
    if i == 0 {
      LaterStartsCoverNothing(s[1..], day);
    } else {
      assert s[i] in s[1..];
      ChainRate(s[1..], s[0].toDay + 1, i - 1, day);
    }
  }

  /** What a run of days costs at one rate. */
  function Product(n: int, rate: real): real {
    n as real * rate
  }

  lemma ProductStep(n: int, rate: real)
    ensures Product(n + 1, rate) == Product(n, rate) + rate
  {
    assert (n + 1) as real == n as real + 1.0;
    OneMore(n as real, rate);
  }

  lemma OneMore(n: real, rate: real)
    ensures (n + 1.0) * rate == n * rate + rate
  {
  }

  lemma {:induction false} ConstantStretch(s: seq<RateTier>, lo: nat, hi: nat, rate: real)
    requires lo <= hi && forall day | lo < day <= hi :: DayRate(s, day) == rate
    ensures Charge(s, 0, hi) == Charge(s, 0, lo) + Product(hi - lo, rate)
  {
    if lo < hi {
      ConstantStretch(s, lo, hi - 1, rate);
      ProductStep(hi - 1 - lo, rate);
    }
  }

  /** Days lo+1 .. hi all fall in tier i, or beyond the end of the last tier when i is the last. */
  lemma TierStretch(s: seq<RateTier>, i: nat, lo: nat, hi: nat)
    requires Chained(s, 1) && i < |s| && s[i].fromDay <= lo + 1 && lo <= hi
    requires hi <= s[i].toDay || (i == |s| - 1 && lo == s[i].toDay)
    ensures Charge(s, 0, hi) == Charge(s, 0, lo) + Product(hi - lo, s[i].dailyRate)
  {
    ChainLast(s, 1);
    ChainLastAbove(s, 1, i);
    forall day | lo < day <= hi ensures DayRate(s, day) == s[i].dailyRate {
      ChainRate(s, 1, i, if day <= LastDay(s) then day else LastDay(s));
    }
    ConstantStretch(s, lo, hi, s[i].dailyRate);
  }

  lemma {:induction false} ChargeSorted(tiers: seq<RateTier>, days: int)
    ensures Charge(SortByStart(tiers), 0, days) == Charge(tiers, 0, days)
  {
    if days > 0 {
      ChargeSorted(tiers, days - 1);
      SortCovers(tiers, if days <= LastDay(tiers) then days else LastDay(tiers));
    }
  }

  // ----- What the price promises -----------------------------------------------------------------

  /** The rate of each chargeable day is that of a tier of the list: the one covering it, or the last. */
  lemma DayRateIsATiersRate(tiers: seq<RateTier>, day: int)
    requires Accepted(tiers) && 1 <= day
    ensures exists t :: t in tiers && DayRate(tiers, day) == t.dailyRate
                        && (Covers(t, day) || (LastDay(tiers) < day && t.toDay == LastDay(tiers)))
    ensures 0.0 <= DayRate(tiers, day)
  {
    var s := SortByStart(tiers);
    SortSorts(tiers);
    var d := if day <= LastDay(tiers) then day else LastDay(tiers);
    SortCovers(tiers, d);
    ChainLast(s, 1);
    ChainLastAbove(s, 1, |s| - 1);
    var i := CoveringIndex(s, 1, d);
    ChainRate(s, 1, i, d);
    assert s[i] in multiset(s);
    assert s[i] in tiers;
    if LastDay(tiers) < day {
      ChainLastAbove(s, 1, i);
    }
  }

  lemma {:induction false} CoveringIndex(s: seq<RateTier>, next: int, day: int) returns (i: nat)
    requires Chained(s, next) && s != [] && next <= day <= s[|s| - 1].toDay
    ensures i < |s| && Covers(s[i], day)
  {
    if day <= s[0].toDay {
      i := 0;
    } else {
      assert s[1..] != [] && s[1..][|s[1..]| - 1] == s[|s| - 1];
      i := CoveringIndex(s[1..], s[0].toDay + 1, day);
      i := i + 1;
    }
  }

  lemma {:induction false} ChargeSplits(s: seq<RateTier>, a: nat, b: int)
    requires a <= b
    ensures Charge(s, 0, b) == Charge(s, 0, a) + Charge(s, a, b)
  {
    if a < b { ChargeSplits(s, a, b - 1); }
  }

  lemma {:induction false} ChargeNonnegative(tiers: seq<RateTier>, a: nat, b: int)
    requires Accepted(tiers)
    ensures 0.0 <= Charge(tiers, a, b)
  {
    if a < b {
      ChargeNonnegative(tiers, a, b - 1);
      DayRateIsATiersRate(tiers, b);
    }
  }

  /** A charge never falls while the chargeable days go up. */
  lemma CostMonotone(tiers: seq<RateTier>, a: int, b: int)
    requires Accepted(tiers) && a <= b
    ensures 0.0 <= CostOf(tiers, a) <= CostOf(tiers, b)
  {
    if 0 < a {
      ChargeSplits(tiers, a, b);
      ChargeNonnegative(tiers, a, b);
      ChargeNonnegative(tiers, 0, a);
      RoundCentsMonotone(0.0, Charge(tiers, 0, a));
      RoundCentsMonotone(Charge(tiers, 0, a), Charge(tiers, 0, b));
    } else if 0 < b {
      ChargeNonnegative(tiers, 0, b);
      RoundCentsMonotone(0.0, Charge(tiers, 0, b));
    }
  }

  ghost predicate InCents(x: real) {
    exists k: int :: x == Cents(k)
  }

  lemma HalfUpNear(x: real)
    ensures x - 0.5 < HalfUp(x) as real <= x + 0.5
  {
  }

  lemma RoundCentsFacts(x: real)
    ensures x - 0.005 < RoundCents(x) <= x + 0.005
    ensures InCents(x) ==> RoundCents(x) == x
  {
    HalfUpNear(x * 100.0);
    if InCents(x) {
      CentsAreFixed(x);
    }
  }

  lemma CentsAreFixed(x: real)
    requires InCents(x)
    ensures RoundCents(x) == x
  {
    var k: int :| x == Cents(k);
    var y := x * 100.0;
    assert y == k as real;
    HalfUpNear(y);
  }

  lemma RoundCentsMonotone(x: real, y: real)
    requires x <= y
    ensures RoundCents(x) <= RoundCents(y)
  {
    assert HalfUp(x * 100.0) <= HalfUp(y * 100.0);
  }

  lemma {:induction false} ChargeInCents(tiers: seq<RateTier>, a: nat, b: int)
    requires Accepted(tiers) && forall t | t in tiers :: InCents(t.dailyRate)
    ensures InCents(Charge(tiers, a, b))
  {
    if a < b {
      ChargeInCents(tiers, a, b - 1);
      DayRateIsATiersRate(tiers, b);
      var j: int :| Charge(tiers, a, b - 1) == Cents(j);
      var k: int :| DayRate(tiers, b) == Cents(k);
      assert Charge(tiers, a, b) == Cents(j + k);
    } else {
      assert Charge(tiers, a, b) == Cents(0);
    }
  }

  /**
   * From one refresh to a later one the cost grows by the daily rates of the chargeable days in
   * between: to within a cent always, and exactly when every rate is in whole cents.
   */
  lemma AccrualGrowth(tiers: seq<RateTier>, a: nat, b: int)
    requires Accepted(tiers) && a <= b
    ensures Charge(tiers, a, b) - 0.01 <= CostOf(tiers, b) - CostOf(tiers, a) <= Charge(tiers, a, b) + 0.01
    ensures (forall t | t in tiers :: InCents(t.dailyRate)) ==>
              CostOf(tiers, b) - CostOf(tiers, a) == Charge(tiers, a, b)
  {
    ChargeSplits(tiers, a, b);
    RoundCentsFacts(Charge(tiers, 0, a));
    RoundCentsFacts(Charge(tiers, 0, b));
    if forall t | t in tiers :: InCents(t.dailyRate) {
      ChargeInCents(tiers, 0, a);
      ChargeInCents(tiers, 0, b);
    }
  }

  lemma {:induction false} ChainedOrderIsUnique(s: seq<RateTier>, t: seq<RateTier>, next: int)
    requires Chained(s, next) && SortedByStart(t) && multiset(s) == multiset(t)
    ensures s == t
  {
    if s == [] || t == [] {
      assert |s| == |multiset(s)| && |t| == |multiset(t)|;
    } else {
      ChainStarts(s[1..], s[0].toDay + 1);
      assert s[0] in multiset(t) && t[0] in multiset(s);
      assert s == [s[0]] + s[1..] && t == [t[0]] + t[1..];
      assert s[0] == t[0];
      assert multiset(s[1..]) == multiset(s) - multiset{s[0]};
      assert multiset(t[1..]) == multiset(t) - multiset{t[0]};
      ChainedOrderIsUnique(s[1..], t[1..], s[0].toDay + 1);
    }
  }

  /** Listing the tiers in another order changes neither their acceptance nor any price. */
  lemma OrderOfTiersIsIrrelevant(s: seq<RateTier>, t: seq<RateTier>, days: int)
    requires multiset(s) == multiset(t)
    ensures Priced(days, s) == Priced(days, t)
  {
    if Accepted(s) {
      SameTiersSamePrice(s, t, days);
    } else if Accepted(t) {
      SameTiersSamePrice(t, s, days);
    }
  }

  lemma SameTiersSamePrice(s: seq<RateTier>, t: seq<RateTier>, days: int)
    requires Accepted(s) && multiset(s) == multiset(t)
    ensures Accepted(t) && CostOf(s, days) == CostOf(t, days)
  {
    SortSorts(s);
    SortSorts(t);
    ChainedOrderIsUnique(SortByStart(s), SortByStart(t), 1);
    assert |s| == |multiset(s)| == |t|;
    assert forall u | u in t :: u in multiset(s);
    ChargeSorted(s, days);
    ChargeSorted(t, days);
  }
}
