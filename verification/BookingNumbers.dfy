/**
 * The numbering of freight bookings by concurrent transactions. Per tenant and year there is an advisory
 * lock, held to the end of the transaction, and a counter that an aborted transaction leaves as it was.
 */
module BookingNumbers {
  import opened Decimals

  datatype Key = Key(tenant: nat, year: nat)

  /** The unique index is on tenant and number. */
  datatype Booking = Booking(tenant: nat, number: string)

  // ----- Numbers as text -------------------------------------------------------------------------

  function Prefix(year: nat): string {
    "FB-" + Text(year) + "-"
  }

  function NumberText(year: nat, n: nat): string {
    Prefix(year) + ZeroPadded(Text(n), 4)
  }

  /** What stands after the last dash. */
  function LastPart(s: string): string {
    if s == "" || s[|s| - 1] == '-' then "" else LastPart(s[..|s| - 1]) + [s[|s| - 1]]
  }

  /** `odd` reads the parts that are not plain digits, as they may occur in numbers made elsewhere. */
  function NumberOf(s: string, odd: string -> nat): nat {
    if AllDigits(LastPart(s)) then Value(LastPart(s)) else odd(LastPart(s))
  }

  predicate Matches(b: Booking, k: Key) {
    b.tenant == k.tenant && Prefix(k.year) <= b.number
  }

  lemma LastPartAfterDash(head: string, digits: string)
    requires AllDigits(digits)
    ensures LastPart(head + "-" + digits) == digits
  {
    assert '-' !in digits;
    LastPartWithoutDash(head, digits);
  }

  /** Every issued number reads back as itself, past 9999 as well. */
  lemma NumberRoundTrip(year: nat, n: nat, odd: string -> nat)
    ensures NumberOf(NumberText(year, n), odd) == n
  {
    ValueOfText(n);
    ValueOfPadded(Text(n), 4);
    assert NumberText(year, n) == ("FB-" + Text(year)) + "-" + ZeroPadded(Text(n), 4);
    LastPartAfterDash("FB-" + Text(year), ZeroPadded(Text(n), 4));
  }

  /** A number is FB, the year and the number, with zeros in front up to four digits. */
  lemma NumberShape(year: nat, n: nat)
    ensures var s := NumberText(year, n);
            && "FB-" + Text(year) + "-" <= s
            && var digits := s[4 + |Text(year)|..];
               && AllDigits(digits) && Value(digits) == n
               && (n <= 9999 ==> |digits| == 4) && (n > 9999 ==> digits == Text(n))
  {
    var s := NumberText(year, n);
    assert s[4 + |Text(year)|..] == ZeroPadded(Text(n), 4);
    ValueOfText(n);
    ValueOfPadded(Text(n), 4);
    TextLength(n);
  }

  /** The digits are the decimal ones, the last one first divided off. */
  lemma DigitsAreDecimal(d: nat, n: nat)
    requires d < 10
    ensures Text(d) == ["0123456789"[d]] && Text(10 * (n + 1) + d) == Text(n + 1) + ["0123456789"[d]]
  {
    DigitsInOrder(d);
  }

  lemma DigitsInOrder(d: nat)
    requires d < 10
    ensures DigitChar(d) == "0123456789"[d]
  {
  }

  lemma TextLength(n: nat)
    ensures n <= 9999 <==> |Text(n)| <= 4
  {
    assert n >= 10 ==> |Text(n)| == |Text(n / 10)| + 1;
    assert n >= 100 ==> |Text(n / 10)| == |Text(n / 100)| + 1 by { assert n / 10 / 10 == n / 100; }
    assert n >= 1000 ==> |Text(n / 100)| == |Text(n / 1000)| + 1 by { assert n / 100 / 10 == n / 1000; }
    assert n >= 10000 ==> |Text(n / 1000)| == |Text(n / 10000)| + 1 by { assert n / 1000 / 10 == n / 10000; }
  }

  /** The numbers of one year never match another year's pattern. */
  lemma PrefixTellsYear(y: nat, z: nat, n: nat)
    requires Prefix(y) <= NumberText(z, n)
    ensures y == z
  {
    var a, b, s := Text(y), Text(z), NumberText(z, n);
    assert s[..3] == "FB-" && s[3..3 + |b|] == b && s[3 + |b|] == '-';
    assert s[3..3 + |a|] == Prefix(y)[3..3 + |a|] == a && s[3 + |a|] == Prefix(y)[3 + |a|] == '-';
    assert (forall i | 0 <= i < |a| :: IsDigit(a[i])) && forall i | 0 <= i < |b| :: IsDigit(b[i]);
    assert a == b;
    ValueOfText(y);
    ValueOfText(z);
  }

  /** A number matches the pattern of its own tenant and year and no other. */
  lemma MatchesOwnYear(tenant: nat, z: nat, n: nat, k: Key)
    ensures Matches(Booking(tenant, NumberText(z, n)), k) <==> tenant == k.tenant && z == k.year
  {
    if Prefix(k.year) <= NumberText(z, n) {
      PrefixTellsYear(k.year, z, n);
    }
  }

  lemma NumberTextInjective(y: nat, n: nat, z: nat, m: nat)
    requires NumberText(y, n) == NumberText(z, m)
    ensures y == z && n == m
  {
    assert Prefix(y) <= NumberText(y, n);
    PrefixTellsYear(y, z, m);
    NumberRoundTrip(y, n, _ => 0);
    NumberRoundTrip(z, m, _ => 0);
  }

  // ----- Transactions ----------------------------------------------------------------------------

  type Session = nat

  datatype Tx = Locked(key: Key) | Counted(key: Key, highest: nat) | Numbered(key: Key, number: nat)

  /** `issued` records the committed numbers, oldest first. */
  datatype World = World(
    bookings: set<Booking>, counters: map<Key, nat>, locks: map<Key, Session>, txs: map<Session, Tx>,
    issued: seq<(Key, nat)>)

  datatype Step =
    | TakeLock(s: Session, key: Key)
    | ReadHighest(s: Session, highest: nat)
    | BumpCounter(s: Session)
    | Commit(s: Session)
    | Abort(s: Session)
    | DeleteBooking(booking: Booking)

  ghost predicate IsHighest(bookings: set<Booking>, k: Key, odd: string -> nat, h: nat) {
    && (forall b | b in bookings && Matches(b, k) :: NumberOf(b.number, odd) <= h)
    && (h == 0 || exists b :: b in bookings && Matches(b, k) && NumberOf(b.number, odd) == h)
  }

  ghost predicate Enabled(w: World, a: Step, odd: string -> nat) {
    match a
    case TakeLock(s, k) => s !in w.txs && k !in w.locks
    case ReadHighest(s, h) => s in w.txs && w.txs[s].Locked? && IsHighest(w.bookings, w.txs[s].key, odd, h)
    case BumpCounter(s) => s in w.txs && w.txs[s].Counted?
    case Commit(s) => s in w.txs && w.txs[s].Numbered?
    case Abort(s) => s in w.txs
    case DeleteBooking(b) => b in w.bookings
  }

  /** The upsert: greatest(last_number, highest) + 1, or highest + 1 for the first number of a year. */
  function Bumped(counters: map<Key, nat>, k: Key, highest: nat): nat {
    if k in counters && highest < counters[k] then counters[k] + 1 else highest + 1
  }

  function Released(w: World, s: Session): World
    requires s in w.txs
  {
    w.(txs := w.txs - {s}, locks := w.locks - {w.txs[s].key})
  }

  /** A commit that the unique index turns away is an abort. */
  function Next(w: World, a: Step): World
    requires !a.TakeLock? && !a.DeleteBooking? ==> a.s in w.txs
    requires a.BumpCounter? ==> w.txs[a.s].Counted?
    requires a.Commit? ==> w.txs[a.s].Numbered?
  {
    match a
    case TakeLock(s, k) => w.(txs := w.txs[s := Locked(k)], locks := w.locks[k := s])
    case ReadHighest(s, h) => w.(txs := w.txs[s := Counted(w.txs[s].key, h)])
    case BumpCounter(s) =>
      w.(txs := w.txs[s := Numbered(w.txs[s].key, Bumped(w.counters, w.txs[s].key, w.txs[s].highest))])
    case Commit(s) =>
      var k, n := w.txs[s].key, w.txs[s].number;
      var b := Booking(k.tenant, NumberText(k.year, n));
      if b in w.bookings then Released(w, s)
      else Released(w, s).(bookings := w.bookings + {b}, counters := w.counters[k := n], issued := w.issued + [(k, n)])
    case Abort(s) => Released(w, s)
    case DeleteBooking(b) => w.(bookings := w.bookings - {b})
  }

  // ----- The invariant ---------------------------------------------------------------------------

  ghost predicate TxSound(w: World, s: Session, odd: string -> nat)
    requires s in w.txs
  {
    var t := w.txs[s];
    && t.key in w.locks && w.locks[t.key] == s
    && (t.Counted? ==> forall b | b in w.bookings && Matches(b, t.key) :: NumberOf(b.number, odd) <= t.highest)
    && (t.Numbered? ==>
          && (forall b | b in w.bookings && Matches(b, t.key) :: NumberOf(b.number, odd) < t.number)
          && (t.key in w.counters ==> w.counters[t.key] < t.number))
  }

  ghost predicate IssuedSound(w: World) {
    && (forall e | e in w.issued :: e.0 in w.counters && e.1 <= w.counters[e.0])
    && (forall i, j | 0 <= i < j < |w.issued| && w.issued[i].0 == w.issued[j].0 :: w.issued[i].1 < w.issued[j].1)
  }

  ghost predicate Sound(w: World, odd: string -> nat) {
    (forall s | s in w.txs :: TxSound(w, s, odd)) && IssuedSound(w)
  }

  /**
   * A number about to be committed is new to the table, above every number in it and above every number ever
   * issued.
   */
  lemma CommitIsFresh(w: World, s: Session, odd: string -> nat)
    requires Sound(w, odd) && Enabled(w, Commit(s), odd)
    ensures var k, n := w.txs[s].key, w.txs[s].number;
            && Booking(k.tenant, NumberText(k.year, n)) !in w.bookings
            && (forall b | b in w.bookings && Matches(b, k) :: NumberOf(b.number, odd) < n)
            && (forall e | e in w.issued && e.0 == k :: e.1 < n)
            && Next(w, Commit(s)).issued == w.issued + [(k, n)]
  {
    assert TxSound(w, s, odd);
    var k, n := w.txs[s].key, w.txs[s].number;
    var b := Booking(k.tenant, NumberText(k.year, n));
    NumberRoundTrip(k.year, n, odd);
    assert Matches(b, k);
  }

  lemma CommitKeepsSound(w: World, s: Session, odd: string -> nat)
    requires Sound(w, odd) && Enabled(w, Commit(s), odd)
    ensures Sound(Next(w, Commit(s)), odd)
  {
    CommitIsFresh(w, s, odd);
    assert TxSound(w, s, odd);
    var v := Next(w, Commit(s));
    var k, n := w.txs[s].key, w.txs[s].number;
    forall r | r in v.txs ensures TxSound(v, r, odd) {
      assert TxSound(w, r, odd);
      var b := Booking(k.tenant, NumberText(k.year, n));
      if Matches(b, v.txs[r].key) {
        PrefixTellsYear(v.txs[r].key.year, k.year, n);
      }
    }
  }

  lemma StepKeepsSound(w: World, a: Step, odd: string -> nat)
    requires Sound(w, odd) && Enabled(w, a, odd)
    ensures Sound(Next(w, a), odd) && w.issued <= Next(w, a).issued
  {
    var v := Next(w, a);
    if a.Commit? {
      CommitKeepsSound(w, a.s, odd);
    } else {
      forall r | r in v.txs ensures TxSound(v, r, odd) {
        if r in w.txs {
          assert TxSound(w, r, odd);
        }
      }
    }
  }

  /** A transaction that nobody interrupts does in one go what creating a booking does. */
  lemma WholeTransaction(w: World, s: Session, k: Key, h: nat, odd: string -> nat)
    requires Sound(w, odd) && s !in w.txs && k !in w.locks && IsHighest(w.bookings, k, odd, h)
    ensures var w1 := Next(w, TakeLock(s, k));
            var w2 := Next(w1, ReadHighest(s, h));
            var w3 := Next(w2, BumpCounter(s));
            && Enabled(w, TakeLock(s, k), odd) && Enabled(w1, ReadHighest(s, h), odd)
            && Enabled(w2, BumpCounter(s), odd) && Enabled(w3, Commit(s), odd)
            && var n := Bumped(w.counters, k, h);
               Next(w3, Commit(s)) == w.(bookings := w.bookings + {Booking(k.tenant, NumberText(k.year, n))},
                                         counters := w.counters[k := n], issued := w.issued + [(k, n)])
  {
    var w3 := UpToCommit(w, s, k, h);
    UpToCommitIsSound(w, s, k, h, odd);
    CommitIsFresh(w3, s, odd);
    assert w3.txs - {s} == w.txs && w3.locks - {k} == w.locks;
  }

  /** An aborted transaction gives its lock back and leaves the table, the counters and what was issued as they were. */
  lemma AbortOutcome(w: World, s: Session)
    requires s in w.txs
    ensures var t := Next(w, Abort(s));
            && (t.bookings, t.counters, t.issued) == (w.bookings, w.counters, w.issued)
            && s !in t.txs && t.txs == w.txs - {s} && w.txs[s].key !in t.locks && t.locks == w.locks - {w.txs[s].key}
  {
  }

  /** A number whose last part is not plain digits is read as it may be. */
  lemma OddNumber(head: string, part: string, odd: string -> nat)
    requires '-' !in part && !AllDigits(part)
    ensures NumberOf(head + "-" + part, odd) == odd(part)
  {
    LastPartWithoutDash(head, part);
  }

  lemma {:induction false} LastPartWithoutDash(head: string, part: string)
    requires '-' !in part
    ensures LastPart(head + "-" + part) == part
  {
    var s := head + "-" + part;
    if part == "" {
      assert s[|s| - 1] == '-';
    } else {
      var init := part[..|part| - 1];
      assert part[|part| - 1] in part;
      LastPartWithoutDash(head, init);
      assert s[..|s| - 1] == head + "-" + init;
    }
  }

  /** The next number is one more than the greater of the highest in use and the counter, if there is one. */
  lemma BumpedIsNext(counters: map<Key, nat>, k: Key, highest: nat)
    ensures var n := Bumped(counters, k, highest);
            && highest < n && (k in counters ==> counters[k] < n)
            && (n == highest + 1 || (k in counters && n == counters[k] + 1))
  {
  }

  /** All but the commit of a transaction that nobody interrupts. */
  function UpToCommit(w: World, s: Session, k: Key, h: nat): World {
    w.(txs := w.txs[s := Numbered(k, Bumped(w.counters, k, h))], locks := w.locks[k := s])
  }

  lemma UpToCommitIsSound(w: World, s: Session, k: Key, h: nat, odd: string -> nat)
    requires Sound(w, odd) && s !in w.txs && k !in w.locks && IsHighest(w.bookings, k, odd, h)
    ensures Sound(UpToCommit(w, s, k, h), odd)
    ensures Next(Next(Next(w, TakeLock(s, k)), ReadHighest(s, h)), BumpCounter(s)) == UpToCommit(w, s, k, h)
  {
    var w1 := Next(w, TakeLock(s, k));
    StepKeepsSound(w, TakeLock(s, k), odd);
    var w2 := Next(w1, ReadHighest(s, h));
    StepKeepsSound(w1, ReadHighest(s, h), odd);
    StepKeepsSound(w2, BumpCounter(s), odd);
    assert Next(w2, BumpCounter(s)).txs == UpToCommit(w, s, k, h).txs;
  }

  ghost predicate Possible(w: World, steps: seq<Step>, odd: string -> nat)
    decreases |steps|
  {
    steps == [] || (Enabled(w, steps[0], odd) && Possible(Next(w, steps[0]), steps[1..], odd))
  }

  ghost function After(w: World, steps: seq<Step>, odd: string -> nat): World
    requires Possible(w, steps, odd)
    decreases |steps|
  {
    if steps == [] then w else After(Next(w, steps[0]), steps[1..], odd)
  }

  /** Before any numbering: whatever bookings exist, nobody holds a lock. */
  predicate Quiet(w: World) {
    w.locks == map[] && w.txs == map[] && w.issued == []
  }

  lemma {:induction false} RunKeepsSound(w: World, steps: seq<Step>, odd: string -> nat)
    requires Sound(w, odd) && Possible(w, steps, odd)
    ensures Sound(After(w, steps, odd), odd)
    decreases |steps|
  {
    if steps != [] {
      StepKeepsSound(w, steps[0], odd);
      RunKeepsSound(Next(w, steps[0]), steps[1..], odd);
    }
  }

  /**
   * Over any interleaving with aborts and deletions, from any existing bookings, no two issued numbers of a
   * tenant are the same text, and within a year they only go up.
   */
  lemma NumbersNeverReused(w: World, steps: seq<Step>, odd: string -> nat)
    requires Quiet(w) && Possible(w, steps, odd)
    ensures var issued := After(w, steps, odd).issued;
            forall i, j | 0 <= i < j < |issued| && issued[i].0.tenant == issued[j].0.tenant ::
              && (issued[i].0.year == issued[j].0.year ==> issued[i].1 < issued[j].1)
              && NumberText(issued[i].0.year, issued[i].1) != NumberText(issued[j].0.year, issued[j].1)
  {
    RunKeepsSound(w, steps, odd);
    var issued := After(w, steps, odd).issued;
    forall i, j | 0 <= i < j < |issued| && issued[i].0.tenant == issued[j].0.tenant
      ensures NumberText(issued[i].0.year, issued[i].1) != NumberText(issued[j].0.year, issued[j].1)
    {
      if NumberText(issued[i].0.year, issued[i].1) == NumberText(issued[j].0.year, issued[j].1) {
        NumberTextInjective(issued[i].0.year, issued[i].1, issued[j].0.year, issued[j].1);
      }
    }
  }
}
