/**
 * Saved tracking snapshots: provider results that may arrive late and out of order, manual edits, and public
 * shares.
 */
module Tracking {
  import opened Outcomes
  import opened Texts

  datatype Field =
    | TrackingType | TrackingNumber | Carrier | OriginName | OriginCode | DestName | DestCode | CurrentLocation
    | StatusText | StatusCode | Eta | ProgressPct | Events | Provider | ShipmentId

  /** The fields a provider result has and its proof covers. */
  const RESULT_FIELDS := {
    TrackingType, TrackingNumber, Carrier, OriginName, OriginCode, DestName, DestCode, CurrentLocation,
    StatusText, StatusCode, Eta, ProgressPct, Events, Provider}

  datatype Source = Unknown | Live | Manual

  /** None is JSON's null. */
  type Value = Option<string>

  /** A request body: the keys it has, what it claims to be, and the expiry its proof states. */
  datatype Body = Body(fields: map<Field, Value>, source: Option<Source>, etaInitial: Value, expires: Option<int>)

  /** What the digest is taken over: every result field, null when missing. */
  datatype Content = Content(values: map<Field, Value>, source: Option<Source>)

  /** A proof the server has given out; nobody else can make one. */
  datatype Signed = Signed(tenant: string, expires: int, content: Content)

  datatype Snapshot = Snapshot(
    fields: map<Field, Value>, source: Source, fetchedAt: Option<int>, etaInitial: Value,
    token: string, revoked: bool, shareExpires: Option<int>)

  datatype Refusal = NotFound | BadProof | Stale

  const PROOF_LIFE := 15 * 60_000
  const SHARE_LIFE := 7 * 86_400_000

  // ----- Proofs ----------------------------------------------------------------------------------

  function Canonical(b: Body): Content {
    Content(map f | f in RESULT_FIELDS :: if f in b.fields then b.fields[f] else None, b.source)
  }

  /** A content made of a body's source and each field but the shipment, null where the body has none. */
  ghost predicate Covers(c: Content, b: Body) {
    && c.source == b.source && (forall f :: f in c.values <==> f != ShipmentId)
    && forall f | f in c.values :: c.values[f] == if f in b.fields then b.fields[f] else None
  }

  lemma CoversIff(c: Content, b: Body)
    ensures Covers(c, b) <==> c == Canonical(b)
  {
    forall f: Field ensures f in RESULT_FIELDS <==> f != ShipmentId {
      EveryField(f);
    }
    if Covers(c, b) {
      assert c.values == Canonical(b).values;
    }
  }

  lemma EveryField(f: Field)
    ensures f in RESULT_FIELDS + {ShipmentId}
  {
    match f
    case TrackingType => case TrackingNumber => case Carrier => case OriginName => case OriginCode =>
    case DestName => case DestCode => case CurrentLocation => case StatusText => case StatusCode =>
    case Eta => case ProgressPct => case Events => case Provider => case ShipmentId =>
  }

  /** The proof that goes out with a provider result at time `now`. */
  function Issue(tenant: string, b: Body, now: int): Signed {
    Signed(tenant, now + PROOF_LIFE, Canonical(b))
  }

  /** The time a live body was fetched; nothing for a manual one. */
  function VerifyProof(b: Body, tenant: string, now: int, signed: set<Signed>): Result<Option<int>, Refusal> {
    if b.source != Some(Live) then Ok(None)
    else if b.expires.None? || b.expires.value < now || now + PROOF_LIFE < b.expires.value
            || Signed(tenant, b.expires.value, Canonical(b)) !in signed
    then Err(BadProof)
    else Ok(Some(b.expires.value - PROOF_LIFE))
  }

  /**
   * A result sent back unchanged but for its proof verifies exactly from its issue to fifteen minutes later,
   * and is dated by its issue; with any field of it changed, it verifies only if that content was issued too.
   */
  lemma ProofWindow(tenant: string, result: Body, issued: int, sent: Body, now: int, signed: set<Signed>)
    requires result.source == Some(Live) && sent.source == Some(Live) && sent.expires == Some(issued + PROOF_LIFE)
    requires forall g | g in signed && g.tenant == tenant && g.expires == issued + PROOF_LIFE ::
               g == Issue(tenant, result, issued)
    requires Issue(tenant, result, issued) in signed
    ensures VerifyProof(sent, tenant, now, signed) == Ok(Some(issued)) <==>
            issued <= now <= issued + 900_000 && Canonical(sent) == Canonical(result)
  {
    var g := Signed(tenant, issued + PROOF_LIFE, Canonical(sent));
    assert g in signed ==> g == Issue(tenant, result, issued);
  }

  // ----- Saving ----------------------------------------------------------------------------------

  function UpperAscii(c: char): char {
    if 'a' <= c <= 'z' then c - 'a' + 'A' else c
  }

  /** Upper case without white space. */
  function Normalised(s: string): string {
    if s == "" then "" else (if IsSpace(s[0]) then "" else [UpperAscii(s[0])]) + Normalised(s[1..])
  }

  /** The columns an edit writes: the keys of the body, and the provider in any case. */
  function Written(b: Body): map<Field, Value> {
    var all := if Provider in b.fields then b.fields else b.fields[Provider := None];
    if TrackingNumber in all && all[TrackingNumber].Some?
    then all[TrackingNumber := Some(Normalised(all[TrackingNumber].value))]
    else all
  }

  function FirstEta(b: Body): Value {
    if b.etaInitial.Some? && b.etaInitial.value != "" then b.etaInitial
    else if Eta in b.fields && b.fields[Eta] != Some("") then b.fields[Eta] else None
  }

  function Saved(s: Snapshot, b: Body, fetched: Option<int>): Result<Snapshot, Refusal> {
    if fetched.Some? && s.fetchedAt.Some? && fetched.value < s.fetchedAt.value then Err(Stale)
    else
      Ok(s.(fields := s.fields + Written(b),
            source := b.source.GetOr(Manual),
            fetchedAt := if b.source == Some(Live) then fetched else s.fetchedAt,
            etaInitial := if b.source == Some(Live) && s.source != Live then FirstEta(b) else s.etaInitial))
  }

  /**
   * Saving writes each field of the body as it is saved, a missing provider as null, and leaves every other field,
   * and the share, as they were. A live result sets the fetch time, and on a snapshot that was not live the
   * initial ETA: the one stated, or else the ETA. Only a result older than the snapshot's is refused.
   */
  lemma SaveOutcome(s: Snapshot, b: Body, fetched: Option<int>)
    ensures var r := Saved(s, b, fetched);
            && (r.Err? <==> fetched.Some? && s.fetchedAt.Some? && fetched.value < s.fetchedAt.value)
            && (r.Err? ==> r.error == Stale)
            && (r.Ok? ==>
                  && (forall f | f in b.fields :: f in r.value.fields && r.value.fields[f] == SavedAs(f, b.fields[f]))
                  && (Provider !in b.fields ==> Provider in r.value.fields && r.value.fields[Provider] == None)
                  && (forall f | f !in b.fields && f != Provider ::
                        (f in r.value.fields <==> f in s.fields)
                        && (f in s.fields ==> r.value.fields[f] == s.fields[f]))
                  && r.value.source == (if b.source.Some? then b.source.value else Manual)
                  && r.value.fetchedAt == (if b.source == Some(Live) then fetched else s.fetchedAt)
                  && (b.source == Some(Live) && s.source != Live ==>
                        StatedEta(b, r.value.etaInitial))
                  && (b.source != Some(Live) || s.source == Live ==> r.value.etaInitial == s.etaInitial)
                  && (r.value.token, r.value.revoked, r.value.shareExpires) == (s.token, s.revoked, s.shareExpires))
  {
  }

  /** The initial ETA that is stated and not empty, or else the ETA if it is, or else none. */
  predicate StatedEta(b: Body, eta: Value) {
    if b.etaInitial.Some? && b.etaInitial.value != "" then eta == b.etaInitial
    else if Eta in b.fields && b.fields[Eta].Some? && b.fields[Eta].value != "" then eta == b.fields[Eta]
    else eta == None
  }

  /** Putting in order a text is putting in order its characters: spaces go, and small letters become capitals. */
  lemma {:induction false} NormalisedByCharacter(a: string, b: string, c: char)
    ensures Normalised(a + b) == Normalised(a) + Normalised(b)
    ensures Normalised([c]) == if IsSpace(c) then "" else [if 'a' <= c <= 'z' then c - 'a' + 'A' else c]
  {
    assert [c][1..] == "";
    if a == "" {
      assert a + b == b;
    } else {
      assert (a + b)[0] == a[0] && (a + b)[1..] == a[1..] + b;
      NormalisedByCharacter(a[1..], b, c);
    }
  }

  datatype Delivery = Delivery(body: Body, now: int)

  function Deliver(s: Snapshot, d: Delivery, tenant: string, signed: set<Signed>): Snapshot {
    match VerifyProof(d.body, tenant, d.now, signed)
    case Err(_) => s
    case Ok(fetched) => (match Saved(s, d.body, fetched) case Ok(t) => t case Err(_) => s)
  }

  /**
   * An edit by hand is always accepted, whatever proof it carries; a live result exactly with a proof, given out
   * for it to this tenant, that runs out within the next fifteen minutes. A refused one changes nothing.
   */
  lemma DeliverOutcome(s: Snapshot, d: Delivery, tenant: string, signed: set<Signed>)
    ensures var fetched := VerifyProof(d.body, tenant, d.now, signed);
            && (d.body.source != Some(Live) ==> fetched == Ok(None))
            && (d.body.source == Some(Live) ==>
                  (fetched.Ok? <==>
                     && d.body.expires.Some? && d.now <= d.body.expires.value <= d.now + 900_000
                     && exists g :: g in signed && g.tenant == tenant && g.expires == d.body.expires.value
                                    && Covers(g.content, d.body)))
            && (d.body.source == Some(Live) && fetched.Ok? ==> fetched.value == Some(d.body.expires.value - 900_000))
            && (fetched.Err? ==> Deliver(s, d, tenant, signed) == s)
            && (fetched.Ok? ==>
                  var saved := Saved(s, d.body, fetched.value);
                  Deliver(s, d, tenant, signed) == if saved.Ok? then saved.value else s)
  {
    forall g | g in signed && Covers(g.content, d.body) ensures g.content == Canonical(d.body) {
      CoversIff(g.content, d.body);
    }
    CoversIff(Canonical(d.body), d.body);
  }

  function DeliverAll(s: Snapshot, ds: seq<Delivery>, tenant: string, signed: set<Signed>): Snapshot
    decreases |ds|
  {
    if ds == [] then s else DeliverAll(Deliver(s, ds[0], tenant, signed), ds[1..], tenant, signed)
  }

  /** Null counts as earlier than any time. */
  predicate NotBefore(a: Option<int>, b: Option<int>) {
    b.Some? ==> a.Some? && b.value <= a.value
  }

  /** Whatever is delivered, live or manual, in whatever order, the fetch time never goes back. */
  lemma {:induction false} FetchTimeNeverGoesBack(s: Snapshot, ds: seq<Delivery>, tenant: string, signed: set<Signed>)
    ensures NotBefore(DeliverAll(s, ds, tenant, signed).fetchedAt, s.fetchedAt)
    decreases |ds|
  {
    if ds != [] {
      FetchTimeNeverGoesBack(Deliver(s, ds[0], tenant, signed), ds[1..], tenant, signed);
    }
  }

  // ----- Convergence -----------------------------------------------------------------------------

  /** A live result with every field, delivered while its proof holds. */
  predicate Timely(d: Delivery, tenant: string, signed: set<Signed>) {
    RESULT_FIELDS <= d.body.fields.Keys && d.body.source == Some(Live) && VerifyProof(d.body, tenant, d.now, signed).Ok?
  }

  function IssuedAt(d: Delivery): int {
    d.body.expires.GetOr(0) - PROOF_LIFE
  }

  /** A field as it is saved: as it was sent, but for the tracking number, which is put in upper case without spaces. */
  function SavedAs(f: Field, v: Value): Value {
    if f == TrackingNumber && v.Some? then Some(Normalised(v.value)) else v
  }

  /** The snapshot shows this very result. */
  ghost predicate Shows(s: Snapshot, d: Delivery) {
    && s.fetchedAt == Some(IssuedAt(d)) && s.source == Live
    && forall f | f in RESULT_FIELDS ::
         f in s.fields && f in d.body.fields && s.fields[f] == SavedAs(f, d.body.fields[f])
  }

  ghost predicate Latest(d: Delivery, ds: seq<Delivery>) {
    d in ds && forall e | e in ds :: IssuedAt(e) <= IssuedAt(d)
  }

  lemma DeliverTimely(s: Snapshot, d: Delivery, tenant: string, signed: set<Signed>)
    requires Timely(d, tenant, signed)
    ensures var t := Deliver(s, d, tenant, signed);
            if s.fetchedAt.Some? && IssuedAt(d) < s.fetchedAt.value then t == s else Shows(t, d)
  {
  }

  /** In whatever order timely results arrive, the snapshot ends up showing one with the greatest issue time. */
  lemma {:induction false} Converges(s: Snapshot, ds: seq<Delivery>, tenant: string, signed: set<Signed>)
    returns (d: Delivery)
    requires ds != [] && forall e | e in ds :: Timely(e, tenant, signed)
    requires s.fetchedAt.Some? ==> exists e :: e in ds && s.fetchedAt.value <= IssuedAt(e)
    ensures Latest(d, ds) && Shows(DeliverAll(s, ds, tenant, signed), d)
    decreases |ds|
  {
    var t := Deliver(s, ds[0], tenant, signed);
    assert ds[0] in ds && forall e :: e in ds <==> e == ds[0] || e in ds[1..];
    DeliverTimely(s, ds[0], tenant, signed);
    if ds[1..] != [] && exists e :: e in ds[1..] && t.fetchedAt.value <= IssuedAt(e) {
      d := Converges(t, ds[1..], tenant, signed);
    } else {
      d := ds[0];
      AllStale(t, ds[1..], tenant, signed);
    }
  }

  lemma {:induction false} AllStale(s: Snapshot, ds: seq<Delivery>, tenant: string, signed: set<Signed>)
    requires forall e | e in ds :: Timely(e, tenant, signed)
    requires s.fetchedAt.Some? && forall e | e in ds :: IssuedAt(e) < s.fetchedAt.value
    ensures DeliverAll(s, ds, tenant, signed) == s
    decreases |ds|
  {
    if ds != [] {
      assert ds[0] in ds && forall e | e in ds[1..] :: e in ds;
      DeliverTimely(s, ds[0], tenant, signed);
      AllStale(s, ds[1..], tenant, signed);
    }
  }

  // ----- What depends on the order ---------------------------------------------------------------

  // The initial ETA

  /** Not older than what the snapshot has. */
  predicate Fresh(s: Snapshot, d: Delivery) {
    s.fetchedAt.Some? ==> s.fetchedAt.value <= IssuedAt(d)
  }

  function FirstFresh(s: Snapshot, ds: seq<Delivery>): (r: Option<Delivery>)
    ensures r.Some? ==> r.value in ds && Fresh(s, r.value)
    ensures r.None? ==> forall d | d in ds :: !Fresh(s, d)
  {
    if ds == [] then None else if Fresh(s, ds[0]) then Some(ds[0]) else FirstFresh(s, ds[1..])
  }

  ghost predicate AllTimely(ds: seq<Delivery>, tenant: string, signed: set<Signed>) {
    forall d | d in ds :: Timely(d, tenant, signed)
  }

  lemma DeliverStale(s: Snapshot, d: Delivery, tenant: string, signed: set<Signed>)
    requires Timely(d, tenant, signed) && !Fresh(s, d)
    ensures Deliver(s, d, tenant, signed) == s
  {
  }

  lemma DeliverFresh(s: Snapshot, d: Delivery, tenant: string, signed: set<Signed>)
    requires Timely(d, tenant, signed) && Fresh(s, d)
    ensures var t := Deliver(s, d, tenant, signed);
            && t.fetchedAt == Some(IssuedAt(d)) && t.source == Live
            && t.etaInitial == (if s.source == Live then s.etaInitial else FirstEta(d.body))
            && LinkOf(t) == if ShipmentId in d.body.fields then Some(d.body.fields[ShipmentId]) else LinkOf(s)
  {
  }

  /** The initial ETA is that of the first result to be saved on a snapshot that was not live. */
  lemma {:induction false} EtaOfFirstFresh(s: Snapshot, ds: seq<Delivery>, tenant: string, signed: set<Signed>)
    requires AllTimely(ds, tenant, signed)
    ensures DeliverAll(s, ds, tenant, signed).etaInitial ==
            if s.source == Live || FirstFresh(s, ds).None? then s.etaInitial else FirstEta(FirstFresh(s, ds).value.body)
    decreases |ds|
  {
    if ds != [] {
      assert ds[0] in ds && forall d | d in ds[1..] :: d in ds;
      if Fresh(s, ds[0]) { DeliverFresh(s, ds[0], tenant, signed); } else { DeliverStale(s, ds[0], tenant, signed); }
      EtaOfFirstFresh(Deliver(s, ds[0], tenant, signed), ds[1..], tenant, signed);
    }
  }

  lemma {:induction false} Listing(m: multiset<Delivery>) returns (ds: seq<Delivery>)
    ensures multiset(ds) == m
    decreases |m|
  {
    if m == multiset{} {
      ds := [];
    } else {
      var d :| d in m;
      var rest := Listing(m - multiset{d});
      ds := [d] + rest;
    }
  }

  lemma SameMembers(ds: seq<Delivery>, es: seq<Delivery>)
    requires multiset(ds) == multiset(es)
    ensures forall d :: d in ds <==> d in es
  {
    assert forall d :: d in ds <==> d in multiset(ds);
    assert forall d :: d in es <==> d in multiset(es);
  }

  lemma SameLatest(ds: seq<Delivery>, es: seq<Delivery>)
    requires multiset(ds) == multiset(es)
    ensures forall d :: Latest(d, ds) <==> Latest(d, es)
  {
    SameMembers(ds, es);
  }

  lemma InFront(ds: seq<Delivery>, d: Delivery) returns (es: seq<Delivery>)
    requires d in ds
    ensures multiset(es) == multiset(ds) && es != [] && es[0] == d
  {
    assert d in multiset(ds);
    var rest := Listing(multiset(ds) - multiset{d});
    es := [d] + rest;
  }

  ghost predicate SameEtaInAnyOrder(s: Snapshot, ds: seq<Delivery>, tenant: string, signed: set<Signed>) {
    forall es | multiset(es) == multiset(ds) ::
      DeliverAll(s, es, tenant, signed).etaInitial == DeliverAll(s, ds, tenant, signed).etaInitial
  }

  /**
   * The initial ETA is the same in any order exactly when the snapshot is live already, or all fresh results state
   * the same.
   */
  lemma InitialEtaIgnoresOrderIff(s: Snapshot, ds: seq<Delivery>, tenant: string, signed: set<Signed>)
    requires AllTimely(ds, tenant, signed)
    ensures SameEtaInAnyOrder(s, ds, tenant, signed) <==>
            || s.source == Live
            || forall d, e | d in ds && e in ds && Fresh(s, d) && Fresh(s, e) :: FirstEta(d.body) == FirstEta(e.body)
  {
    forall es | multiset(es) == multiset(ds)
      ensures AllTimely(es, tenant, signed) && forall d :: d in ds <==> d in es
    {
      SameMembers(ds, es);
    }
    if s.source == Live
       || forall d, e | d in ds && e in ds && Fresh(s, d) && Fresh(s, e) :: FirstEta(d.body) == FirstEta(e.body) {
      forall es | multiset(es) == multiset(ds)
        ensures DeliverAll(s, es, tenant, signed).etaInitial == DeliverAll(s, ds, tenant, signed).etaInitial
      {
        EtaOfFirstFresh(s, ds, tenant, signed);
        EtaOfFirstFresh(s, es, tenant, signed);
      }
    } else {
      var d, e :| d in ds && e in ds && Fresh(s, d) && Fresh(s, e) && FirstEta(d.body) != FirstEta(e.body);
      var es := InFront(ds, d);
      EtaOfFirstFresh(s, es, tenant, signed);
      var es' := InFront(ds, e);
      EtaOfFirstFresh(s, es', tenant, signed);
    }
  }

  /** A result issued no earlier than any of the list is never too late, wherever the others leave the snapshot. */
  lemma {:induction false} LatestStaysFresh(s: Snapshot, ds: seq<Delivery>, l: Delivery, tenant: string,
                                            signed: set<Signed>)
    requires AllTimely(ds, tenant, signed) && Fresh(s, l) && forall e | e in ds :: IssuedAt(e) <= IssuedAt(l)
    ensures Fresh(DeliverAll(s, ds, tenant, signed), l)
    decreases |ds|
  {
    if ds != [] {
      assert ds[0] in ds && forall e | e in ds[1..] :: e in ds;
      DeliverTimely(s, ds[0], tenant, signed);
      LatestStaysFresh(Deliver(s, ds[0], tenant, signed), ds[1..], l, tenant, signed);
    }
  }

  lemma {:induction false} DeliverAppend(s: Snapshot, ds: seq<Delivery>, d: Delivery, tenant: string,
                                         signed: set<Signed>)
    ensures DeliverAll(s, ds + [d], tenant, signed) == Deliver(DeliverAll(s, ds, tenant, signed), d, tenant, signed)
    decreases |ds|
  {
    if ds == [] {
      assert [] + [d] == [d] && [d][1..] == [];
    } else {
      assert (ds + [d])[0] == ds[0] && (ds + [d])[1..] == ds[1..] + [d];
      DeliverAppend(Deliver(s, ds[0], tenant, signed), ds[1..], d, tenant, signed);
    }
  }

  /** The same results with one of them moved to the end. */
  lemma AtEnd(ds: seq<Delivery>, d: Delivery) returns (es: seq<Delivery>)
    requires d in ds
    ensures multiset(es + [d]) == multiset(ds) && forall e | e in es :: e in ds
  {
    assert d in multiset(ds);
    es := Listing(multiset(ds) - multiset{d});
    assert multiset(es + [d]) == multiset(ds);
    SameMembers(ds, es + [d]);
    assert forall e | e in es :: e in es + [d];
  }

  /** Of the latest results, the one delivered last is shown, and its shipment, if it names one, is linked. */
  lemma LatestLast(s: Snapshot, ds: seq<Delivery>, d: Delivery, tenant: string, signed: set<Signed>)
    returns (es: seq<Delivery>)
    requires AllTimely(ds, tenant, signed) && Latest(d, ds) && Fresh(s, d)
    ensures multiset(es) == multiset(ds) && Shows(DeliverAll(s, es, tenant, signed), d)
    ensures LinkIn(d).Some? ==> LinkOf(DeliverAll(s, es, tenant, signed)) == LinkIn(d)
  {
    var rest := AtEnd(ds, d);
    es := rest + [d];
    LatestStaysFresh(s, rest, d, tenant, signed);
    DeliverAppend(s, rest, d, tenant, signed);
    var t := DeliverAll(s, rest, tenant, signed);
    DeliverFresh(t, d, tenant, signed);
    DeliverTimely(t, d, tenant, signed);
  }

  // The fields of the result

  /** The result fields a snapshot shows. */
  function Shown(s: Snapshot): map<Field, Value> {
    map f | f in RESULT_FIELDS && f in s.fields :: s.fields[f]
  }

  /** The result fields as a result writes them. */
  function ResultOf(d: Delivery): map<Field, Value> {
    map f | f in RESULT_FIELDS && f in d.body.fields :: SavedAs(f, d.body.fields[f])
  }

  lemma ShowsResult(s: Snapshot, d: Delivery)
    requires Shows(s, d)
    ensures Shown(s) == ResultOf(d)
  {
    assert Shown(s).Keys == ResultOf(d).Keys;
  }

  ghost predicate SameResultInAnyOrder(s: Snapshot, ds: seq<Delivery>, tenant: string, signed: set<Signed>) {
    forall es | multiset(es) == multiset(ds) ::
      Shown(DeliverAll(s, es, tenant, signed)) == Shown(DeliverAll(s, ds, tenant, signed))
  }

  /**
   * Any order of the same timely results leaves a live snapshot of the greatest issue time. The fields of the
   * result are the same in every order exactly when all results of that time write the same ones.
   */
  lemma ResultIgnoresOrderIff(s: Snapshot, ds: seq<Delivery>, l: Delivery, tenant: string, signed: set<Signed>)
    requires AllTimely(ds, tenant, signed) && Latest(l, ds) && Fresh(s, l)
    ensures forall es | multiset(es) == multiset(ds) ::
              var t := DeliverAll(s, es, tenant, signed); t.fetchedAt == Some(IssuedAt(l)) && t.source == Live
    ensures SameResultInAnyOrder(s, ds, tenant, signed) <==>
            forall d, e | Latest(d, ds) && Latest(e, ds) :: ResultOf(d) == ResultOf(e)
  {
    forall es | multiset(es) == multiset(ds)
      ensures var t := DeliverAll(s, es, tenant, signed);
              t.fetchedAt == Some(IssuedAt(l)) && t.source == Live
              && exists d :: Latest(d, ds) && Shown(t) == ResultOf(d)
    {
      var d := EndsShowingLatest(s, ds, es, l, tenant, signed);
    }
    forall d | Latest(d, ds) && SameResultInAnyOrder(s, ds, tenant, signed)
      ensures ResultOf(d) == Shown(DeliverAll(s, ds, tenant, signed))
    {
      var es := LatestLast(s, ds, d, tenant, signed);
      ShowsResult(DeliverAll(s, es, tenant, signed), d);
    }
  }

  lemma EndsShowingLatest(s: Snapshot, ds: seq<Delivery>, es: seq<Delivery>, l: Delivery, tenant: string,
                          signed: set<Signed>)
    returns (d: Delivery)
    requires AllTimely(ds, tenant, signed) && Latest(l, ds) && Fresh(s, l) && multiset(es) == multiset(ds)
    ensures Latest(d, ds) && Shown(DeliverAll(s, es, tenant, signed)) == ResultOf(d)
    ensures var t := DeliverAll(s, es, tenant, signed); t.fetchedAt == Some(IssuedAt(l)) && t.source == Live
  {
    SameMembers(ds, es);
    assert es != [];
    d := Converges(s, es, tenant, signed);
    ShowsResult(DeliverAll(s, es, tenant, signed), d);
  }

  // The shipment link

  /** The shipment a snapshot is linked to, which no proof covers. */
  function LinkOf(s: Snapshot): Option<Value> {
    if ShipmentId in s.fields then Some(s.fields[ShipmentId]) else None
  }

  function LinkIn(d: Delivery): Option<Value> {
    if ShipmentId in d.body.fields then Some(d.body.fields[ShipmentId]) else None
  }

  /** All latest results that name a shipment name this one. */
  ghost predicate LatestNameOnly(ds: seq<Delivery>, at: int, link: Option<Value>) {
    forall d | d in ds && IssuedAt(d) == at && LinkIn(d).Some? :: LinkIn(d) == link
  }

  /** Once a latest result is in and the link is one that no other latest one changes, it stays. */
  lemma {:induction false} LinkAfterLatest(s: Snapshot, at: int, ds: seq<Delivery>, tenant: string, signed: set<Signed>)
    requires AllTimely(ds, tenant, signed) && s.fetchedAt == Some(at) && forall d | d in ds :: IssuedAt(d) <= at
    requires LatestNameOnly(ds, at, LinkOf(s))
    ensures LinkOf(DeliverAll(s, ds, tenant, signed)) == LinkOf(s)
    decreases |ds|
  {
    if ds != [] {
      assert ds[0] in ds && forall d | d in ds[1..] :: d in ds;
      if Fresh(s, ds[0]) { DeliverFresh(s, ds[0], tenant, signed); } else { DeliverStale(s, ds[0], tenant, signed); }
      LinkAfterLatest(Deliver(s, ds[0], tenant, signed), at, ds[1..], tenant, signed);
    }
  }

  /** If the latest results that name a shipment name one and the same, the snapshot ends up linked to it. */
  lemma {:induction false} LatestLinkDecides(s: Snapshot, l: Delivery, ds: seq<Delivery>, tenant: string,
                                             signed: set<Signed>)
    requires AllTimely(ds, tenant, signed) && Latest(l, ds) && Fresh(s, l) && LinkIn(l).Some?
    requires LatestNameOnly(ds, IssuedAt(l), LinkIn(l))
    ensures LinkOf(DeliverAll(s, ds, tenant, signed)) == LinkIn(l)
    decreases |ds|
  {
    assert ds[0] in ds && forall d :: d in ds <==> d == ds[0] || d in ds[1..];
    var t := Deliver(s, ds[0], tenant, signed);
    if Fresh(s, ds[0]) { DeliverFresh(s, ds[0], tenant, signed); } else { DeliverStale(s, ds[0], tenant, signed); }
    if ds[0] == l {
      LinkAfterLatest(t, IssuedAt(l), ds[1..], tenant, signed);
    } else {
      LatestLinkDecides(t, l, ds[1..], tenant, signed);
    }
  }

  lemma {:induction false} LinkStays(s: Snapshot, ds: seq<Delivery>, tenant: string, signed: set<Signed>)
    requires AllTimely(ds, tenant, signed)
    requires forall d | d in ds && Fresh(s, d) && LinkIn(d).Some? :: LinkIn(d) == LinkOf(s)
    ensures LinkOf(DeliverAll(s, ds, tenant, signed)) == LinkOf(s)
    decreases |ds|
  {
    if ds != [] {
      assert ds[0] in ds && forall d | d in ds[1..] :: d in ds;
      if Fresh(s, ds[0]) { DeliverFresh(s, ds[0], tenant, signed); } else { DeliverStale(s, ds[0], tenant, signed); }
      LinkStays(Deliver(s, ds[0], tenant, signed), ds[1..], tenant, signed);
    }
  }

  ghost predicate SameLinkInAnyOrder(s: Snapshot, ds: seq<Delivery>, tenant: string, signed: set<Signed>) {
    forall es | multiset(es) == multiset(ds) ::
      LinkOf(DeliverAll(s, es, tenant, signed)) == LinkOf(DeliverAll(s, ds, tenant, signed))
  }

  /** Some latest result names a shipment, and no two of them name different ones. */
  ghost predicate LatestAgreeOnLink(ds: seq<Delivery>) {
    && (exists l :: Latest(l, ds) && LinkIn(l).Some?)
    && forall d, e | Latest(d, ds) && Latest(e, ds) && LinkIn(d).Some? && LinkIn(e).Some? :: LinkIn(d) == LinkIn(e)
  }

  ghost predicate FreshKeepLink(s: Snapshot, ds: seq<Delivery>) {
    forall d | d in ds && Fresh(s, d) && LinkIn(d).Some? :: LinkIn(d) == LinkOf(s)
  }

  /**
   * The shipment link is the same in every order exactly when some latest result names a shipment and all
   * latest ones that name one agree, or no fresh result names another than the snapshot has.
   */
  lemma LinkIgnoresOrderIff(s: Snapshot, ds: seq<Delivery>, l: Delivery, tenant: string, signed: set<Signed>)
    requires AllTimely(ds, tenant, signed) && Latest(l, ds) && Fresh(s, l)
    ensures SameLinkInAnyOrder(s, ds, tenant, signed) <==> LatestAgreeOnLink(ds) || FreshKeepLink(s, ds)
  {
    forall es | multiset(es) == multiset(ds)
      ensures AllTimely(es, tenant, signed) && forall d :: d in ds <==> d in es
    {
      SameMembers(ds, es);
    }
    if LatestAgreeOnLink(ds) {
      var k :| Latest(k, ds) && LinkIn(k).Some?;
      forall es | multiset(es) == multiset(ds) ensures LinkOf(DeliverAll(s, es, tenant, signed)) == LinkIn(k) {
        SameLatest(ds, es);
        AgreedLink(ds, es, k);
        LatestLinkDecides(s, k, es, tenant, signed);
      }
    } else if FreshKeepLink(s, ds) {
      forall es | multiset(es) == multiset(ds) ensures LinkOf(DeliverAll(s, es, tenant, signed)) == LinkOf(s) {
        LinkStays(s, es, tenant, signed);
      }
    } else {
      OrderDecidesLink(s, ds, l, tenant, signed);
    }
  }

  lemma AgreedLink(ds: seq<Delivery>, es: seq<Delivery>, k: Delivery)
    requires LatestAgreeOnLink(ds) && Latest(k, ds) && LinkIn(k).Some? && forall d :: Latest(d, ds) <==> Latest(d, es)
    ensures LatestNameOnly(es, IssuedAt(k), LinkIn(k))
  {
    forall d | d in es && IssuedAt(d) == IssuedAt(k) && LinkIn(d).Some? ensures LinkIn(d) == LinkIn(k) {
      assert Latest(k, es);
      assert Latest(d, es);
    }
  }

  lemma OrderDecidesLink(s: Snapshot, ds: seq<Delivery>, l: Delivery, tenant: string, signed: set<Signed>)
    requires AllTimely(ds, tenant, signed) && Latest(l, ds) && Fresh(s, l)
    requires !LatestAgreeOnLink(ds) && !FreshKeepLink(s, ds)
    ensures !SameLinkInAnyOrder(s, ds, tenant, signed)
  {
    if exists k :: Latest(k, ds) && LinkIn(k).Some? {
      var d, e :| Latest(d, ds) && Latest(e, ds) && LinkIn(d).Some? && LinkIn(e).Some? && LinkIn(d) != LinkIn(e);
      var es := LatestLast(s, ds, d, tenant, signed);
      var es' := LatestLast(s, ds, e, tenant, signed);
    } else {
      var d :| d in ds && Fresh(s, d) && LinkIn(d).Some? && LinkIn(d) != LinkOf(s);
      LatestFirst(s, ds, l, tenant, signed);
      LatestSecond(s, ds, d, l, tenant, signed);
    }
  }

  ghost predicate LatestNameNone(ds: seq<Delivery>) {
    forall l | Latest(l, ds) :: LinkIn(l).None?
  }

  /** With a latest result delivered first, and none of the latest naming a shipment, the snapshot keeps its link. */
  lemma LatestFirst(s: Snapshot, ds: seq<Delivery>, l: Delivery, tenant: string, signed: set<Signed>)
    requires AllTimely(ds, tenant, signed) && Latest(l, ds) && Fresh(s, l) && LatestNameNone(ds)
    ensures exists es :: multiset(es) == multiset(ds) && LinkOf(DeliverAll(s, es, tenant, signed)) == LinkOf(s)
  {
    var es := InFront(ds, l);
    SameMembers(ds, es);
    assert forall e | e in es[1..] :: e in es && (IssuedAt(e) == IssuedAt(l) ==> Latest(e, ds));
    DeliverFresh(s, l, tenant, signed);
    LinkAfterLatest(Deliver(s, l, tenant, signed), IssuedAt(l), es[1..], tenant, signed);
    assert DeliverAll(s, es, tenant, signed) == DeliverAll(Deliver(s, l, tenant, signed), es[1..], tenant, signed);
  }

  lemma TwoInFront(ds: seq<Delivery>, d: Delivery, l: Delivery) returns (rest: seq<Delivery>)
    requires d in ds && l in ds && d != l
    ensures multiset([d] + ([l] + rest)) == multiset(ds)
    ensures forall e | e in rest :: e in ds
  {
    assert d in multiset(ds) && l in multiset(ds);
    rest := Listing(multiset(ds) - multiset{d} - multiset{l});
    assert multiset([d] + ([l] + rest)) == multiset{d} + multiset{l} + multiset(rest);
    SameMembers(ds, [d] + ([l] + rest));
    assert forall e | e in rest :: e in [d] + ([l] + rest);
  }

  lemma DeliverTwo(s: Snapshot, d: Delivery, l: Delivery, rest: seq<Delivery>, tenant: string, signed: set<Signed>)
    ensures DeliverAll(s, [d] + ([l] + rest), tenant, signed)
            == DeliverAll(Deliver(Deliver(s, d, tenant, signed), l, tenant, signed), rest, tenant, signed)
  {
    assert ([d] + ([l] + rest))[1..] == [l] + rest && ([l] + rest)[1..] == rest;
  }

  /** With a result that names a shipment delivered just before a latest one, the snapshot ends up with its link. */
  lemma LatestSecond(s: Snapshot, ds: seq<Delivery>, d: Delivery, l: Delivery, tenant: string, signed: set<Signed>)
    requires AllTimely(ds, tenant, signed) && Latest(l, ds) && LatestNameNone(ds)
    requires d in ds && Fresh(s, d) && LinkIn(d).Some?
    ensures exists es :: multiset(es) == multiset(ds) && LinkOf(DeliverAll(s, es, tenant, signed)) == LinkIn(d)
  {
    var rest := TwoInFront(ds, d, l);
    DeliverFresh(s, d, tenant, signed);
    var t := Deliver(s, d, tenant, signed);
    DeliverFresh(t, l, tenant, signed);
    assert forall e | e in rest && IssuedAt(e) == IssuedAt(l) :: Latest(e, ds);
    LinkAfterLatest(Deliver(t, l, tenant, signed), IssuedAt(l), rest, tenant, signed);
    DeliverTwo(s, d, l, rest, tenant, signed);
  }

  /**
   * One result, issued once and sent twice under different shipments: both are saved, and the one delivered last
   * decides the link.
   */
  lemma ResentUnderAnotherShipment(s: Snapshot, tenant: string, result: Body, issued: int, now: int,
                                   a: string, b: string)
    requires result.source == Some(Live) && result.fields.Keys == RESULT_FIELDS && a != b
    requires issued <= now <= issued + PROOF_LIFE && (s.fetchedAt.Some? ==> s.fetchedAt.value <= issued)
    ensures var signed := {Issue(tenant, result, issued)};
            var d, e := Resent(result, issued, now, a), Resent(result, issued, now, b);
            && Timely(d, tenant, signed) && Timely(e, tenant, signed)
            && LinkOf(DeliverAll(s, [d, e], tenant, signed)) == Some(Some(b))
            && LinkOf(DeliverAll(s, [e, d], tenant, signed)) == Some(Some(a))
  {
    var signed := {Issue(tenant, result, issued)};
    ResentIsTimely(tenant, result, issued, now, a);
    ResentIsTimely(tenant, result, issued, now, b);
    var d, e := Resent(result, issued, now, a), Resent(result, issued, now, b);
    LastOfTwoDecides(s, d, e, tenant, signed);
    LastOfTwoDecides(s, e, d, tenant, signed);
  }

  /** A result sent back with its proof, to be linked to a shipment. */
  function Resent(result: Body, issued: int, now: int, shipment: string): Delivery {
    Delivery(result.(fields := result.fields[ShipmentId := Some(shipment)], expires := Some(issued + PROOF_LIFE)), now)
  }

  lemma ResentIsTimely(tenant: string, result: Body, issued: int, now: int, shipment: string)
    requires result.source == Some(Live) && result.fields.Keys == RESULT_FIELDS
    requires issued <= now <= issued + PROOF_LIFE
    ensures Timely(Resent(result, issued, now, shipment), tenant, {Issue(tenant, result, issued)})
    ensures IssuedAt(Resent(result, issued, now, shipment)) == issued
  {
    assert Canonical(Resent(result, issued, now, shipment).body) == Canonical(result);
  }

  lemma LastOfTwoDecides(s: Snapshot, d: Delivery, e: Delivery, tenant: string, signed: set<Signed>)
    requires Timely(d, tenant, signed) && Timely(e, tenant, signed) && IssuedAt(d) == IssuedAt(e) && Fresh(s, d)
    requires LinkIn(e).Some?
    ensures LinkOf(DeliverAll(s, [d, e], tenant, signed)) == LinkIn(e)
  {
    DeliverFresh(s, d, tenant, signed);
    DeliverFresh(Deliver(s, d, tenant, signed), e, tenant, signed);
    DeliverTwo(s, d, e, [], tenant, signed);
    assert [d] + ([e] + []) == [d, e];
  }

  // ----- The record and its shares ---------------------------------------------------------------

  /** What a new snapshot stores of a field: what was sent, the tracking number as it is, or what stands for nothing. */
  function Stored(b: Body, f: Field): Value {
    if f in b.fields && b.fields[f].Some? then b.fields[f]
    else match f case ProgressPct => Some("0") case Events => Some("[]") case _ => None
  }

  function Created(b: Body, fetched: Option<int>, token: string, now: int): Snapshot {
    Snapshot(map f | f in RESULT_FIELDS + {ShipmentId} :: Stored(b, f), b.source.GetOr(Manual), fetched, FirstEta(b),
             token, false, Some(now + SHARE_LIFE))
  }

  datatype ShareCall = ShareCall(revoke: bool, token: string, now: int)

  function Reshared(s: Snapshot, c: ShareCall): Snapshot {
    s.(revoked := c.revoke, token := c.token, shareExpires := Some(c.now + SHARE_LIFE))
  }

  /** The public look-up. */
  predicate Opens(s: Snapshot, token: string, now: int) {
    s.token == token && !s.revoked && s.shareExpires.Some? && now < s.shareExpires.value
  }

  class SnapshotRecord {
    var row: Snapshot
    /** Every share token this record has had; tokens are random, so a new one is none of them. */
    ghost var tokens: set<string>

    ghost predicate Valid()
      reads this
    {
      row.token in tokens
    }

    /** A new snapshot holds every field as it was sent, and is shared from the start, for a week. */
    constructor (b: Body, fetched: Option<int>, token: string, now: int)
      ensures Valid() && tokens == {token} && row == Created(b, fetched, token, now)
      ensures forall f | f in b.fields && b.fields[f].Some? :: f in row.fields && row.fields[f] == b.fields[f]
      ensures row.fetchedAt == fetched
      ensures row.source == b.source.GetOr(Manual) && StatedEta(b, row.etaInitial)
      ensures forall f | f !in b.fields || b.fields[f].None? ::
                f in row.fields
                && row.fields[f] == if f == ProgressPct then Some("0") else if f == Events then Some("[]") else None
      ensures forall t, at :: Opens(row, t, at) <==> t == token && at < now + 7 * 24 * 3_600_000
    {
      forall f ensures f in Created(b, fetched, token, now).fields {
        EveryField(f);
      }
      row := Created(b, fetched, token, now);
      tokens := {token};
    }

    method Update(b: Body, tenant: string, now: int, signed: set<Signed>) returns (refused: Option<Refusal>)
      requires Valid()
      modifies `row
      ensures Valid() && row == Deliver(old(row), Delivery(b, now), tenant, signed)
      ensures match VerifyProof(b, tenant, now, signed)
              case Err(e) => refused == Some(e)
              case Ok(fetched) =>
                refused == if NotBefore(fetched, old(row).fetchedAt) || fetched.None? then None else Some(Stale)
      ensures refused.Some? ==> row == old(row)
      ensures forall t, at :: Opens(row, t, at) <==> Opens(old(row), t, at)
    {
      var fetched := VerifyProof(b, tenant, now, signed);
      if fetched.Err? {
        return Some(fetched.error);
      }
      var patch := row.fields + Written(b);
      var fetchedAt, etaInitial := row.fetchedAt, row.etaInitial;
      if b.source == Some(Live) {
        fetchedAt := fetched.value;
      }
      if fetched.value.Some? && row.fetchedAt.Some? && fetched.value.value < row.fetchedAt.value {
        return Some(Stale);
      }
      if b.source == Some(Live) && row.source != Live {
        etaInitial := FirstEta(b);
      }
      row := row.(fields := patch, source := b.source.GetOr(Manual), fetchedAt := fetchedAt, etaInitial := etaInitial);
      refused := None;
    }

    /** Sharing again and revoking both replace the token: from then on no earlier token finds anything. */
    method Share(revoke: bool, token: string, now: int)
      requires Valid() && token !in tokens
      modifies this
      ensures Valid() && tokens == old(tokens) + {token}
      ensures row == Reshared(old(row), ShareCall(revoke, token, now))
      ensures forall t, at :: Opens(row, t, at) <==> t == token && !revoke && at < now + 7 * 24 * 3_600_000
      ensures forall t, at | Opens(row, t, at) :: t in tokens && t !in old(tokens)
    {
      row := row.(revoked := revoke, token := token, shareExpires := Some(now + SHARE_LIFE));
      tokens := tokens + {token};
    }
  }

  datatype Event = Delivering(delivery: Delivery) | Sharing(call: ShareCall)

  function AfterEvent(s: Snapshot, e: Event, tenant: string, signed: set<Signed>): Snapshot {
    match e case Delivering(d) => Deliver(s, d, tenant, signed) case Sharing(c) => Reshared(s, c)
  }

  function AfterEvents(s: Snapshot, es: seq<Event>, tenant: string, signed: set<Signed>): Snapshot
    decreases |es|
  {
    if es == [] then s else AfterEvents(AfterEvent(s, es[0], tenant, signed), es[1..], tenant, signed)
  }

  function LastShare(es: seq<Event>): Option<ShareCall> {
    if es == [] then None
    else if LastShare(es[1..]).Some? then LastShare(es[1..])
    else if es[0].Sharing? then Some(es[0].call) else None
  }

  /**
   * After any run of saves, shares and revocations, a token opens the snapshot exactly if the last share gave it out
   * and a week has not passed; without one, exactly if it did before.
   */
  lemma {:induction false} OnlyLastTokenOpens(
    s: Snapshot, es: seq<Event>, tenant: string, signed: set<Signed>, token: string, now: int)
    ensures Opens(AfterEvents(s, es, tenant, signed), token, now) <==>
            match LastShare(es)
            case None => Opens(s, token, now)
            case Some(last) => token == last.token && !last.revoke && now < last.now + SHARE_LIFE
    decreases |es|
  {
    if es != [] {
      OnlyLastTokenOpens(AfterEvent(s, es[0], tenant, signed), es[1..], tenant, signed, token, now);
    }
  }
}
