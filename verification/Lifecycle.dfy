/** Container lifecycle: the stage moves one step at a time, and each move leaves one line of history. */
module Lifecycle {
  import opened Outcomes

  const STAGES := [
    "AVAILABLE_AT_DEPOT", "DEPOT_ALLOCATED", "GATE_IN_ORIGIN", "VESSEL_LOADED", "OCEAN_TRANSIT", "PORT_DISCHARGED",
    "CUSTOMS_RELEASE", "GATE_OUT_PORT", "ONLAND_TRANSIT", "AT_CONSIGNEE", "DEVANNED", "EMPTY_RETURNED"]

  datatype Refusal = NotFound | StageByEdit | NotNextStage

  /** indexOf: -1 for a text that is no stage. */
  function IndexOf(stage: string): (k: int)
    ensures -1 <= k < |STAGES| && (k >= 0 ==> STAGES[k] == stage) && (k == -1 ==> stage !in STAGES)
  {
    Find(stage, 0)
  }

  function Find(stage: string, from: nat): (k: int)
    requires from <= |STAGES|
    ensures k == -1 || (from <= k < |STAGES| && STAGES[k] == stage)
    ensures k == -1 ==> stage !in STAGES[from..]
    decreases |STAGES| - from
  {
    if from == |STAGES| then -1 else if STAGES[from] == stage then from else Find(stage, from + 1)
  }

  /** The tables' part for one container number. `details` stands for all the other columns. */
  datatype Record = Record(stage: string, history: seq<string>, details: map<string, string>)

  datatype Call =
    | Upsert(stage: Option<string>, details: map<string, string>)
    | Patch(stage: Option<string>, details: map<string, string>)
    | Advance(next: string)

  function After(r: Option<Record>, c: Call): Result<Option<Record>, Refusal> {
    match c
    case Upsert(stage, details) =>
      var current := if r.Some? then r.value.stage else STAGES[0];
      if stage.Some? && stage.value != current then Err(StageByEdit)
      else if r.Some? then Ok(Some(r.value.(details := r.value.details + details)))
      else Ok(Some(Record(STAGES[0], [], details)))
    case Patch(stage, details) =>
      if r.None? then Err(NotFound)
      else if stage.Some? then Err(StageByEdit)
      else Ok(Some(r.value.(details := r.value.details + details)))
    case Advance(stage) =>
      if r.None? then Err(NotFound)
      else if r.value.stage == stage then Ok(r)
      else if IndexOf(stage) != IndexOf(r.value.stage) + 1 then Err(NotNextStage)
      else Ok(Some(r.value.(stage := stage, history := r.value.history + [stage])))
  }

  function Run(r: Option<Record>, calls: seq<Call>): Option<Record>
    decreases |calls|
  {
    if calls == [] then r
    else Run(match After(r, calls[0]) case Ok(t) => t case Err(_) => r, calls[1..])
  }

  /** Stages are requested by name: the schema admits no other text. */
  predicate Wellformed(c: Call) {
    c.Advance? ==> c.next in STAGES
  }

  /** The history is the walk along the stage list from the depot up to the current stage. */
  predicate OnTheWalk(r: Option<Record>) {
    r.Some? ==> |r.value.history| < |STAGES| && r.value.history == STAGES[1..|r.value.history| + 1]
                && r.value.stage == STAGES[|r.value.history|]
  }

  lemma StagesDistinct(i: nat, j: nat)
    requires i < |STAGES| && j < |STAGES| && STAGES[i] == STAGES[j]
    ensures i == j
  {
    assert STAGES[0] == "AVAILABLE_AT_DEPOT" && STAGES[1] == "DEPOT_ALLOCATED" && STAGES[2] == "GATE_IN_ORIGIN";
  }

  lemma IndexOfStage(k: nat)
    requires k < |STAGES|
    ensures IndexOf(STAGES[k]) == k
  {
    StagesDistinct(if IndexOf(STAGES[k]) >= 0 then IndexOf(STAGES[k]) else k, k);
  }

  lemma WalkGoesOn(n: nat)
    requires n + 1 < |STAGES|
    ensures STAGES[1..n + 2] == STAGES[1..n + 1] + [STAGES[n + 1]]
  {
  }

  lemma AdvanceStaysOnWalk(r: Record, next: string)
    requires OnTheWalk(Some(r)) && next in STAGES && r.stage != next && IndexOf(next) == IndexOf(r.stage) + 1
    ensures OnTheWalk(Some(r.(stage := next, history := r.history + [next])))
  {
    var n := |r.history|;
    IndexOfStage(n);
    WalkGoesOn(n);
  }

  lemma CallStaysOnWalk(r: Option<Record>, c: Call)
    requires OnTheWalk(r) && Wellformed(c)
    ensures var t := After(r, c); t.Ok? ==> OnTheWalk(t.value)
  {
    if r.Some? && c.Advance? && After(r, c).Ok? && r.value.stage != c.next {
      AdvanceStaysOnWalk(r.value, c.next);
    }
  }

  /**
   * Any run of upserts, edits and stage calls on a new container leaves a history without gap or repeat,
   * as long as the current stage's index.
   */
  lemma {:induction false} RunStaysOnWalk(r: Option<Record>, calls: seq<Call>)
    requires OnTheWalk(r) && forall c | c in calls :: Wellformed(c)
    ensures OnTheWalk(Run(r, calls))
    ensures Run(r, calls).Some? ==> IndexOf(Run(r, calls).value.stage) == |Run(r, calls).value.history|
    decreases |calls|
  {
    if calls != [] {
      assert calls[0] in calls && forall c | c in calls[1..] :: c in calls;
      CallStaysOnWalk(r, calls[0]);
      RunStaysOnWalk(match After(r, calls[0]) case Ok(t) => t case Err(_) => r, calls[1..]);
    } else if r.Some? {
      IndexOfStage(|r.value.history|);
    }
  }

  // ----- What each call does ---------------------------------------------------------------------

  /**
   * Of a container on the walk with n lines of history, stage k is accepted exactly when it is the current one, k == n,
   * which changes nothing, or the next, k == n + 1, which becomes its stage and adds the one line.
   */
  lemma AdvanceOutcome(r: Record, k: nat)
    requires OnTheWalk(Some(r)) && k < |STAGES|
    ensures var t, n := After(Some(r), Advance(STAGES[k])), |r.history|;
            && (t.Ok? <==> k == n || k == n + 1)
            && (t.Err? ==> t.error == NotNextStage)
            && (k == n ==> t == Ok(Some(r)))
            && (k == n + 1 ==> t == Ok(Some(Record(STAGES[k], r.history + [STAGES[k]], r.details))))
  {
    var n := |r.history|;
    IndexOfStage(k);
    IndexOfStage(n);
  }

  /** A container that does not exist has no stage to change; nor has one to edit. */
  lemma MissingContainer(stage: string, asked: Option<string>, details: map<string, string>)
    ensures After(None, Advance(stage)) == Err(NotFound) && After(None, Patch(asked, details)) == Err(NotFound)
  {
  }

  /**
   * An upsert makes a new container at the depot, without history, or adds its details to the existing one; it is
   * refused exactly when it names another stage than the current one. An edit is refused exactly when it names
   * any.
   */
  lemma SaveOutcome(r: Option<Record>, stage: Option<string>, details: map<string, string>)
    ensures var t, current := After(r, Upsert(stage, details)), if r.Some? then r.value.stage else "AVAILABLE_AT_DEPOT";
            && (t.Err? <==> stage.Some? && stage.value != current)
            && (t.Err? ==> t.error == StageByEdit)
            && (t.Ok? && r.None? ==> t.value == Some(Record("AVAILABLE_AT_DEPOT", [], details)))
            && (t.Ok? && r.Some? ==> t.value == Some(Record(current, r.value.history, r.value.details + details)))
    ensures r.Some? ==>
              After(r, Patch(stage, details))
              == if stage.Some? then Err(StageByEdit)
                 else Ok(Some(Record(r.value.stage, r.value.history, r.value.details + details)))
  {
  }

  function Stages(from: nat): seq<Call>
    requires 1 <= from <= |STAGES|
    decreases |STAGES| - from
  {
    if from == |STAGES| then [] else [Advance(STAGES[from])] + Stages(from + 1)
  }

  lemma OneStep(r: Record) returns (next: Record)
    requires OnTheWalk(Some(r)) && |r.history| + 1 < |STAGES|
    ensures |next.history| == |r.history| + 1 && next.details == r.details && OnTheWalk(Some(next))
    ensures After(Some(r), Advance(STAGES[|r.history| + 1])) == Ok(Some(next))
  {
    var n := |r.history|;
    AdvanceOutcome(r, n + 1);
    WalkGoesOn(n);
    next := Record(STAGES[n + 1], r.history + [STAGES[n + 1]], r.details);
  }

  lemma RunOne(r: Record, c: Call, calls: seq<Call>, next: Record)
    requires After(Some(r), c) == Ok(Some(next))
    ensures Run(Some(r), [c] + calls) == Run(Some(next), calls)
  {
    assert ([c] + calls)[1..] == calls;
  }

  lemma {:induction false} WalkToTheEnd(r: Record)
    requires OnTheWalk(Some(r))
    ensures Run(Some(r), Stages(|r.history| + 1)) == Some(Record(STAGES[|STAGES| - 1], STAGES[1..], r.details))
    decreases |STAGES| - |r.history|
  {
    var n := |r.history|;
    if n + 1 < |STAGES| {
      var next := OneStep(r);
      RunOne(r, Advance(STAGES[n + 1]), Stages(n + 2), next);
      WalkToTheEnd(next);
    } else {
      assert STAGES[1..n + 1] == STAGES[1..];
    }
  }

  lemma LastStage()
    ensures STAGES[|STAGES| - 1] == "EMPTY_RETURNED"
  {
  }

  /** A new container, asked for one stage after the other, goes all the way from the depot to its empty return. */
  lemma WholeWalk(details: map<string, string>)
    ensures Run(None, [Upsert(None, details)] + Stages(1)) == Some(Record("EMPTY_RETURNED", STAGES[1..], details))
    ensures STAGES[1..] == ["DEPOT_ALLOCATED", "GATE_IN_ORIGIN", "VESSEL_LOADED", "OCEAN_TRANSIT", "PORT_DISCHARGED",
                            "CUSTOMS_RELEASE", "GATE_OUT_PORT", "ONLAND_TRANSIT", "AT_CONSIGNEE", "DEVANNED",
                            "EMPTY_RETURNED"]
  {
    SaveOutcome(None, None, details);
    var r := Record("AVAILABLE_AT_DEPOT", [], details);
    DepotFirst();
    LastStage();
    assert STAGES[1..1] == [];
    WalkToTheEnd(r);
    assert ([Upsert(None, details)] + Stages(1))[1..] == Stages(1);
  }

  lemma DepotFirst()
    ensures STAGES[0] == "AVAILABLE_AT_DEPOT"
  {
  }

  class ContainerRegistry {
    var containers: map<string, Record>

    function At(number: string): Option<Record>
      reads this
    {
      if number in containers then Some(containers[number]) else None
    }

    constructor ()
      ensures containers == map[]
    {
      containers := map[];
    }

    method SetStage(number: string, stage: string) returns (refused: Option<Refusal>)
      modifies this
      ensures match After(old(At(number)), Advance(stage))
              case Ok(r) => refused == None && r.Some? && containers == old(containers)[number := r.value]
              case Err(e) => refused == Some(e) && containers == old(containers)
    {
      if number !in containers {
        return Some(NotFound);
      }
      var tc := containers[number];
      refused := None;
      if tc.stage == stage {
        assert containers == containers[number := tc];
        return;
      }
      var previous := IndexOf(tc.stage);
      if IndexOf(stage) != previous + 1 {
        return Some(NotNextStage);
      }
      tc := tc.(stage := stage);
      tc := tc.(history := tc.history + [stage]);
      containers := containers[number := tc];
    }

    method Save(number: string, stage: Option<string>, details: map<string, string>) returns (refused: Option<Refusal>)
      modifies this
      ensures match After(old(At(number)), Upsert(stage, details))
              case Ok(r) => refused == None && r.Some? && containers == old(containers)[number := r.value]
              case Err(e) => refused == Some(e) && containers == old(containers)
    {
      var existing := At(number);
      var current := if existing.Some? then existing.value.stage else STAGES[0];
      if stage.Some? && stage.value != current {
        return Some(StageByEdit);
      }
      var row := Record(current, [], details);
      if existing.Some? {
        row := existing.value.(details := existing.value.details + details);
      }
      containers := containers[number := row];
      refused := None;
    }
  }
}
