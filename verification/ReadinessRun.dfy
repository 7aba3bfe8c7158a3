/** Readiness events over runs of reconciliations (internal/controller/readiness.go). */
module ReadinessRun {
  import opened Wrappers
  import opened PactoTypes
  import opened PactoStatus
  import opened Reconcile
  import StatusProperties
  import Validator

  datatype Input = Input(get: Get, w: World)

  /** The status after a run of reconciliations, and the events it recorded. */
  function Final(stored: Status, inputs: seq<Input>): Status
    decreases |inputs|
  {
    if inputs == [] then stored else Final(Persisted(stored, inputs[0].get, inputs[0].w), inputs[1..])
  }

  function History(inputs: seq<Input>): seq<Event> {
    if inputs == [] then [] else Emitted(inputs[0].get, inputs[0].w) + History(inputs[1..])
  }

  /** Optimistic concurrency: a status update is accepted only for a resource that was read as stored.
      Reconciliations whose update fails may have read anything. */
  predicate Consistent(stored: Status, inputs: seq<Input>)
    decreases |inputs|
  {
    inputs != [] ==>
      && (inputs[0].get.Read? && inputs[0].w.writes ==> inputs[0].get.status == stored)
      && Consistent(Persisted(stored, inputs[0].get, inputs[0].w), inputs[1..])
  }

  // ----- counting -----

  function Level(s: Status): int {
    if Unmet(s) then 1 else 0
  }

  /** Gate-unmet events minus recoveries. */
  function Net(events: seq<Event>): int {
    if events == [] then 0
    else Net(events[..|events| - 1]) + match events[|events| - 1] case GateUnmet => 1 case GateRecovered => -1 case _ => 0
  }

  predicate Written(i: Input) {
    i.get.Read? && i.w.writes
  }

  /** The reconciliation reaches a verdict on readiness. */
  ghost predicate Evaluates(i: Input)
    requires i.get.Read?
  {
    Acceptable(i.get.spec, i.w) && i.w.evaluate(Overridden(i.get.spec, i.w)).Some?
  }

  /** An unmet gate vanishes without an event: the contract is rejected or declares no readiness. */
  ghost predicate ClearsSilently(stored: Status, i: Input) {
    Written(i) && Unmet(stored) && !Evaluates(i)
  }

  ghost function SilentClears(stored: Status, inputs: seq<Input>): int
    decreases |inputs|
  {
    if inputs == [] then 0
    else (if ClearsSilently(stored, inputs[0]) then 1 else 0)
         + SilentClears(Persisted(stored, inputs[0].get, inputs[0].w), inputs[1..])
  }

  /** Net events of reconciliations whose status update failed. */
  function NetOfFailedWrites(inputs: seq<Input>): int {
    if inputs == [] then 0
    else (if Written(inputs[0]) then 0 else Net(Emitted(inputs[0].get, inputs[0].w))) + NetOfFailedWrites(inputs[1..])
  }

  lemma {:induction false} NetAppend(a: seq<Event>, b: seq<Event>)
    ensures Net(a + b) == Net(a) + Net(b)
  {
    if b == [] {
      assert a + b == a;
    } else {
      assert (a + b)[..|a + b| - 1] == a + b[..|b| - 1];
      NetAppend(a, b[..|b| - 1]);
    }
  }

  /** The check for the contract itself, and the checks that follow the gate. */
  function Around(c: Contract, namespace: string, spec: PactoSpec, w: World): (Check, seq<Check>) {
    if spec.IsReference() then (VALID.(reason := ReferenceOnly), [])
    else if w.snapshot.None? then (VALID, [Check(RuntimeObserved, false, ObservationFailed, NoSeverity)])
    else (VALID, Findings(c, namespace, spec, w.snapshot.value, w.probe))
  }

  lemma TargetConditions(s: Status, c: Contract, generation: int, namespace: string, spec: PactoSpec, w: World)
    ensures var (first, rest) := Around(c, namespace, spec, w);
            TargetStatus(s, c, generation, namespace, spec, w).conditions ==
            ConditionsOf([first] + Gate(w.evaluate(c)) + rest, generation, w.now)
  {
    var (first, rest) := Around(c, namespace, spec, w);
    assert rest == [] ==> [first] + Gate(w.evaluate(c)) + rest == [first] + Gate(w.evaluate(c));
  }

  /** The persisted gate is unmet exactly when readiness was evaluated and failed. */
  lemma UnmetWhen(generation: int, namespace: string, spec: PactoSpec, w: World, r: string)
    ensures Unmet(ExpectedStatus(generation, namespace, spec, w, r)) <==>
            Acceptable(spec, w) && GateFails(w.evaluate(Overridden(spec, w)))
  {
    ExpectedWhen(generation, namespace, spec, w, r);
    if Acceptable(spec, w) {
      var c := Overridden(spec, w);
      var (first, rest) := Around(c, namespace, spec, w);
      TargetConditions(AcceptedStatus(c, generation, spec, w, r), c, generation, namespace, spec, w);
      AroundRanked(c, namespace, spec, w);
      FoundGate(first, w.evaluate(c), rest, generation, w.now);
    }
  }

  lemma AroundRanked(c: Contract, namespace: string, spec: PactoSpec, w: World)
    ensures var (first, rest) := Around(c, namespace, spec, w);
            first.name == ContractValid && forall i :: 0 <= i < |rest| ==> Validator.Rank(rest[i].name) >= 2
  {
    if w.snapshot.Some? {
      FindingsRanked(c, namespace, spec, w.snapshot.value, w.probe);
    }
  }

  lemma FoundGate(first: Check, e: Option<Evaluation>, rest: seq<Check>, generation: int, now: int)
    requires first.name == ContractValid
    requires forall i :: 0 <= i < |rest| ==> Validator.Rank(rest[i].name) >= 2
    ensures var found := FindCondition(ConditionsOf([first] + Gate(e) + rest, generation, now), ReadinessSatisfied);
            found.Some? && found.value.status == ConditionFalse <==> GateFails(e)
  {
    var checks := [first] + Gate(e) + rest;
    var conditions := ConditionsOf(checks, generation, now);
    assert forall i :: 0 <= i < |checks| && checks[i].name == ReadinessSatisfied ==> e.Some? && i == 1;
    assert forall d :: d in conditions && d.ctype == ReadinessSatisfied ==> e.Some? && d == conditions[1];
    if e.Some? {
      assert conditions[1] == ConditionOf(Gate(e)[0], generation, now) && conditions[1] in conditions;
    }
  }

  predicate NoGate(events: seq<Event>) {
    forall e :: e in events ==> !e.GateUnmet? && !e.GateRecovered?
  }

  lemma GateEventsOnly(gate: seq<Event>, a: seq<Event>, b: seq<Event>)
    requires NoGate(a) && NoGate(b)
    ensures Net(gate + a + b) == Net(gate) && GateHistory(gate + a + b) == GateHistory(gate)
  {
    NetAppend(gate + a, b);
    NetAppend(gate, a);
    HistoryAppend(gate + a, b);
    HistoryAppend(gate, a);
    NoGateEvents(a);
    NoGateEvents(b);
  }

  lemma {:induction false} NoGateEvents(events: seq<Event>)
    requires NoGate(events)
    ensures Net(events) == 0 && GateHistory(events) == []
  {
    if events != [] {
      NoGateEvents(events[..|events| - 1]);
    }
  }

  lemma AcceptedGate(c: Contract, spec: PactoSpec, w: World, wasUnmet: bool, final: Status)
    ensures var events, gate := AcceptedEvents(c, spec, w, wasUnmet, final), GateEvents(w.evaluate(c), wasUnmet);
            Net(events) == Net(gate) && GateHistory(events) == GateHistory(gate)
  {
    GateEventsOnly(GateEvents(w.evaluate(c), wasUnmet),
                   if !spec.IsReference() && w.snapshot.None? then [ObservationImpossible] else [],
                   if w.writes then Complaint(final) else []);
  }

  /** The gate events among the events of one reconciliation. */
  ghost function GatePart(i: Input): seq<Event>
    requires i.get.Read?
  {
    if Evaluates(i) then GateEvents(i.w.evaluate(Overridden(i.get.spec, i.w)), Unmet(i.get.status)) else []
  }

  lemma EmittedGate(i: Input)
    requires i.get.Read?
    ensures Net(Emitted(i.get, i.w)) == Net(GatePart(i)) && GateHistory(Emitted(i.get, i.w)) == GateHistory(GatePart(i))
  {
    PhaseMeans(i.get.spec, i.w);
    match ContractPhase(i.get.spec, i.w)
    case Failure(_) =>
      NoGateEvents(Emitted(i.get, i.w));
    case Success(c) =>
      var final := ExpectedStatus(i.get.generation, i.get.namespace, i.get.spec, i.w, i.get.status.currentRevision);
      AcceptedGate(c, i.get.spec, i.w, Unmet(i.get.status), final);
  }

  /** One reconciliation balances. */
  lemma StepBalances(stored: Status, i: Input)
    requires Written(i) ==> i.get.status == stored
    ensures var moved := Level(Persisted(stored, i.get, i.w)) - Level(stored);
            moved == (if Written(i) then Net(Emitted(i.get, i.w)) else 0) - (if ClearsSilently(stored, i) then 1 else 0)
  {
    if Written(i) {
      EmittedGate(i);
      UnmetWhen(i.get.generation, i.get.namespace, i.get.spec, i.w, i.get.status.currentRevision);
      NetOfGateEvents(if Evaluates(i) then i.w.evaluate(Overridden(i.get.spec, i.w)) else None, Unmet(stored));
    }
  }

  lemma NetOfGateEvents(e: Option<Evaluation>, wasUnmet: bool)
    ensures Net(GateEvents(e, wasUnmet)) == if e.None? then 0 else (if e.value.passing then 0 else 1) - (if wasUnmet then 1 else 0)
  {
    assert [GateUnmet][..0] == [] && [GateRecovered][..0] == [];
  }

  /** Over any run, the events account for the change of the persisted gate, once silent clears and the
      events of failed writes are set aside. */
  lemma {:induction false} EventsBalance(stored: Status, inputs: seq<Input>)
    requires Consistent(stored, inputs)
    ensures Net(History(inputs)) - SilentClears(stored, inputs) - NetOfFailedWrites(inputs) ==
            Level(Final(stored, inputs)) - Level(stored)
    decreases |inputs|
  {
    if inputs != [] {
      var next := Persisted(stored, inputs[0].get, inputs[0].w);
      StepBalances(stored, inputs[0]);
      EventsBalance(next, inputs[1..]);
      NetAppend(Emitted(inputs[0].get, inputs[0].w), History(inputs[1..]));
    }
  }

  // ----- alternation -----

  /** The gate events alone. */
  function GateHistory(events: seq<Event>): seq<Event> {
    if events == [] then []
    else
      var last := events[|events| - 1];
      GateHistory(events[..|events| - 1]) + if last.GateUnmet? || last.GateRecovered? then [last] else []
  }

  lemma {:induction false} HistoryAppend(a: seq<Event>, b: seq<Event>)
    ensures GateHistory(a + b) == GateHistory(a) + GateHistory(b)
  {
    if b == [] {
      assert a + b == a;
    } else {
      assert (a + b)[..|a + b| - 1] == a + b[..|b| - 1];
      HistoryAppend(a, b[..|b| - 1]);
    }
  }

  /** Unmet and recovered take turns, starting with a recovery when the gate is unmet. */
  predicate Alternating(events: seq<Event>, unmet: bool) {
    events != [] ==> events[0] == (if unmet then GateRecovered else GateUnmet) && Alternating(events[1..], !unmet)
  }

  /** No status update fails, and no unmet gate is cleared silently. */
  ghost predicate Undisturbed(stored: Status, inputs: seq<Input>)
    decreases |inputs|
  {
    inputs != [] ==>
      && (inputs[0].get.Read? ==> inputs[0].w.writes)
      && !ClearsSilently(stored, inputs[0])
      && Undisturbed(Persisted(stored, inputs[0].get, inputs[0].w), inputs[1..])
  }

  lemma StepAlternates(stored: Status, i: Input, rest: seq<Event>)
    requires Written(i) ==> i.get.status == stored
    requires (i.get.Read? ==> i.w.writes) && !ClearsSilently(stored, i)
    requires Alternating(rest, Unmet(Persisted(stored, i.get, i.w)))
    ensures Alternating(GateHistory(Emitted(i.get, i.w)) + rest, Unmet(stored))
  {
    if i.get.Read? {
      EmittedGate(i);
      UnmetWhen(i.get.generation, i.get.namespace, i.get.spec, i.w, i.get.status.currentRevision);
      var gate := GatePart(i);
      assert gate == [] || gate[..0] == [];
      assert GateHistory(gate) == gate;
      if gate == [] {
        assert gate + rest == rest;
      } else {
        assert (gate + rest)[1..] == rest;
      }
    } else {
      assert GateHistory(Emitted(i.get, i.w)) + rest == rest;
    }
  }

  /** In an undisturbed run the gate events strictly alternate. */
  lemma {:induction false} EventsAlternate(stored: Status, inputs: seq<Input>)
    requires Consistent(stored, inputs) && Undisturbed(stored, inputs)
    ensures Alternating(GateHistory(History(inputs)), Unmet(stored))
    decreases |inputs|
  {
    if inputs != [] {
      var i := inputs[0];
      EventsAlternate(Persisted(stored, i.get, i.w), inputs[1..]);
      StepAlternates(stored, i, GateHistory(History(inputs[1..])));
      HistoryAppend(Emitted(i.get, i.w), History(inputs[1..]));
    }
  }
}
