/** The rule checks run on every telemetry record (smart_contracts.py):
    four kinds of contract, each counting its executions and keeping the
    violations it raised, and a manager that runs them all in order. */
module SmartContracts {
  import opened Primitives

  /** A telemetry record as the contracts read it: its numeric readings by
      name and its 'flight_id' entry (`JNull` when absent). */
  datatype Telemetry = Telemetry(readings: map<string, real>, flightId: Json)

  /** `data.get(key, default)` for a numeric reading. */
  function Reading(data: Telemetry, key: string, default: real): real {
    if key in data.readings then data.readings[key] else default
  }

  function Abs(x: real): real {
    if x < 0.0 then -x else x
  }

  /** One failed geofence check, in the order the checks run. */
  datatype Breach = XAxis(x: real) | YAxis(y: real) | TooLow(z: real) | TooHigh(z: real)

  datatype Severity = High | Medium | Warning | Critical

  /** The result dictionary an `evaluate` returns when its rule is broken. */
  datatype Report =
    | GeofenceBreach(breaches: seq<Breach>, position: (real, real, real))
    | SpeedExceeded(speed: real)
    | AltitudeAlert(level: Severity, altitude: real)
    | DurationExceeded(duration: real)
  {
    /** The 'severity' entry. */
    function Severity(): Severity {
      match this
      case GeofenceBreach(_, _) => High
      case SpeedExceeded(_) => Medium
      case AltitudeAlert(level, _) => level
      case DurationExceeded(_) => Medium
    }
  }

  /** The four contract kinds and their parameters. */
  datatype Rule =
    | Geofence(maxX: real, maxY: real, minAltitude: real, maxAltitude: real)
    | SpeedLimit(maxSpeed: real)
    | AltitudeSafety(warningThreshold: real, criticalThreshold: real)
    | FlightDuration(maxDuration: real)

  /** The constructors' default parameters. */
  const DefaultGeofence: Rule := Geofence(50.0, 50.0, -20.0, 0.0)
  const DefaultSpeedLimit: Rule := SpeedLimit(10.0)
  const DefaultAltitudeSafety: Rule := AltitudeSafety(-3.0, -1.0)
  const DefaultFlightDuration: Rule := FlightDuration(120.0)

  /** The contracts the coordinator registers at start-up, in order (its
      speed limit is 8.0 rather than the default). */
  const CoordinatorRules: seq<Rule> :=
    [DefaultGeofence, DefaultSpeedLimit.(maxSpeed := 8.0), DefaultAltitudeSafety, DefaultFlightDuration]

  const GeofenceName: string := "Geofence Compliance"
  const SpeedLimitName: string := "Speed Limit Enforcement"
  const AltitudeSafetyName: string := "Altitude Safety Monitor"
  const FlightDurationName: string := "Flight Duration Limit"

  function RuleName(rule: Rule): string {
    match rule
    case Geofence(_, _, _, _) => GeofenceName
    case SpeedLimit(_) => SpeedLimitName
    case AltitudeSafety(_, _) => AltitudeSafetyName
    case FlightDuration(_) => FlightDurationName
  }

  const GeofenceDescription: string := "Ensures UAV stays within allowed geographical boundaries"
  const SpeedLimitDescription: string := "Ensures UAV does not exceed maximum safe speed"
  const AltitudeSafetyDescription: string := "Warns when UAV is flying too low"
  const FlightDurationDescription: string := "Ensures flights do not exceed maximum duration"

  function RuleDescription(rule: Rule): string {
    match rule
    case Geofence(_, _, _, _) => GeofenceDescription
    case SpeedLimit(_) => SpeedLimitDescription
    case AltitudeSafety(_, _) => AltitudeSafetyDescription
    case FlightDuration(_) => FlightDurationDescription
  }

  /** `GeofenceContract.evaluate`: a report iff one of the four checks fails,
      listing each failed check exactly once, in check order, with the
      position read (missing coordinates read as 0). */
  function GeofenceEvaluate(maxX: real, maxY: real, minAltitude: real, maxAltitude: real, data: Telemetry)
    : (r: Option<Report>)
    ensures var x, y, z := Reading(data, "x_pos", 0.0), Reading(data, "y_pos", 0.0), Reading(data, "z_alt", 0.0);
      && (r.Some? <==> Abs(x) > maxX || Abs(y) > maxY || z < minAltitude || z > maxAltitude)
      && (r.Some? ==>
            && r.value.GeofenceBreach? && r.value.Severity() == High
            && r.value.position == (x, y, z)
            && (XAxis(x) in r.value.breaches <==> Abs(x) > maxX)
            && (YAxis(y) in r.value.breaches <==> Abs(y) > maxY)
            && (TooLow(z) in r.value.breaches <==> z < minAltitude)
            && (TooHigh(z) in r.value.breaches <==> z > maxAltitude)
            && |r.value.breaches| == Count(Abs(x) > maxX) + Count(Abs(y) > maxY)
                                     + Count(z < minAltitude) + Count(z > maxAltitude))
  {
    var x, y, z := Reading(data, "x_pos", 0.0), Reading(data, "y_pos", 0.0), Reading(data, "z_alt", 0.0);
    var breaches :=
      (if Abs(x) > maxX then [XAxis(x)] else [])
      + (if Abs(y) > maxY then [YAxis(y)] else [])
      + (if z < minAltitude then [TooLow(z)] else [])
      + (if z > maxAltitude then [TooHigh(z)] else []);
    if breaches == [] then None else Some(GeofenceBreach(breaches, (x, y, z)))
  }

  /** 1 for a failed check, 0 for a passed one. */
  function Count(failed: bool): nat {
    if failed then 1 else 0
  }

  /** `SpeedLimitContract.evaluate`: a report iff the speed read (0 when
      missing) exceeds the limit. */
  function SpeedEvaluate(maxSpeed: real, data: Telemetry): (r: Option<Report>)
    ensures r.Some? <==> Reading(data, "vel_mag", 0.0) > maxSpeed
    ensures r.Some? ==> r.value == SpeedExceeded(Reading(data, "vel_mag", 0.0)) && r.value.Severity() == Medium
  {
    var speed := Reading(data, "vel_mag", 0.0);
    if speed > maxSpeed then Some(SpeedExceeded(speed)) else None
  }

  /** `AltitudeSafetyContract.evaluate`: CRITICAL above the critical
      threshold, WARNING above the warning threshold but not above the
      critical one, nothing otherwise; a missing altitude reads as -10. */
  function AltitudeEvaluate(warningThreshold: real, criticalThreshold: real, data: Telemetry): (r: Option<Report>)
    ensures var a := Reading(data, "z_alt", -10.0);
      && (a > criticalThreshold ==> r == Some(AltitudeAlert(Critical, a)))
      && (warningThreshold < a <= criticalThreshold ==> r == Some(AltitudeAlert(Warning, a)))
      && (a <= warningThreshold && a <= criticalThreshold ==> r == None)
  {
    var altitude := Reading(data, "z_alt", -10.0);
    if altitude > criticalThreshold then Some(AltitudeAlert(Critical, altitude))
    else if altitude > warningThreshold then Some(AltitudeAlert(Warning, altitude))
    else None
  }

  /** The violation record `execute` appends and returns. */
  datatype Violation = Violation(contract: string, timestamp: real, data: Telemetry, result: Report)

  /** One contract: the rule it checks and its run-time record. The flight
      start times are used by the flight-duration rule only. */
  class SmartContract {
    const rule: Rule
    const name: string
    const description: string
    var enabled: bool
    var violations: seq<Violation>
    var executionCount: int
    var flightStartTimes: map<Json, real>

    constructor (rule: Rule)
      ensures this.rule == rule && name == RuleName(rule) && description == RuleDescription(rule)
      ensures enabled && violations == [] && executionCount == 0 && flightStartTimes == map[]
    {
      this.rule := rule;
      name := RuleName(rule);
      description := RuleDescription(rule);
      enabled := true;
      violations := [];
      executionCount := 0;
      flightStartTimes := map[];
    }

    /** A contract as constructed for `rule`: enabled, with nothing recorded. */
    predicate Initial(rule: Rule)
      reads this
    {
      this.rule == rule && enabled && violations == [] && executionCount == 0 && flightStartTimes == map[]
    }

    /** `FlightDurationContract.evaluate` at clock reading `now`: the first
        record of a flight records its start time and raises nothing; later
        records raise a report iff more than `maxDuration` has elapsed since
        that start. A recorded start time never changes. */
    method DurationEvaluate(maxDuration: real, data: Telemetry, now: real) returns (r: Option<Report>)
      modifies this`flightStartTimes
      ensures data.flightId !in old(flightStartTimes) ==>
        r == None && flightStartTimes == old(flightStartTimes)[data.flightId := now]
      ensures data.flightId in old(flightStartTimes) ==>
        && flightStartTimes == old(flightStartTimes)
        && (r.Some? <==> now - flightStartTimes[data.flightId] > maxDuration)
        && (r.Some? ==> r.value == DurationExceeded(now - flightStartTimes[data.flightId]))
    {
      if data.flightId !in flightStartTimes {
        flightStartTimes := flightStartTimes[data.flightId := now];
        return None;
      }
      var duration := now - flightStartTimes[data.flightId];
      if duration > maxDuration {
        return Some(DurationExceeded(duration));
      }
      return None;
    }

    /** `evaluate`, dispatched on the contract's kind. */
    method Evaluate(data: Telemetry, now: real) returns (r: Option<Report>)
      modifies this`flightStartTimes
      ensures !rule.FlightDuration? ==> r == Check(rule, data) && flightStartTimes == old(flightStartTimes)
      ensures rule.FlightDuration? && data.flightId !in old(flightStartTimes) ==>
        r == None && flightStartTimes == old(flightStartTimes)[data.flightId := now]
      ensures rule.FlightDuration? && data.flightId in old(flightStartTimes) ==>
        r == DurationVerdict(rule.maxDuration, old(flightStartTimes)[data.flightId], now)
        && flightStartTimes == old(flightStartTimes)
    {
      match rule {
        case Geofence(maxX, maxY, minAltitude, maxAltitude) =>
          r := GeofenceEvaluate(maxX, maxY, minAltitude, maxAltitude, data);
        case SpeedLimit(maxSpeed) =>
          r := SpeedEvaluate(maxSpeed, data);
        case AltitudeSafety(warningThreshold, criticalThreshold) =>
          r := AltitudeEvaluate(warningThreshold, criticalThreshold, data);
        case FlightDuration(maxDuration) =>
          r := DurationEvaluate(maxDuration, data, now);
      }
    }

    /** What one `execute` at clock reading `now` did, from the state before
        it (`old`) to the state after it: a disabled contract returns None and
        changes nothing; an enabled one counts the execution and returns, and
        appends to its violations, exactly the record of the report its rule
        raised. A stateless rule raises `Check`; the duration rule records a
        flight's first sighting without raising, and later raises iff more
        than its limit has elapsed since that first sighting. */
    twostate predicate ExecutedOnce(data: Telemetry, now: real, new v: Option<Violation>)
      reads this
    {
      && enabled == old(enabled)
      && (!enabled ==>
            && v == None && executionCount == old(executionCount) && violations == old(violations)
            && flightStartTimes == old(flightStartTimes))
      && (enabled ==>
            && executionCount == old(executionCount) + 1
            && violations == old(violations) + (if v.Some? then [v.value] else []))
      && (enabled && !rule.FlightDuration? ==>
            v == Record(name, now, data, Check(rule, data)) && flightStartTimes == old(flightStartTimes))
      && (enabled && rule.FlightDuration? && data.flightId !in old(flightStartTimes) ==>
            v == None && flightStartTimes == old(flightStartTimes)[data.flightId := now])
      && (enabled && rule.FlightDuration? && data.flightId in old(flightStartTimes) ==>
            && v == Record(name, now, data, DurationVerdict(rule.maxDuration, old(flightStartTimes)[data.flightId], now))
            && flightStartTimes == old(flightStartTimes))
    }

    /** `execute` at clock reading `now`. */
    method Execute(data: Telemetry, now: real) returns (v: Option<Violation>)
      modifies this
      ensures enabled == old(enabled)
      ensures OutcomeFits(rule, name, old(enabled), data, now, v)
      ensures ExecutedOnce(data, now, v)
    {
      if !enabled {
        return None;
      }
      executionCount := executionCount + 1;
      var result := Evaluate(data, now);
      if result.Some? {
        var violation := Violation(name, now, data, result.value);
        violations := violations + [violation];
        return Some(violation);
      }
      return None;
    }
  }

  /** The report a stateless rule (any kind but the flight duration, whose
      verdict depends on recorded start times) raises for `data`. */
  function Check(rule: Rule, data: Telemetry): Option<Report>
    requires !rule.FlightDuration?
  {
    match rule
    case Geofence(maxX, maxY, minAltitude, maxAltitude) =>
      GeofenceEvaluate(maxX, maxY, minAltitude, maxAltitude, data)
    case SpeedLimit(maxSpeed) => SpeedEvaluate(maxSpeed, data)
    case AltitudeSafety(warningThreshold, criticalThreshold) =>
      AltitudeEvaluate(warningThreshold, criticalThreshold, data)
  }

  /** The duration rule's verdict for a flight first seen at `start`. */
  function DurationVerdict(maxDuration: real, start: real, now: real): Option<Report> {
    if now - start > maxDuration then Some(DurationExceeded(now - start)) else None
  }

  /** The violation record `execute` makes of a report, if any. */
  function Record(contract: string, now: real, data: Telemetry, report: Option<Report>): Option<Violation> {
    match report
    case None => None
    case Some(r) => Some(Violation(contract, now, data, r))
  }

  /** What an `evaluate_all` outcome says about a contract with that rule,
      name and enabled flag, whatever else the same pass did: None for a
      disabled contract, the record of `Check` for an enabled stateless one,
      and for an enabled duration contract either None or a record of a
      duration beyond its limit. */
  predicate OutcomeFits(rule: Rule, name: string, enabled: bool, data: Telemetry, now: real, o: Option<Violation>) {
    && (!enabled ==> o == None)
    && (enabled && !rule.FlightDuration? ==> o == Record(name, now, data, Check(rule, data)))
    && (enabled && rule.FlightDuration? && o.Some? ==>
          && o.value.contract == name && o.value.timestamp == now && o.value.data == data
          && o.value.result.DurationExceeded? && o.value.result.duration > rule.maxDuration)
  }

  /** No contract object is listed twice. */
  predicate Distinct(contracts: seq<SmartContract>) {
    forall i, j :: 0 <= i < j < |contracts| ==> contracts[i] != contracts[j]
  }

  /** `[c for c in contracts if c.name != name]`. */
  function Without(contracts: seq<SmartContract>, name: string): seq<SmartContract>
    decreases |contracts|
  {
    if contracts == [] then []
    else if contracts[0].name != name then [contracts[0]] + Without(contracts[1..], name)
    else Without(contracts[1..], name)
  }

  /** Removal keeps exactly the contracts with another name, never lengthens
      the list, and changes nothing when no contract has that name. */
  lemma {:induction false} WithoutKeepsOthers(contracts: seq<SmartContract>, name: string)
    ensures forall c :: c in Without(contracts, name) <==> c in contracts && c.name != name
    ensures |Without(contracts, name)| <= |contracts|
    ensures (forall c :: c in contracts ==> c.name != name) ==> Without(contracts, name) == contracts
    decreases |contracts|
  {
    if contracts != [] {
      WithoutKeepsOthers(contracts[1..], name);
      assert contracts == [contracts[0]] + contracts[1..];
    }
  }

  /** Removal keeps the survivors in their original order: removing from a
      concatenation is removing from each part. */
  lemma {:induction false} WithoutDistributes(a: seq<SmartContract>, b: seq<SmartContract>, name: string)
    ensures Without(a + b, name) == Without(a, name) + Without(b, name)
    decreases |a|
  {
    if a != [] {
      WithoutDistributes(a[1..], b, name);
      assert (a + b)[1..] == a[1..] + b;
    } else {
      assert a + b == b;
    }
  }

  /** The results an evaluation collects: the returned violations, in order. */
  function Raised(outcomes: seq<Option<Violation>>): seq<Violation>
    decreases |outcomes|
  {
    if outcomes == [] then []
    else Raised(outcomes[..|outcomes| - 1])
         + (match outcomes[|outcomes| - 1] case Some(v) => [v] case None => [])
  }

  /** Every raised violation comes from one of the outcomes, and there are
      never more violations than outcomes. */
  lemma {:induction false} RaisedComesFromOutcomes(outcomes: seq<Option<Violation>>)
    ensures |Raised(outcomes)| <= |outcomes|
    ensures forall v :: v in Raised(outcomes) ==> Some(v) in outcomes
    decreases |outcomes|
  {
    if outcomes != [] {
      var init := outcomes[..|outcomes| - 1];
      RaisedComesFromOutcomes(init);
      assert forall o :: o in init ==> o in outcomes;
    }
  }

  class ContractManager {
    var contracts: seq<SmartContract>
    var totalViolations: int

    constructor ()
      ensures contracts == [] && totalViolations == 0
    {
      contracts := [];
      totalViolations := 0;
    }

    /** The coordinator's start-up set: one fresh, enabled contract per rule
        of `CoordinatorRules`, in that order. */
    constructor WithCoordinatorRules()
      ensures totalViolations == 0 && |contracts| == |CoordinatorRules| && Distinct(contracts)
      ensures forall i :: 0 <= i < |contracts| ==> fresh(contracts[i]) && contracts[i].Initial(CoordinatorRules[i])
    {
      var geofence := new SmartContract(CoordinatorRules[0]);
      var speed := new SmartContract(CoordinatorRules[1]);
      var altitude := new SmartContract(CoordinatorRules[2]);
      var duration := new SmartContract(CoordinatorRules[3]);
      contracts := [geofence, speed, altitude, duration];
      totalViolations := 0;
      new;
      assert contracts[0] == geofence && contracts[1] == speed;
      assert contracts[2] == altitude && contracts[3] == duration;
    }

    /** `add_contract`: appended at the end. */
    method AddContract(c: SmartContract)
      modifies this`contracts
      ensures contracts == old(contracts) + [c]
    {
      contracts := contracts + [c];
    }

    /** `remove_contract`: every contract with that name is dropped. */
    method RemoveContract(name: string)
      modifies this`contracts
      ensures contracts == Without(old(contracts), name)
      ensures forall c :: c in contracts <==> c in old(contracts) && c.name != name
    {
      WithoutKeepsOthers(contracts, name);
      contracts := Without(contracts, name);
    }

    /** `evaluate_all` at clock reading `now`: every contract is executed in
        order, so each outcome fits its contract (nothing from a disabled
        one, the rule's own verdict from an enabled stateless one) and no
        contract is switched on or off. The violations returned are exactly
        the non-None outcomes, in contract order, and the running total grows
        by their number. */
    method EvaluateAll(data: Telemetry, now: real) returns (violations: seq<Violation>, ghost outcomes: seq<Option<Violation>>)
      modifies this`totalViolations, set c | c in contracts
      ensures |outcomes| == |contracts|
      ensures violations == Raised(outcomes)
      ensures totalViolations == old(totalViolations) + |violations|
      ensures forall k :: 0 <= k < |contracts| ==> contracts[k].enabled == old(contracts[k].enabled)
      ensures forall i :: 0 <= i < |contracts| ==>
        OutcomeFits(contracts[i].rule, contracts[i].name, old(contracts[i].enabled), data, now, outcomes[i])
    {
      violations := [];
      outcomes := [];
      var cs := contracts;
      for i := 0 to |cs|
        invariant |outcomes| == i
        invariant violations == Raised(outcomes)
        invariant totalViolations == old(totalViolations) + |violations|
        invariant forall k :: 0 <= k < |cs| ==> cs[k].enabled == old(cs[k].enabled)
        invariant forall k :: 0 <= k < i ==>
          OutcomeFits(cs[k].rule, cs[k].name, old(cs[k].enabled), data, now, outcomes[k])
      {
        var result := cs[i].Execute(data, now);
        assert OutcomeFits(cs[i].rule, cs[i].name, old(cs[i].enabled), data, now, result);
        assert Raised(outcomes + [result]) == Raised(outcomes) + (if result.Some? then [result.value] else []) by {
          assert (outcomes + [result])[..|outcomes|] == outcomes;
        }
        outcomes := outcomes + [result];
        if result.Some? {
          violations := violations + [result.value];
          totalViolations := totalViolations + 1;
        }
      }
    }
  }
}
