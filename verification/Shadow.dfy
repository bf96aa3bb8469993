/** When a device shadow counts as settled (scripts/go/cloud-mqtt-test/main.go): everything desired
    is found in the reported state, markers of the load test included. */
module Shadow {

  /** Decoded JSON. */
  datatype Json = Null | Bool(b: bool) | Number(n: real) | Str(s: string) | Arr(items: seq<Json>) | Obj(fields: map<string, Json>)

  type Fields = map<string, Json>

  /** The desired value is met: an object by the fields it names, anything else by an equal value. */
  predicate Fits(desired: Json, reported: Json)
    decreases desired
  {
    match desired
    case Obj(fields) =>
      && reported.Obj?
      && forall key :: key in fields ==> key in reported.fields && Fits(fields[key], reported.fields[key])
    case _ => desired == reported
  }

  predicate Satisfied(desired: Fields, reported: Fields) {
    forall key :: key in desired ==> key in reported && Fits(desired[key], reported[key])
  }

  method ShadowSatisfied(desired: Fields, reported: Fields) returns (ok: bool)
    ensures ok <==> Satisfied(desired, reported)
    decreases Obj(desired)
  {
    var todo := desired.Keys;
    while todo != {}
      invariant todo <= desired.Keys
      invariant forall key :: key in desired && key !in todo ==> key in reported && Fits(desired[key], reported[key])
      decreases |todo|
    {
      var key :| key in todo;
      if key !in reported { return false; }
      if desired[key].Obj? {
        assert desired[key] < Obj(desired);
        if !reported[key].Obj? { return false; }
        var inner := ShadowSatisfied(desired[key].fields, reported[key].fields);
        if !inner { return false; }
      } else if desired[key] != reported[key] {
        return false;
      }
      todo := todo - {key};
    }
    ok := true;
  }

  // ---- a partial order ----

  lemma {:induction false} FitsItself(d: Json)
    ensures Fits(d, d)
    decreases d
  {
    if d.Obj? {
      forall key | key in d.fields ensures Fits(d.fields[key], d.fields[key]) { FitsItself(d.fields[key]); }
    }
  }

  lemma {:induction false} FitsThrough(d: Json, r: Json, q: Json)
    requires Fits(d, r) && Fits(r, q)
    ensures Fits(d, q)
    decreases d
  {
    if d.Obj? {
      forall key | key in d.fields ensures key in q.fields && Fits(d.fields[key], q.fields[key]) {
        FitsThrough(d.fields[key], r.fields[key], q.fields[key]);
      }
    }
  }

  lemma {:induction false} FitsBothWays(d: Json, r: Json)
    requires Fits(d, r) && Fits(r, d)
    ensures d == r
    decreases d
  {
    if d.Obj? {
      assert d.fields.Keys == r.fields.Keys;
      forall key | key in d.fields ensures d.fields[key] == r.fields[key] { FitsBothWays(d.fields[key], r.fields[key]); }
      assert d.fields == r.fields;
    }
  }

  /** "Desired is satisfied by reported" is reflexive, transitive and antisymmetric. */
  lemma SatisfiedIsAnOrder(d: Fields, r: Fields, q: Fields)
    ensures Satisfied(d, d)
    ensures Satisfied(d, r) && Satisfied(r, q) ==> Satisfied(d, q)
    ensures Satisfied(d, r) && Satisfied(r, d) ==> d == r
  {
    FitsItself(Obj(d));
    if Satisfied(d, r) && Satisfied(r, q) { FitsThrough(Obj(d), Obj(r), Obj(q)); }
    if Satisfied(d, r) && Satisfied(r, d) { FitsBothWays(Obj(d), Obj(r)); }
  }

  /** A reported state that only gains fields, at the top or inside its objects, stays satisfying. */
  predicate Gains(r: Json, more: Json)
    decreases r
  {
    if r.Obj? && more.Obj?
    then forall key :: key in r.fields ==> key in more.fields && Gains(r.fields[key], more.fields[key])
    else r == more
  }

  lemma {:induction false} GainsFits(r: Json, more: Json)
    requires Gains(r, more)
    ensures Fits(r, more)
    decreases r
  {
    if r.Obj? {
      forall key | key in r.fields ensures key in more.fields && Fits(r.fields[key], more.fields[key]) {
        GainsFits(r.fields[key], more.fields[key]);
      }
    }
  }

  lemma GainingKeepsSatisfied(d: Fields, r: Fields, more: Fields)
    requires Satisfied(d, r) && Gains(Obj(r), Obj(more))
    ensures Satisfied(d, more)
  {
    GainsFits(Obj(r), Obj(more));
    FitsThrough(Obj(d), Obj(r), Obj(more));
  }

  // ---- the documents message ----

  function Field(doc: Json, key: string): (r: Json) {
    if doc.Obj? && key in doc.fields then doc.fields[key] else Null
  }

  /** The fields of an object; what is no object has none. */
  function FieldsOf(j: Json): (r: Fields) { if j.Obj? then j.fields else map[] }

  method DeltaCleared(doc: Json) returns (ok: bool)
    ensures ok <==> Field(Field(doc, "current"), "state").Obj?
                    && Satisfied(FieldsOf(Field(Field(Field(doc, "current"), "state"), "desired")),
                                 FieldsOf(Field(Field(Field(doc, "current"), "state"), "reported")))
  {
    var current := Field(doc, "current");
    if !current.Obj? { return false; }
    var state := Field(current, "state");
    if !state.Obj? { return false; }
    ok := ShadowSatisfied(FieldsOf(Field(state, "desired")), FieldsOf(Field(state, "reported")));
  }

  // ---- the generated states ----

  datatype Kind = Light | Switch | SmartPlug | AirConditioner | EnvironmentSensor | SecuritySensor | SmartMeter
                | Camera | DoorLock | Appliance | Gateway | Other

  /** The cases of both functions over the trimmed, lower-case capability. */
  function KindOf(capability: string): (r: Kind) {
    match capability
    case "light" => Light
    case "smart_light" => Light
    case "switch" => Switch
    case "smart_plug" => SmartPlug
    case "air_conditioner" => AirConditioner
    case "ac" => AirConditioner
    case "hvac" => AirConditioner
    case "environment_sensor" => EnvironmentSensor
    case "security_sensor" => SecuritySensor
    case "smart_meter" => SmartMeter
    case "meter" => SmartMeter
    case "camera" => Camera
    case "camera_status" => Camera
    case "door_lock" => DoorLock
    case "appliance" => Appliance
    case "gateway" => Gateway
    case _ => Other
  }

  function DesiredOf(kind: Kind): (r: Fields) {
    match kind
    case Light => map["power" := Bool(true)]
    case Switch => map["power" := Bool(true)]
    case SmartPlug => map["power" := Bool(true), "energy_reporting" := Bool(true)]
    case AirConditioner => map["mode" := Str("cool"), "target_temperature_c" := Number(24.0), "fan" := Str("auto")]
    case EnvironmentSensor => map["report_interval_seconds" := Number(300.0)]
    case SecuritySensor => map["armed" := Bool(true)]
    case SmartMeter => map["reading" := Str("instantaneous")]
    case Camera => map["privacy_mode" := Bool(false), "motion_detection" := Bool(true)]
    case DoorLock => map["locked" := Bool(true)]
    case Appliance => map["mode" := Str("auto"), "run_state" := Str("active")]
    case Gateway => map["sync_children" := Bool(true)]
    case Other => map["command" := Str("probe")]
  }

  function ReportedOf(kind: Kind): (r: Fields) {
    match kind
    case EnvironmentSensor =>
      map["temperature_c" := Number(25.2), "humidity_percent" := Number(58.0), "report_interval_seconds" := Number(300.0)]
    case SecuritySensor => map["armed" := Bool(true), "motion" := Bool(false), "open" := Bool(false)]
    case SmartMeter => map["reading" := Str("instantaneous"), "telemetry_report_requested" := Bool(true)]
    case Camera => map["privacy_mode" := Bool(false), "motion_detection" := Bool(true), "online" := Bool(true)]
    case DoorLock => map["locked" := Bool(true), "battery_percent" := Number(86.0)]
    case Appliance => map["mode" := Str("auto"), "run_state" := Str("active"), "remaining_minutes" := Number(42.0)]
    case Gateway =>
      map["sync_children" := Bool(true), "child_device_count" := Number(8.0), "network_status" := Str("online")]
    case _ => DesiredOf(kind)
  }

  function Desired(capability: string): (r: Fields) { DesiredOf(KindOf(capability)) }

  function Reported(capability: string): (r: Fields) { ReportedOf(KindOf(capability)) }

  const RUN_ID := "_loadtest_run_id"
  const COMMAND_ID := "_loadtest_command_id"

  function Marked(base: Fields, runId: string, commandId: string): (r: Fields) {
    base[RUN_ID := Str(runId)][COMMAND_ID := Str(commandId)]
  }

  lemma SubmapSatisfied(d: Fields, r: Fields)
    requires forall key :: key in d ==> key in r && r[key] == d[key]
    ensures Satisfied(d, r)
  {
    forall key | key in d ensures Fits(d[key], r[key]) { FitsItself(d[key]); }
  }

  lemma KindMeetsItself(kind: Kind)
    ensures forall key :: key in DesiredOf(kind) ==> key in ReportedOf(kind) && ReportedOf(kind)[key] == DesiredOf(kind)[key]
  {
  }

  lemma NamesDiffer()
    ensures RUN_ID != COMMAND_ID
  {
    assert RUN_ID[10] == 'r' && COMMAND_ID[10] == 'c';
  }

  /** For every capability, a command's desired state is satisfied by a device's report exactly when
      the report carries the markers of that very command: no report settles another's shadow. */
  lemma SettlesExactly(capability: string, run: string, command: string, run': string, command': string)
    ensures Satisfied(Marked(Desired(capability), run, command), Marked(Reported(capability), run', command'))
       <==> run == run' && command == command'
  {
    NamesDiffer();
    KindMeetsItself(KindOf(capability));
    if run == run' && command == command' {
      SubmapSatisfied(Marked(Desired(capability), run, command), Marked(Reported(capability), run, command));
    }
    var d, r := Marked(Desired(capability), run, command), Marked(Reported(capability), run', command');
    assert d[RUN_ID] == Str(run) && r[RUN_ID] == Str(run') && d[COMMAND_ID] == Str(command) && r[COMMAND_ID] == Str(command');
  }

  // ---- the run marker of a command ----

  predicate Kept(c: char) { 'a' <= c <= 'z' || 'A' <= c <= 'Z' || '0' <= c <= '9' || c == '-' || c == '_' }

  /** sanitizeCorrelationID; trimming first removes nothing that would be kept. */
  function Sanitized(s: string): (r: string) {
    if s == "" then "" else (if Kept(s[0]) then [s[0]] else "") + Sanitized(s[1..])
  }

  const DIGITS := "0123456789"

  function Natural(n: nat): (r: string) { if n < 10 then [DIGITS[n]] else Natural(n / 10) + [DIGITS[n % 10]] }

  /** The decimal text of a number. */
  function Decimal(n: int): (r: string) { if n < 0 then "-" + Natural(-n) else Natural(n) }

  /** probeCorrelationID: the run id, or the second of the clock when nothing is left of it. */
  function CorrelationId(runId: string, second: int): (r: string) {
    if Sanitized(runId) != "" then Sanitized(runId) else Decimal(second)
  }

  function Read(s: string): (r: int) {
    if s == "" then 0 else Read(s[..|s| - 1]) * 10 + (s[|s| - 1] as int - '0' as int)
  }

  lemma DigitReads(a: nat)
    requires a < 10
    ensures DIGITS[a] as int - '0' as int == a && DIGITS[a] != '-'
  {
    assert DIGITS == ['0', '1', '2', '3', '4', '5', '6', '7', '8', '9'];
  }

  lemma {:induction false} NaturalReads(n: nat)
    ensures Natural(n) != "" && Natural(n)[0] != '-' && Read(Natural(n)) == n
    decreases n
  {
    DigitReads(n % 10);
    var s := Natural(n);
    if n < 10 {
      assert s[..0] == "";
    } else {
      NaturalReads(n / 10);
      assert s[..|s| - 1] == Natural(n / 10);
    }
  }

  function ReadSigned(s: string): (r: int) {
    if s != "" && s[0] == '-' then -Read(s[1..]) else Read(s)
  }

  lemma NegativeReads(s: string)
    ensures ReadSigned("-" + s) == -Read(s)
  {
    assert ("-" + s)[1..] == s;
  }

  lemma PlainReads(s: string)
    requires s != "" && s[0] != '-'
    ensures ReadSigned(s) == Read(s)
  {
  }

  lemma DecimalReads(a: int)
    ensures ReadSigned(Decimal(a)) == a
  {
    if a < 0 {
      NaturalReads(-a);
      NegativeReads(Natural(-a));
    } else {
      NaturalReads(a);
      PlainReads(Natural(a));
    }
  }

  /** A sustained command reads the clock once for its desired and once for its reported marker. Its
      report settles its shadow exactly when something is left of the run id, or both readings fell
      into one second. */
  lemma CommandSettlesExactly(capability: string, runId: string, second: int, second': int, command: string)
    ensures Satisfied(Marked(Desired(capability), CorrelationId(runId, second), command),
                      Marked(Reported(capability), CorrelationId(runId, second'), command))
       <==> Sanitized(runId) != "" || second == second'
  {
    SettlesExactly(capability, CorrelationId(runId, second), command, CorrelationId(runId, second'), command);
    if Sanitized(runId) == "" && Decimal(second) == Decimal(second') {
      DecimalReads(second);
      DecimalReads(second');
    }
  }

  /** The delta of a command with a blank run id, its two readings a second apart, never clears. */
  lemma BlankRunMissesItsSecond(capability: string, second: int, command: string)
    ensures !Satisfied(Marked(Desired(capability), CorrelationId("", second), command),
                       Marked(Reported(capability), CorrelationId("", second + 1), command))
  {
    CommandSettlesExactly(capability, "", second, second + 1, command);
  }
}
