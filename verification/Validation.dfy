/** The verdict of a cloud validation run
    (e2e_test/cloud_validation/cloudvalidation/runner.go, report.go and scenario.go). */
module Validation {
  import opened Common

  datatype Status = Pass | Fail | Skip | Blocked | Unknown(text: string)

  datatype Step = Step(name: string, status: Status)

  /** formatted stands for the checks on the other fields of a scenario. */
  datatype Scenario = Scenario(id: string, testId: string, expected: string, evidence: seq<string>, formatted: bool)
  datatype Manifest = Manifest(schema: int, scenarios: seq<Scenario>)

  datatype Result = Result(testId: string, scenario: string, status: Status, reasonCode: string, reason: string,
                           duration: int, correlation: string)
  datatype PlatformResult = PlatformResult(schema: int, runId: string, platform: string, sdkCommit: string,
                                           serverVersion: string, status: Status, results: seq<Result>)

  datatype Event = Event(scenario: string, correlation: string, kind: string, observedAt: string, timeValid: bool)
  datatype Evidence = Evidence(schema: int, runId: string, platform: string, events: seq<Event>)

  const NOT_IMPLEMENTED := "capability_not_implemented"

  // ---- scenarios ----

  predicate Word(c: char) { 'a' <= c <= 'z' || '0' <= c <= '9' }

  /** ^[a-z0-9][a-z0-9_]{0,63}$ */
  predicate IsId(s: string) {
    0 < |s| <= 64 && Word(s[0]) && forall i :: 0 <= i < |s| ==> Word(s[i]) || s[i] == '_'
  }

  predicate ScenarioOk(s: Scenario) { IsId(s.id) && s.formatted }

  predicate UniqueIds(ss: seq<Scenario>) {
    forall i, j :: 0 <= i < j < |ss| ==> ss[i].id != ss[j].id
  }

  function AllOf(ms: seq<Option<Manifest>>): (r: seq<Scenario>) {
    if ms == [] then []
    else AllOf(ms[..|ms| - 1]) + (match ms[|ms| - 1] case Some(m) => m.scenarios case None => [])
  }

  predicate ManifestsOk(ms: seq<Option<Manifest>>) {
    forall i :: 0 <= i < |ms| ==> ms[i].Some? && ms[i].value.schema == 1
  }

  predicate Loadable(ms: seq<Option<Manifest>>) {
    && ManifestsOk(ms)
    && Accepted(AllOf(ms))
    && AllOf(ms) != []
  }

  lemma {:induction false} AllOfPrefix(ms: seq<Option<Manifest>>, k: nat)
    requires k <= |ms|
    ensures AllOf(ms[..k]) <= AllOf(ms)
    decreases |ms|
  {
    if k < |ms| {
      assert ms[..|ms| - 1][..k] == ms[..k];
      AllOfPrefix(ms[..|ms| - 1], k);
    } else {
      assert ms[..k] == ms;
    }
  }

  function Ids(ss: seq<Scenario>): (r: set<string>) { set s | s in ss :: s.id }

  /** The scenarios so far: well formed, no id twice. */
  predicate Accepted(ss: seq<Scenario>) {
    UniqueIds(ss) && forall k :: 0 <= k < |ss| ==> ScenarioOk(ss[k])
  }

  lemma AcceptNext(ss: seq<Scenario>, s: Scenario)
    requires Accepted(ss)
    ensures Accepted(ss + [s]) <==> ScenarioOk(s) && s.id !in Ids(ss)
    ensures Ids(ss + [s]) == Ids(ss) + {s.id}
  {
    var all := ss + [s];
    assert all[|ss|] == s && forall k :: 0 <= k < |ss| ==> all[k] == ss[k];
    if s.id in Ids(ss) {
      var k :| 0 <= k < |ss| && ss[k].id == s.id;
      assert all[k].id == all[|ss|].id;
    }
    assert forall x :: x in all <==> x in ss || x == s;
  }

  lemma AcceptPrefix(ss: seq<Scenario>, all: seq<Scenario>)
    requires ss <= all && Accepted(all)
    ensures Accepted(ss)
  {
    assert forall k :: 0 <= k < |ss| ==> ss[k] == all[k];
  }

  method AddScenarios(before: seq<Scenario>, here: seq<Scenario>) returns (r: Option<seq<Scenario>>)
    requires Accepted(before)
    ensures r == if Accepted(before + here) then Some(before + here) else None
  {
    var scenarios, seen := before, Ids(before);
    for j := 0 to |here|
      invariant scenarios == before + here[..j] && Accepted(scenarios) && seen == Ids(scenarios)
    {
      AcceptNext(scenarios, here[j]);
      assert scenarios + [here[j]] == before + here[..j + 1];
      if !ScenarioOk(here[j]) || here[j].id in seen {
        assert before + here[..j + 1] <= before + here;
        if Accepted(before + here) { AcceptPrefix(before + here[..j + 1], before + here); }
        return None;
      }
      seen := seen + {here[j].id};
      scenarios := scenarios + [here[j]];
    }
    assert here[..|here|] == here;
    r := Some(scenarios);
  }

  /** One more manifest; if its scenarios do not fit, those of all manifests do not. */
  lemma AllOfNext(ms: seq<Option<Manifest>>, i: nat)
    requires i < |ms| && ms[i].Some?
    ensures AllOf(ms[..i + 1]) == AllOf(ms[..i]) + ms[i].value.scenarios
    ensures Accepted(AllOf(ms)) ==> Accepted(AllOf(ms[..i + 1]))
  {
    assert ms[..i + 1][..i] == ms[..i];
    AllOfPrefix(ms, i + 1);
    if Accepted(AllOf(ms)) { AcceptPrefix(AllOf(ms[..i + 1]), AllOf(ms)); }
  }

  /** None is the reported error; otherwise the scenarios of all manifests, no two with one id. */
  method LoadScenarios(ms: seq<Option<Manifest>>) returns (r: Option<seq<Scenario>>)
    ensures r == if Loadable(ms) then Some(AllOf(ms)) else None
  {
    var scenarios: seq<Scenario> := [];
    for i := 0 to |ms|
      invariant ManifestsOk(ms[..i]) && scenarios == AllOf(ms[..i]) && Accepted(scenarios)
    {
      if ms[i].None? || ms[i].value.schema != 1 { return None; }
      AllOfNext(ms, i);
      var more := AddScenarios(scenarios, ms[i].value.scenarios);
      if more.None? { return None; }
      scenarios := more.value;
    }
    assert ms[..|ms|] == ms;
    r := if scenarios == [] then None else Some(scenarios);
  }

  // ---- verdicts over lists ----

  predicate SomeStep(steps: seq<Step>, s: Status) { exists i :: 0 <= i < |steps| && steps[i].status == s }

  predicate SomeResult(rs: seq<Result>, s: Status) { exists i :: 0 <= i < |rs| && rs[i].status == s }

  /** Whether any step failed or is blocked. */
  method HasBlockingStep(steps: seq<Step>) returns (r: bool)
    ensures r <==> SomeStep(steps, Fail) || SomeStep(steps, Blocked)
  {
    for i := 0 to |steps|
      invariant forall k :: 0 <= k < i ==> steps[k].status != Fail && steps[k].status != Blocked
    {
      if steps[i].status == Fail || steps[i].status == Blocked { return true; }
    }
    r := false;
  }

  /** A failed result fails the whole; then all skipped is skipped; then a blocked one blocks. */
  method AggregateStatus(rs: seq<Result>) returns (r: Status)
    ensures r == Fail <==> SomeResult(rs, Fail)
    ensures r == Skip <==> rs != [] && !SomeResult(rs, Fail) && !SomeResult(rs, Blocked) && !SomeResult(rs, Pass)
    ensures r == Blocked <==> SomeResult(rs, Blocked) && !SomeResult(rs, Fail)
    ensures r in {Pass, Fail, Skip, Blocked}
  {
    var status, allSkipped := Pass, rs != [];
    for i := 0 to |rs|
      invariant forall k :: 0 <= k < i ==> rs[k].status != Fail
      invariant status == Blocked || status == Pass
      invariant status == Blocked <==> exists k :: 0 <= k < i && rs[k].status == Blocked
      invariant allSkipped <==> rs != [] && forall k :: 0 <= k < i ==> rs[k].status != Blocked && rs[k].status != Pass
    {
      match rs[i].status
      case Fail => return Fail;
      case Blocked => status := Blocked; allSkipped := false;
      case Pass => allSkipped := false;
      case _ =>
    }
    r := if allSkipped then Skip else status;
  }

  /** A failure anywhere fails the run, then a block anywhere blocks it, then a skip skips it. */
  function Verdict(steps: seq<Step>, platform: Option<PlatformResult>): (r: Status) {
    var p := if platform.Some? then platform.value.status else Pass;
    if SomeStep(steps, Fail) || p == Fail then Fail
    else if SomeStep(steps, Blocked) || p == Blocked then Blocked
    else if p == Skip then Skip
    else Pass
  }

  method OverallStatus(steps: seq<Step>, platform: Option<PlatformResult>) returns (r: Status)
    ensures r == Verdict(steps, platform)
  {
    var status := Pass;
    for i := 0 to |steps|
      invariant forall k :: 0 <= k < i ==> steps[k].status != Fail
      invariant status == Blocked || status == Pass
      invariant status == Blocked <==> exists k :: 0 <= k < i && steps[k].status == Blocked
    {
      match steps[i].status
      case Fail => return Fail;
      case Blocked => status := Blocked;
      case _ =>
    }
    if platform.Some? {
      if platform.value.status == Fail { return Fail; }
      if platform.value.status == Blocked { status := Blocked; }
      if platform.value.status == Skip && status == Pass { status := Skip; }
    }
    r := status;
  }

  // ---- the platform result ----

  predicate Blank(s: string) {
    forall i :: 0 <= i < |s| ==>
      var u := s[i] as int;
      9 <= u <= 13 || u == 32 || u == 0x85 || u == 0xA0 || u == 0x1680 || 0x2000 <= u <= 0x200A
      || u == 0x2028 || u == 0x2029 || u == 0x202F || u == 0x205F || u == 0x3000
  }

  function Correlation(runId: string, platform: string, scenario: string): (r: string) {
    runId + "-" + platform + "-" + scenario
  }

  predicate Valid(s: Status) { !s.Unknown? }

  predicate ResultOk(r: Result, runId: string, platform: string) {
    && IsId(r.scenario) && r.duration >= 0 && Valid(r.status)
    && r.correlation == Correlation(runId, platform, r.scenario)
    && (r.status != Pass ==> r.reasonCode != "" && r.reason != "")
  }

  predicate IdentityOk(p: PlatformResult, runId: string, platform: string) {
    && p.schema in {1, 2} && p.runId == runId && p.platform == platform
    && !Blank(p.sdkCommit) && !Blank(p.serverVersion) && Valid(p.status) && p.results != []
  }

  /** The status a list of valid results adds up to. */
  predicate AddsUpTo(rs: seq<Result>, s: Status) {
    if SomeResult(rs, Fail) then s == Fail
    else if SomeResult(rs, Blocked) then s == Blocked
    else if SomeResult(rs, Pass) || rs == [] then s == Pass
    else s == Skip
  }

  predicate Readable(p: PlatformResult, runId: string, platform: string) {
    && IdentityOk(p, runId, platform)
    && (forall i :: 0 <= i < |p.results| ==> ResultOk(p.results[i], runId, platform))
    && AddsUpTo(p.results, p.status)
  }

  /** reply is the decoded file, None when it is missing, malformed or holds secrets. */
  method ReadPlatformResult(reply: Option<PlatformResult>, runId: string, platform: string) returns (r: Option<PlatformResult>)
    ensures r == if reply.Some? && Readable(reply.value, runId, platform) then reply else None
  {
    if reply.None? { return None; }
    var p := reply.value;
    if !IdentityOk(p, runId, platform) { return None; }
    for i := 0 to |p.results|
      invariant forall k :: 0 <= k < i ==> ResultOk(p.results[k], runId, platform)
    {
      var item := p.results[i];
      if !IsId(item.scenario) || item.correlation == "" || item.duration < 0 || !Valid(item.status) { return None; }
      if item.correlation != Correlation(runId, platform, item.scenario) { return None; }
      if (item.status == Skip || item.status == Blocked) && (item.reasonCode == "" || item.reason == "") { return None; }
      if item.status == Fail && (item.reasonCode == "" || item.reason == "") { return None; }
    }
    var total := AggregateStatus(p.results);
    assert AddsUpTo(p.results, total);
    r := if p.status != total then None else Some(p);
  }

  /** Without dashes in platform and scenario, a correlation id names run, platform and scenario. */
  lemma CorrelationInjective(r: string, p: string, s: string, r': string, p': string, s': string)
    requires Correlation(r, p, s) == Correlation(r', p', s')
    requires '-' !in s && '-' !in s' && '-' !in p && '-' !in p'
    ensures r == r' && p == p' && s == s'
  {
    var a, b := r + "-" + p, r' + "-" + p';
    LastDash(a, s, b, s');
    LastDash(r, p, r', p');
  }

  lemma LastDash(a: string, s: string, b: string, t: string)
    requires a + "-" + s == b + "-" + t && '-' !in s && '-' !in t
    ensures a == b && s == t
  {
    var x := a + "-" + s;
    assert x[|a|] == '-' && x[|b|] == '-';
    assert forall k :: |a| < k < |x| ==> x[k] == s[k - |a| - 1] != '-';
    assert forall k :: |b| < k < |x| ==> x[k] == t[k - |b| - 1] != '-';
    assert |a| == |b|;
    assert x[..|a|] == a && x[..|b|] == b && x[|a| + 1..] == s && x[|b| + 1..] == t;
  }

  lemma IdHasNoDash(s: string)
    requires IsId(s)
    ensures '-' !in s
  {
  }

  /** The platforms that the preflight accepts. */
  predicate KnownPlatform(platform: string) { platform == "ios" || platform == "android" }

  /** Results accepted for runs on known platforms share a correlation id only if they are of one
      run, one platform and one scenario. */
  lemma AcceptedCorrelations(p: PlatformResult, runId: string, platform: string, i: nat,
                             q: PlatformResult, runId': string, platform': string, j: nat)
    requires Readable(p, runId, platform) && KnownPlatform(platform) && i < |p.results|
    requires Readable(q, runId', platform') && KnownPlatform(platform') && j < |q.results|
    requires p.results[i].correlation == q.results[j].correlation
    ensures runId == runId' && platform == platform' && p.results[i].scenario == q.results[j].scenario
  {
    assert ResultOk(p.results[i], runId, platform) && ResultOk(q.results[j], runId', platform');
    IdHasNoDash(p.results[i].scenario);
    IdHasNoDash(q.results[j].scenario);
    assert '-' !in "ios" && '-' !in "android";
    CorrelationInjective(runId, platform, p.results[i].scenario, runId', platform', q.results[j].scenario);
  }

  // ---- results against scenarios ----

  predicate Distinct(rs: seq<Result>) { forall i, j :: 0 <= i < j < |rs| ==> rs[i].scenario != rs[j].scenario }

  predicate Reported(rs: seq<Result>, id: string) { exists i :: 0 <= i < |rs| && rs[i].scenario == id }

  predicate Covers(rs: seq<Result>, ss: seq<Scenario>) {
    forall k :: 0 <= k < |ss| ==> Reported(rs, ss[k].id)
  }

  /** The results by scenario id, the last one of an id winning. */
  function ById(rs: seq<Result>): (r: map<string, Result>) {
    if rs == [] then map[] else ById(rs[..|rs| - 1])[rs[|rs| - 1].scenario := rs[|rs| - 1]]
  }

  lemma {:induction false} ByIdIs(rs: seq<Result>)
    ensures forall id :: id in ById(rs) <==> Reported(rs, id)
    ensures forall id :: id in ById(rs) ==> ById(rs)[id] in rs && ById(rs)[id].scenario == id
    ensures Distinct(rs) ==> forall i :: 0 <= i < |rs| ==> rs[i].scenario in ById(rs) && ById(rs)[rs[i].scenario] == rs[i]
    decreases |rs|
  {
    if rs != [] {
      var n := |rs| - 1;
      ByIdIs(rs[..n]);
      assert rs == rs[..n] + [rs[n]];
      assert forall i :: 0 <= i < n ==> rs[..n][i] == rs[i];
      forall id ensures id in ById(rs) <==> Reported(rs, id) {
        if id in ById(rs[..n]) {
          var i :| 0 <= i < n && rs[..n][i].scenario == id;
          assert rs[i].scenario == id;
        }
        if i :| 0 <= i < |rs| && rs[i].scenario == id { if i < n { assert rs[..n][i].scenario == id; } }
      }
    }
  }

  method BuildById(rs: seq<Result>) returns (m: map<string, Result>)
    ensures m == ById(rs)
  {
    m := map[];
    for i := 0 to |rs|
      invariant m == ById(rs[..i])
    {
      assert rs[..i + 1][..i] == rs[..i];
      m := m[rs[i].scenario := rs[i]];
    }
    assert rs[..|rs|] == rs;
  }

  /** No scenario is reported twice and none is missing. */
  method ValidateCoverage(rs: seq<Result>, ss: seq<Scenario>) returns (ok: bool)
    ensures ok <==> Distinct(rs) && Covers(rs, ss)
  {
    var seen: set<string> := {};
    for i := 0 to |rs|
      invariant seen == set k | 0 <= k < i :: rs[k].scenario
      invariant forall j, k :: 0 <= j < k < i ==> rs[j].scenario != rs[k].scenario
    {
      if rs[i].scenario in seen {
        var k :| 0 <= k < i && rs[k].scenario == rs[i].scenario;
        assert !Distinct(rs);
        return false;
      }
      seen := seen + {rs[i].scenario};
    }
    for k := 0 to |ss|
      invariant forall j :: 0 <= j < k ==> Reported(rs, ss[j].id)
    {
      if ss[k].id !in seen {
        assert forall i :: 0 <= i < |rs| ==> rs[i].scenario in seen && rs[i].scenario != ss[k].id;
        return false;
      }
    }
    ok := true;
  }

  /** What a scenario demands of its result. */
  predicate AsExpected(s: Scenario, r: Result) {
    if s.expected == NOT_IMPLEMENTED then (r.status == Skip || r.status == Blocked) && r.reasonCode == NOT_IMPLEMENTED
    else r.status == Pass
  }

  method ValidateExpected(rs: seq<Result>, ss: seq<Scenario>) returns (ok: bool)
    ensures ok <==> forall k :: 0 <= k < |ss| ==> ss[k].id in ById(rs) && AsExpected(ss[k], ById(rs)[ss[k].id])
  {
    var byId := BuildById(rs);
    for k := 0 to |ss|
      invariant forall j :: 0 <= j < k ==> ss[j].id in byId && AsExpected(ss[j], byId[ss[j].id])
    {
      var s := ss[k];
      if s.id !in byId { return false; }
      var item := byId[s.id];
      if s.expected == NOT_IMPLEMENTED {
        if (item.status != Skip && item.status != Blocked) || item.reasonCode != NOT_IMPLEMENTED { return false; }
      } else if item.status != Pass {
        return false;
      }
    }
    ok := true;
  }

  /** The test id a scenario of unique ids gives, "" when there is no such scenario. */
  function TestIdOf(ss: seq<Scenario>, id: string): (r: string) {
    if ss == [] then "" else if ss[|ss| - 1].id == id then ss[|ss| - 1].testId else TestIdOf(ss[..|ss| - 1], id)
  }

  function Attached(r: Result, ss: seq<Scenario>): (out: Result) {
    if TestIdOf(ss, r.scenario) == "" then r else r.(testId := TestIdOf(ss, r.scenario))
  }

  predicate Clashes(r: Result, ss: seq<Scenario>) {
    TestIdOf(ss, r.scenario) != "" && r.testId != "" && r.testId != TestIdOf(ss, r.scenario)
  }

  method AttachTestIds(results: seq<Result>, ss: seq<Scenario>) returns (r: Option<seq<Result>>)
    ensures r.None? <==> exists i :: 0 <= i < |results| && Clashes(results[i], ss)
    ensures r.Some? ==> |r.value| == |results| && forall i :: 0 <= i < |results| ==> r.value[i] == Attached(results[i], ss)
  {
    var byScenario: map<string, string> := map[];
    for k := 0 to |ss|
      invariant forall id :: (if id in byScenario then byScenario[id] else "") == TestIdOf(ss[..k], id)
    {
      assert ss[..k + 1][..k] == ss[..k];
      byScenario := byScenario[ss[k].id := ss[k].testId];
    }
    assert ss[..|ss|] == ss;
    var rs := results;
    for i := 0 to |results|
      invariant |rs| == |results|
      invariant forall k :: 0 <= k < i ==> !Clashes(results[k], ss) && rs[k] == Attached(results[k], ss)
      invariant forall k :: i <= k < |rs| ==> rs[k] == results[k]
    {
      var expected := if rs[i].scenario in byScenario then byScenario[rs[i].scenario] else "";
      if expected == "" { continue; }
      if rs[i].testId != "" && rs[i].testId != expected { return None; }
      rs := rs[i := rs[i].(testId := expected)];
    }
    r := Some(rs);
  }

  // ---- evidence ----

  predicate EventOk(e: Event, byId: map<string, Result>) {
    && e.scenario != "" && e.correlation != "" && e.kind != "" && e.observedAt != "" && e.timeValid
    && e.scenario in byId && e.correlation == byId[e.scenario].correlation
  }

  predicate Shows(events: seq<Event>, scenario: string, kind: string) {
    exists i :: 0 <= i < |events| && events[i].scenario == scenario && events[i].kind == kind
  }

  /** Every event belongs to a reported result, and every passed scenario has all its evidence. */
  predicate EvidenceOk(e: Evidence, runId: string, platform: string, ss: seq<Scenario>, rs: seq<Result>) {
    && e.schema == 1 && e.runId == runId && e.platform == platform
    && (forall i :: 0 <= i < |e.events| ==> EventOk(e.events[i], ById(rs)))
    && (forall k, j :: 0 <= k < |ss| && 0 <= j < |ss[k].evidence| && ss[k].id in ById(rs) && ById(rs)[ss[k].id].status == Pass ==>
          Shows(e.events, ss[k].id, ss[k].evidence[j]))
  }

  method ValidateEvidence(reply: Option<Evidence>, runId: string, platform: string, ss: seq<Scenario>,
                          result: Option<PlatformResult>)
    returns (ok: bool)
    ensures ok <==> reply.Some? && result.Some? && EvidenceOk(reply.value, runId, platform, ss, result.value.results)
  {
    if reply.None? { return false; }
    var e := reply.value;
    if e.schema != 1 || e.runId != runId || e.platform != platform { return false; }
    if result.None? { return false; }
    var byId := BuildById(result.value.results);
    var available: set<(string, string)> := {};
    for i := 0 to |e.events|
      invariant forall k :: 0 <= k < i ==> EventOk(e.events[k], byId)
      invariant available == set k | 0 <= k < i :: (e.events[k].scenario, e.events[k].kind)
    {
      if !EventOk(e.events[i], byId) { return false; }
      available := available + {(e.events[i].scenario, e.events[i].kind)};
    }
    AvailableShows(e.events, available);
    ok := AllShown(e.events, available, ss, byId);
  }

  lemma AvailableShows(events: seq<Event>, available: set<(string, string)>)
    requires available == set k | 0 <= k < |events| :: (events[k].scenario, events[k].kind)
    ensures forall id, kind :: (id, kind) in available <==> Shows(events, id, kind)
  {
    forall id, kind ensures (id, kind) in available <==> Shows(events, id, kind) {
      if Shows(events, id, kind) {
        var i :| 0 <= i < |events| && events[i].scenario == id && events[i].kind == kind;
        assert (events[i].scenario, events[i].kind) in available;
      }
    }
  }

  /** The loop over the scenarios that passed. */
  method AllShown(ghost events: seq<Event>, available: set<(string, string)>, ss: seq<Scenario>, byId: map<string, Result>)
    returns (ok: bool)
    requires forall id, kind :: (id, kind) in available <==> Shows(events, id, kind)
    ensures ok <==>
            forall k, j :: 0 <= k < |ss| && 0 <= j < |ss[k].evidence| && ss[k].id in byId && byId[ss[k].id].status == Pass ==>
              Shows(events, ss[k].id, ss[k].evidence[j])
  {
    for k := 0 to |ss|
      invariant forall h, j :: 0 <= h < k && 0 <= j < |ss[h].evidence| && ss[h].id in byId && byId[ss[h].id].status == Pass ==>
        Shows(events, ss[h].id, ss[h].evidence[j])
    {
      if ss[k].id !in byId || byId[ss[k].id].status != Pass { continue; }
      for j := 0 to |ss[k].evidence|
        invariant forall i :: 0 <= i < j ==> Shows(events, ss[k].id, ss[k].evidence[i])
      {
        if (ss[k].id, ss[k].evidence[j]) !in available { return false; }
      }
    }
    ok := true;
  }

  // ---- the run ----

  datatype Exit = Succeeded | Exit2 | Failing

  datatype Config = Config(runId: string, platform: string, planOnly: bool, readinessCommand: string,
                           setupCommand: string, virtualCommand: string, platformCommand: string,
                           evidenceCommand: string, cleanupCommand: string)

  /** What the surroundings answer, whether or not the run gets to ask. */
  datatype Replies = Replies(manifests: seq<Option<Manifest>>, otherPreflight: seq<Step>,
                             readiness: Exit, setup: Exit, bundleValid: bool,
                             deviceStarts: bool, deviceReady: bool, readyFileValid: bool, deviceStops: bool,
                             platform: Exit, platformResult: Option<PlatformResult>,
                             evidence: Exit, evidenceFile: Option<Evidence>, evidenceFileExists: bool,
                             cleanup: Exit)

  /** What the run does to its surroundings. */
  datatype Action = Execute(name: string) | StartDevice | StopDevice

  datatype Report = Report(status: Status, steps: seq<Step>, platformResult: Option<PlatformResult>, trace: seq<Action>)

  const CLEANUP := Execute("cleanup")

  /** A blank command is not run but blocks; exit code 2 blocks, any other failure fails. */
  function CommandStatus(command: string, exit: Exit): (r: Status) {
    if Blank(command) then Blocked
    else match exit case Succeeded => Pass case Exit2 => Blocked case Failing => Fail
  }

  function Executed(name: string, command: string): (r: seq<Action>) { if Blank(command) then [] else [Execute(name)] }

  function NeedCommand(name: string, command: string): (r: seq<Step>) {
    if Blank(command) then [Step("preflight_" + name, Blocked)] else []
  }

  /** The configured commands are checked unless only planning; the other checks are replies. */
  function Preflight(cfg: Config, env: Replies): (r: seq<Step>) {
    var commands := if cfg.planOnly then []
                    else NeedCommand("readiness_command", cfg.readinessCommand)
                         + NeedCommand("setup_command", cfg.setupCommand)
                         + NeedCommand("virtual_command", cfg.virtualCommand)
                         + NeedCommand("platform_command", cfg.platformCommand)
                         + NeedCommand("cleanup_command", cfg.cleanupCommand);
    var steps := env.otherPreflight + commands;
    if steps == [] then [Step("preflight", Pass)] else steps
  }

  predicate Blocking(steps: seq<Step>) { SomeStep(steps, Fail) || SomeStep(steps, Blocked) }

  /** The run goes past its readiness gate, to where it sets up fixtures. */
  predicate SetsUp(cfg: Config, env: Replies) {
    && Loadable(env.manifests)
    && !Blocking(Preflight(cfg, env))
    && !cfg.planOnly
    && env.readiness.Succeeded?
  }

  lemma BlockingAppend(a: seq<Step>, b: seq<Step>)
    ensures Blocking(a + b) <==> Blocking(a) || Blocking(b)
  {
    var all := a + b;
    assert forall i :: 0 <= i < |a| ==> all[i] == a[i];
    assert forall i :: 0 <= i < |b| ==> all[|a| + i] == b[i];
  }

  lemma BlockingLast(steps: seq<Step>, last: Step)
    ensures Blocking(steps + [last]) <==> Blocking(steps) || last.status in {Fail, Blocked}
    ensures Blocking([last]) <==> last.status in {Fail, Blocked}
  {
    assert [last][0] == last;
    BlockingAppend(steps, [last]);
  }

  lemma CommandsConfigured(cfg: Config, env: Replies)
    requires !Blocking(Preflight(cfg, env)) && !cfg.planOnly
    ensures !Blank(cfg.readinessCommand) && !Blank(cfg.setupCommand) && !Blank(cfg.virtualCommand)
    ensures !Blank(cfg.platformCommand) && !Blank(cfg.cleanupCommand)
  {
    var a := NeedCommand("readiness_command", cfg.readinessCommand);
    var b := NeedCommand("setup_command", cfg.setupCommand);
    var c := NeedCommand("virtual_command", cfg.virtualCommand);
    var d := NeedCommand("platform_command", cfg.platformCommand);
    var e := NeedCommand("cleanup_command", cfg.cleanupCommand);
    BlockingAppend(env.otherPreflight, a + b + c + d + e);
    BlockingAppend(a + b + c + d, e);
    BlockingAppend(a + b + c, d);
    BlockingAppend(a + b, c);
    BlockingAppend(a, b);
    assert !Blocking(a + b + c + d + e);
    assert forall steps: seq<Step> {:trigger Blocking(steps)} :: steps != [] && steps[0].status == Blocked ==> Blocking(steps);
  }

  // ---- what a passing run takes ----

  function AttachedAll(rs: seq<Result>, ss: seq<Scenario>): (r: seq<Result>)
    ensures |r| == |rs| && forall i :: 0 <= i < |rs| ==> r[i] == Attached(rs[i], ss)
  {
    seq(|rs|, i requires 0 <= i < |rs| => Attached(rs[i], ss))
  }

  predicate AllExpected(rs: seq<Result>, ss: seq<Scenario>) {
    forall k :: 0 <= k < |ss| ==> ss[k].id in ById(rs) && AsExpected(ss[k], ById(rs)[ss[k].id])
  }

  predicate ResultAccepted(cfg: Config, reply: Option<PlatformResult>, ss: seq<Scenario>) {
    && reply.Some? && Readable(reply.value, cfg.runId, cfg.platform)
    && (forall i :: 0 <= i < |reply.value.results| ==> !Clashes(reply.value.results[i], ss))
    && var rs := AttachedAll(reply.value.results, ss);
       Distinct(rs) && Covers(rs, ss) && AllExpected(rs, ss)
  }

  /** The validated result of the platform test, None when there is none. */
  function ValidatedResult(cfg: Config, env: Replies, ss: seq<Scenario>): (r: Option<PlatformResult>) {
    if CommandStatus(cfg.platformCommand, env.platform) == Pass && ResultAccepted(cfg, env.platformResult, ss)
    then Some(env.platformResult.value.(results := AttachedAll(env.platformResult.value.results, ss)))
    else None
  }

  predicate NeedsEvidence(ss: seq<Scenario>) { exists k :: 0 <= k < |ss| && ss[k].evidence != [] }

  predicate EvidenceAccepted(cfg: Config, env: Replies, ss: seq<Scenario>, result: Option<PlatformResult>) {
    if cfg.evidenceCommand != ""
    then && CommandStatus(cfg.evidenceCommand, env.evidence) == Pass
         && env.evidenceFile.Some? && result.Some?
         && EvidenceOk(env.evidenceFile.value, cfg.runId, cfg.platform, ss, result.value.results)
    else NeedsEvidence(ss) ==> env.evidenceFileExists
  }

  /** The device comes up and goes down as it should. */
  predicate DeviceWorks(env: Replies) { env.deviceStarts && env.deviceReady && env.readyFileValid && env.deviceStops }

  predicate TestsPass(cfg: Config, env: Replies, ss: seq<Scenario>) {
    var result := ValidatedResult(cfg, env, ss);
    result.Some? && result.value.status == Pass && EvidenceAccepted(cfg, env, ss, result)
  }

  predicate Passing(cfg: Config, env: Replies) {
    && Loadable(env.manifests)
    && !Blocking(Preflight(cfg, env))
    && (cfg.planOnly
        || (&& env.readiness.Succeeded? && env.setup.Succeeded? && env.bundleValid
            && DeviceWorks(env)
            && TestsPass(cfg, env, AllOf(env.manifests))
            && env.cleanup.Succeeded?))
  }

  // ---- the run itself ----

  /** The four checks of the platform result, in order. */
  method ValidateReply(cfg: Config, reply: Option<PlatformResult>, ss: seq<Scenario>) returns (result: Option<PlatformResult>)
    ensures result.Some? <==> ResultAccepted(cfg, reply, ss)
    ensures result.Some? ==> result.value == reply.value.(results := AttachedAll(reply.value.results, ss))
  {
    var read := ReadPlatformResult(reply, cfg.runId, cfg.platform);
    if read.None? { return None; }
    var attached := AttachTestIds(read.value.results, ss);
    if attached.None? { return None; }
    assert attached.value == AttachedAll(read.value.results, ss);
    var covered := ValidateCoverage(attached.value, ss);
    if !covered { return None; }
    var expected := ValidateExpected(attached.value, ss);
    if !expected { return None; }
    result := Some(read.value.(results := attached.value));
  }

  method PlatformPhase(cfg: Config, env: Replies, ss: seq<Scenario>)
    returns (steps: seq<Step>, result: Option<PlatformResult>, trace: seq<Action>)
    ensures result == ValidatedResult(cfg, env, ss)
    ensures Blocking(steps) <==> result.None?
    ensures trace == Executed("platform_test", cfg.platformCommand)
  {
    trace := Executed("platform_test", cfg.platformCommand);
    var test := Step("platform_test", CommandStatus(cfg.platformCommand, env.platform));
    steps := [test];
    result := None;
    BlockingLast([], test);
    assert [] + [test] == [test];
    if test.status != Pass { return; }
    result := ValidateReply(cfg, env.platformResult, ss);
    var read := Step("platform_result", if result.Some? then Pass else Fail);
    BlockingLast(steps, read);
    steps := steps + [read];
  }

  method EvidencePhase(cfg: Config, env: Replies, ss: seq<Scenario>, result: Option<PlatformResult>)
    returns (steps: seq<Step>, trace: seq<Action>)
    ensures Blocking(steps) <==> !EvidenceAccepted(cfg, env, ss, result)
    ensures trace == if cfg.evidenceCommand != "" then Executed("cloud_evidence", cfg.evidenceCommand) else []
  {
    trace, steps := [], [];
    if cfg.evidenceCommand != "" {
      trace := Executed("cloud_evidence", cfg.evidenceCommand);
      var status := CommandStatus(cfg.evidenceCommand, env.evidence);
      steps := [Step("cloud_evidence", status)];
      assert steps[0].status == status;
      if status == Pass {
        var ok := ValidateEvidence(env.evidenceFile, cfg.runId, cfg.platform, ss, result);
        var last := Step("cloud_evidence_contract", if ok then Pass else Fail);
        BlockingLast(steps, last);
        steps := steps + [last];
      }
    } else {
      var needed := RequiredEvidence(ss);
      if needed && !env.evidenceFileExists {
        steps := [Step("cloud_evidence", Fail)];
        assert steps[0].status == Fail;
      }
    }
  }

  method RequiredEvidence(ss: seq<Scenario>) returns (r: bool)
    ensures r <==> NeedsEvidence(ss)
  {
    for k := 0 to |ss|
      invariant forall j :: 0 <= j < k ==> ss[j].evidence == []
    {
      if ss[k].evidence != [] { return true; }
    }
    r := false;
  }

  method Finish(steps: seq<Step>, result: Option<PlatformResult>, trace: seq<Action>) returns (r: Report)
    ensures r == Report(Verdict(steps, result), steps, result, trace)
  {
    var status := OverallStatus(steps, result);
    r := Report(status, steps, result, trace);
  }

  /** A cleanup that does not pass fails the run. */
  method FinishWithCleanup(cfg: Config, env: Replies, steps: seq<Step>, result: Option<PlatformResult>, trace: seq<Action>)
    returns (r: Report)
    requires !Blank(cfg.cleanupCommand)
    ensures r.platformResult == result && r.trace == trace + [CLEANUP]
    ensures r.status == Pass <==> !Blocking(steps) && env.cleanup.Succeeded?
                                  && (result.Some? ==> result.value.status !in {Fail, Blocked, Skip})
  {
    var status := CommandStatus(cfg.cleanupCommand, env.cleanup);
    var last := Step("cleanup", if status != Pass then Fail else status);
    BlockingLast(steps, last);
    r := Finish(steps + [last], result, trace + Executed("cleanup", cfg.cleanupCommand));
  }

  method FinishAfterVirtual(cfg: Config, env: Replies, steps: seq<Step>, result: Option<PlatformResult>, trace: seq<Action>)
    returns (r: Report)
    requires !Blank(cfg.cleanupCommand)
    ensures r.platformResult == result && r.trace == trace + [StopDevice, CLEANUP]
    ensures r.status == Pass <==> !Blocking(steps) && env.deviceStops && env.cleanup.Succeeded?
                                  && (result.Some? ==> result.value.status !in {Fail, Blocked, Skip})
  {
    var stop := Step("virtual_device_stop", if env.deviceStops then Pass else Fail);
    BlockingLast(steps, stop);
    r := FinishWithCleanup(cfg, env, steps + [stop], result, trace + [StopDevice]);
    assert trace + [StopDevice] + [CLEANUP] == trace + [StopDevice, CLEANUP];
  }

  /** Cleanup is the last action and happens once; a started device was told to stop just before. */
  predicate CleanedUp(t: seq<Action>) {
    var n := |t|;
    && n > 0 && t[n - 1] == CLEANUP && CLEANUP !in t[..n - 1]
    && (StartDevice in t || StopDevice in t ==>
          && n > 1 && t[n - 2] == StopDevice && StopDevice !in t[..n - 2]
          && multiset(t)[StartDevice] == 1)
  }

  /** Commands only, and no cleanup yet. */
  predicate Before(t: seq<Action>) { forall a :: a in t ==> a.Execute? && a != CLEANUP }

  lemma CleanedUpTrace(before: seq<Action>, middle: seq<Action>)
    requires Before(before) && Before(middle)
    ensures CleanedUp(before + [CLEANUP])
    ensures CleanedUp(before + [StartDevice] + middle + [StopDevice, CLEANUP])
  {
    var t := before + [CLEANUP];
    assert t[..|t| - 1] == before;
    var u := before + [StartDevice] + middle + [StopDevice, CLEANUP];
    var n := |u|;
    var body := before + [StartDevice] + middle;
    assert u[..n - 2] == body && u[..n - 1] == body + [StopDevice];
    assert forall a :: a in body ==> a in before || a in middle || a == StartDevice;
    assert StartDevice !in before && StartDevice !in middle;
    assert multiset(before)[StartDevice] == 0 && multiset(middle)[StartDevice] == 0;
    assert multiset(u) == multiset(before) + multiset{StartDevice} + multiset(middle) + multiset{StopDevice, CLEANUP};
  }

  /** The run passes exactly when all its parts do; whatever happens after its readiness gate, it
      ends with one cleanup behind the stop of a started device, and before the gate it does neither. */
  method Run(cfg: Config, env: Replies) returns (r: Report)
    ensures r.status == Pass <==> Passing(cfg, env)
    ensures r.platformResult.Some? ==> r.platformResult == ValidatedResult(cfg, env, AllOf(env.manifests))
    ensures SetsUp(cfg, env) ==> CleanedUp(r.trace)
    ensures !SetsUp(cfg, env) ==> forall a :: a in r.trace ==> a == Execute("cloud_readiness")
  {
    var trace: seq<Action> := [];
    var loaded := LoadScenarios(env.manifests);
    if loaded.None? {
      var failed := [Step("load_scenarios", Fail)];
      assert failed[0].status == Fail;
      r := Finish(failed, None, trace);
      return;
    }
    var ss := loaded.value;
    var steps := [Step("load_scenarios", Pass)];
    var checks := Preflight(cfg, env);
    BlockingAppend(steps, checks);
    steps := steps + checks;
    var blocking := HasBlockingStep(checks);
    if blocking || cfg.planOnly {
      r := Finish(steps, None, trace);
      return;
    }
    CommandsConfigured(cfg, env);
    var readiness := Step("cloud_readiness", CommandStatus(cfg.readinessCommand, env.readiness));
    trace := trace + Executed("cloud_readiness", cfg.readinessCommand);
    BlockingLast(steps, readiness);
    steps := steps + [readiness];
    if readiness.status != Pass {
      r := Finish(steps, None, trace);
      return;
    }
    r := RunFixture(cfg, env, ss, steps, trace);
  }

  /** From fixture setup on. */
  method RunFixture(cfg: Config, env: Replies, ss: seq<Scenario>, before: seq<Step>, earlier: seq<Action>) returns (r: Report)
    requires !Blank(cfg.setupCommand) && !Blank(cfg.platformCommand) && !Blank(cfg.cleanupCommand)
    requires !Blocking(before) && earlier == [Execute("cloud_readiness")]
    ensures CleanedUp(r.trace)
    ensures r.platformResult.Some? ==> r.platformResult == ValidatedResult(cfg, env, ss)
    ensures r.status == Pass <==>
            env.setup.Succeeded? && env.bundleValid && DeviceWorks(env) && TestsPass(cfg, env, ss) && env.cleanup.Succeeded?
  {
    var setup := Step("fixture_setup", CommandStatus(cfg.setupCommand, env.setup));
    var trace := earlier + Executed("fixture_setup", cfg.setupCommand);
    CleanedUpTrace(trace, []);
    BlockingLast(before, setup);
    var steps := before + [setup];
    var blocking := HasBlockingStep(steps);
    if blocking {
      r := FinishWithCleanup(cfg, env, steps, None, trace);
      return;
    }
    var bundle := Step("runtime_bundle", if env.bundleValid then Pass else Fail);
    BlockingLast(steps, bundle);
    steps := steps + [bundle];
    if !env.bundleValid {
      r := FinishWithCleanup(cfg, env, steps, None, trace);
      return;
    }
    r := RunDevice(cfg, env, ss, steps, trace);
  }

  method RunDevice(cfg: Config, env: Replies, ss: seq<Scenario>, before: seq<Step>, earlier: seq<Action>) returns (r: Report)
    requires !Blank(cfg.platformCommand) && !Blank(cfg.cleanupCommand) && !Blocking(before)
    requires Before(earlier)
    ensures CleanedUp(r.trace)
    ensures r.platformResult.Some? ==> r.platformResult == ValidatedResult(cfg, env, ss)
    ensures r.status == Pass <==> DeviceWorks(env) && TestsPass(cfg, env, ss) && env.cleanup.Succeeded?
  {
    if !env.deviceStarts {
      r := FailedStart(cfg, env, before, earlier);
      return;
    }
    var ready := Step("virtual_device_ready", if env.deviceReady && env.readyFileValid then Pass else Fail);
    BlockingLast(before, ready);
    if ready.status == Fail {
      CleanedUpTrace(earlier, []);
      assert earlier + [StartDevice] + [] == earlier + [StartDevice];
      r := FinishAfterVirtual(cfg, env, before + [ready], None, earlier + [StartDevice]);
    } else {
      r := RunTests(cfg, env, ss, before + [ready], earlier);
    }
  }

  method FailedStart(cfg: Config, env: Replies, before: seq<Step>, earlier: seq<Action>) returns (r: Report)
    requires !Blank(cfg.cleanupCommand) && Before(earlier)
    ensures CleanedUp(r.trace) && r.platformResult.None? && r.status != Pass
  {
    var unstarted := Step("virtual_device_start", Fail);
    BlockingLast(before, unstarted);
    CleanedUpTrace(earlier, []);
    r := FinishWithCleanup(cfg, env, before + [unstarted], None, earlier);
  }

  /** The platform test and its evidence, with the device running. */
  method RunTests(cfg: Config, env: Replies, ss: seq<Scenario>, before: seq<Step>, earlier: seq<Action>) returns (r: Report)
    requires !Blank(cfg.platformCommand) && !Blank(cfg.cleanupCommand) && !Blocking(before)
    requires Before(earlier)
    ensures CleanedUp(r.trace)
    ensures r.platformResult == ValidatedResult(cfg, env, ss)
    ensures r.status == Pass <==> env.deviceStops && TestsPass(cfg, env, ss) && env.cleanup.Succeeded?
  {
    var steps, result, platformTrace := PlatformPhase(cfg, env, ss);
    var last, evidenceTrace := EvidencePhase(cfg, env, ss, result);
    ResultStatusValid(cfg, env, ss);
    BlockingAppend(before, steps);
    BlockingAppend(before + steps, last);
    var trace := earlier + [StartDevice] + (platformTrace + evidenceTrace);
    CleanedUpTrace(earlier, platformTrace + evidenceTrace);
    r := FinishAfterVirtual(cfg, env, before + steps + last, result, trace);
  }

  lemma ResultStatusValid(cfg: Config, env: Replies, ss: seq<Scenario>)
    ensures ValidatedResult(cfg, env, ss).Some? ==> Valid(ValidatedResult(cfg, env, ss).value.status)
  {
  }

  // ---- what a pass means ----

  predicate OnlyResultOf(rs: seq<Result>, i: nat, id: string)
    requires i < |rs|
  {
    rs[i].scenario == id && forall j :: 0 <= j < |rs| && rs[j].scenario == id ==> j == i
  }

  /** A passing run with an evidence command has, for each scenario, exactly one result; it carries
      the correlation id of this run, and it passed with all expected evidence seen under that id,
      or it skipped a scenario expected to be unimplemented. */
  lemma PassMeans(cfg: Config, env: Replies, k: nat) returns (rs: seq<Result>, i: nat)
    requires Passing(cfg, env) && !cfg.planOnly && cfg.evidenceCommand != ""
    requires k < |AllOf(env.manifests)|
    ensures ValidatedResult(cfg, env, AllOf(env.manifests)).Some? && env.evidenceFile.Some?
    ensures rs == ValidatedResult(cfg, env, AllOf(env.manifests)).value.results && i < |rs|
    ensures OnlyResultOf(rs, i, AllOf(env.manifests)[k].id)
    ensures rs[i].correlation == Correlation(cfg.runId, cfg.platform, AllOf(env.manifests)[k].id)
    ensures rs[i].status == Pass
            || (rs[i].status == Skip && rs[i].reasonCode == NOT_IMPLEMENTED && AllOf(env.manifests)[k].expected == NOT_IMPLEMENTED)
    ensures rs[i].status == Pass ==> forall kind :: kind in AllOf(env.manifests)[k].evidence ==>
              Seen(env.evidenceFile.value.events, AllOf(env.manifests)[k].id, rs[i].correlation, kind)
  {
    var ss := AllOf(env.manifests);
    var s := ss[k];
    var p := ValidatedResult(cfg, env, ss).value;
    rs := p.results;
    var raw := env.platformResult.value.results;
    i := ResultOf(rs, ss, k);
    assert rs[i] == Attached(raw[i], ss) && ResultOk(raw[i], cfg.runId, cfg.platform);
    NotBlocked(raw, p.status, i);
    if rs[i].status == Pass {
      forall kind | kind in s.evidence ensures Seen(env.evidenceFile.value.events, s.id, rs[i].correlation, kind) {
        EvidenceSeen(env.evidenceFile.value, cfg.runId, cfg.platform, ss, rs, k, kind);
      }
    }
  }

  predicate Seen(events: seq<Event>, scenario: string, correlation: string, kind: string) {
    exists e :: 0 <= e < |events| && events[e].scenario == scenario && events[e].correlation == correlation && events[e].kind == kind
  }

  lemma ResultOf(rs: seq<Result>, ss: seq<Scenario>, k: nat) returns (i: nat)
    requires Distinct(rs) && Covers(rs, ss) && AllExpected(rs, ss) && k < |ss|
    ensures i < |rs| && OnlyResultOf(rs, i, ss[k].id) && AsExpected(ss[k], rs[i])
    ensures ss[k].id in ById(rs) && ById(rs)[ss[k].id] == rs[i]
  {
    ByIdIs(rs);
    assert Reported(rs, ss[k].id);
    i :| 0 <= i < |rs| && rs[i].scenario == ss[k].id;
    assert ById(rs)[ss[k].id] == rs[i];
  }

  lemma EvidenceSeen(e: Evidence, runId: string, platform: string, ss: seq<Scenario>, rs: seq<Result>, k: nat, kind: string)
    requires EvidenceOk(e, runId, platform, ss, rs) && k < |ss| && kind in ss[k].evidence
    requires ss[k].id in ById(rs) && ById(rs)[ss[k].id].status == Pass
    ensures Seen(e.events, ss[k].id, ById(rs)[ss[k].id].correlation, kind)
  {
    var j :| 0 <= j < |ss[k].evidence| && ss[k].evidence[j] == kind;
    assert Shows(e.events, ss[k].id, ss[k].evidence[j]);
    var h :| 0 <= h < |e.events| && e.events[h].scenario == ss[k].id && e.events[h].kind == kind;
    assert EventOk(e.events[h], ById(rs));
  }

  lemma NotBlocked(rs: seq<Result>, s: Status, i: nat)
    requires AddsUpTo(rs, s) && s == Pass && i < |rs|
    ensures rs[i].status != Fail && rs[i].status != Blocked
  {
  }

  /** The evidence file shows all the evidence of every passed scenario, each piece under the
      correlation id of its result. */
  ghost predicate EvidenceShown(cfg: Config, env: Replies) {
    var ss := AllOf(env.manifests);
    var result := ValidatedResult(cfg, env, ss);
    result.Some? ==>
      forall k, kind :: 0 <= k < |ss| && ss[k].id in ById(result.value.results)
                        && ById(result.value.results)[ss[k].id].status == Pass && kind in ss[k].evidence ==>
        && env.evidenceFile.Some?
        && Seen(env.evidenceFile.value.events, ss[k].id, ById(result.value.results)[ss[k].id].correlation, kind)
  }

  /** Without an evidence command the evidence file is never read: what it says decides nothing. */
  lemma EvidenceUnread(cfg: Config, env: Replies, other: Option<Evidence>)
    requires cfg.evidenceCommand == ""
    ensures Passing(cfg, env) <==> Passing(cfg, env.(evidenceFile := other))
  {
    assert Preflight(cfg, env.(evidenceFile := other)) == Preflight(cfg, env);
  }

  /** A run with every command configured, apart from the one for evidence. */
  predicate Configured(cfg: Config) {
    && !cfg.planOnly
    && !Blank(cfg.readinessCommand) && !Blank(cfg.setupCommand) && !Blank(cfg.virtualCommand)
    && !Blank(cfg.platformCommand) && !Blank(cfg.cleanupCommand)
  }

  /** One scenario "a" that expects one piece of evidence "e", and the result that passes it. */
  function OneScenario(): (r: Scenario) { Scenario("a", "", "success", ["e"], true) }

  function OneResult(cfg: Config): (r: Result) {
    Result("", "a", Pass, "", "", 0, Correlation(cfg.runId, cfg.platform, "a"))
  }

  function AllWell(cfg: Config, file: Option<Evidence>): (r: Replies) {
    Replies([Some(Manifest(1, [OneScenario()]))], [], Succeeded, Succeeded, true, true, true, true, true, Succeeded,
            Some(PlatformResult(1, cfg.runId, cfg.platform, "c", "v", Pass, [OneResult(cfg)])),
            Succeeded, file, true, Succeeded)
  }

  lemma OneScenarioLoads(cfg: Config, file: Option<Evidence>)
    ensures AllOf(AllWell(cfg, file).manifests) == [OneScenario()] && Loadable(AllWell(cfg, file).manifests)
  {
    var ms := AllWell(cfg, file).manifests;
    assert ms[..0] == [] && AllOf([]) == [];
    assert AllOf(ms) == [] + [OneScenario()] == [OneScenario()];
    assert IsId("a");
  }

  lemma OneResultAccepted(cfg: Config, file: Option<Evidence>)
    requires Configured(cfg)
    ensures var ss := [OneScenario()];
            var result := ValidatedResult(cfg, AllWell(cfg, file), ss);
            && result.Some? && result.value.status == Pass
            && result.value.results == [OneResult(cfg)] && ById(result.value.results) == map["a" := OneResult(cfg)]
  {
    var ss := [OneScenario()];
    var p := AllWell(cfg, file).platformResult.value;
    var rs := AttachedAll(p.results, ss);
    assert TestIdOf(ss, "a") == "";
    assert rs == [OneResult(cfg)];
    assert rs[..0] == [];
    assert ById(rs) == map["a" := OneResult(cfg)];
    assert rs[0].scenario == "a" && p.results[0].status == Pass;
    assert IsId("a") && !Blank("c") && !Blank("v") by { assert "c"[0] == 'c' && "v"[0] == 'v'; }
    assert Readable(p, cfg.runId, cfg.platform);
    assert Reported(rs, ss[0].id);
  }

  lemma AllWellChecks(cfg: Config, file: Option<Evidence>)
    requires Configured(cfg)
    ensures !Blocking(Preflight(cfg, AllWell(cfg, file)))
  {
  }

  /** So whatever the file says, or without any file, some run over it passes with a passed scenario
      whose evidence nobody looked at. */
  lemma PassWithoutEvidence(cfg: Config, file: Option<Evidence>) returns (env: Replies)
    requires Configured(cfg) && cfg.evidenceCommand == ""
    ensures Passing(cfg, env) && env.evidenceFile == file
    ensures AllOf(env.manifests) == [OneScenario()] && ValidatedResult(cfg, env, [OneScenario()]).Some?
    ensures ValidatedResult(cfg, env, [OneScenario()]).value.results == [OneResult(cfg)]
  {
    env := AllWell(cfg, None);
    OneScenarioLoads(cfg, None);
    OneResultAccepted(cfg, None);
    AllWellChecks(cfg, None);
    assert Passing(cfg, env);
    EvidenceUnread(cfg, env, file);
    env := env.(evidenceFile := file);
  }

  /** A pass guarantees the evidence of every passed scenario if and only if there is an evidence
      command. */
  lemma PassShowsEvidenceExactly(cfg: Config)
    requires Configured(cfg)
    ensures (forall env :: Passing(cfg, env) ==> EvidenceShown(cfg, env)) <==> cfg.evidenceCommand != ""
  {
    if cfg.evidenceCommand != "" {
      forall env | Passing(cfg, env) ensures EvidenceShown(cfg, env) { PassShowsEvidence(cfg, env); }
    } else {
      var env := PassWithoutEvidence(cfg, None);
      OneResultAccepted(cfg, None);
      var ss := AllOf(env.manifests);
      assert "e" in ss[0].evidence;
      assert !EvidenceShown(cfg, env);
    }
  }

  lemma PassShowsEvidence(cfg: Config, env: Replies)
    requires Passing(cfg, env) && !cfg.planOnly && cfg.evidenceCommand != ""
    ensures EvidenceShown(cfg, env)
  {
    var ss := AllOf(env.manifests);
    var rs := ValidatedResult(cfg, env, ss).value.results;
    forall k, kind | 0 <= k < |ss| && ss[k].id in ById(rs) && ById(rs)[ss[k].id].status == Pass && kind in ss[k].evidence
      ensures Seen(env.evidenceFile.value.events, ss[k].id, ById(rs)[ss[k].id].correlation, kind)
    {
      EvidenceSeen(env.evidenceFile.value, cfg.runId, cfg.platform, ss, rs, k, kind);
    }
  }
}
