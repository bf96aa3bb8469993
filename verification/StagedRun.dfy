/** The staged load run of scripts/go/cloud-mqtt-test/main.go: parseSustainedStages and
    runStagedSustainedHome100KLoad. Sessions are kept across stages; each stage connects the
    assignments that it still lacks through the worker pool and then runs its commands. */
module StagedRun {
  import opened Common
  import opened Totals
  import Pools = ConnectPool
  import Executor = CommandExecutor

  datatype StageSpec = StageSpec(name: string, target: int, duration: int, minCommands: int, window: string)

  datatype Parsed = NotStaged | Stages(stages: seq<StageSpec>) | Invalid

  // ---------------------------------------------------------------- stage options

  /** The shape every parsed stage list has. */
  ghost predicate WellFormed(stages: seq<StageSpec>) {
    && stages != []
    && (forall k :: 0 <= k < |stages| ==> stages[k].target > 0 && stages[k].duration > 0 && stages[k].minCommands >= 0)
    && (forall j, k :: 0 <= j <= k < |stages| ==> stages[j].target <= stages[k].target)
  }

  /** Row k is fine: a positive target not below the one before, a positive duration, no negative minimum. */
  predicate RowOk(targets: seq<int>, durations: seq<int>, mins: seq<int>, k: nat)
    requires k < |targets| == |durations| && (mins == [] || |mins| == |targets|)
  {
    && targets[k] > 0 && durations[k] > 0 && (mins == [] || mins[k] >= 0)
    && (k > 0 ==> targets[k - 1] <= targets[k])
  }

  /** The lists fit together, and every row is fine. */
  ghost predicate Acceptable(names: seq<string>, targets: seq<int>, durations: seq<int>, mins: seq<int>, windows: seq<string>) {
    && |names| == |targets| == |durations| > 0
    && (mins == [] || |mins| == |names|) && (windows == [] || |windows| == |names|)
    && (forall k: nat | k < |names| :: RowOk(targets, durations, mins, k))
  }

  /** Row k of the lists, the optional ones empty where they were left out. */
  function Row(names: seq<string>, targets: seq<int>, durations: seq<int>, mins: seq<int>, windows: seq<string>, k: nat)
    : (r: StageSpec)
    requires k < |names| == |targets| == |durations|
    requires (mins == [] || |mins| == |names|) && (windows == [] || |windows| == |names|)
  {
    StageSpec(names[k], targets[k], durations[k], if mins == [] then 0 else mins[k], if windows == [] then "" else windows[k])
  }

  ghost predicate Rows(stages: seq<StageSpec>, names: seq<string>, targets: seq<int>, durations: seq<int>, mins: seq<int>,
                       windows: seq<string>)
    requires |names| == |targets| == |durations|
    requires (mins == [] || |mins| == |names|) && (windows == [] || |windows| == |names|)
  {
    |stages| == |names| && forall k: nat | k < |names| :: stages[k] == Row(names, targets, durations, mins, windows, k)
  }

  /** parseSustainedStages on the split lists; None is a list holding something that is not a
      number. `blank` and `minsBlank` say that the options were left empty. */
  method ParseStages(blank: bool, names: seq<string>, targets: Option<seq<int>>, durations: Option<seq<int>>,
                     minsBlank: bool, mins: Option<seq<int>>, windows: seq<string>) returns (r: Parsed)
    ensures blank <==> r == NotStaged
    ensures !blank ==>
              var ms := if minsBlank then Some([]) else mins;
              var good := && targets.Some? && durations.Some? && ms.Some?
                          && (minsBlank || |ms.value| == |names|)
                          && Acceptable(names, targets.value, durations.value, ms.value, windows);
              if good
              then r.Stages? && WellFormed(r.stages) && Rows(r.stages, names, targets.value, durations.value, ms.value, windows)
              else r.Invalid?
  {
    if blank { return NotStaged; }
    if targets.None? || durations.None? { return Invalid; }
    var minimums: seq<int> := [];
    if !minsBlank {
      if mins.None? { return Invalid; }
      minimums := mins.value;
      if |minimums| != |names| { return Invalid; }
    }
    var ts, ds := targets.value, durations.value;
    if |names| == 0 || |ts| == 0 || |ds| == 0 || |names| != |ts| || |names| != |ds| { return Invalid; }
    if |windows| > 0 && |windows| != |names| { return Invalid; }
    r := ParseRows(names, ts, ds, minimums, windows);
  }

  /** The loop over the rows. */
  method ParseRows(names: seq<string>, ts: seq<int>, ds: seq<int>, minimums: seq<int>, windows: seq<string>) returns (r: Parsed)
    requires |names| == |ts| == |ds| > 0
    requires (minimums == [] || |minimums| == |names|) && (windows == [] || |windows| == |names|)
    ensures if Acceptable(names, ts, ds, minimums, windows)
            then r.Stages? && WellFormed(r.stages) && Rows(r.stages, names, ts, ds, minimums, windows)
            else r.Invalid?
  {
    var stages: seq<StageSpec> := [];
    var lastTarget := 0;
    for idx := 0 to |names|
      invariant |stages| == idx && lastTarget == if idx == 0 then 0 else ts[idx - 1]
      invariant forall k: nat | k < idx :: stages[k] == Row(names, ts, ds, minimums, windows, k)
      invariant forall k: nat | k < idx :: RowOk(ts, ds, minimums, k)
    {
      var minCommand := if |minimums| > 0 then minimums[idx] else 0;
      if minCommand < 0 || ts[idx] <= 0 || ts[idx] < lastTarget || ds[idx] <= 0 {
        assert !RowOk(ts, ds, minimums, idx);
        return Invalid;
      }
      var window := if |windows| > 0 then windows[idx] else "";
      stages := stages + [StageSpec(names[idx], ts[idx], ds[idx], minCommand, window)];
      lastTarget := ts[idx];
    }
    r := Stages(stages);
    RowsWellFormed(stages, names, ts, ds, minimums, windows);
  }

  lemma RowsWellFormed(stages: seq<StageSpec>, names: seq<string>, ts: seq<int>, ds: seq<int>, mins: seq<int>, windows: seq<string>)
    requires Acceptable(names, ts, ds, mins, windows) && Rows(stages, names, ts, ds, mins, windows)
    ensures WellFormed(stages)
  {
    forall k | 0 <= k < |stages|
      ensures stages[k].target == ts[k] > 0 && stages[k].duration > 0 && stages[k].minCommands >= 0
    {
      assert RowOk(ts, ds, mins, k) && stages[k] == Row(names, ts, ds, mins, windows, k);
    }
    forall j, k | 0 <= j <= k < |stages| ensures stages[j].target <= stages[k].target { TargetsRise(ts, ds, mins, j, k); }
  }

  lemma {:induction false} TargetsRise(ts: seq<int>, ds: seq<int>, mins: seq<int>, j: nat, k: nat)
    requires |ts| == |ds| && (mins == [] || |mins| == |ts|) && j <= k < |ts|
    requires forall i: nat | i < |ts| :: RowOk(ts, ds, mins, i)
    ensures ts[j] <= ts[k]
    decreases k - j
  {
    if j < k {
      TargetsRise(ts, ds, mins, j, k - 1);
      assert RowOk(ts, ds, mins, k);
    }
  }

  // ---------------------------------------------------------------- one run

  /** One call of the pool, as a finished run of it. */
  datatype PoolRun = PoolRun(config: Pools.Config, start: Pools.Pool, moves: seq<Pools.Move>)

  /** One action phase, as a finished run of the executor. */
  datatype ActionRun = ActionRun(start: Executor.Stage, moves: seq<Executor.Move>)

  /** What happens in stage k: the pool run connecting n devices, the order that sorting by
      device id gives its sessions, and, unless the deadline has already passed, the action
      phase over n sessions. */
  datatype Environment = Environment(
    pool: (nat, nat) -> PoolRun,
    byDeviceId: seq<nat> -> seq<nat>,
    action: (nat, nat) -> Option<ActionRun>)

  ghost predicate Possible(env: Environment) {
    && (forall k, n :: PoolPossible(env.pool(k, n), n))
    && (forall s: seq<nat> :: multiset(env.byDeviceId(s)) == multiset(s))
    && (forall k, n :: env.action(k, n).Some? ==> ActionPossible(env.action(k, n).value, n))
  }

  ghost predicate PoolPossible(p: PoolRun, n: nat) {
    && p.config.count == n && Pools.Init(p.start) && Uncounted(p.start.totals)
    && Pools.Done(Pools.Run(p.config, p.start, p.moves))
  }

  ghost predicate ActionPossible(a: ActionRun, n: nat) {
    && Executor.Init(a.start) && |a.start.locks| == n
    && Executor.Done(Executor.Run(a.start, a.moves))
  }

  datatype StageResult = StageResult(target: int, ok: bool, active: nat, totals: IOTotals, attempted: int, passed: int)

  datatype Overall = Overall(ok: bool, totals: IOTotals, attempted: int, passed: int)

  /** The largest target of the first k stages. */
  function Peak(stages: seq<StageSpec>, k: nat): (r: nat)
    requires k <= |stages|
  {
    if k == 0 then 0
    else if stages[k - 1].target > Peak(stages, k - 1) then stages[k - 1].target else Peak(stages, k - 1)
  }

  /** Exactly the first n assignments, each once. */
  ghost predicate FirstN(live: seq<nat>, n: nat) {
    |live| == n && Pools.IsConnectResult(n, live)
  }

  /** The books of a stage or of the whole run. */
  ghost predicate Accounts(totals: IOTotals, attempted: int, passed: int) {
    && Balanced(totals.device) && Ordered(totals.command)
    && totals.command.receivedAcks == passed && totals.command.desiredWrites <= attempted
  }

  ghost predicate Reported(r: StageResult, spec: StageSpec) {
    r.target == spec.target && Accounts(r.totals, r.attempted, r.passed)
  }

  /** A passing stage: every command attempted passed, there was one, and the live sessions
      are exactly the first n assignments. */
  ghost predicate Passed(r: StageResult, live: seq<nat>, n: nat) {
    r.ok && r.attempted == r.passed > 0 && r.active == |live| && FirstN(live, n)
  }

  function Shift(results: seq<nat>, offset: nat): (r: seq<nat>) {
    seq(|results|, i requires 0 <= i < |results| => results[i] + offset)
  }

  /** Fresh totals. */
  method NoTotals() returns (t: IOTotals)
    ensures Balanced(t.device) && t.active == 0
    ensures t.command.desiredWrites == t.command.deltaReceived == t.command.reportedEvents == t.command.receivedAcks == 0
  {
    t := ZERO;
  }

  /** How a stage ends: its totals count, they do not, or the whole run stops. */
  datatype Ending = Counted | NotCounted | Stopped

  /** One stage: connect what is missing, then act. */
  method RunStage(assignments: nat, spec: StageSpec, idx: nat, sessions: seq<nat>, env: Environment)
    returns (stage: StageResult, live: seq<nat>, ending: Ending)
    requires Possible(env)
    requires forall k :: 0 <= k < |sessions| ==> sessions[k] < assignments
    ensures Reported(stage, spec) && sessions <= live
    ensures forall k :: 0 <= k < |live| ==> live[k] < assignments
    ensures ending == Counted ==> stage.totals.active == stage.active == |live|
    ensures stage.ok ==> ending == Counted && stage.attempted == stage.passed
    ensures stage.ok && FirstN(sessions, |sessions|) ==>
              Passed(stage, live, if spec.target > |sessions| then spec.target else |sessions|)
  {
    var nothing := NoTotals();
    stage := StageResult(spec.target, true, 0, nothing, 0, 0);
    live := sessions;
    if spec.target > assignments { return stage.(ok := false), live, Stopped; }
    if spec.target > |sessions| {
      var device;
      live, device := ConnectMissing(sessions, spec.target, env.byDeviceId, env.pool(idx, spec.target - |sessions|));
      stage := stage.(totals := nothing.(device := device));
      if |live| < spec.target { stage := stage.(ok := false); }
    }
    stage := stage.(active := |live|, totals := stage.totals.(active := |live|));
    if |live| == 0 { return stage.(ok := false), live, Stopped; }
    var action := env.action(idx, |live|);
    if action.None? { return stage.(ok := false), live, NotCounted; }
    stage := RunCommands(stage, action.value);
    ending := Counted;
  }

  /** What n stages leave behind: their reports, and sessions that only grow. */
  ghost predicate StagesRun(assignments: nat, stages: seq<StageSpec>, results: seq<StageResult>, lives: seq<seq<nat>>,
                            sessions: seq<nat>, n: nat)
  {
    && |results| == |lives| == n <= |stages|
    && (forall k :: 0 <= k < n ==> Reported(results[k], stages[k]))
    && (forall k :: 0 <= k && k + 1 < n ==> lives[k] <= lives[k + 1])
    && (n > 0 ==> sessions == lives[n - 1])
    && (forall k :: 0 <= k < |sessions| ==> sessions[k] < assignments)
  }

  ghost predicate AllPassed(stages: seq<StageSpec>, results: seq<StageResult>, lives: seq<seq<nat>>, n: nat) {
    && |results| == |lives| == n <= |stages|
    && forall k: nat | k < n :: Passed(results[k], lives[k], Peak(stages, k + 1))
  }

  lemma StagesNext(assignments: nat, stages: seq<StageSpec>, results: seq<StageResult>, lives: seq<seq<nat>>,
                   before: seq<nat>, n: nat, stage: StageResult, sessions: seq<nat>)
    requires StagesRun(assignments, stages, results, lives, before, n) && n < |stages|
    requires Reported(stage, stages[n]) && before <= sessions
    requires forall k :: 0 <= k < |sessions| ==> sessions[k] < assignments
    ensures StagesRun(assignments, stages, results + [stage], lives + [sessions], sessions, n + 1)
  {
    var rs, ls := results + [stage], lives + [sessions];
    assert forall k: nat | k < n :: rs[k] == results[k] && ls[k] == lives[k];
    assert rs[n] == stage && ls[n] == sessions;
  }

  lemma PassedNext(stages: seq<StageSpec>, results: seq<StageResult>, lives: seq<seq<nat>>, n: nat,
                   stage: StageResult, sessions: seq<nat>)
    requires n < |stages| && AllPassed(stages, results, lives, n) && Passed(stage, sessions, Peak(stages, n + 1))
    ensures AllPassed(stages, results + [stage], lives + [sessions], n + 1)
  {
    var rs, ls := results + [stage], lives + [sessions];
    assert forall k: nat | k < n :: rs[k] == results[k] && ls[k] == lives[k];
    assert rs[n] == stage && ls[n] == sessions;
  }

  /** The whole run; `lives[k]` is the list of connected assignments when stage k ends. */
  method RunStages(assignments: nat, stages: seq<StageSpec>, env: Environment)
    returns (overall: Overall, results: seq<StageResult>, sessions: seq<nat>, closed: seq<nat>, ghost lives: seq<seq<nat>>)
    requires Possible(env)
    ensures Accounts(overall.totals, overall.attempted, overall.passed)
    ensures |results| <= |stages| && |lives| == |results|
    ensures forall k :: 0 <= k < |results| ==> Reported(results[k], stages[k])
    ensures forall k :: 0 <= k && k + 1 < |lives| ==> lives[k] <= lives[k + 1]
    ensures forall k :: 0 <= k < |sessions| ==> sessions[k] < assignments
    ensures overall.ok ==>
              overall.attempted == overall.passed && AllPassed(stages, results, lives, |stages|)
    ensures closed == []
  {
    var nothing := NoTotals();
    overall := Overall(true, nothing, 0, 0);
    sessions := [];
    // The deferred close is given the session list as it is here.
    closed := sessions;
    results, lives := [], [];
    for idx := 0 to |stages|
      invariant Accounts(overall.totals, overall.attempted, overall.passed)
      invariant StagesRun(assignments, stages, results, lives, sessions, idx)
      invariant overall.ok ==>
                  && overall.attempted == overall.passed
                  && FirstN(sessions, Peak(stages, idx)) && AllPassed(stages, results, lives, idx)
    {
      var stage, ending;
      ghost var before := sessions;
      stage, sessions, ending := RunStage(assignments, stages[idx], idx, sessions, env);
      StagesNext(assignments, stages, results, lives, before, idx, stage, sessions);
      if overall.ok && stage.ok { PassedNext(stages, results, lives, idx, stage, sessions); }
      results, lives := results + [stage], lives + [sessions];
      if !stage.ok { overall := overall.(ok := false); }
      if ending == Stopped { break; }
      if ending == Counted {
        AddAccounts(overall, stage);
        overall := Overall(overall.ok, Add(overall.totals, stage.totals),
                           overall.attempted + stage.attempted, overall.passed + stage.passed);
      }
    }
  }

  /** Connect the slice of assignments from the number of sessions up to the target. */
  method ConnectMissing(sessions: seq<nat>, target: nat, byDeviceId: seq<nat> -> seq<nat>, run: PoolRun)
    returns (live: seq<nat>, device: Device)
    requires |sessions| < target && PoolPossible(run, target - |sessions|)
    requires forall s: seq<nat> :: multiset(byDeviceId(s)) == multiset(s)
    ensures sessions <= live && |live| <= target && Balanced(device)
    ensures forall k :: |sessions| <= k < |live| ==> live[k] < target
    ensures FirstN(sessions, |sessions|) && |live| == target ==> FirstN(live, target)
  {
    var results;
    results, device := ConnectStage(byDeviceId, run, target - |sessions|);
    live := sessions + Shift(results, |sessions|);
    ExtendFirstN(sessions, results, target);
  }

  lemma AddAccounts(a: Overall, b: StageResult)
    requires Accounts(a.totals, a.attempted, a.passed) && Accounts(b.totals, b.attempted, b.passed)
    ensures Accounts(Add(a.totals, b.totals), a.attempted + b.attempted, a.passed + b.passed)
  {
    MergeKeepsLaws(a.totals, b.totals);
  }

  /** The pool call of a stage: its sessions in device order and its counters. */
  method ConnectStage(byDeviceId: seq<nat> -> seq<nat>, run: PoolRun, n: nat) returns (results: seq<nat>, device: Device)
    requires PoolPossible(run, n) && forall s: seq<nat> :: multiset(byDeviceId(s)) == multiset(s)
    ensures Pools.IsConnectResult(n, results) && Balanced(device) && |results| == device.connectSuccesses
  {
    var end := Pools.Run(run.config, run.start, run.moves);
    PoolOutcome(run, n);
    results := byDeviceId(end.results);
    assert |multiset(results)| == |multiset(end.results)|;
    Reordered(n, end.results, results);
    device := end.totals;
  }

  lemma PoolOutcome(run: PoolRun, n: nat)
    requires PoolPossible(run, n)
    ensures var end := Pools.Run(run.config, run.start, run.moves);
            Pools.IsConnectResult(n, end.results) && Balanced(end.totals) && |end.results| == end.totals.connectSuccesses
  {
    FromZero(run.config, run.start, run.moves, Pools.Run(run.config, run.start, run.moves));
  }

  lemma FromZero(c: Pools.Config, start: Pools.Pool, moves: seq<Pools.Move>, end: Pools.Pool)
    requires Pools.Init(start) && Balanced(start.totals) && start.totals.connectSuccesses == 0
    requires end == Pools.Run(c, start, moves) && Pools.Done(end)
    ensures Pools.IsConnectResult(c.count, end.results) && Balanced(end.totals)
    ensures |end.results| == end.totals.connectSuccesses
  {
    Pools.PoolAccounts(c, start, moves);
  }

  /** The action phase of a stage: merge its totals, keep the gauge, fail on zero commands. */
  method RunCommands(before: StageResult, run: ActionRun) returns (stage: StageResult)
    requires Executor.Init(run.start) && Executor.Done(Executor.Run(run.start, run.moves))
    requires Balanced(before.totals.device) && before.totals.command.desiredWrites == 0 && before.totals.command.deltaReceived == 0
    requires before.totals.command.reportedEvents == 0 && before.totals.command.receivedAcks == 0
    ensures stage.target == before.target && stage.active == before.active && stage.totals.active == before.totals.active
    ensures stage.totals.device == before.totals.device
    ensures Accounts(stage.totals, stage.attempted, stage.passed)
    ensures stage.ok ==> before.ok && stage.attempted == stage.passed > 0
  {
    var end := Executor.Run(run.start, run.moves);
    Executor.RunInv(run.start, run.moves);
    Executor.ExecutorAccounts(run.start, run.moves);
    var totals := Merge(before.totals, IOTotals(NO_DEVICE, end.totals, 0));
    PlusNothing(before.totals.device);
    var ok := before.ok && end.ok && end.attempted != 0;
    stage := StageResult(before.target, ok, before.active, totals, end.attempted, end.passed);
  }

  lemma PlusNothing(d: Device)
    ensures Plus(d, NO_DEVICE) == d
  {
  }

  // ---------------------------------------------------------------- reordering and slices

  lemma {:induction false} Occurrences(s: seq<nat>)
    ensures (forall a, b :: 0 <= a < b < |s| ==> s[a] != s[b]) <==> (forall x :: multiset(s)[x] <= 1)
    decreases |s|
  {
    if s != [] {
      var n := |s| - 1;
      var front, last := s[..n], s[n];
      assert s == front + [last];
      Occurrences(front);
      if forall a, b :: 0 <= a < b < |s| ==> s[a] != s[b] {
        assert forall a, b :: 0 <= a < b < |front| ==> front[a] != front[b];
        assert last !in front;
        forall x ensures multiset(s)[x] <= 1 { assert multiset(front)[x] <= 1; }
      }
      if forall x :: multiset(s)[x] <= 1 {
        forall x ensures multiset(front)[x] <= 1 { assert multiset(s)[x] <= 1; }
        assert multiset(s)[last] <= 1;
        assert last !in multiset(front);
        forall a, b | 0 <= a < b < |s| ensures s[a] != s[b] {
          assert s[a] in front;
          if b < n { assert front[a] != front[b]; }
        }
      }
    }
  }

  lemma Reordered(n: nat, s: seq<nat>, s': seq<nat>)
    requires Pools.IsConnectResult(n, s) && multiset(s') == multiset(s)
    ensures Pools.IsConnectResult(n, s')
  {
    Occurrences(s);
    Occurrences(s');
    forall k | 0 <= k < |s'| ensures s'[k] < n {
      assert s'[k] in multiset(s');
      assert s'[k] in s;
    }
  }

  /** Connecting the whole missing slice extends the first n assignments to the first target. */
  lemma ExtendFirstN(sessions: seq<nat>, results: seq<nat>, target: nat)
    requires |sessions| < target && Pools.IsConnectResult(target - |sessions|, results)
    ensures var s := sessions + Shift(results, |sessions|);
            && |s| <= target
            && (FirstN(sessions, |sessions|) && |s| == target ==> FirstN(s, target))
            && forall k :: |sessions| <= k < |s| ==> s[k] < target
  {
    AtMost(target - |sessions|, results);
  }

  lemma AtMost(n: nat, results: seq<nat>)
    requires Pools.IsConnectResult(n, results)
    ensures |results| <= n
  {
    DistinctSize(results);
    forall x | x in (set k | 0 <= k < |results| :: results[k]) ensures x in Range(n) { InRange(n, x); }
    SubsetSize(set k | 0 <= k < |results| :: results[k], Range(n));
  }

  /** FirstN leaves nobody out. */
  lemma FirstNCovers(live: seq<nat>, n: nat, i: nat)
    requires FirstN(live, n) && i < n
    ensures i in live
  {
    if i !in live {
      var found := set k | 0 <= k < |live| :: live[k];
      DistinctSize(live);
      forall x | x in found ensures x in Range(n) - {i} { InRange(n, x); }
      InRange(n, i);
      SubsetSize(found, Range(n) - {i});
    }
  }

  lemma {:induction false} DistinctSize(s: seq<nat>)
    requires forall a, b :: 0 <= a < b < |s| ==> s[a] != s[b]
    ensures |set k | 0 <= k < |s| :: s[k]| == |s|
    decreases |s|
  {
    if s != [] {
      var n := |s| - 1;
      DistinctSize(s[..n]);
      assert (set k | 0 <= k < |s| :: s[k]) == (set k | 0 <= k < n :: s[..n][k]) + {s[n]};
    }
  }

  function Range(n: nat): (r: set<nat>)
    ensures |r| == n && forall x :: x in r ==> x < n
  {
    if n == 0 then {} else Range(n - 1) + {n - 1}
  }

  lemma {:induction false} InRange(n: nat, x: nat)
    ensures x in Range(n) <==> x < n
    decreases n
  {
    if n > 0 { InRange(n - 1, x); }
  }

  lemma {:induction false} SubsetSize(a: set<nat>, b: set<nat>)
    requires a <= b
    ensures |a| <= |b|
    decreases |a|
  {
    if a != {} {
      var x :| x in a;
      SubsetSize(a - {x}, b - {x});
    }
  }

  /** A parsed stage list never shrinks, so after a passing run stage k has connected exactly
      the first ConnectedTarget assignments. */
  lemma {:induction false} PeakIsTarget(stages: seq<StageSpec>, k: nat)
    requires WellFormed(stages) && k < |stages|
    ensures Peak(stages, k + 1) == stages[k].target
    decreases k
  {
    if k > 0 { PeakIsTarget(stages, k - 1); }
  }

  /** What the next stage asks for after `live` assignments are connected: the slice from the
      number of sessions up to the target. */
  ghost predicate NextSliceFits(live: seq<nat>, target: nat) {
    forall i: nat :: i < target ==> (i in live <==> i < |live|)
  }

  /** After a partly connected stage the slice can repeat or skip assignments. It repeats none
      and skips none if and only if the live sessions are the first ones. */
  lemma NextSliceExactly(live: seq<nat>, target: nat)
    requires |live| <= target && Pools.IsConnectResult(target, live)
    ensures NextSliceFits(live, target) <==> FirstN(live, |live|)
  {
    if NextSliceFits(live, target) {
      forall k | 0 <= k < |live| ensures live[k] < |live| { assert live[k] in live; }
    } else {
      var i: nat :| i < target && !(i in live <==> i < |live|);
      if i < |live| {
        if FirstN(live, |live|) { FirstNCovers(live, |live|, i); assert false; }
      } else {
        assert i in live;
      }
    }
  }

  /** A stage of two assignments of which only the second connects is a finished pool call, for any
      options and any number of workers; the next stage, with target 3, asks again for assignment 1
      and never for assignment 0. */
  lemma PartialStageRepeats(c: Pools.Config, start: Pools.Pool) returns (moves: seq<Pools.Move>)
    requires c.count == 2 && Pools.Init(start) && start.workers != [] && Uncounted(start.totals)
    ensures PoolPossible(PoolRun(c, start, moves), 2)
    ensures var live := Pools.Run(c, start, moves).results; live == [1] && !NextSliceFits(live, 3)
  {
    moves := Pools.AnySubsetConnects(c, start, {1});
    var live := Pools.Run(c, start, moves).results;
    assert Pools.Chosen({1}, 1) == Pools.Chosen({1}, 0);
    assert live == [1];
    assert !(0 in live <==> 0 < |live|);
  }
}
