/** The concurrent command executor of one stage: the event loop, the command semaphore, the
    per-session locks and the one-shot policy probe of runStagedSustainedHome100KLoad, with
    the phases of runSustainedShadowCommandWithContext (scripts/go/cloud-mqtt-test/main.go).

    A run is any sequence of moves: the dispatcher or one command goroutine passes one channel
    operation, lock operation, atomic operation or protocol phase. */
module CommandExecutor {
  import opened Common
  import opened Totals

  /** An event is a command, or a telemetry or event report; `session` is its slot. */
  datatype Event = Event(command: bool, session: nat)

  /** Waiting for the session lock; the phases of the command, named by what it has done;
      waiting to merge its totals; merged but holding the session lock; only the semaphore
      slot left to give back; gone. */
  datatype Phase = Waiting | Preparing | Written | Delivered | Reported | Finished | Merged | Unlocked | Released

  datatype Goroutine = Goroutine(session: nat, probe: bool, phase: Phase, counters: Command, passed: bool)

  /** The dispatcher between events; past its checks and sending to the semaphore, which it can no
      longer give up; with a semaphore slot; with the slot and its claim. */
  datatype Dispatcher = AtEvent | Sending | HasSlot | HasClaim(probe: bool) | Stopped

  datatype Stage = Stage(
    events: seq<Event>, limit: nat, next: nat, dispatcher: Dispatcher,
    slots: nat, claimed: bool, locks: seq<Option<nat>>, commands: seq<Goroutine>,
    totals: Command, attempted: nat, passed: nat, ok: bool)

  datatype Move =
    | Commit | Acquire | Claim | Spawn
    | Report(works: bool)
    | SkipCommand
    | Stop
    | Lock(c: nat)
    | Advance(c: nat, works: bool)
    | MergeTotals(c: nat)
    | Unlock(c: nat)
    | Release(c: nat)

  /** sustainedCommandConcurrency. */
  function Concurrency(commandConcurrency: int, concurrency: int, sessions: nat): (r: nat)
    ensures 1 <= r
    ensures sessions > 0 ==> r <= sessions
    ensures var wanted := if commandConcurrency > 0 then commandConcurrency else if concurrency > 0 then concurrency else 25;
            r <= wanted && (r == wanted || r == sessions)
  {
    var wanted := if commandConcurrency > 0 then commandConcurrency else if concurrency > 0 then concurrency else 25;
    if sessions > 0 && wanted > sessions then sessions else wanted
  }

  predicate Busy(p: Phase) {
    p.Preparing? || p.Written? || p.Delivered? || p.Reported? || p.Finished? || p.Merged?
  }

  predicate HoldsLock(g: Goroutine) { Busy(g.phase) }

  predicate InFlight(g: Goroutine) { !g.phase.Released? }

  predicate IsMerged(g: Goroutine) { g.phase.Merged? || g.phase.Unlocked? || g.phase.Released? }

  /** The next phase of a running command. Each counter is bumped once its phase is done; a
      failure at any phase goes straight to the merge. */
  function AdvanceCommand(g: Goroutine, works: bool): (r: Goroutine) {
    if !(g.phase.Preparing? || g.phase.Written? || g.phase.Delivered? || g.phase.Reported?) then g
    else if !works then g.(phase := Finished, passed := false)
    else match g.phase
      case Preparing => g.(phase := Written, counters := g.counters.(desiredWrites := g.counters.desiredWrites + 1))
      case Written => g.(phase := Delivered, counters := g.counters.(deltaReceived := g.counters.deltaReceived + 1))
      case Delivered => g.(phase := Reported, counters := g.counters.(reportedEvents := g.counters.reportedEvents + 1))
      case Reported =>
        g.(phase := Finished, passed := true, counters := g.counters.(receivedAcks := g.counters.receivedAcks + 1))
  }

  predicate AtCommand(s: Stage) {
    s.next < |s.events| && s.events[s.next].command && s.events[s.next].session < |s.locks|
  }

  function Step(s: Stage, m: Move): (r: Stage) {
    match m
    case Commit =>
      if s.dispatcher.AtEvent? && AtCommand(s) then s.(dispatcher := Sending) else s
    case Acquire =>
      if s.dispatcher.Sending? && s.slots < s.limit
      then s.(dispatcher := HasSlot, slots := s.slots + 1) else s
    case Claim =>
      if s.dispatcher.HasSlot? then s.(dispatcher := HasClaim(!s.claimed), claimed := true) else s
    case Spawn =>
      if s.dispatcher.HasClaim? && AtCommand(s) then
        s.(dispatcher := AtEvent, next := s.next + 1,
           commands := s.commands + [Goroutine(s.events[s.next].session, s.dispatcher.probe, Waiting, NO_COMMAND, false)])
      else s
    case Report(works) =>
      if s.dispatcher.AtEvent? && s.next < |s.events| && !s.events[s.next].command
      then s.(next := s.next + 1, ok := s.ok && works) else s
    case SkipCommand =>
      if s.dispatcher.AtEvent? && AtCommand(s) then s.(next := s.next + 1, ok := false) else s
    case Stop =>
      if s.dispatcher.AtEvent? then s.(dispatcher := Stopped, ok := s.ok && s.next == |s.events|) else s
    case Lock(c) =>
      if c < |s.commands| && s.commands[c].phase.Waiting? && s.commands[c].session < |s.locks|
         && s.locks[s.commands[c].session] == None
      then s.(locks := s.locks[s.commands[c].session := Some(c)],
              commands := s.commands[c := s.commands[c].(phase := Preparing)]) else s
    case Advance(c, works) =>
      if c < |s.commands| then s.(commands := s.commands[c := AdvanceCommand(s.commands[c], works)]) else s
    case MergeTotals(c) =>
      if c < |s.commands| && s.commands[c].phase.Finished? then
        var g := s.commands[c];
        s.(commands := s.commands[c := g.(phase := Merged)],
           totals := PlusCommand(s.totals, g.counters),
           attempted := s.attempted + 1,
           passed := if g.passed then s.passed + 1 else s.passed,
           ok := s.ok && g.passed)
      else s
    case Unlock(c) =>
      if c < |s.commands| && s.commands[c].phase.Merged? && s.commands[c].session < |s.locks|
      then s.(locks := s.locks[s.commands[c].session := None],
              commands := s.commands[c := s.commands[c].(phase := Unlocked)]) else s
    case Release(c) =>
      if c < |s.commands| && s.commands[c].phase.Unlocked? && s.slots > 0
      then s.(slots := s.slots - 1, commands := s.commands[c := s.commands[c].(phase := Released)]) else s
  }

  function Run(s: Stage, moves: seq<Move>): (r: Stage)
    decreases |moves|
  {
    if moves == [] then s else Step(Run(s, moves[..|moves| - 1]), moves[|moves| - 1])
  }

  predicate Init(s: Stage) {
    && s.limit >= 1 && s.next == 0 && s.dispatcher.AtEvent? && s.slots == 0 && !s.claimed
    && (forall k :: 0 <= k < |s.locks| ==> s.locks[k] == None)
    && (forall k :: 0 <= k < |s.events| ==> s.events[k].session < |s.locks|)
    && s.commands == [] && s.totals == NO_COMMAND && s.attempted == 0 && s.passed == 0 && s.ok
  }

  /** eventWG.Wait has returned. */
  predicate Done(s: Stage) {
    s.dispatcher.Stopped? && forall c :: 0 <= c < |s.commands| ==> s.commands[c].phase.Released?
  }

  // ---------------------------------------------------------------- counting

  function Tally(merged: bool): (r: Goroutine -> int) {
    g => if (if merged then IsMerged(g) else InFlight(g)) then 1 else 0
  }

  /** The commands in flight, or those that have merged their totals. */
  function Count(gs: seq<Goroutine>, merged: bool): (r: int) { Sum(gs, Tally(merged)) }

  function Commands(events: seq<Event>): (r: nat) {
    if events == [] then 0 else Commands(events[..|events| - 1]) + if events[|events| - 1].command then 1 else 0
  }

  // ---------------------------------------------------------------- invariant

  ghost predicate CommandOk(s: Stage, c: nat)
    requires c < |s.commands|
  {
    var g := s.commands[c];
    && g.session < |s.locks|
    && (g.probe <==> c == 0)
    && (s.locks[g.session] == Some(c) <==> HoldsLock(g))
    && CountersOk(g)
  }

  /** A command's counters say which phases it finished, and it passed exactly when it
      acknowledged. */
  ghost predicate CountersOk(g: Goroutine) {
    var k := g.counters;
    && 0 <= k.receivedAcks <= k.reportedEvents <= k.deltaReceived <= k.desiredWrites <= 1
    && (g.phase.Waiting? || g.phase.Preparing? ==> k == NO_COMMAND)
    && (g.phase.Written? ==> k == NO_COMMAND.(desiredWrites := 1))
    && (g.phase.Delivered? ==> k == NO_COMMAND.(desiredWrites := 1, deltaReceived := 1))
    && (g.phase.Reported? ==> k == NO_COMMAND.(desiredWrites := 1, deltaReceived := 1, reportedEvents := 1))
    && (g.phase.Finished? || IsMerged(g) ==> k.receivedAcks == if g.passed then 1 else 0)
  }

  ghost predicate Shape(s: Stage) {
    && s.limit >= 1
    && s.next <= |s.events|
    && (forall k :: 0 <= k < |s.events| ==> s.events[k].session < |s.locks|)
    && (s.dispatcher.Sending? || s.dispatcher.HasSlot? || s.dispatcher.HasClaim? ==> AtCommand(s))
    && (forall k :: 0 <= k < |s.locks| && s.locks[k].Some? ==>
          s.locks[k].value < |s.commands| && s.commands[s.locks[k].value].session == k)
    && (s.claimed <==> |s.commands| > 0 || s.dispatcher.HasClaim?)
    && (s.dispatcher.HasClaim? ==> (s.dispatcher.probe <==> |s.commands| == 0))
    && forall c :: 0 <= c < |s.commands| ==> CommandOk(s, c)
  }

  ghost predicate Counts(s: Stage) {
    && s.slots == Count(s.commands, false) + (if s.dispatcher.HasSlot? || s.dispatcher.HasClaim? then 1 else 0)
    && s.slots <= s.limit
    && s.attempted == Count(s.commands, true)
    && s.totals.receivedAcks == s.passed
    && s.passed <= s.totals.reportedEvents <= s.totals.deltaReceived <= s.totals.desiredWrites <= s.attempted
    && (s.ok ==> s.passed == s.attempted)
    && s.next <= |s.events|
    && (s.ok ==> |s.commands| == Commands(s.events[..s.next]))
    && (s.ok && s.dispatcher.Stopped? ==> s.next == |s.events|)
  }

  predicate ByDispatcher(m: Move) {
    m.Commit? || m.Acquire? || m.Claim? || m.Spawn? || m.Report? || m.SkipCommand? || m.Stop?
  }

  lemma DispatcherShape(s: Stage, m: Move)
    requires Shape(s) && ByDispatcher(m)
    ensures Shape(Step(s, m))
  {
    var s' := Step(s, m);
    forall c | 0 <= c < |s'.commands| ensures CommandOk(s', c) {
      if c < |s.commands| { assert CommandOk(s, c); }
    }
  }

  /** A command that changes phase without touching its lock keeps every command consistent. */
  lemma PhaseShape(s: Stage, s': Stage, c: nat, g: Goroutine)
    requires Shape(s) && c < |s.commands|
    requires s'.commands == s.commands[c := g] && s'.locks == s.locks && s'.limit == s.limit && s'.events == s.events
    requires s'.dispatcher == s.dispatcher && s'.claimed == s.claimed && s'.next == s.next
    requires g.session == s.commands[c].session && g.probe == s.commands[c].probe
    requires HoldsLock(g) == HoldsLock(s.commands[c]) && CountersOk(g)
    ensures Shape(s')
  {
    forall d | 0 <= d < |s'.commands| ensures CommandOk(s', d) { assert CommandOk(s, d); }
  }

  lemma AdvanceOk(g: Goroutine, works: bool)
    requires CountersOk(g)
    ensures var h := AdvanceCommand(g, works);
            CountersOk(h) && HoldsLock(h) == HoldsLock(g) && h.session == g.session && h.probe == g.probe
    ensures var h := AdvanceCommand(g, works); InFlight(h) == InFlight(g) && IsMerged(h) == IsMerged(g)
  {
  }

  lemma AdvanceShape(s: Stage, c: nat, works: bool)
    requires Shape(s) && c < |s.commands|
    ensures Shape(Step(s, Advance(c, works)))
  {
    assert CommandOk(s, c);
    AdvanceOk(s.commands[c], works);
    PhaseShape(s, Step(s, Advance(c, works)), c, AdvanceCommand(s.commands[c], works));
  }

  lemma MergeShape(s: Stage, c: nat)
    requires Shape(s) && c < |s.commands|
    ensures Shape(Step(s, MergeTotals(c)))
  {
    assert CommandOk(s, c);
    var s' := Step(s, MergeTotals(c));
    PhaseShape(s, s', c, s'.commands[c]);
  }

  lemma ReleaseShape(s: Stage, c: nat)
    requires Shape(s) && c < |s.commands|
    ensures Shape(Step(s, Release(c)))
  {
    assert CommandOk(s, c);
    var s' := Step(s, Release(c));
    PhaseShape(s, s', c, s'.commands[c]);
  }

  lemma LockShape(s: Stage, c: nat)
    requires Shape(s) && c < |s.commands|
    ensures Shape(Step(s, Lock(c)))
  {
    var s' := Step(s, Lock(c));
    assert CommandOk(s, c);
    forall d | 0 <= d < |s'.commands| ensures CommandOk(s', d) { assert CommandOk(s, d); }
  }

  lemma UnlockShape(s: Stage, c: nat)
    requires Shape(s) && c < |s.commands|
    ensures Shape(Step(s, Unlock(c)))
  {
    var s' := Step(s, Unlock(c));
    assert CommandOk(s, c);
    forall d | 0 <= d < |s'.commands| ensures CommandOk(s', d) { assert CommandOk(s, d); }
  }

  lemma StepShape(s: Stage, m: Move)
    requires Shape(s)
    ensures Shape(Step(s, m))
  {
    if ByDispatcher(m) {
      DispatcherShape(s, m);
    } else if m.c < |s.commands| {
      match m {
        case Lock(c) => LockShape(s, c);
        case Advance(c, works) => AdvanceShape(s, c, works);
        case MergeTotals(c) => MergeShape(s, c);
        case Unlock(c) => UnlockShape(s, c);
        case Release(c) => ReleaseShape(s, c);
      }
    }
  }

  lemma {:induction false} SpawnCounted(commands: seq<Goroutine>, g: Goroutine, merged: bool)
    ensures Count(commands + [g], merged) == Count(commands, merged) + Tally(merged)(g)
  {
    SumAppend(commands, Tally(merged), g);
  }

  lemma {:induction false} SpawnCounts(s: Stage)
    requires Shape(s) && Counts(s) && s.dispatcher.HasClaim?
    ensures Counts(Step(s, Spawn))
  {
    var g := Step(s, Spawn).commands[|s.commands|];
    NextEvent(s);
    SpawnCounted(s.commands, g, false);
    SpawnCounted(s.commands, g, true);
  }

  lemma {:induction false} DispatcherCounts(s: Stage, m: Move)
    requires Shape(s) && Counts(s) && ByDispatcher(m)
    ensures Counts(Step(s, m))
  {
    if m.Spawn? {
      if s.dispatcher.HasClaim? { SpawnCounts(s); }
    } else if s.next < |s.events| {
      NextEvent(s);
    }
  }

  lemma LockCounts(s: Stage, c: nat)
    requires Counts(s) && c < |s.commands|
    ensures Counts(Step(s, Lock(c)))
  {
    Updated(s, Step(s, Lock(c)), c);
  }

  lemma UnlockCounts(s: Stage, c: nat)
    requires Counts(s) && c < |s.commands|
    ensures Counts(Step(s, Unlock(c)))
  {
    Updated(s, Step(s, Unlock(c)), c);
  }

  lemma AdvanceCounts(s: Stage, c: nat, works: bool)
    requires Shape(s) && Counts(s) && c < |s.commands|
    ensures Counts(Step(s, Advance(c, works)))
  {
    assert CommandOk(s, c);
    AdvanceOk(s.commands[c], works);
    Updated(s, Step(s, Advance(c, works)), c);
  }

  lemma MergeCounts(s: Stage, c: nat)
    requires Shape(s) && Counts(s) && c < |s.commands|
    ensures Counts(Step(s, MergeTotals(c)))
  {
    assert CommandOk(s, c);
    Updated(s, Step(s, MergeTotals(c)), c);
  }

  lemma ReleaseCounts(s: Stage, c: nat)
    requires Counts(s) && c < |s.commands|
    ensures Counts(Step(s, Release(c)))
  {
    Updated(s, Step(s, Release(c)), c);
  }

  lemma StepCounts(s: Stage, m: Move)
    requires Shape(s) && Counts(s)
    ensures Counts(Step(s, m))
  {
    if ByDispatcher(m) {
      DispatcherCounts(s, m);
    } else if m.c < |s.commands| {
      match m {
        case Lock(c) => LockCounts(s, c);
        case Advance(c, works) => AdvanceCounts(s, c, works);
        case MergeTotals(c) => MergeCounts(s, c);
        case Unlock(c) => UnlockCounts(s, c);
        case Release(c) => ReleaseCounts(s, c);
      }
    }
  }

  lemma NextEvent(s: Stage)
    requires s.next < |s.events|
    ensures Commands(s.events[..s.next + 1]) == Commands(s.events[..s.next]) + if s.events[s.next].command then 1 else 0
  {
    assert s.events[..s.next + 1][..s.next] == s.events[..s.next];
  }

  lemma Updated(s: Stage, s': Stage, c: nat)
    requires c < |s.commands| ==> |s'.commands| == |s.commands| && s'.commands == s.commands[c := s'.commands[c]]
    ensures c < |s.commands| ==>
              && Count(s'.commands, false) + (if InFlight(s.commands[c]) then 1 else 0)
                 == Count(s.commands, false) + (if InFlight(s'.commands[c]) then 1 else 0)
              && Count(s'.commands, true) + (if IsMerged(s.commands[c]) then 1 else 0)
                 == Count(s.commands, true) + (if IsMerged(s'.commands[c]) then 1 else 0)
  {
    if c < |s.commands| {
      SumUpdate(s.commands, Tally(false), c, s'.commands[c]);
      SumUpdate(s.commands, Tally(true), c, s'.commands[c]);
    }
  }

  lemma {:induction false} RunInv(s: Stage, moves: seq<Move>)
    requires Init(s)
    ensures Shape(Run(s, moves)) && Counts(Run(s, moves))
    decreases |moves|
  {
    if moves == [] {
      assert s.events[..0] == [];
    } else {
      var t := Run(s, moves[..|moves| - 1]);
      RunInv(s, moves[..|moves| - 1]);
      StepShape(t, moves[|moves| - 1]);
      StepCounts(t, moves[|moves| - 1]);
    }
  }

  // ---------------------------------------------------------------- main results

  /** In every reachable state at most `limit` commands are in flight, two commands that run
      on the same session are the same command, and among the dispatched commands exactly
      the first one holds the policy probe. */
  lemma {:induction false} ExecutorSafety(s: Stage, moves: seq<Move>)
    requires Init(s)
    ensures var t := Run(s, moves);
            && Count(t.commands, false) <= t.limit
            && (forall c, d :: 0 <= c < d < |t.commands| && HoldsLock(t.commands[c]) && HoldsLock(t.commands[d]) ==>
                  t.commands[c].session != t.commands[d].session)
            && (forall c :: 0 <= c < |t.commands| ==> (t.commands[c].probe <==> c == 0))
  {
    var t := Run(s, moves);
    RunInv(s, moves);
    forall c, d | 0 <= c < d < |t.commands| && HoldsLock(t.commands[c]) && HoldsLock(t.commands[d])
      ensures t.commands[c].session != t.commands[d].session
    {
      assert CommandOk(t, c) && CommandOk(t, d);
    }
    forall c | 0 <= c < |t.commands| ensures t.commands[c].probe <==> c == 0 { assert CommandOk(t, c); }
  }

  /** When the stage is over every dispatched command was attempted, and
      acks = passed <= reported <= deltas <= desired writes <= attempted. */
  lemma {:induction false} ExecutorAccounts(s: Stage, moves: seq<Move>)
    requires Init(s) && Done(Run(s, moves))
    ensures var t := Run(s, moves);
            && t.attempted == |t.commands| && t.slots == 0
            && Ordered(t.totals)
            && t.totals.receivedAcks == t.passed && t.totals.desiredWrites <= t.attempted
  {
    var t := Run(s, moves);
    RunInv(s, moves);
    AllReleased(t.commands);
  }

  lemma {:induction false} AllReleased(gs: seq<Goroutine>)
    requires forall c :: 0 <= c < |gs| ==> gs[c].phase.Released?
    ensures Count(gs, false) == 0 && Count(gs, true) == |gs|
  {
    SumBounds(gs, Tally(false), 0, 0);
    SumBounds(gs, Tally(true), 1, 1);
  }

  /** A stage that is over and still ok ran every scheduled command through every phase. */
  lemma {:induction false} PassMeansEveryCommandPassed(s: Stage, moves: seq<Move>)
    requires Init(s) && Done(Run(s, moves)) && Run(s, moves).ok
    ensures var t := Run(s, moves); var n := Commands(s.events);
            t.attempted == n && t.passed == n && t.totals == Command(n, n, n, n)
  {
    var t := Run(s, moves);
    RunInv(s, moves);
    ExecutorAccounts(s, moves);
    EventsFixed(s, moves);
    assert t.events[..|t.events|] == t.events;
  }

  lemma {:induction false} EventsFixed(s: Stage, moves: seq<Move>)
    ensures Run(s, moves).events == s.events && Run(s, moves).limit == s.limit
    decreases |moves|
  {
    if moves != [] {
      EventsFixed(s, moves[..|moves| - 1]);
      StepEvents(Run(s, moves[..|moves| - 1]), moves[|moves| - 1]);
    }
  }

  lemma StepEvents(s: Stage, m: Move)
    ensures Step(s, m).events == s.events && Step(s, m).limit == s.limit
  {
  }

  // ---------------------------------------------------------------- progress

  ghost predicate Enabled(s: Stage, m: Move) { Step(s, m) != s }

  /** A command that has not gone can move, or the command holding its session can. */
  lemma CommandMoves(s: Stage, c: nat)
    requires Shape(s) && Counts(s) && c < |s.commands| && InFlight(s.commands[c])
    ensures exists m :: Enabled(s, m)
  {
    var g := s.commands[c];
    assert CommandOk(s, c);
    if g.phase.Waiting? {
      if s.locks[g.session] == None {
        assert Step(s, Lock(c)).commands[c].phase == Preparing;
        assert Enabled(s, Lock(c));
      } else {
        var d := s.locks[g.session].value;
        assert CommandOk(s, d);
        HolderMoves(s, d);
      }
    } else if g.phase.Unlocked? {
      SomeInFlight(s.commands, c);
      assert Step(s, Release(c)).commands[c].phase == Released;
      assert Enabled(s, Release(c));
    } else {
      HolderMoves(s, c);
    }
  }

  lemma HolderMoves(s: Stage, c: nat)
    requires Shape(s) && c < |s.commands| && HoldsLock(s.commands[c])
    ensures exists m :: Enabled(s, m)
  {
    assert CommandOk(s, c);
    var m := if s.commands[c].phase.Finished? then MergeTotals(c)
             else if s.commands[c].phase.Merged? then Unlock(c) else Advance(c, false);
    assert Step(s, m).commands[c].phase != s.commands[c].phase;
    assert Enabled(s, m);
  }

  lemma {:induction false} SomeInFlight(gs: seq<Goroutine>, c: nat)
    requires c < |gs| && InFlight(gs[c])
    ensures Count(gs, false) > 0
  {
    var rest := gs[c := gs[c].(phase := Released)];
    SumUpdate(gs, Tally(false), c, gs[c].(phase := Released));
    SumBounds(rest, Tally(false), 0, 1);
  }

  lemma {:induction false} FullMeansInFlight(gs: seq<Goroutine>)
    requires Count(gs, false) > 0
    ensures exists c :: 0 <= c < |gs| && InFlight(gs[c])
  {
    if forall c :: 0 <= c < |gs| ==> !InFlight(gs[c]) { SumBounds(gs, Tally(false), 0, 0); }
  }

  lemma StateMoves(t: Stage)
    requires Shape(t) && Counts(t) && !Done(t)
    ensures exists m :: Enabled(t, m)
  {
    match t.dispatcher
    case AtEvent =>
      assert Step(t, Stop).dispatcher == Stopped;
      assert Enabled(t, Stop);
    case Sending =>
      if t.slots < t.limit {
        assert Step(t, Acquire).dispatcher == HasSlot;
        assert Enabled(t, Acquire);
      } else {
        FullMeansInFlight(t.commands);
        var c :| 0 <= c < |t.commands| && InFlight(t.commands[c]);
        CommandMoves(t, c);
      }
    case HasSlot =>
      assert Step(t, Claim).dispatcher.HasClaim?;
      assert Enabled(t, Claim);
    case HasClaim(_) =>
      assert Step(t, Spawn).next == t.next + 1;
      assert Enabled(t, Spawn);
    case Stopped =>
      var c :| 0 <= c < |t.commands| && !t.commands[c].phase.Released?;
      CommandMoves(t, c);
  }

  /** Semaphore, session locks and claim never deadlock: a reachable stage that is not over has a
      move. In particular a dispatcher that waits for a slot of a full semaphore, and can do nothing
      else, waits for a command that can move. */
  lemma {:induction false} NeverStuck(s: Stage, moves: seq<Move>)
    requires Init(s) && !Done(Run(s, moves))
    ensures exists m :: Enabled(Run(s, moves), m)
  {
    RunInv(s, moves);
    StateMoves(Run(s, moves));
  }

  // ---------------------------------------------------------------- termination

  function PhasesLeft(p: Phase): (r: nat) {
    match p
    case Waiting => 8
    case Preparing => 7
    case Written => 6
    case Delivered => 5
    case Reported => 4
    case Finished => 3
    case Merged => 2
    case Unlocked => 1
    case Released => 0
  }

  function Remaining(): (r: Goroutine -> int) { (g: Goroutine) => PhasesLeft(g.phase) }

  function DispatcherLeft(d: Dispatcher): (r: int) {
    match d
    case AtEvent => 1
    case Sending => 0
    case HasSlot => -1
    case HasClaim(_) => -2
    case Stopped => 0
  }

  /** Moves that can still be made: up to twelve an event, the phases left, and the stop. */
  function Left(s: Stage): (r: int) {
    12 * (|s.events| - s.next) + DispatcherLeft(s.dispatcher) + Sum(s.commands, Remaining())
  }

  lemma {:induction false} LeftIsNatural(s: Stage)
    requires Shape(s)
    ensures Left(s) >= 0
  {
    SumBounds(s.commands, Remaining(), 0, 8);
  }

  lemma {:induction false} CommandDecreases(s: Stage, s': Stage, c: nat)
    requires c < |s.commands| == |s'.commands| && s'.commands == s.commands[c := s'.commands[c]]
    requires PhasesLeft(s'.commands[c].phase) < PhasesLeft(s.commands[c].phase)
    requires s'.events == s.events && s'.next == s.next && s'.dispatcher == s.dispatcher
    ensures Left(s') < Left(s)
  {
    SumUpdate(s.commands, Remaining(), c, s'.commands[c]);
  }

  lemma {:induction false} AdvanceDecreases(s: Stage, c: nat, works: bool)
    requires Enabled(s, Advance(c, works))
    ensures Left(Step(s, Advance(c, works))) < Left(s)
  {
    var s' := Step(s, Advance(c, works));
    if AdvanceCommand(s.commands[c], works) == s.commands[c] {
      assert s'.commands == s.commands;
    } else {
      CommandDecreases(s, s', c);
    }
  }

  lemma {:induction false} SpawnDecreases(s: Stage)
    requires Shape(s) && s.dispatcher.HasClaim?
    ensures Left(Step(s, Spawn)) < Left(s)
  {
    var s' := Step(s, Spawn);
    SumAppend(s.commands, Remaining(), s'.commands[|s.commands|]);
  }

  lemma {:induction false} DispatcherDecreases(s: Stage, m: Move)
    requires Shape(s) && Enabled(s, m) && ByDispatcher(m)
    ensures Left(Step(s, m)) < Left(s)
  {
    if m.Spawn? { SpawnDecreases(s); }
  }

  /** Every move that changes anything uses up one of the moves left. */
  lemma {:induction false} MoveDecreases(s: Stage, m: Move)
    requires Shape(s) && Enabled(s, m)
    ensures Left(Step(s, m)) < Left(s)
  {
    if ByDispatcher(m) {
      DispatcherDecreases(s, m);
    } else {
      var s' := Step(s, m);
      match m {
        case Lock(c) => CommandDecreases(s, s', c);
        case Advance(c, works) => AdvanceDecreases(s, c, works);
        case MergeTotals(c) => CommandDecreases(s, s', c);
        case Unlock(c) => CommandDecreases(s, s', c);
        case Release(c) => CommandDecreases(s, s', c);
      }
    }
  }

  /** A run in which every move changes something. */
  ghost predicate Busily(s: Stage, moves: seq<Move>) {
    forall k: nat | k < |moves| :: Enabled(Run(s, moves[..k]), moves[k])
  }

  lemma {:induction false} BusyRunDecreases(s: Stage, moves: seq<Move>)
    requires Init(s) && Busily(s, moves)
    ensures Left(Run(s, moves)) + |moves| <= 12 * |s.events| + 1
    decreases |moves|
  {
    if moves != [] {
      var n := |moves| - 1;
      forall k: nat | k < n ensures Enabled(Run(s, moves[..n][..k]), moves[..n][k]) {
        assert moves[..n][..k] == moves[..k];
        assert Enabled(Run(s, moves[..k]), moves[k]);
      }
      BusyRunDecreases(s, moves[..n]);
      RunInv(s, moves[..n]);
      MoveDecreases(Run(s, moves[..n]), moves[n]);
    }
  }

  /** Under every interleaving the stage ends: a run of effective moves is no longer than twelve
      times the events and one, and one that cannot go on is over. */
  lemma {:induction false} EveryRunEnds(s: Stage, moves: seq<Move>)
    requires Init(s) && Busily(s, moves)
    ensures |moves| <= 12 * |s.events| + 1
    ensures (forall m :: !Enabled(Run(s, moves), m)) <==> Done(Run(s, moves))
  {
    var t := Run(s, moves);
    RunInv(s, moves);
    BusyRunDecreases(s, moves);
    LeftIsNatural(t);
    if !Done(t) { StateMoves(t); }
    if Done(t) {
      forall m ensures !Enabled(t, m) { DoneIsFinal(t, m); }
    }
  }

  lemma DoneIsFinal(t: Stage, m: Move)
    requires Done(t)
    ensures Step(t, m) == t
  {
    if m.Advance? && m.c < |t.commands| { assert t.commands[m.c := t.commands[m.c]] == t.commands; }
  }
}
