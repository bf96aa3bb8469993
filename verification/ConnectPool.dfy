/** The paced worker pool that connects devices: connectSustainedDevicesPacedUntilWithOptions
    with requestDeviceTokenWithRetry and connectMQTTActor, scripts/go/cloud-mqtt-test/main.go.

    A run is any sequence of moves. One move is one worker passing one mutex-protected counter
    update, channel operation or network reply, or the dispatcher handing out an assignment or
    closing the job channel; so every interleaving of the workers is a run. */
module ConnectPool {
  import opened Common
  import opened Totals

  /** maxAttempts is retries + 1; shadowGet asks for the second subscription. */
  datatype Config = Config(count: nat, maxAttempts: nat, hasDeadline: bool, shadowGet: bool)

  /** Where a worker is; `i` is the assignment it holds. */
  datatype Pc =
    | Idle
    | Holding(i: nat)
    | Connecting(i: nat)
    | TokenCheck(i: nat, attempt: nat)
    | CountRetry(i: nat, attempt: nat)
    | Requesting(i: nat, attempt: nat)
    | CountFirstFailure(i: nat, again: bool)
    | TokenGivenUp(i: nat, made: nat)
    | CountDial(i: nat)
    | Dialing(i: nat)
    | Identifying(i: nat)
    | AwaitConnack(i: nat)
    | CountSubscribe(i: nat)
    | Subscribing(i: nat, second: bool)
    | CountSuccess(i: nat)
    | Pushing(i: nat)
    | CountFailure(i: nat)
    | Exited

  datatype Pool = Pool(workers: seq<Pc>, next: nat, closed: bool, totals: Device, results: seq<nat>)

  /** How the outside answers a worker: the phase works, fails, or fails for good, or the
      deadline has passed. */
  datatype Answer = Good | Bad | Fatal | Expired

  datatype Move = Dispatch(w: nat) | Close | Work(w: nat, answer: Answer)

  datatype Effect = Effect(pc: Pc, tick: Tick)

  // ---------------------------------------------------------------- one worker

  /** What one worker does next, with the counter update that goes with it. */
  function Next(c: Config, closed: bool, pc: Pc, answer: Answer): (r: Effect) {
    var expired := c.hasDeadline && answer.Expired?;
    match pc
    case Idle => Effect(if closed then Exited else Idle, Nothing)
    case Holding(i) => if expired then Effect(Exited, Nothing) else Effect(Connecting(i), ConnectAttempted)
    case Connecting(i) => Effect(if answer.Good? then TokenCheck(i, 1) else CountFailure(i), Nothing)
    case TokenCheck(i, attempt) =>
      if expired then Effect(if attempt > 1 then TokenGivenUp(i, attempt - 1) else CountFailure(i), Nothing)
      else Effect(if attempt > 1 then CountRetry(i, attempt) else Requesting(i, attempt), TokenAttempted)
    case CountRetry(i, attempt) => Effect(Requesting(i, attempt), TokenRetried)
    case Requesting(i, attempt) =>
      if answer.Good? then Effect(CountDial(i), if attempt == 1 then TokenFirstGranted else TokenRetryGranted)
      else
        var again := attempt < c.maxAttempts && answer.Bad?;
        if attempt == 1 then Effect(CountFirstFailure(i, again), Nothing)
        else Effect(if again then TokenCheck(i, attempt + 1) else TokenGivenUp(i, attempt), Nothing)
    case CountFirstFailure(i, again) => Effect(if again then TokenCheck(i, 2) else TokenGivenUp(i, 1), TokenFirstFailed)
    case TokenGivenUp(i, made) => Effect(CountFailure(i), TokenFailed(made > 1))
    case CountDial(i) => Effect(Dialing(i), DialAttempted)
    case Dialing(i) => if answer.Good? then Effect(Identifying(i), DialWorked) else Effect(CountFailure(i), DialFailed)
    case Identifying(i) =>
      if answer.Good? then Effect(AwaitConnack(i), ConnackAttempted) else Effect(CountFailure(i), Nothing)
    case AwaitConnack(i) =>
      if answer.Good? then Effect(CountSubscribe(i), ConnackWorked) else Effect(CountFailure(i), ConnackFailed)
    case CountSubscribe(i) => Effect(Subscribing(i, false), SubscribeAttempted)
    case Subscribing(i, second) =>
      if !answer.Good? then Effect(Idle, SubscribeFailed)
      else Effect(if c.shadowGet && !second then Subscribing(i, true) else CountSuccess(i), Nothing)
    case CountSuccess(i) => Effect(Pushing(i), Succeeded)
    case Pushing(i) => Effect(Idle, Nothing)
    case CountFailure(i) => Effect(Idle, ConnectFailed)
    case Exited => Effect(Exited, Nothing)
  }

  function Step(c: Config, s: Pool, m: Move): (r: Pool) {
    match m
    case Dispatch(w) =>
      if w < |s.workers| && s.workers[w].Idle? && !s.closed && s.next < c.count
      then s.(workers := s.workers[w := Holding(s.next)], next := s.next + 1) else s
    case Close => if s.next == c.count || c.hasDeadline then s.(closed := true) else s
    case Work(w, answer) =>
      if w >= |s.workers| then s
      else
        var e := Next(c, s.closed, s.workers[w], answer);
        Pool(s.workers[w := e.pc], s.next, s.closed, Bump(s.totals, e.tick),
             if s.workers[w].Pushing? then s.results + [s.workers[w].i] else s.results)
  }

  function Run(c: Config, s: Pool, moves: seq<Move>): (r: Pool)
    decreases |moves|
  {
    if moves == [] then s else Step(c, Run(c, s, moves[..|moves| - 1]), moves[|moves| - 1])
  }

  predicate Init(s: Pool) {
    !s.closed && s.next == 0 && s.results == [] && forall w :: 0 <= w < |s.workers| ==> s.workers[w] == Idle
  }

  /** The result channel is closed once every worker has returned. */
  predicate Done(s: Pool) { s.closed && forall w :: 0 <= w < |s.workers| ==> s.workers[w] == Exited }

  // ---------------------------------------------------------------- counters

  /** The updates that a worker still owes law k if its assignment fails from here on: what
      would settle the books now. */
  function Owed(k: nat, pc: Pc): (r: int) {
    var failed, tokenFailed := TickGap(k, ConnectFailed), TickGap(k, TokenFailed(true));
    match pc
    case Connecting(_) => failed
    case TokenCheck(_, attempt) => if attempt > 1 then tokenFailed + failed else failed
    case CountRetry(_, _) => TickGap(k, TokenRetried) + tokenFailed + failed
    case Requesting(_, attempt) => (if attempt == 1 then TickGap(k, TokenFirstFailed) else 0) + tokenFailed + failed
    case CountFirstFailure(_, _) => TickGap(k, TokenFirstFailed) + tokenFailed + failed
    case TokenGivenUp(_, _) => tokenFailed + failed
    case CountDial(_) => TickGap(k, DialAttempted) + TickGap(k, DialFailed) + failed
    case Dialing(_) => TickGap(k, DialFailed) + failed
    case Identifying(_) => TickGap(k, ConnackAttempted) + TickGap(k, ConnackFailed) + failed
    case AwaitConnack(_) => TickGap(k, ConnackFailed) + failed
    case CountSubscribe(_) => TickGap(k, SubscribeAttempted) + TickGap(k, SubscribeFailed)
    case Subscribing(_, _) => TickGap(k, SubscribeFailed)
    case CountSuccess(_) => TickGap(k, Succeeded)
    case CountFailure(_) => failed
    case _ => 0
  }

  function DebtOf(k: nat): (r: Pc -> int) { pc => Owed(k, pc) }

  /** What all workers owe towards law k. */
  function Debts(k: nat, ws: seq<Pc>): (r: int) { Sum(ws, DebtOf(k)) }

  /** Attempts are numbered from 1. */
  predicate Numbered(pc: Pc) {
    match pc
    case TokenCheck(_, attempt) => attempt >= 1
    case CountRetry(_, attempt) => attempt >= 2
    case Requesting(_, attempt) => attempt >= 1
    case _ => true
  }

  lemma NextNumbered(c: Config, closed: bool, pc: Pc, answer: Answer)
    requires Numbered(pc)
    ensures Numbered(Next(c, closed, pc, answer).pc)
  {
  }

  ghost predicate Settles(c: Config, closed: bool, pc: Pc, answer: Answer, k: nat) {
    var e := Next(c, closed, pc, answer);
    Holds(k, TickGap(k, e.tick) + Owed(k, e.pc) - Owed(k, pc))
  }

  predicate AskingToken(pc: Pc) {
    pc.TokenCheck? || pc.CountRetry? || pc.Requesting? || pc.CountFirstFailure? || pc.TokenGivenUp?
  }

  predicate Linking(pc: Pc) { pc.CountDial? || pc.Dialing? || pc.Identifying? || pc.AwaitConnack? }

  lemma TokenSettles(c: Config, closed: bool, pc: Pc, answer: Answer, k: nat)
    requires Numbered(pc) && AskingToken(pc)
    ensures Settles(c, closed, pc, answer, k)
  {
  }

  lemma LinkSettles(c: Config, closed: bool, pc: Pc, answer: Answer, k: nat)
    requires Linking(pc)
    ensures Settles(c, closed, pc, answer, k)
  {
  }

  lemma RestSettles(c: Config, closed: bool, pc: Pc, answer: Answer, k: nat)
    requires !AskingToken(pc) && !Linking(pc)
    ensures Settles(c, closed, pc, answer, k)
  {
  }

  /** One worker's update changes no law once what the worker owes is counted in, except that
      it may leave slack in the two inequalities. */
  lemma NextSettles(c: Config, closed: bool, pc: Pc, answer: Answer, k: nat)
    requires Numbered(pc)
    ensures Settles(c, closed, pc, answer, k)
  {
    if AskingToken(pc) { TokenSettles(c, closed, pc, answer, k); }
    else if Linking(pc) { LinkSettles(c, closed, pc, answer, k); }
    else { RestSettles(c, closed, pc, answer, k); }
  }

  lemma NoDebts(k: nat, ws: seq<Pc>)
    requires forall w :: 0 <= w < |ws| ==> ws[w] == Exited || ws[w] == Idle
    ensures Debts(k, ws) == 0
  {
    SumBounds(ws, DebtOf(k), 0, 0);
  }

  ghost predicate AllNumbered(ws: seq<Pc>) {
    forall w :: 0 <= w < |ws| ==> Numbered(ws[w])
  }

  /** The books of a pool: what was counted since `base` plus what workers owe meets law k. */
  ghost predicate Books(k: nat, base: Device, s: Pool) {
    Holds(k, Gap(k, s.totals) - Gap(k, base) + Debts(k, s.workers))
  }

  lemma StepBooks(c: Config, base: Device, s: Pool, m: Move, k: nat)
    requires AllNumbered(s.workers) && Books(k, base, s)
    ensures Books(k, base, Step(c, s, m))
  {
    match m
    case Close =>
    case Dispatch(w) =>
      if w < |s.workers| && s.workers[w].Idle? { SumUpdate(s.workers, DebtOf(k), w, Holding(s.next)); }
    case Work(w, answer) =>
      if w < |s.workers| {
        var e := Next(c, s.closed, s.workers[w], answer);
        SumUpdate(s.workers, DebtOf(k), w, e.pc);
        BumpGap(k, s.totals, e.tick);
        NextSettles(c, s.closed, s.workers[w], answer, k);
      }
  }

  lemma StepNumbered(c: Config, s: Pool, m: Move)
    requires AllNumbered(s.workers)
    ensures AllNumbered(Step(c, s, m).workers)
  {
    if m.Work? && m.w < |s.workers| { NextNumbered(c, s.closed, s.workers[m.w], m.answer); }
  }

  // ---------------------------------------------------------------- sessions

  /** The assignment a worker is busy with, or -1. */
  function Item(pc: Pc): (r: int) {
    match pc
    case Idle => -1
    case Exited => -1
    case _ => pc.i
  }

  lemma NextHolds(c: Config, closed: bool, pc: Pc, answer: Answer)
    ensures var i := Item(Next(c, closed, pc, answer).pc); i == -1 || i == Item(pc)
    ensures pc.Pushing? ==> Item(Next(c, closed, pc, answer).pc) == -1
  {
  }

  /** Every assignment is handed out at most once, and is either with one worker, or
      connected, or gone. */
  ghost predicate Owned(s: Pool) {
    && (forall w :: 0 <= w < |s.workers| ==> Item(s.workers[w]) < s.next && Fresh(Item(s.workers[w]), s.results))
    && (forall w, v :: 0 <= w < v < |s.workers| ==> Item(s.workers[w]) == -1 || Item(s.workers[w]) != Item(s.workers[v]))
    && IsConnectResult(s.next, s.results)
  }

  ghost predicate Fresh(i: int, results: seq<nat>) {
    forall k :: 0 <= k < |results| ==> results[k] != i
  }

  /** Distinct assignments out of `count`. */
  ghost predicate IsConnectResult(count: nat, results: seq<nat>) {
    && (forall k :: 0 <= k < |results| ==> results[k] < count)
    && (forall a, b :: 0 <= a < b < |results| ==> results[a] != results[b])
  }

  lemma StepOwned(c: Config, s: Pool, m: Move)
    requires Owned(s)
    ensures Owned(Step(c, s, m))
  {
    if m.Work? && m.w < |s.workers| {
      NextHolds(c, s.closed, s.workers[m.w], m.answer);
    }
  }

  function HandingOver(): (r: Pc -> int) { (pc: Pc) => if pc.Pushing? then 1 else 0 }

  /** Successes counted but not yet handed to the result channel. */
  function Unpushed(ws: seq<Pc>): (r: int) { Sum(ws, HandingOver()) }

  ghost predicate Counted(base: Device, s: Pool) {
    s.totals.connectSuccesses - base.connectSuccesses == |s.results| + Unpushed(s.workers)
  }

  /** A success is counted exactly when a worker goes on to hand over its session. */
  lemma NextPushes(c: Config, closed: bool, pc: Pc, answer: Answer)
    ensures var e := Next(c, closed, pc, answer); e.tick.Succeeded? == e.pc.Pushing?
  {
  }

  lemma StepCounted(c: Config, base: Device, s: Pool, m: Move)
    requires Counted(base, s)
    ensures Counted(base, Step(c, s, m))
  {
    match m
    case Close =>
    case Dispatch(w) =>
      if w < |s.workers| { SumUpdate(s.workers, HandingOver(), w, Holding(s.next)); }
    case Work(w, answer) =>
      if w < |s.workers| {
        var e := Next(c, s.closed, s.workers[w], answer);
        SumUpdate(s.workers, HandingOver(), w, e.pc);
        BumpSuccesses(s.totals, e.tick);
        NextPushes(c, s.closed, s.workers[w], answer);
      }
  }

  // ---------------------------------------------------------------- main results

  ghost predicate Inv(c: Config, base: Device, s: Pool) {
    && AllNumbered(s.workers)
    && (forall k: nat :: Books(k, base, s))
    && Owned(s) && Counted(base, s) && s.next <= c.count
  }

  lemma InitInv(c: Config, s: Pool)
    requires Init(s)
    ensures Inv(c, s.totals, s)
  {
    forall k: nat ensures Books(k, s.totals, s) { NoDebts(k, s.workers); }
    NoneUnpushed(s.workers);
  }

  lemma StepInv(c: Config, base: Device, s: Pool, m: Move)
    requires Inv(c, base, s)
    ensures Inv(c, base, Step(c, s, m))
  {
    StepNumbered(c, s, m);
    forall k: nat ensures Books(k, base, Step(c, s, m)) { StepBooks(c, base, s, m, k); }
    StepOwned(c, s, m);
    StepCounted(c, base, s, m);
  }

  lemma {:induction false} RunInv(c: Config, s0: Pool, moves: seq<Move>)
    requires Init(s0)
    ensures Inv(c, s0.totals, Run(c, s0, moves))
    decreases |moves|
  {
    if moves == [] {
      InitInv(c, s0);
    } else {
      RunInv(c, s0, moves[..|moves| - 1]);
      StepInv(c, s0.totals, Run(c, s0, moves[..|moves| - 1]), moves[|moves| - 1]);
    }
  }

  lemma NoneUnpushed(ws: seq<Pc>)
    requires forall w :: 0 <= w < |ws| ==> !ws[w].Pushing?
    ensures Unpushed(ws) == 0
  {
    SumBounds(ws, HandingOver(), 0, 0);
  }

  /** When the pool is done, whatever the interleaving, balanced counters are balanced again,
      the sessions returned are as many as the successes counted by this call, and they are
      distinct assignments of this call. */
  lemma {:induction false} PoolAccounts(c: Config, s0: Pool, moves: seq<Move>)
    requires Init(s0) && Balanced(s0.totals) && Done(Run(c, s0, moves))
    ensures var s := Run(c, s0, moves);
            && Balanced(s.totals)
            && |s.results| == s.totals.connectSuccesses - s0.totals.connectSuccesses
            && IsConnectResult(c.count, s.results)
  {
    var s := Run(c, s0, moves);
    RunInv(c, s0, moves);
    BalancedGaps(s0.totals);
    forall k: nat ensures Holds(k, Gap(k, s.totals)) {
      assert Books(k, s0.totals, s) && Holds(k, Gap(k, s0.totals));
      NoDebts(k, s.workers);
    }
    BalancedGaps(s.totals);
    NoneUnpushed(s.workers);
  }

  /** At any moment, not only at the end, the attempts are the successes, the failures and the
      assignments that workers are busy with. */
  lemma {:induction false} AttemptsAlwaysExplained(c: Config, s0: Pool, moves: seq<Move>)
    requires Init(s0) && Balanced(s0.totals)
    ensures var s := Run(c, s0, moves); var t := s.totals;
            && t.connectAttempts == t.connectSuccesses + t.connectFailures + Busy(s.workers)
            && 0 <= Busy(s.workers) <= |s.workers|
  {
    var s := Run(c, s0, moves);
    RunInv(c, s0, moves);
    assert Books(0, s0.totals, s);
    BusyIsDebt(s.workers);
    SumBounds(s.workers, Counting(), 0, 1);
  }

  predicate Connects(pc: Pc) { !pc.Idle? && !pc.Holding? && !pc.Pushing? && !pc.Exited? }

  function Counting(): (r: Pc -> int) { pc => if Connects(pc) then 1 else 0 }

  function Busy(ws: seq<Pc>): (r: int) { Sum(ws, Counting()) }

  /** A busy worker is one that owes the law of the attempts its outcome. */
  lemma BusyIsDebt(ws: seq<Pc>)
    ensures Busy(ws) == -Debts(0, ws)
  {
    forall pc ensures DebtOf(0)(pc) == -Counting()(pc) { }
    SumNegated(ws, Counting(), DebtOf(0));
  }

  // ---------------------------------------------------------------- what a call can return

  /** Where an assignment is after k updates when everything works. */
  function Way(c: Config, i: nat, k: nat): (r: Pc) {
    if k == 0 then Holding(i) else Next(c, false, Way(c, i, k - 1), Good).pc
  }

  lemma WayToToken(c: Config, i: nat)
    ensures Way(c, i, 1) == Connecting(i) && Way(c, i, 2) == TokenCheck(i, 1)
    ensures Way(c, i, 3) == Requesting(i, 1) && Way(c, i, 4) == CountDial(i)
  {
    assert Way(c, i, 0) == Holding(i) && Way(c, i, 1) == Connecting(i);
    assert Way(c, i, 2) == TokenCheck(i, 1) && Way(c, i, 3) == Requesting(i, 1);
  }

  lemma WayToConnack(c: Config, i: nat)
    requires Way(c, i, 4) == CountDial(i)
    ensures Way(c, i, 5) == Dialing(i) && Way(c, i, 6) == Identifying(i)
    ensures Way(c, i, 7) == AwaitConnack(i) && Way(c, i, 8) == CountSubscribe(i)
  {
    assert Way(c, i, 5) == Dialing(i) && Way(c, i, 6) == Identifying(i);
    assert Way(c, i, 7) == AwaitConnack(i);
  }

  lemma WayToSession(c: Config, i: nat) returns (n: nat)
    requires Way(c, i, 8) == CountSubscribe(i)
    ensures 10 <= n && Way(c, i, n + 1) == Pushing(i)
    ensures forall k :: 9 <= k <= n ==> !Way(c, i, k).Pushing?
  {
    n := if c.shadowGet then 11 else 10;
    assert Way(c, i, 9) == Subscribing(i, false);
    assert c.shadowGet ==> Way(c, i, 10) == Subscribing(i, true);
    assert Way(c, i, n) == CountSuccess(i);
  }

  lemma WayToFailure(c: Config, i: nat)
    ensures Next(c, false, Holding(i), Good).pc == Connecting(i)
    ensures Next(c, false, Connecting(i), Bad).pc == CountFailure(i)
    ensures Next(c, false, CountFailure(i), Good).pc == Idle
  {
  }

  /** The assignments among the first n that are to connect. */
  ghost function Chosen(good: set<nat>, n: nat): (r: seq<nat>) {
    if n == 0 then [] else if n - 1 in good then Chosen(good, n - 1) + [n - 1] else Chosen(good, n - 1)
  }

  lemma {:induction false} ChosenHas(good: set<nat>, n: nat, i: nat)
    ensures i in Chosen(good, n) <==> i < n && i in good
    decreases n
  {
    if n > 0 { ChosenHas(good, n - 1, i); }
  }

  ghost predicate RunsTo(c: Config, s0: Pool, moves: seq<Move>, s: Pool) { Run(c, s0, moves) == s }

  ghost predicate Reached(c: Config, s0: Pool, s: Pool) {
    exists moves :: RunsTo(c, s0, moves, s)
  }

  lemma StepReached(c: Config, s0: Pool, s: Pool, m: Move)
    requires Reached(c, s0, s)
    ensures Reached(c, s0, Step(c, s, m))
  {
    var moves :| RunsTo(c, s0, moves, s);
    assert (moves + [m])[..|moves|] == moves;
    assert RunsTo(c, s0, moves + [m], Step(c, s, m));
  }

  /** Worker 0 is at pc, the others wait, and `next` assignments have been handed out. */
  ghost predicate Alone(s: Pool, pc: Pc, next: nat, results: seq<nat>) {
    && s.workers != [] && s.workers[0] == pc && s.next == next && !s.closed && s.results == results
    && forall w :: 1 <= w < |s.workers| ==> s.workers[w].Idle?
  }

  ghost predicate Arrives(c: Config, s0: Pool, pc: Pc, next: nat, results: seq<nat>) {
    exists s :: Reached(c, s0, s) && Alone(s, pc, next, results)
  }

  /** One more update of worker 0. */
  lemma Advance(c: Config, s0: Pool, pc: Pc, answer: Answer, next: nat, results: seq<nat>)
    requires Arrives(c, s0, pc, next, results)
    ensures Arrives(c, s0, Next(c, false, pc, answer).pc, next, if pc.Pushing? then results + [pc.i] else results)
  {
    var s :| Reached(c, s0, s) && Alone(s, pc, next, results);
    StepReached(c, s0, s, Work(0, answer));
    assert Alone(Step(c, s, Work(0, answer)), Next(c, false, pc, answer).pc, next,
                 if pc.Pushing? then results + [pc.i] else results);
  }

  lemma HandOut(c: Config, s0: Pool, next: nat, results: seq<nat>)
    requires next < c.count && Arrives(c, s0, Idle, next, results)
    ensures Arrives(c, s0, Holding(next), next + 1, results)
  {
    var s :| Reached(c, s0, s) && Alone(s, Idle, next, results);
    StepReached(c, s0, s, Dispatch(0));
    assert Alone(Step(c, s, Dispatch(0)), Holding(next), next + 1, results);
  }

  lemma {:induction false} AlongTheWay(c: Config, s0: Pool, i: nat, k: nat, next: nat, results: seq<nat>)
    requires Arrives(c, s0, Holding(i), next, results)
    requires forall j :: 0 <= j < k ==> !Way(c, i, j).Pushing?
    ensures Arrives(c, s0, Way(c, i, k), next, results)
    decreases k
  {
    if k > 0 {
      AlongTheWay(c, s0, i, k - 1, next, results);
      Advance(c, s0, Way(c, i, k - 1), Good, next, results);
    }
  }

  lemma ConnectOne(c: Config, s0: Pool, i: nat, next: nat, results: seq<nat>)
    requires Arrives(c, s0, Holding(i), next, results)
    ensures Arrives(c, s0, Idle, next, results + [i])
  {
    WayToToken(c, i);
    WayToConnack(c, i);
    var n := WayToSession(c, i);
    AlongTheWay(c, s0, i, n + 1, next, results);
    Advance(c, s0, Pushing(i), Good, next, results);
  }

  lemma FailOne(c: Config, s0: Pool, i: nat, next: nat, results: seq<nat>)
    requires Arrives(c, s0, Holding(i), next, results)
    ensures Arrives(c, s0, Idle, next, results)
  {
    WayToFailure(c, i);
    Advance(c, s0, Holding(i), Good, next, results);
    Advance(c, s0, Connecting(i), Bad, next, results);
    Advance(c, s0, CountFailure(i), Good, next, results);
  }

  /** One assignment from hand-out to hand-over, or to its failure. */
  lemma ServeOne(c: Config, s0: Pool, i: nat, good: bool, results: seq<nat>)
    requires i < c.count && Arrives(c, s0, Idle, i, results)
    ensures Arrives(c, s0, Idle, i + 1, if good then results + [i] else results)
  {
    HandOut(c, s0, i, results);
    if good { ConnectOne(c, s0, i, i + 1, results); } else { FailOne(c, s0, i, i + 1, results); }
  }

  lemma {:induction false} ServeFirst(c: Config, s0: Pool, good: set<nat>, n: nat)
    requires Init(s0) && s0.workers != [] && n <= c.count
    ensures Arrives(c, s0, Idle, n, Chosen(good, n))
    decreases n
  {
    if n == 0 {
      assert RunsTo(c, s0, [], s0);
      assert Alone(s0, Idle, 0, []);
    } else {
      ServeFirst(c, s0, good, n - 1);
      ServeOne(c, s0, n - 1, n - 1 in good, Chosen(good, n - 1));
    }
  }

  /** Closed, the first `gone` workers have returned, the others wait. */
  ghost predicate Leaving(s: Pool, gone: nat, results: seq<nat>) {
    && s.closed && s.results == results && gone <= |s.workers|
    && forall w :: 0 <= w < |s.workers| ==> s.workers[w] == if w < gone then Exited else Idle
  }

  lemma {:induction false} AllLeave(c: Config, s0: Pool, s: Pool, gone: nat, results: seq<nat>) returns (end: Pool)
    requires Reached(c, s0, s) && Leaving(s, gone, results)
    ensures Reached(c, s0, end) && Done(end) && end.results == results
    decreases |s.workers| - gone
  {
    if gone == |s.workers| {
      end := s;
    } else {
      StepReached(c, s0, s, Work(gone, Good));
      end := AllLeave(c, s0, Step(c, s, Work(gone, Good)), gone + 1, results);
    }
  }

  /** Whichever assignments are to connect, and however many workers there are, some finished call
      returns exactly those: nothing more than distinctness can be said of a result. */
  lemma AnySubsetConnects(c: Config, s0: Pool, good: set<nat>) returns (moves: seq<Move>)
    requires Init(s0) && s0.workers != []
    ensures Done(Run(c, s0, moves)) && Run(c, s0, moves).results == Chosen(good, c.count)
    ensures forall i: nat :: i in Run(c, s0, moves).results <==> i < c.count && i in good
  {
    forall i: nat ensures i in Chosen(good, c.count) <==> i < c.count && i in good { ChosenHas(good, c.count, i); }
    ServeFirst(c, s0, good, c.count);
    var s :| Reached(c, s0, s) && Alone(s, Idle, c.count, Chosen(good, c.count));
    StepReached(c, s0, s, Close);
    var end := AllLeave(c, s0, Step(c, s, Close), 0, Chosen(good, c.count));
    moves :| RunsTo(c, s0, moves, end);
  }
}
