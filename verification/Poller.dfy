/** The wake-up protocol of the CI dashboard's poller (tools/ci-dashboard/github.go): its loop, the
    two one-place channels, the timer, and the goroutines that report client activity and webhooks,
    interleaved step by step. */
module PollerLoop {
  import opened Common

  datatype Timer = Stopped | Armed | Fired(at: int)

  /** Where the loop is: blocked in its select, or holding what it received, or refreshing. */
  datatype Pc = Selecting | GotWake | GotHook | GotTick(at: int) | Refreshing(ticked: bool) | Done

  /** sends counts the calls of recordClientActivityAt between their locked part and their send.
      owed: a webhook came and no refresh started since. checked: the latest time at which the loop
      found the client gone. */
  datatype State = State(wake: bool, hook: bool, next: bool, timer: Timer, pc: Pc, client: Option<int>,
                         sends: nat, clock: int, owed: bool, checked: int)

  datatype Move =
    | Trigger
    | Record(at: int)
    | Send
    | Advance(to: int)
    | Fire
    | ReceiveWake
    | ReceiveHook
    | ReceiveTick
    | Check
    | EndRefresh
    | Cancel

  predicate Active(client: Option<int>, at: int, idle: int) { client.Some? && at - client.value <= idle }

  function Max(a: int, b: int): (r: int) { if a < b then b else a }

  function Initial(clock: int): (r: State) {
    State(false, false, false, Stopped, Selecting, None, 0, clock, false, clock)
  }

  /** The next state, None when the move is not possible. */
  function Step(s: State, m: Move, idle: int): (r: Option<State>) {
    match m
    case Trigger => Some(s.(hook := true, owed := true))
    case Record(at) =>
      if at > s.clock then None
      else Some(s.(client := Some(at), sends := if Active(s.client, at, idle) then s.sends else s.sends + 1))
    case Send => if s.sends == 0 then None else Some(s.(wake := true, sends := s.sends - 1))
    case Advance(to) => if to < s.clock then None else Some(s.(clock := to))
    case Fire => if s.timer.Armed? then Some(s.(timer := Fired(s.clock))) else None
    case ReceiveWake => if s.pc.Selecting? && s.wake then Some(s.(wake := false, pc := GotWake)) else None
    case ReceiveHook => if s.pc.Selecting? && s.hook then Some(s.(hook := false, pc := GotHook)) else None
    case ReceiveTick =>
      if s.pc.Selecting? && s.next && s.timer.Fired?
      then Some(s.(timer := Stopped, next := false, pc := GotTick(s.timer.at))) else None
    case Check =>
      (match s.pc
       case GotHook => Some(s.(pc := Refreshing(false), owed := false))
       case GotWake => Some(Checked(s, s.clock, false, idle))
       case GotTick(at) => Some(Checked(s, at, true, idle))
       case _ => None)
    case EndRefresh =>
      if s.pc.Refreshing? then Some(s.(pc := Selecting, timer := Armed, next := true)) else None
    case Cancel => if s.pc.Selecting? then Some(s.(pc := Done)) else None
  }

  /** clientActiveAt, then a refresh or back to the select. */
  function Checked(s: State, at: int, ticked: bool, idle: int): (r: State) {
    if Active(s.client, at, idle) then s.(pc := Refreshing(ticked), owed := false)
    else s.(pc := Selecting, checked := Max(s.checked, at))
  }

  function Run(s: State, ms: seq<Move>, idle: int): (r: Option<State>) {
    if ms == [] then Some(s)
    else
      var before := Run(s, ms[..|ms| - 1], idle);
      if before.None? then None else Step(before.value, ms[|ms| - 1], idle)
  }

  // ---- what every state keeps ----

  /** A webhook not yet followed by the start of a refresh is a token in the channel or in the loop's
      hand; the timer runs, or has fired unread, exactly when the loop listens to it; the timer that
      a tick's refresh restarts is stopped and drained. */
  predicate Inv(s: State) {
    && (s.owed ==> s.hook || s.pc.GotHook?)
    && (s.next <==> !s.timer.Stopped?)
    && (s.pc.GotTick? || (s.pc.Refreshing? && s.pc.ticked) ==> s.timer.Stopped?)
  }

  lemma StepKeeps(s: State, m: Move, idle: int)
    requires Inv(s) && Step(s, m, idle).Some?
    ensures Inv(Step(s, m, idle).value)
  {
  }

  lemma {:induction false} RunKeeps(clock: int, ms: seq<Move>, idle: int)
    requires Run(Initial(clock), ms, idle).Some?
    ensures Inv(Run(Initial(clock), ms, idle).value)
    decreases |ms|
  {
    if ms != [] {
      RunKeeps(clock, ms[..|ms| - 1], idle);
      StepKeeps(Run(Initial(clock), ms[..|ms| - 1], idle).value, ms[|ms| - 1], idle);
    }
  }

  /** The loop's own moves: what it does without any other goroutine and without time passing. */
  predicate ByLoop(m: Move) { m.ReceiveWake? || m.ReceiveHook? || m.ReceiveTick? || m.Check? || m.EndRefresh? }

  /** The loop's own next move when it has a webhook to serve. */
  function NextOfLoop(s: State): (r: Move) {
    if s.pc.Selecting? then ReceiveHook else if s.pc.Refreshing? then EndRefresh else Check
  }

  /** A refresh that started after the webhook came is under way. */
  predicate Serving(s: State) { s.pc.Refreshing? && !s.owed }

  lemma {:induction false} LoopServes(s: State, idle: int)
    requires Inv(s) && s.owed && !s.pc.Done?
    ensures Step(s, NextOfLoop(s), idle).Some? && ByLoop(NextOfLoop(s))
    ensures var t := Step(s, NextOfLoop(s), idle).value;
            Inv(t) && (Serving(t) || (s.pc.Selecting? && t.owed && t.pc.GotHook?) || (!s.pc.GotHook? && t.owed && t.pc.Selecting?))
  {
  }

  /** A webhook is served by the loop alone, whatever the clients do: wherever an uncancelled run left
      the loop with a webhook owed, at most three of its own moves start a refresh that serves it. */
  lemma {:induction false} HookIsServed(clock: int, ms: seq<Move>, idle: int, s: State)
    returns (more: seq<Move>, t: State)
    requires Run(Initial(clock), ms, idle) == Some(s) && s.owed && !s.pc.Done?
    ensures 1 <= |more| <= 3 && forall m :: m in more ==> ByLoop(m)
    ensures Run(s, more, idle) == Some(t) && Serving(t)
  {
    RunKeeps(clock, ms, idle);
    more, t := [], s;
    LoopServes(t, idle);
    more, t := Append(s, more, t, NextOfLoop(t), idle);
    if !Serving(t) { more, t := ServedIn(s, more, t, idle); }
  }

  lemma {:induction false} ServedIn(s: State, ms: seq<Move>, u: State, idle: int) returns (more: seq<Move>, t: State)
    requires Run(s, ms, idle) == Some(u) && Inv(u) && u.owed && (u.pc.Selecting? || u.pc.GotHook?)
    requires forall m :: m in ms ==> ByLoop(m)
    ensures |ms| < |more| <= |ms| + 2 && forall m :: m in more ==> ByLoop(m)
    ensures Run(s, more, idle) == Some(t) && Serving(t)
  {
    more, t := ms, u;
    LoopServes(t, idle);
    more, t := Append(s, more, t, NextOfLoop(t), idle);
    if !Serving(t) {
      LoopServes(t, idle);
      more, t := Append(s, more, t, NextOfLoop(t), idle);
    }
  }

  /** One more move of a run. */
  lemma {:induction false} Append(start: State, ms: seq<Move>, s: State, m: Move, idle: int)
    returns (longer: seq<Move>, after: State)
    requires Run(start, ms, idle) == Some(s) && Step(s, m, idle).Some?
    ensures longer == ms + [m] && after == Step(s, m, idle).value
    ensures Run(start, longer, idle) == Some(after)
  {
    longer, after := ms + [m], Step(s, m, idle).value;
    assert longer[..|ms|] == ms;
  }

  // ---- an active client is not forgotten, if its times are taken in order ----

  /** Nothing will make the loop look at the client again. */
  predicate Asleep(s: State) { s.pc.Selecting? && !s.next && !s.wake && s.sends == 0 }

  /** The loop saw the client gone since its last sign of life. */
  predicate Gone(s: State, idle: int) { s.client.None? || s.checked - s.client.value > idle }

  predicate Attended(s: State, idle: int) {
    s.pc.Done? || !s.pc.Selecting? || s.next || s.wake || s.sends > 0 || Gone(s, idle)
  }

  /** The time of an activity is no older than the loop's last finding that the client was gone. */
  predicate Timely(s: State, m: Move) { m.Record? ==> m.at >= s.checked }

  predicate AllTimely(s: State, ms: seq<Move>, idle: int) {
    ms == []
    || (var before := Run(s, ms[..|ms| - 1], idle);
        before.Some? && AllTimely(s, ms[..|ms| - 1], idle) && Timely(before.value, ms[|ms| - 1]))
  }

  lemma StepAttends(s: State, m: Move, idle: int)
    requires Inv(s) && Step(s, m, idle).Some? && Timely(s, m)
    requires Attended(s, idle)
    ensures Attended(Step(s, m, idle).value, idle)
  {
  }

  lemma {:induction false} RunAttends(clock: int, ms: seq<Move>, idle: int)
    requires Run(Initial(clock), ms, idle).Some? && AllTimely(Initial(clock), ms, idle)
    ensures Attended(Run(Initial(clock), ms, idle).value, idle)
    decreases |ms|
  {
    if ms != [] {
      RunAttends(clock, ms[..|ms| - 1], idle);
      RunKeeps(clock, ms[..|ms| - 1], idle);
      StepAttends(Run(Initial(clock), ms[..|ms| - 1], idle).value, ms[|ms| - 1], idle);
    }
  }

  /** With activity times taken in order, a loop that is asleep has seen the client go: at any time
      since, the client is idle, and its next activity sends a wake-up. */
  lemma AsleepMeansGone(clock: int, ms: seq<Move>, idle: int, s: State, at: int)
    requires Run(Initial(clock), ms, idle) == Some(s) && AllTimely(Initial(clock), ms, idle)
    requires Asleep(s) && s.checked <= at
    ensures !Active(s.client, at, idle)
    ensures at <= s.clock ==> Step(s, Record(at), idle) == Some(s.(client := Some(at), sends := 1))
  {
    RunAttends(clock, ms, idle);
  }

  /** The run leaves the loop asleep beside a client that it did not find gone. */
  ghost predicate Unattended(clock: int, ms: seq<Move>, idle: int) {
    Run(Initial(clock), ms, idle).Some? && !Attended(Run(Initial(clock), ms, idle).value, idle)
  }

  /** The activity comes while the loop sleeps, its time lies within the idle time of the activity
      before, and the loop's last finding lies within the idle time of it. */
  predicate Forgets(s: State, m: Move, idle: int) {
    m.Record? && Asleep(s) && Active(s.client, m.at, idle) && s.checked - m.at <= idle
  }

  /** The only move that turns a loop away from its client. */
  lemma ForgottenExactly(s: State, m: Move, idle: int)
    requires Inv(s) && Attended(s, idle) && Step(s, m, idle).Some?
    ensures Attended(Step(s, m, idle).value, idle) <==> !Forgets(s, m, idle)
    ensures Forgets(s, m, idle) ==> m.at < s.checked
  {
  }

  ghost predicate ForgetsAt(clock: int, ms: seq<Move>, idle: int, k: nat)
    requires k < |ms|
  {
    Run(Initial(clock), ms[..k], idle).Some? && Forgets(Run(Initial(clock), ms[..k], idle).value, ms[k], idle)
  }

  /** In any run that ends asleep beside a client not found gone, one such activity came when the loop
      had found the client gone, and from then on nothing woke the loop. */
  lemma {:induction false} LostByRecord(clock: int, ms: seq<Move>, idle: int) returns (k: nat)
    requires Unattended(clock, ms, idle)
    ensures k < |ms| && ForgetsAt(clock, ms, idle, k) && !Unattended(clock, ms[..k], idle)
    ensures forall i: nat | k < i <= |ms| :: Unattended(clock, ms[..i], idle)
    decreases |ms|
  {
    var n := |ms| - 1;
    if Unattended(clock, ms[..n], idle) {
      k := LostByRecord(clock, ms[..n], idle);
      forall i: nat | i <= n ensures ms[..n][..i] == ms[..i] { }
      forall i: nat | k < i <= |ms| ensures Unattended(clock, ms[..i], idle) {
        if i <= n { assert Unattended(clock, ms[..n][..i], idle); } else { assert ms[..i] == ms; }
      }
    } else {
      k := n;
      assert ms[..|ms|] == ms;
      RunKeeps(clock, ms[..n], idle);
      ForgottenExactly(Run(Initial(clock), ms[..n], idle).value, ms[n], idle);
    }
  }

  lemma {:induction false} RunPrefix(clock: int, ms: seq<Move>, idle: int, k: nat)
    requires Run(Initial(clock), ms, idle).Some? && k <= |ms|
    ensures Run(Initial(clock), ms[..k], idle).Some?
    decreases |ms|
  {
    if k < |ms| {
      assert ms[..|ms| - 1][..k] == ms[..k];
      RunPrefix(clock, ms[..|ms| - 1], idle, k);
    } else {
      assert ms[..k] == ms;
    }
  }

  lemma {:induction false} ForgettingShows(clock: int, ms: seq<Move>, idle: int, k: nat)
    requires k < |ms| && Run(Initial(clock), ms, idle).Some? && ForgetsAt(clock, ms, idle, k)
    ensures Unattended(clock, ms[..k], idle) || Unattended(clock, ms[..k + 1], idle)
  {
    assert ms[..k + 1][..k] == ms[..k];
    RunPrefix(clock, ms, idle, k + 1);
    RunKeeps(clock, ms[..k], idle);
    var s := Run(Initial(clock), ms[..k], idle).value;
    if Attended(s, idle) { ForgottenExactly(s, ms[k], idle); }
  }

  /** Exactly when, over whole runs: the loop is attentive to its client all along if and only if no
      activity forgets it. */
  lemma {:induction false} AttentionKeptExactly(clock: int, ms: seq<Move>, idle: int)
    requires Run(Initial(clock), ms, idle).Some?
    ensures (forall i: nat | i <= |ms| :: !Unattended(clock, ms[..i], idle))
       <==> (forall k: nat | k < |ms| :: !ForgetsAt(clock, ms, idle, k))
  {
    if k: nat :| k < |ms| && ForgetsAt(clock, ms, idle, k) {
      ForgettingShows(clock, ms, idle, k);
    }
    if i: nat :| i <= |ms| && Unattended(clock, ms[..i], idle) {
      var k := LostByRecord(clock, ms[..i], idle);
      assert ms[..i][..k] == ms[..k] && ms[..i][k] == ms[k];
      assert ForgetsAt(clock, ms, idle, k);
    }
  }

  /** The run to it: the client's second activity reads the clock just before its idle time is up,
      the tick finds the client gone, and only then does the activity take the lock. The loop sleeps
      while the client is active, and activities at shorter intervals never wake it. */
  lemma ActivityCanBeLost(idle: int) returns (ms: seq<Move>)
    requires idle > 0
    ensures ms == [Record(0), Send, ReceiveWake, Check, EndRefresh, Advance(idle + 1), Fire, ReceiveTick, Check, Record(idle)]
    ensures Run(Initial(0), ms, idle).Some?
    ensures Asleep(Run(Initial(0), ms, idle).value) && Active(Run(Initial(0), ms, idle).value.client, idle + 1, idle)
  {
    var s := Initial(0);
    ms := [];
    ms, s := Append(Initial(0), ms, s, Record(0), idle);
    ms, s := Append(Initial(0), ms, s, Send, idle);
    ms, s := Append(Initial(0), ms, s, ReceiveWake, idle);
    ms, s := Append(Initial(0), ms, s, Check, idle);
    ms, s := Append(Initial(0), ms, s, EndRefresh, idle);
    ms, s := Append(Initial(0), ms, s, Advance(idle + 1), idle);
    ms, s := Append(Initial(0), ms, s, Fire, idle);
    ms, s := Append(Initial(0), ms, s, ReceiveTick, idle);
    ms, s := Append(Initial(0), ms, s, Check, idle);
    ms, s := Append(Initial(0), ms, s, Record(idle), idle);
  }
}

/** Failure backoff of the poller, for workflow runs and pull requests of each repository. */
module PollerBackoff {
  import opened Common

  const SECOND := 1_000_000_000

  /** until is None for the zero time. */
  datatype Lane = Lane(backoff: int, until: Option<int>, failed: bool, lastAttempt: int, lastSync: int)
  datatype Repo = Repo(runs: Lane, pulls: Lane)

  /** A reply at a time; a failure may carry a Retry-After moment. */
  datatype Reply = Synced(at: int) | Failed(at: int, retry: Option<int>)

  function Doubled(backoff: int): (r: int) {
    if backoff == 0 then 15 * SECOND
    else if backoff * 2 > 300 * SECOND then 300 * SECOND
    else backoff * 2
  }

  function AfterReply(l: Lane, r: Reply): (out: Lane) {
    match r
    case Synced(at) => Lane(0, None, false, at, at)
    case Failed(at, retry) =>
      var backoff := Doubled(l.backoff);
      Lane(backoff, Some(if retry.Some? && retry.value > at then retry.value else at + backoff), true, at, l.lastSync)
  }

  datatype Outcome = Runs(reply: Reply) | Pulls(reply: Reply)

  function After(r: Repo, o: Outcome): (out: Repo) {
    match o
    case Runs(reply) => r.(runs := AfterReply(r.runs, reply))
    case Pulls(reply) => r.(pulls := AfterReply(r.pulls, reply))
  }

  function AfterAll(r: Repo, os: seq<Outcome>): (out: Repo) {
    if os == [] then r else After(AfterAll(r, os[..|os| - 1]), os[|os| - 1])
  }

  const NEW := Repo(Lane(0, None, false, 0, 0), Lane(0, None, false, 0, 0))

  /** Consecutive failures of one lane at the end of a history. */
  function Failures(os: seq<Outcome>, runs: bool): (r: nat) {
    if os == [] then 0
    else
      var last, before := os[|os| - 1], Failures(os[..|os| - 1], runs);
      if last.Runs? != runs then before
      else if last.reply.Failed? then before + 1
      else 0
  }

  function Pow2(n: nat): (r: nat) { if n == 0 then 1 else 2 * Pow2(n - 1) }

  /** min(15 * 2^(k-1), 300) seconds after k failures in a row, nothing after none. */
  function BackoffAfter(k: nat): (r: int) {
    if k == 0 then 0 else Min(15 * Pow2(k - 1), 300) * SECOND
  }

  lemma {:induction false} PowGrows(n: nat)
    ensures Pow2(n) >= 1 && (n >= 5 ==> Pow2(n) >= 32) && (n <= 4 ==> Pow2(n) <= 16)
  {
    if n > 0 { PowGrows(n - 1); }
  }

  lemma DoubledIs(k: nat)
    ensures Doubled(BackoffAfter(k)) == BackoffAfter(k + 1)
  {
    PowGrows(k);
    if k > 0 {
      PowGrows(k - 1);
      assert Pow2(k) == 2 * Pow2(k - 1);
    }
  }

  /** Whatever the history of a repository, in whatever order its two lanes were tried: each lane's
      backoff is decided by the failures in a row of that lane alone. */
  lemma {:induction false} BackoffIs(os: seq<Outcome>)
    ensures AfterAll(NEW, os).runs.backoff == BackoffAfter(Failures(os, true))
    ensures AfterAll(NEW, os).pulls.backoff == BackoffAfter(Failures(os, false))
    decreases |os|
  {
    if os != [] {
      BackoffIs(os[..|os| - 1]);
      DoubledIs(Failures(os[..|os| - 1], true));
      DoubledIs(Failures(os[..|os| - 1], false));
    }
  }

  /** The lane may be tried: it is not backing off, or has backed off long enough. */
  predicate Due(l: Lane, now: int) { l.until.None? || now >= l.until.value }

  /** After k failures in a row a lane is next tried no earlier than its backoff after the last of
      them, unless Retry-After names another future moment, which then replaces it either way. */
  lemma DueExactly(os: seq<Outcome>, at: int, retry: Option<int>, now: int)
    ensures Due(AfterAll(NEW, os + [Runs(Failed(at, retry))]).runs, now)
       <==> if retry.Some? && retry.value > at then now >= retry.value
            else now >= at + BackoffAfter(Failures(os, true) + 1)
    ensures Due(AfterAll(NEW, os + [Pulls(Failed(at, retry))]).pulls, now)
       <==> if retry.Some? && retry.value > at then now >= retry.value
            else now >= at + BackoffAfter(Failures(os, false) + 1)
  {
    BackoffIs(os);
    DoubledIs(Failures(os, true));
    DoubledIs(Failures(os, false));
    assert (os + [Runs(Failed(at, retry))])[..|os|] == os;
    assert (os + [Pulls(Failed(at, retry))])[..|os|] == os;
  }

  /** The replies a refresh would get for one repository. */
  datatype Replies = Replies(runs: Reply, pulls: Reply)

  /** What one refresh, started at now, finds for a repository. */
  function Outcomes(r: Repo, now: int, replies: Replies): (out: seq<Outcome>) {
    (if Due(r.runs, now) then [Runs(replies.runs)] else []) + (if Due(r.pulls, now) then [Pulls(replies.pulls)] else [])
  }

  class Poller {
    var repos: seq<Repo>

    constructor (n: nat)
      ensures repos == seq(n, i => NEW)
    {
      repos := seq(n, i => NEW);
    }

    /** recordFailure, or the success reset in refreshRepo. */
    method RecordRuns(i: nat, reply: Reply)
      requires i < |repos|
      modifies this
      ensures repos == old(repos)[i := After(old(repos)[i], Runs(reply))]
    {
      var state := repos[i].runs;
      match reply {
        case Synced(at) =>
          state := state.(lastAttempt := at, lastSync := at, failed := false, backoff := 0, until := None);
        case Failed(at, retry) =>
          state := state.(lastAttempt := at, failed := true);
          if state.backoff == 0 {
            state := state.(backoff := 15 * SECOND);
          } else {
            state := state.(backoff := state.backoff * 2);
            if state.backoff > 300 * SECOND { state := state.(backoff := 300 * SECOND); }
          }
          if retry.Some? && retry.value > at {
            state := state.(until := retry);
          } else {
            state := state.(until := Some(at + state.backoff));
          }
      }
      repos := repos[i := repos[i].(runs := state)];
    }

    /** recordPullFailure, or the success reset in refreshPullRequests. */
    method RecordPulls(i: nat, reply: Reply)
      requires i < |repos|
      modifies this
      ensures repos == old(repos)[i := After(old(repos)[i], Pulls(reply))]
    {
      var state := repos[i].pulls;
      match reply {
        case Synced(at) =>
          state := state.(lastAttempt := at, lastSync := at, failed := false, backoff := 0, until := None);
        case Failed(at, retry) =>
          state := state.(lastAttempt := at, failed := true);
          if state.backoff == 0 {
            state := state.(backoff := 15 * SECOND);
          } else {
            state := state.(backoff := state.backoff * 2);
            if state.backoff > 300 * SECOND { state := state.(backoff := 300 * SECOND); }
          }
          if retry.Some? && retry.value > at {
            state := state.(until := retry);
          } else {
            state := state.(until := Some(at + state.backoff));
          }
      }
      repos := repos[i := repos[i].(pulls := state)];
    }

    /** One refresh: each repository takes exactly the outcomes of its due lanes. */
    method Refresh(now: int, replies: seq<Replies>)
      requires |replies| == |repos|
      modifies this
      ensures |repos| == |old(repos)|
      ensures forall i :: 0 <= i < |repos| ==>
                repos[i] == AfterAll(old(repos)[i], Outcomes(old(repos)[i], now, replies[i]))
    {
      ghost var before := repos;
      for i := 0 to |repos|
        invariant |repos| == |before|
        invariant forall j :: 0 <= j < i ==> repos[j] == AfterAll(before[j], Outcomes(before[j], now, replies[j]))
        invariant forall j :: i <= j < |repos| ==> repos[j] == before[j]
      {
        var runsDue, pullsDue := Due(repos[i].runs, now), Due(repos[i].pulls, now);
        if runsDue { RecordRuns(i, replies[i].runs); }
        if pullsDue { RecordPulls(i, replies[i].pulls); }
        OutcomesAre(before[i], now, replies[i]);
      }
    }
  }

  lemma OutcomesAre(r: Repo, now: int, replies: Replies)
    ensures AfterAll(r, Outcomes(r, now, replies)) ==
            var a := if Due(r.runs, now) then After(r, Runs(replies.runs)) else r;
            if Due(r.pulls, now) then After(a, Pulls(replies.pulls)) else a
  {
    var first := if Due(r.runs, now) then [Runs(replies.runs)] else [];
    assert AfterAll(r, []) == r;
    assert AfterAll(r, first) == if Due(r.runs, now) then After(r, Runs(replies.runs)) else r by {
      if first != [] { assert first[..0] == []; }
    }
    if Due(r.pulls, now) {
      var os := first + [Pulls(replies.pulls)];
      assert os[..|os| - 1] == first;
    } else {
      assert Outcomes(r, now, replies) == first;
    }
  }
}
