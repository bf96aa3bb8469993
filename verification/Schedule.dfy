/** Deterministic traffic scheduling and deadline budgets of
    scripts/go/cloud-mqtt-test/main.go. Durations are integer nanoseconds, hashes are
    arbitrary functions, and the floating-point schedule formula is computed exactly. */
module Schedule {
  import opened Common

  const MILLISECOND: int := 1_000_000
  const SECOND: int := 1_000_000_000

  // ---------------------------------------------------------------- telemetry

  /** homeDiverseTelemetryOffset, with the hash of (seed, device, event, count) given. */
  function TelemetryOffset(eventIdx: int, reportCount: int, window: int, hash: nat): (r: int) {
    if window <= 0 then 0 else
    var count := if reportCount <= 0 then 1 else reportCount;
    var event := if eventIdx < 0 then 0 else if eventIdx >= count then count - 1 else eventIdx;
    var slotWidth := FloorDiv(window, count);
    if slotWidth <= 0 then 0 else
    var out := Times(event, slotWidth) + hash % slotWidth;
    if out >= window then window - 1 else out
  }

  /** Report e of n falls in slot e of n equal consecutive slots of the window, whatever the hash,
      exactly when the window holds a nanosecond for each of them. */
  lemma TelemetrySlot(e: nat, n: nat, window: nat, hash: nat)
    requires e < n
    ensures var w := FloorDiv(window, n);
            Times(e, w) <= TelemetryOffset(e, n, window, hash) < Times(e + 1, w) <= window <==> n <= window
  {
    var w := FloorDiv(window, n);
    DivBelow(window, n, 1);
    DivFacts(window, n);
    MulMono(w, e + 1, n);
    assert Times(e + 1, w) == Times(e, w) + w;
  }

  /** So a device's reports are spread in order, exactly then: in a shorter window all go at once. */
  lemma TelemetryInOrder(e: nat, e': nat, n: nat, window: nat, hash: nat, hash': nat)
    requires e < e' < n
    ensures TelemetryOffset(e, n, window, hash) < TelemetryOffset(e', n, window, hash') <==> n <= window
  {
    var w := FloorDiv(window, n);
    TelemetrySlot(e, n, window, hash);
    TelemetrySlot(e', n, window, hash');
    MulMono(w, e + 1, e');
    DivBelow(window, n, 1);
  }

  // ---------------------------------------------------------------- commands

  /** One offset of deterministicCommandOffsets: floor((i + 1) window / (count + 1)). */
  function BaseOffset(i: nat, count: nat, window: nat): (r: nat) {
    FloorDiv(Times(i + 1, window), count + 1)
  }

  method DeterministicOffsets(count: int, window: int) returns (offsets: seq<int>)
    ensures count <= 0 || window <= 0 ==> offsets == []
    ensures count > 0 && window > 0 ==>
              |offsets| == count && forall i :: 0 <= i < count ==> offsets[i] == BaseOffset(i, count, window)
  {
    offsets := [];
    if count <= 0 || window <= 0 { return; }
    for idx := 0 to count
      invariant |offsets| == idx
      invariant forall i :: 0 <= i < idx ==> offsets[i] == BaseOffset(i, count, window)
    {
      offsets := offsets + [BaseOffset(idx, count, window)];
    }
  }

  function Spacing(count: nat, window: nat): (r: nat) { FloorDiv(window, count + 1) }

  function JitterLimit(count: nat, window: nat): (r: nat)
    ensures r > 0
  {
    var limit := Spacing(count, window) / 3;
    if limit <= 0 then MILLISECOND else limit
  }

  /** The offset before clamping: the base offset plus a jitter in [-limit, limit). */
  function RawOffset(i: nat, count: nat, window: nat, hash: nat): (r: int) {
    var limit := JitterLimit(count, window);
    BaseOffset(i, count, window) + (hash % (2 * limit)) - limit
  }

  function Clamp(offset: int, window: int): (r: int) {
    var low := if offset < 0 then 0 else offset;
    if low >= window then window - 1 else low
  }

  predicate Sorted(s: seq<int>) {
    forall i, j :: 0 <= i <= j < |s| ==> s[i] <= s[j]
  }

  function Insert(x: int, s: seq<int>): (r: seq<int>) {
    if s == [] || x <= s[0] then [x] + s else [s[0]] + Insert(x, s[1..])
  }

  lemma {:induction false} InsertContents(x: int, s: seq<int>)
    ensures multiset(Insert(x, s)) == multiset(s) + multiset{x}
    ensures |Insert(x, s)| == |s| + 1
    decreases |s|
  {
    if s == [] || x <= s[0] {
    } else {
      InsertContents(x, s[1..]);
      assert s == [s[0]] + s[1..];
    }
  }

  lemma {:induction false} InsertSorted(x: int, s: seq<int>)
    requires Sorted(s)
    ensures Sorted(Insert(x, s))
    decreases |s|
  {
    if s == [] || x <= s[0] {
    } else {
      InsertSorted(x, s[1..]);
      InsertContents(x, s[1..]);
      var r := Insert(x, s[1..]);
      forall j | 0 <= j < |r| ensures s[0] <= r[j] {
        assert r[j] in multiset(r);
        assert r[j] == x || r[j] in s[1..];
      }
    }
  }

  /** sort.Slice by value. */
  function Sort(s: seq<int>): (r: seq<int>)
    ensures Sorted(r) && multiset(r) == multiset(s) && |r| == |s|
  {
    if s == [] then []
    else
      var rest := Sort(s[1..]);
      InsertContents(s[0], rest);
      InsertSorted(s[0], rest);
      assert s == [s[0]] + s[1..];
      Insert(s[0], rest)
  }

  lemma {:induction false} SortOfSorted(s: seq<int>)
    requires Sorted(s)
    ensures Sort(s) == s
    decreases |s|
  {
    if s != [] {
      SortOfSorted(s[1..]);
      if |s| > 1 { assert s[0] <= s[1..][0]; }
      assert s == [s[0]] + s[1..];
    }
  }

  ghost function Raw(slots: seq<int>, window: nat, hash: (nat, int) -> nat): (r: seq<int>) {
    seq(|slots|, i requires 0 <= i < |slots| => RawOffset(i, |slots|, window, hash(i, slots[i])))
  }

  ghost function Clamped(slots: seq<int>, window: nat, hash: (nat, int) -> nat): (r: seq<int>) {
    seq(|slots|, i requires 0 <= i < |slots| => Clamp(Raw(slots, window, hash)[i], window))
  }

  /** jitteredCommandOffsets; the hash of (seed, index, slot, device) is a parameter. */
  method JitteredOffsets(slots: seq<int>, window: int, hash: (nat, int) -> nat) returns (offsets: seq<int>)
    ensures slots == [] || window <= 0 ==> offsets == []
    ensures slots != [] && window > 0 ==>
              && offsets == Sort(Clamped(slots, window, hash))
              && |offsets| == |slots|
              && Sorted(offsets)
              && forall i :: 0 <= i < |offsets| ==> 0 <= offsets[i] < window
  {
    if |slots| == 0 || window <= 0 { return []; }
    var n := |slots|;
    var base := DeterministicOffsets(n, window);
    var jitterLimit := FloorDiv(window, n + 1) / 3;
    if jitterLimit <= 0 { jitterLimit := MILLISECOND; }
    var unsorted := [];
    for idx := 0 to n
      invariant |unsorted| == idx
      invariant forall i :: 0 <= i < idx ==> unsorted[i] == Clamp(RawOffset(i, n, window, hash(i, slots[i])), window)
    {
      var jitter := hash(idx, slots[idx]) % (2 * jitterLimit) - jitterLimit;
      var offset := base[idx] + jitter;
      if offset < 0 { offset := 0; }
      if offset >= window { offset := window - 1; }
      unsorted := unsorted + [offset];
    }
    assert unsorted == Clamped(slots, window, hash);
    offsets := Sort(unsorted);
    forall i | 0 <= i < |offsets| ensures 0 <= offsets[i] < window {
      assert offsets[i] in multiset(offsets);
      assert offsets[i] in unsorted;
    }
  }

  /** Neighbouring base offsets are at least one spacing apart, with one more spacing free
      before the first and after the last. */
  lemma BaseSpacing(i: nat, count: nat, window: nat)
    requires i < count
    ensures var d := Spacing(count, window);
            && BaseOffset(0, count, window) == d
            && BaseOffset(i, count, window) + d <= window
            && (i + 1 < count ==> BaseOffset(i, count, window) + d <= BaseOffset(i + 1, count, window))
  {
    var d, b, n := Spacing(count, window), BaseOffset(i, count, window), count + 1;
    assert Times(1, window) == window;
    DivFacts(window, n);
    DivFacts(Times(i + 1, window), n);
    NextProduct(i, n, window, b, d);
    if i + 1 < count {
      DivBelow(Times(i + 2, window), n, b + d);
    }
    Cancel(n, b + d, window);
  }

  lemma NextProduct(i: nat, n: nat, window: nat, b: nat, d: nat)
    requires i + 2 <= n && n * b <= Times(i + 1, window) && n * d <= window
    ensures n * (b + d) <= Times(i + 2, window) <= n * window
  {
    assert n * (b + d) == n * b + n * d;
    assert (i + 2) * window == (i + 1) * window + window;
  }

  lemma Cancel(n: nat, a: nat, b: nat)
    requires n > 0 && n * a <= n * b
    ensures a <= b
  {
    if b < a { MulMono(n, b + 1, a); assert false; }
  }

  /** When a third of the spacing is not zero the raw offsets are strictly increasing and
      inside the window for every hash, so neither the clamps nor the sort change them. */
  lemma JitterKeepsOrder(slots: seq<int>, window: nat, hash: (nat, int) -> nat)
    requires slots != [] && Spacing(|slots|, window) / 3 > 0
    ensures Sort(Clamped(slots, window, hash))
         == Raw(slots, window, hash)
    ensures forall i :: 0 <= i < |slots| ==> 0 <= Raw(slots, window, hash)[i] < window
  {
    var n := |slots|;
    var raw := Raw(slots, window, hash);
    forall i | 0 <= i < n ensures 0 <= raw[i] < window {
      RawInPlace(i, n, window, hash(i, slots[i]));
    }
    forall i | 0 <= i && i + 1 < n ensures raw[i] < raw[i + 1] {
      RawIncreases(i, n, window, hash(i, slots[i]), hash(i + 1, slots[i + 1]));
    }
    assert Clamped(slots, window, hash) == raw;
    StepwiseSorted(raw);
    SortOfSorted(raw);
  }

  lemma RawIncreases(i: nat, n: nat, window: nat, hash: nat, hash': nat)
    requires i + 1 < n && Spacing(n, window) / 3 > 0
    ensures RawOffset(i, n, window, hash) < RawOffset(i + 1, n, window, hash')
  {
    RawInPlace(i, n, window, hash);
    RawInPlace(i + 1, n, window, hash');
    BaseSpacing(i, n, window);
  }

  lemma RawInPlace(i: nat, n: nat, window: nat, hash: nat)
    requires i < n && Spacing(n, window) / 3 > 0
    ensures var limit := Spacing(n, window) / 3; var b := BaseOffset(i, n, window);
            b - limit <= RawOffset(i, n, window, hash) < b + limit && 0 <= b - limit && b + limit < window
  {
    BaseSpacing(i, n, window);
    BaseGrows(i, n, window);
  }

  lemma {:induction false} BaseGrows(i: nat, n: nat, window: nat)
    requires i < n
    ensures BaseOffset(i, n, window) >= Spacing(n, window)
    decreases i
  {
    if i == 0 { BaseSpacing(0, n, window); }
    else { BaseGrows(i - 1, n, window); BaseSpacing(i - 1, n, window); }
  }

  lemma StepwiseSorted(s: seq<int>)
    requires forall i :: 0 <= i && i + 1 < |s| ==> s[i] < s[i + 1]
    ensures Sorted(s)
  {
    forall i, j | 0 <= i <= j < |s| ensures s[i] <= s[j] { Chain(s, i, j); }
  }

  lemma {:induction false} Chain(s: seq<int>, i: nat, j: nat)
    requires i <= j < |s|
    requires forall k :: 0 <= k && k + 1 < |s| ==> s[k] < s[k + 1]
    ensures s[i] <= s[j]
    decreases j
  {
    if i < j { Chain(s, i, j - 1); assert s[j - 1] < s[j - 1 + 1]; }
  }

  /** The guard is exact: the raw offsets stay in range for every hash if and only if a third
      of the spacing is not zero. (Otherwise the jitter limit jumps to one millisecond, and
      a hash of 0 sends the first command before the start.) */
  lemma JitterRangeExactly(slots: seq<int>, window: nat)
    requires slots != []
    ensures (forall hash: (nat, int) -> nat, i: nat ::
               i < |slots| ==> 0 <= RawOffset(i, |slots|, window, hash(i, slots[i])) < window)
       <==> Spacing(|slots|, window) / 3 > 0
  {
    var n := |slots|;
    if Spacing(n, window) / 3 > 0 {
      forall hash: (nat, int) -> nat, i: nat | i < n
        ensures 0 <= RawOffset(i, n, window, hash(i, slots[i])) < window
      {
        RawInPlace(i, n, window, hash(i, slots[i]));
      }
    } else {
      var zero: (nat, int) -> nat := (i, s) => 0;
      BaseSpacing(0, n, window);
      assert RawOffset(0, n, window, zero(0, slots[0])) < 0;
    }
  }

  // ---------------------------------------------------------------- command budget

  /** desiredWriteRemainingBudget. */
  function CommandBudget(stageWindow: int, commandTimeout: int): (r: int) {
    if stageWindow <= 0 then (if 15 * SECOND > commandTimeout then 15 * SECOND else commandTimeout)
    else
      var quarter := stageWindow / 4;
      var b0 := if quarter < 250 * MILLISECOND then 250 * MILLISECOND else quarter;
      var b1 := if b0 > 15 * SECOND then 15 * SECOND else b0;
      var b2 := if commandTimeout > b1 then commandTimeout else b1;
      if b2 > stageWindow / 2 then stageWindow / 2 else b2
  }

  /** The scheduled offset of command idx: commands beyond the offsets run at 0. */
  function CommandOffset(offsets: seq<int>, idx: nat): (r: int) {
    if idx < |offsets| then offsets[idx] else 0
  }

  /** Scheduling a stage's commands: the command window is what the action window leaves
      after the budget, never negative. Every command leaves the budget before the stage
      deadline for every hash, if and only if the action window holds the budget. */
  method ScheduleCommands(slots: seq<int>, hash: (nat, int) -> nat,
                          stageWindow: int, commandTimeout: int, actionStart: int, deadline: int)
    returns (offsets: seq<int>)
    ensures var window := deadline - actionStart - CommandBudget(stageWindow, commandTimeout);
            offsets == if slots != [] && window > 0 then Sort(Clamped(slots, window, hash)) else []
    ensures forall idx: nat :: idx < |slots| ==> 0 <= CommandOffset(offsets, idx)
    ensures var budget := CommandBudget(stageWindow, commandTimeout);
            slots != [] ==>
              ((forall idx: nat :: idx < |slots| ==> actionStart + CommandOffset(offsets, idx) + budget <= deadline)
               <==> budget <= deadline - actionStart)
  {
    var actionWindow := deadline - actionStart;
    var budget := CommandBudget(stageWindow, commandTimeout);
    var commandWindow := actionWindow - budget;
    if commandWindow < 0 { commandWindow := 0; }
    offsets := JitteredOffsets(slots, commandWindow, hash);
    assert commandWindow == 0 ==> CommandOffset(offsets, 0) == 0;
    if commandWindow > 0 && slots != [] {
      assert CommandOffset(offsets, 0) == offsets[0] >= 0;
    }
  }

  // ---------------------------------------------------------------- token retries

  /** requestTokenRetryBackoff. */
  function Backoff(attempt: int): (r: int)
    ensures 0 < r <= SECOND
  {
    var a := if attempt < 1 then 1 else attempt;
    if a * 100 * MILLISECOND > SECOND then SECOND else a * 100 * MILLISECOND
  }

  function BackoffSum(retries: nat): (r: nat) {
    if retries == 0 then 0 else BackoffSum(retries - 1) + Backoff(retries)
  }

  function EffectiveTimeout(timeout: int): (r: nat)
    ensures r > 0
  {
    if timeout <= 0 then 10 * SECOND else timeout
  }

  function EffectiveRetries(retries: int): (r: nat) { if retries < 0 then 0 else retries }

  /** What the dispatcher holds back for one device's token requests. */
  function Reserve(timeout: int, retries: int): (r: nat)
    ensures r > 0
  {
    var n := EffectiveRetries(retries);
    TimesPositive(EffectiveTimeout(timeout), n + 1);
    EffectiveTimeout(timeout) * (n + 1) + BackoffSum(n)
  }

  lemma TimesPositive(a: nat, b: nat)
    requires a > 0 && b > 0
    ensures a * b > 0
  {
  }

  /** connectDispatchWindow. */
  method DispatchWindow(paceWindow: int, timeout: int, retries: int) returns (window: int)
    ensures window == DispatchWindowSpec(paceWindow, timeout, retries)
  {
    if paceWindow <= 0 { return 0; }
    var n := EffectiveRetries(retries);
    var reserve := EffectiveTimeout(timeout) * (n + 1);
    for attempt := 1 to n + 1
      invariant reserve == EffectiveTimeout(timeout) * (n + 1) + BackoffSum(attempt - 1)
    {
      reserve := reserve + Backoff(attempt);
    }
    assert reserve == Reserve(timeout, retries);
    if reserve <= 0 || reserve >= paceWindow { return paceWindow / 2; }
    return paceWindow - reserve;
  }

  ghost function DispatchWindowSpec(paceWindow: int, timeout: int, retries: int): (r: int) {
    if paceWindow <= 0 then 0
    else if Reserve(timeout, retries) >= paceWindow then paceWindow / 2
    else paceWindow - Reserve(timeout, retries)
  }

  /** connectDispatchDelay. */
  function DispatchDelay(index: int, total: int, window: int): (r: int) {
    if index <= 0 || total <= 1 || window <= 0 then 0 else FloorDiv(Times(window, index), total)
  }

  datatype Reply = Granted | Retryable | Fatal

  /** requestDeviceTokenWithRetry seen from the clock. `reply(attempt, limit)` says how long
      an attempt given `limit` takes and how it ends; the HTTP client stops at its limit. */
  ghost function TokenRun(now: int, attempt: nat, maxAttempts: nat, timeout: nat, deadline: Option<int>,
                          reply: (nat, nat) -> (nat, Reply)): (r: (int, bool))
    decreases maxAttempts + 1 - attempt
  {
    if attempt > maxAttempts then (now, false)
    else if deadline.Some? && deadline.value <= now then (now, false)
    else
      var limit := if deadline.Some? && deadline.value - now < timeout then deadline.value - now else timeout;
      var (took, outcome) := reply(attempt, limit);
      if outcome.Granted? then (now + took, true)
      else if outcome.Fatal? || attempt == maxAttempts then (now + took, false)
      else TokenRun(SleepEnd(now + took, Backoff(attempt), deadline), attempt + 1, maxAttempts, timeout, deadline, reply)
  }

  /** sleepUntilDeadline: never past the deadline. */
  function SleepEnd(now: int, delay: int, deadline: Option<int>): (r: int) {
    if delay <= 0 then now
    else match deadline
      case None => now + delay
      case Some(d) => if d - now <= 0 then now else if delay > d - now then d else now + delay
  }

  method RequestToken(start: int, timeout: int, retries: int, deadline: Option<int>,
                      reply: (nat, nat) -> (nat, Reply)) returns (end: int, granted: bool)
    requires forall attempt, limit :: reply(attempt, limit).0 <= limit
    ensures (end, granted) == TokenRun(start, 1, EffectiveRetries(retries) + 1, EffectiveTimeout(timeout), deadline, reply)
    ensures start <= end <= start + Reserve(timeout, retries)
    ensures deadline.Some? && start <= deadline.value ==> end <= deadline.value
  {
    var t := EffectiveTimeout(timeout);
    var maxAttempts := retries + 1;
    if maxAttempts <= 0 { maxAttempts := 1; }
    end, granted := TokenLoop(start, maxAttempts, t, deadline, reply);
    TokenWithinReserve(start, 1, maxAttempts, t, deadline, reply);
    TokenWithinDeadline(start, 1, maxAttempts, t, deadline, reply);
    LeftIsReserve(1, maxAttempts, t);
  }

  /** The attempts, until one is granted, one is fatal, or the deadline or the last attempt is past. */
  method TokenLoop(start: int, maxAttempts: nat, timeout: nat, deadline: Option<int>,
                   reply: (nat, nat) -> (nat, Reply)) returns (end: int, granted: bool)
    ensures (end, granted) == TokenRun(start, 1, maxAttempts, timeout, deadline, reply)
  {
    var now := start;
    var attempt := 1;
    while attempt <= maxAttempts
      invariant 1 <= attempt <= maxAttempts + 1
      invariant TokenRun(start, 1, maxAttempts, timeout, deadline, reply) == TokenRun(now, attempt, maxAttempts, timeout, deadline, reply)
    {
      var limit := timeout;
      if deadline.Some? {
        var remaining := deadline.value - now;
        if remaining <= 0 { return now, false; }
        if limit > remaining { limit := remaining; }
      }
      var (took, outcome) := reply(attempt, limit);
      now := now + took;
      if outcome.Granted? { return now, true; }
      if attempt == maxAttempts || outcome.Fatal? { return now, false; }
      now := SleepEnd(now, Backoff(attempt), deadline);
      attempt := attempt + 1;
    }
    return now, false;
  }

  lemma SleepBounds(now: int, delay: nat, deadline: Option<int>)
    ensures now <= SleepEnd(now, delay, deadline) <= now + delay
    ensures deadline.Some? && now <= deadline.value ==> SleepEnd(now, delay, deadline) <= deadline.value
  {
  }

  /** One attempt: the loop ends with it, or goes on after a backoff. */
  lemma TokenStep(now: int, attempt: nat, max: nat, timeout: nat, deadline: Option<int>,
                  reply: (nat, nat) -> (nat, Reply)) returns (next: int, last: bool)
    requires attempt <= max && forall a, limit :: reply(a, limit).0 <= limit
    ensures now <= next && (deadline.Some? && now <= deadline.value ==> next <= deadline.value)
    ensures last ==> TokenRun(now, attempt, max, timeout, deadline, reply).0 == next <= now + timeout
    ensures !last ==>
              && attempt < max && next <= now + timeout + Backoff(attempt)
              && TokenRun(now, attempt, max, timeout, deadline, reply)
              == TokenRun(next, attempt + 1, max, timeout, deadline, reply)
  {
    if deadline.Some? && deadline.value <= now { return now, true; }
    var limit := if deadline.Some? && deadline.value - now < timeout then deadline.value - now else timeout;
    var (took, outcome) := reply(attempt, limit);
    assert took <= limit;
    if outcome.Granted? || outcome.Fatal? || attempt == max { return now + took, true; }
    SleepBounds(now + took, Backoff(attempt), deadline);
    next, last := SleepEnd(now + took, Backoff(attempt), deadline), false;
  }

  /** Started before its deadline, the loop never outlasts it. */
  lemma {:induction false} TokenWithinDeadline(now: int, attempt: nat, max: nat, timeout: nat, deadline: Option<int>,
                                               reply: (nat, nat) -> (nat, Reply))
    requires forall a, limit :: reply(a, limit).0 <= limit
    ensures deadline.Some? && now <= deadline.value ==>
              TokenRun(now, attempt, max, timeout, deadline, reply).0 <= deadline.value
    decreases max + 1 - attempt
  {
    if attempt <= max {
      var next, last := TokenStep(now, attempt, max, timeout, deadline, reply);
      if !last { TokenWithinDeadline(next, attempt + 1, max, timeout, deadline, reply); }
    }
  }

  /** The longest the loop can still take when it starts the given attempt. */
  function Left(attempt: nat, max: nat, timeout: nat): (r: nat)
    decreases max + 1 - attempt
  {
    if attempt > max then 0
    else timeout + (if attempt < max then Backoff(attempt) + Left(attempt + 1, max, timeout) else 0)
  }

  lemma {:induction false} LeftIsReserve(attempt: nat, max: nat, timeout: nat)
    requires 1 <= attempt <= max
    ensures BackoffSum(attempt - 1) + Left(attempt, max, timeout) == timeout * (max + 1 - attempt) + BackoffSum(max - 1)
    decreases max - attempt
  {
    if attempt < max {
      LeftIsReserve(attempt + 1, max, timeout);
      assert timeout * (max + 1 - attempt) == timeout * (max - attempt) + timeout;
    }
  }

  /** The loop never outlasts what is left of the reserve. */
  lemma {:induction false} TokenWithinReserve(now: int, attempt: nat, max: nat, timeout: nat, deadline: Option<int>,
                                              reply: (nat, nat) -> (nat, Reply))
    requires forall a, limit :: reply(a, limit).0 <= limit
    ensures now <= TokenRun(now, attempt, max, timeout, deadline, reply).0 <= now + Left(attempt, max, timeout)
    decreases max + 1 - attempt
  {
    if attempt <= max {
      var next, last := TokenStep(now, attempt, max, timeout, deadline, reply);
      if !last { TokenWithinReserve(next, attempt + 1, max, timeout, deadline, reply); }
    }
  }

  /** The slowest run, every attempt timing out with no deadline, takes exactly the reserve. */
  lemma {:induction false} LeftIsReached(now: int, attempt: nat, max: nat, timeout: nat)
    requires 1 <= attempt <= max
    ensures TokenRun(now, attempt, max, timeout, None, (a, limit) => (limit, Retryable))
         == (now + Left(attempt, max, timeout), false)
    decreases max - attempt
  {
    if attempt < max {
      LeftIsReached(now + timeout + Backoff(attempt), attempt + 1, max, timeout);
    }
  }

  lemma ReserveIsWorstCase(start: int, timeout: int, retries: int)
    ensures TokenRun(start, 1, EffectiveRetries(retries) + 1, EffectiveTimeout(timeout), None, (a, limit) => (limit, Retryable))
         == (start + Reserve(timeout, retries), false)
  {
    var n, t := EffectiveRetries(retries), EffectiveTimeout(timeout);
    LeftIsReached(start, 1, n + 1, t);
    LeftIsReserve(1, n + 1, t);
  }

  /** Every device's dispatch delay plus its worst-case token loop ends strictly inside the
      pace window, if and only if the reserve fits in the pace window. */
  lemma PacingFitsExactly(total: nat, paceWindow: int, timeout: int, retries: int)
    requires total > 0 && paceWindow > 0
    ensures (forall index: nat :: index < total ==>
               DispatchDelay(index, total, DispatchWindowSpec(paceWindow, timeout, retries))
               + Reserve(timeout, retries) < paceWindow)
       <==> Reserve(timeout, retries) < paceWindow
  {
    var window := DispatchWindowSpec(paceWindow, timeout, retries);
    var reserve := Reserve(timeout, retries);
    if reserve < paceWindow {
      forall index: nat | index < total ensures DispatchDelay(index, total, window) + reserve < paceWindow {
        if index > 0 && total > 1 {
          assert window * index < window * total == total * window;
          DivBelow(Times(window, index), total, window);
        }
      }
    } else {
      assert DispatchDelay(0, total, window) == 0;
    }
  }
}
