/** The I/O counters of scripts/go/cloud-mqtt-test/main.go, their merge, and the laws that
    tie the counters of the device connect path to each other. */
module Totals {

  datatype Device = Device(
    connectAttempts: int, connectSuccesses: int, connectFailures: int,
    tokenAttempts: int, tokenSuccesses: int, tokenFailures: int,
    tokenFirstSuccess: int, tokenFirstFailures: int,
    tokenRetryAttempts: int, tokenRetrySuccesses: int, tokenRetryExhausted: int,
    dialAttempts: int, dialSuccesses: int, dialFailures: int,
    connackAttempts: int, connackSuccesses: int, connackFailures: int,
    subscribeAttempts: int, subscribeSuccesses: int, subscribeFailures: int)

  datatype Command = Command(desiredWrites: int, deltaReceived: int, reportedEvents: int, receivedAcks: int)

  /** `active` is the connection gauge, which a merge overwrites. */
  datatype IOTotals = IOTotals(device: Device, command: Command, active: int)

  const NO_DEVICE: Device := Device(0, 0, 0, 0, 0, 0, 0, 0, 0, 0, 0, 0, 0, 0, 0, 0, 0, 0, 0, 0)
  const NO_COMMAND: Command := Command(0, 0, 0, 0)
  const ZERO: IOTotals := IOTotals(NO_DEVICE, NO_COMMAND, 0)

  function Plus(a: Device, b: Device): (r: Device) {
    Device(
      a.connectAttempts + b.connectAttempts, a.connectSuccesses + b.connectSuccesses, a.connectFailures + b.connectFailures,
      a.tokenAttempts + b.tokenAttempts, a.tokenSuccesses + b.tokenSuccesses, a.tokenFailures + b.tokenFailures,
      a.tokenFirstSuccess + b.tokenFirstSuccess, a.tokenFirstFailures + b.tokenFirstFailures,
      a.tokenRetryAttempts + b.tokenRetryAttempts, a.tokenRetrySuccesses + b.tokenRetrySuccesses,
      a.tokenRetryExhausted + b.tokenRetryExhausted,
      a.dialAttempts + b.dialAttempts, a.dialSuccesses + b.dialSuccesses, a.dialFailures + b.dialFailures,
      a.connackAttempts + b.connackAttempts, a.connackSuccesses + b.connackSuccesses, a.connackFailures + b.connackFailures,
      a.subscribeAttempts + b.subscribeAttempts, a.subscribeSuccesses + b.subscribeSuccesses,
      a.subscribeFailures + b.subscribeFailures)
  }

  function PlusCommand(a: Command, b: Command): (r: Command) {
    Command(a.desiredWrites + b.desiredWrites, a.deltaReceived + b.deltaReceived,
            a.reportedEvents + b.reportedEvents, a.receivedAcks + b.receivedAcks)
  }

  /** addMQTTIOTotals: counters add up, the gauge takes the newer value. */
  function Add(a: IOTotals, b: IOTotals): (r: IOTotals) {
    IOTotals(Plus(a.device, b.device), PlusCommand(a.command, b.command), b.active)
  }

  /** isZeroMQTTIOTotals. */
  predicate IsZero(t: IOTotals) { t == ZERO }

  /** mergeTotals of a staged run: nothing for zero totals, and the stage keeps its gauge. */
  function Merge(stage: IOTotals, t: IOTotals): (r: IOTotals) {
    if IsZero(t) then stage else Add(stage, t).(active := stage.active)
  }

  /** Every device counter is accounted for by the phase before it. */
  ghost predicate Balanced(t: Device) {
    && t.connectAttempts == t.connectSuccesses + t.connectFailures
    && t.tokenAttempts == t.tokenFirstSuccess + t.tokenFirstFailures + t.tokenRetryAttempts
    && t.tokenFirstFailures == t.tokenRetrySuccesses + t.tokenFailures
    && t.tokenSuccesses == t.tokenFirstSuccess + t.tokenRetrySuccesses
    && t.tokenSuccesses == t.dialAttempts == t.dialSuccesses + t.dialFailures
    && t.connackAttempts == t.connackSuccesses + t.connackFailures
    && t.connackAttempts <= t.dialSuccesses
    && t.connackSuccesses == t.subscribeAttempts == t.subscribeSuccesses + t.subscribeFailures
    && t.connectSuccesses == t.subscribeSuccesses
    && t.tokenRetryExhausted <= t.tokenFailures
  }

  /** Counters before anything happened. */
  ghost predicate Uncounted(t: Device) {
    && t.connectAttempts == t.connectSuccesses == t.connectFailures == 0
    && t.tokenAttempts == t.tokenSuccesses == t.tokenFailures == 0
    && t.tokenFirstSuccess == t.tokenFirstFailures == 0
    && t.tokenRetryAttempts == t.tokenRetrySuccesses == t.tokenRetryExhausted == 0
    && t.dialAttempts == t.dialSuccesses == t.dialFailures == 0
    && t.connackAttempts == t.connackSuccesses == t.connackFailures == 0
    && t.subscribeAttempts == t.subscribeSuccesses == t.subscribeFailures == 0
  }

  /** The laws as differences that are linear in the counters: the first ten must be zero,
      the last two must not be negative. */
  function Gap(k: nat, t: Device): (r: int) {
    if k == 0 then t.connectAttempts - t.connectSuccesses - t.connectFailures
    else if k == 1 then t.tokenAttempts - t.tokenFirstSuccess - t.tokenFirstFailures - t.tokenRetryAttempts
    else if k == 2 then t.tokenFirstFailures - t.tokenRetrySuccesses - t.tokenFailures
    else if k == 3 then t.tokenSuccesses - t.tokenFirstSuccess - t.tokenRetrySuccesses
    else if k == 4 then t.tokenSuccesses - t.dialAttempts
    else if k == 5 then t.dialAttempts - t.dialSuccesses - t.dialFailures
    else if k == 6 then t.connackAttempts - t.connackSuccesses - t.connackFailures
    else if k == 7 then t.connackSuccesses - t.subscribeAttempts
    else if k == 8 then t.subscribeAttempts - t.subscribeSuccesses - t.subscribeFailures
    else if k == 9 then t.connectSuccesses - t.subscribeSuccesses
    else if k == 10 then t.dialSuccesses - t.connackAttempts
    else t.tokenFailures - t.tokenRetryExhausted
  }

  predicate Holds(k: nat, gap: int) { if k < 10 then gap == 0 else gap >= 0 }

  lemma BalancedGaps(t: Device)
    ensures Balanced(t) <==> forall k: nat :: Holds(k, Gap(k, t))
  {
    if forall k: nat :: Holds(k, Gap(k, t)) {
      assert Holds(0, Gap(0, t)) && Holds(1, Gap(1, t)) && Holds(2, Gap(2, t)) && Holds(3, Gap(3, t));
      assert Holds(4, Gap(4, t)) && Holds(5, Gap(5, t)) && Holds(6, Gap(6, t)) && Holds(7, Gap(7, t));
      assert Holds(8, Gap(8, t)) && Holds(9, Gap(9, t)) && Holds(10, Gap(10, t)) && Holds(11, Gap(11, t));
    }
  }

  /** One mutex-protected update of the counters. */
  datatype Tick =
    | Nothing
    | ConnectAttempted | ConnectFailed
    | TokenAttempted | TokenRetried | TokenFirstGranted | TokenRetryGranted | TokenFirstFailed | TokenFailed(exhausted: bool)
    | DialAttempted | DialWorked | DialFailed
    | ConnackAttempted | ConnackWorked | ConnackFailed
    | SubscribeAttempted | SubscribeFailed
    | Succeeded

  function Bump(t: Device, tick: Tick): (r: Device) {
    match tick
    case Nothing => t
    case ConnectAttempted => t.(connectAttempts := t.connectAttempts + 1)
    case ConnectFailed => t.(connectFailures := t.connectFailures + 1)
    case TokenAttempted => t.(tokenAttempts := t.tokenAttempts + 1)
    case TokenRetried => t.(tokenRetryAttempts := t.tokenRetryAttempts + 1)
    case TokenFirstGranted => t.(tokenSuccesses := t.tokenSuccesses + 1, tokenFirstSuccess := t.tokenFirstSuccess + 1)
    case TokenRetryGranted => t.(tokenSuccesses := t.tokenSuccesses + 1, tokenRetrySuccesses := t.tokenRetrySuccesses + 1)
    case TokenFirstFailed => t.(tokenFirstFailures := t.tokenFirstFailures + 1)
    case TokenFailed(exhausted) =>
      t.(tokenFailures := t.tokenFailures + 1,
         tokenRetryExhausted := if exhausted then t.tokenRetryExhausted + 1 else t.tokenRetryExhausted)
    case DialAttempted => t.(dialAttempts := t.dialAttempts + 1)
    case DialWorked => t.(dialSuccesses := t.dialSuccesses + 1)
    case DialFailed => t.(dialFailures := t.dialFailures + 1)
    case ConnackAttempted => t.(connackAttempts := t.connackAttempts + 1)
    case ConnackWorked => t.(connackSuccesses := t.connackSuccesses + 1)
    case ConnackFailed => t.(connackFailures := t.connackFailures + 1)
    case SubscribeAttempted => t.(subscribeAttempts := t.subscribeAttempts + 1)
    case SubscribeFailed => t.(connectFailures := t.connectFailures + 1, subscribeFailures := t.subscribeFailures + 1)
    case Succeeded => t.(connectSuccesses := t.connectSuccesses + 1, subscribeSuccesses := t.subscribeSuccesses + 1)
  }

  /** How much one update changes law k. */
  function TickGap(k: nat, tick: Tick): (r: int) {
    match tick
    case Nothing => 0
    case ConnectAttempted => if k == 0 then 1 else 0
    case ConnectFailed => if k == 0 then -1 else 0
    case TokenAttempted => if k == 1 then 1 else 0
    case TokenRetried => if k == 1 then -1 else 0
    case TokenFirstGranted => if k == 1 then -1 else if k == 4 then 1 else 0
    case TokenRetryGranted => if k == 2 then -1 else if k == 4 then 1 else 0
    case TokenFirstFailed => if k == 1 then -1 else if k == 2 then 1 else 0
    case TokenFailed(exhausted) => if k == 2 then -1 else if k >= 11 && !exhausted then 1 else 0
    case DialAttempted => if k == 4 then -1 else if k == 5 then 1 else 0
    case DialWorked => if k == 5 then -1 else if k == 10 then 1 else 0
    case DialFailed => if k == 5 then -1 else 0
    case ConnackAttempted => if k == 6 then 1 else if k == 10 then -1 else 0
    case ConnackWorked => if k == 6 then -1 else if k == 7 then 1 else 0
    case ConnackFailed => if k == 6 then -1 else 0
    case SubscribeAttempted => if k == 7 then -1 else if k == 8 then 1 else 0
    case SubscribeFailed => if k == 0 || k == 8 then -1 else 0
    case Succeeded => if k == 0 || k == 8 then -1 else 0
  }

  lemma BumpGap(k: nat, t: Device, tick: Tick)
    ensures Gap(k, Bump(t, tick)) == Gap(k, t) + TickGap(k, tick)
  {
  }

  lemma BumpSuccesses(t: Device, tick: Tick)
    ensures Bump(t, tick).connectSuccesses == t.connectSuccesses + if tick.Succeeded? then 1 else 0
  {
  }

  lemma GapPlus(k: nat, a: Device, b: Device)
    ensures Gap(k, Plus(a, b)) == Gap(k, a) + Gap(k, b)
  {
  }

  lemma PlusBalanced(a: Device, b: Device)
    requires Balanced(a) && Balanced(b)
    ensures Balanced(Plus(a, b))
  {
    BalancedGaps(a);
    BalancedGaps(b);
    forall k: nat ensures Holds(k, Gap(k, Plus(a, b))) {
      GapPlus(k, a, b);
      assert Holds(k, Gap(k, a)) && Holds(k, Gap(k, b));
    }
    BalancedGaps(Plus(a, b));
  }

  /** A command acknowledges only what it reported, reports only deltas it received, and so on. */
  ghost predicate Ordered(c: Command) {
    0 <= c.receivedAcks <= c.reportedEvents <= c.deltaReceived <= c.desiredWrites
  }

  /** Both laws survive every merge; a stage merge also keeps the stage's gauge. */
  lemma MergeKeepsLaws(a: IOTotals, b: IOTotals)
    requires Balanced(a.device) && Balanced(b.device) && Ordered(a.command) && Ordered(b.command)
    ensures Balanced(Add(a, b).device) && Ordered(Add(a, b).command) && Add(a, b).active == b.active
    ensures Balanced(Merge(a, b).device) && Ordered(Merge(a, b).command) && Merge(a, b).active == a.active
  {
    PlusBalanced(a.device, b.device);
  }
}
