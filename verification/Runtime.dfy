/** The bounded loop: recovery first, then decision cycles until a bound stops it. */
module Runtime {
  import opened Outcomes
  import opened Recovery
  import A = Adapter

  datatype RuntimeState = Idle | Recovering | Running | Stopping | Stopped | Halted

  datatype StopReason =
    | NotStopped | MaxCycles | Deadline | MaxOrders | KillSwitch | Signal | TooManyErrors | UnsafeStart

  datatype RuntimeLimits = RuntimeLimits(
    intervalSeconds: real,
    maxCycles: Option<int>,
    maxOrders: Option<int>,
    maxConsecutiveErrors: int,
    until: Option<int>,
    requireMarketOpen: bool)
  {
    predicate Valid() {
      && intervalSeconds >= 1.0
      && (maxCycles.Some? ==> maxCycles.value >= 1)
      && (maxOrders.Some? ==> maxOrders.value >= 0)
      && maxConsecutiveErrors >= 1
    }
  }

  datatype CycleResult = CycleResult(index: nat, symbols: seq<string>, decisions: nat, ordersSubmitted: nat,
                                     errors: nat, skipped: bool)
  {
    predicate Ok() {
      errors == 0
    }
  }

  datatype Health = Health(state: RuntimeState, stopReason: StopReason, cyclesCompleted: nat, ordersSubmitted: nat,
                           consecutiveErrors: nat)

  /** What one symbol's pipeline did: it raised, decided nothing, or decided, with the state of a submission if any. */
  datatype Outcome = Raised | NoDecision | Decided(execution: Option<A.SubmissionState>)

  /** An ambiguous submission counts as an order: one may exist. */
  predicate Submitted(o: Outcome) {
    o.Decided? && o.execution.Some? && (o.execution.value.SubmittedState? || o.execution.value.UnknownState?)
  }

  datatype MarketAnswer = ClockFailed | Closed | MarketOpen

  /** Everything outside the runtime, indexed by when it is looked at: the k-th stop check, and the
      j-th symbol of the n-th cycle. A signal may arrive before any stop check or any symbol. */
  datatype World = World(
    killSwitch: nat -> bool,
    clock: nat -> int,
    signal: nat -> bool,
    signalInCycle: (nat, nat) -> bool,
    market: nat -> MarketAnswer,
    hasMarketClock: bool,
    outcome: (nat, nat) -> Outcome)
  {
    /** Conditions that stay true once they are true. */
    ghost predicate Sticky() {
      && (forall k, m :: k <= m && killSwitch(k) ==> killSwitch(m))
      && (forall k, m :: k <= m ==> clock(k) <= clock(m))
    }

    /** The first `i` symbols of a cycle whose order was acknowledged or may exist all the same. */
    ghost function Hits(index: nat, i: nat): set<nat> {
      set j | 0 <= j < i && Submitted(outcome(index, j)) :: j
    }

    /** Those that decided anything, and those that raised. */
    ghost function Decisions(index: nat, i: nat): set<nat> {
      set j | 0 <= j < i && outcome(index, j).Decided? :: j
    }

    ghost function Failures(index: nat, i: nat): set<nat> {
      set j | 0 <= j < i && outcome(index, j).Raised? :: j
    }

    /** An acknowledged submission counts and so does an ambiguous one; a refused or blocked one does not. */
    lemma HitsExactly(index: nat, i: nat, j: nat)
      ensures j in Hits(index, i) <==>
              j < i && (outcome(index, j) == Decided(Some(A.SubmittedState))
                        || outcome(index, j) == Decided(Some(A.UnknownState)))
    {
    }

    lemma CountStep(index: nat, i: nat)
      ensures |Hits(index, i + 1)| == |Hits(index, i)| + (if Submitted(outcome(index, i)) then 1 else 0)
      ensures |Decisions(index, i + 1)| == |Decisions(index, i)| + (if outcome(index, i).Decided? then 1 else 0)
      ensures |Failures(index, i + 1)| == |Failures(index, i)| + (if outcome(index, i).Raised? then 1 else 0)
    {
      OneMoreIn(Hits(index, i), Hits(index, i + 1), i, Submitted(outcome(index, i)));
      OneMoreIn(Decisions(index, i), Decisions(index, i + 1), i, outcome(index, i).Decided?);
      OneMoreIn(Failures(index, i), Failures(index, i + 1), i, outcome(index, i).Raised?);
    }

    /** Only the runtime's own counters can stop it. */
    ghost predicate Quiet() {
      && (forall k :: !killSwitch(k) && !signal(k))
      && (forall n, j :: !signalInCycle(n, j))
    }
  }

  lemma OneMoreIn(s: set<nat>, s': set<nat>, i: nat, on: bool)
    requires i !in s && forall j :: j in s' <==> j in s || (on && j == i)
    ensures |s'| == |s| + (if on then 1 else 0)
  {
    assert s' == s + (if on then {i} else {});
  }

  function TotalOrders(cycles: seq<CycleResult>): nat {
    if cycles == [] then 0 else TotalOrders(cycles[..|cycles| - 1]) + cycles[|cycles| - 1].ordersSubmitted
  }

  /** The orders of all cycles: splitting a run anywhere splits its orders. */
  lemma {:induction false} OrdersAdd(a: seq<CycleResult>, b: seq<CycleResult>)
    ensures TotalOrders(a + b) == TotalOrders(a) + TotalOrders(b)
    ensures |a| == 1 ==> TotalOrders(a) == a[0].ordersSubmitted
  {
    if |a| == 1 { assert a[..0] == []; }
    if b == [] {
      assert a + b == a;
    } else {
      assert (a + b)[..|a + b| - 1] == a + b[..|b| - 1];
      OrdersAdd(a, b[..|b| - 1]);
    }
  }

  /** The length of the run of failed cycles at the end. */
  function TrailingFailures(cycles: seq<CycleResult>): nat {
    if cycles == [] || cycles[|cycles| - 1].Ok() then 0 else TrailingFailures(cycles[..|cycles| - 1]) + 1
  }

  function CountSleeps(slept: seq<bool>): nat {
    if slept == [] then 0 else CountSleeps(slept[..|slept| - 1]) + (if slept[|slept| - 1] then 1 else 0)
  }

  /** The bound that has been hit, in the order the bounds are checked. */
  function Reason(h: Health, l: RuntimeLimits, stopRequested: bool, kill: bool, now: int): StopReason {
    if stopRequested then (if h.stopReason.NotStopped? then Signal else h.stopReason)
    else if kill then KillSwitch
    else if l.maxCycles.Some? && h.cyclesCompleted >= l.maxCycles.value then MaxCycles
    else if l.maxOrders.Some? && h.ordersSubmitted >= l.maxOrders.value then MaxOrders
    else if l.until.Some? && now >= l.until.value then Deadline
    else if h.consecutiveErrors >= l.maxConsecutiveErrors then TooManyErrors
    else NotStopped
  }

  /** Which reason a check gives: a request to stop wins, under the first reason it was given; then the kill switch,
      the cycles, the orders, the deadline and the errors, each only when none before it holds. */
  lemma ReasonExactly(h: Health, l: RuntimeLimits, stopRequested: bool, kill: bool, now: int)
    ensures var r := Reason(h, l, stopRequested, kill, now);
            var spent := l.maxCycles.Some? && h.cyclesCompleted >= l.maxCycles.value;
            var ordered := l.maxOrders.Some? && h.ordersSubmitted >= l.maxOrders.value;
            var late := l.until.Some? && now >= l.until.value;
            && (stopRequested ==> r == if h.stopReason.NotStopped? then Signal else h.stopReason)
            && (!stopRequested ==>
                  && (r.KillSwitch? <==> kill)
                  && (r.MaxCycles? <==> !kill && spent)
                  && (r.MaxOrders? <==> !kill && !spent && ordered)
                  && (r.Deadline? <==> !kill && !spent && !ordered && late)
                  && (r.TooManyErrors? <==>
                        !kill && !spent && !ordered && !late && h.consecutiveErrors >= l.maxConsecutiveErrors)
                  && !r.Signal? && !r.UnsafeStart?)
  {
  }

  /** Some bound holds when it is looked for at the k-th check, after these cycles. */
  predicate BoundAt(l: RuntimeLimits, w: World, cycles: seq<CycleResult>, k: nat, requested: bool) {
    || requested
    || w.killSwitch(k)
    || (l.maxCycles.Some? && |cycles| >= l.maxCycles.value)
    || (l.maxOrders.Some? && TotalOrders(cycles) >= l.maxOrders.value)
    || (l.until.Some? && w.clock(k) >= l.until.value)
    || TrailingFailures(cycles) >= l.maxConsecutiveErrors
  }

  predicate MarketAllows(l: RuntimeLimits, w: World, index: nat) {
    l.requireMarketOpen && w.hasMarketClock ==> w.market(index).MarketOpen?
  }

  /** A signal stopped the cycle before one of its symbols. */
  predicate CutShort(symbols: seq<string>, l: RuntimeLimits, w: World, index: nat, c: CycleResult) {
    MarketAllows(l, w, index) && |c.symbols| < |symbols| && w.signalInCycle(index, |c.symbols|)
  }

  /** In a fresh run the check after the n-th cycle is the check numbered 2n - 1, and the one before the next
      cycle is numbered 2n. Whether a stop was requested by the former, and by the latter: */
  predicate HeardAfter(symbols: seq<string>, l: RuntimeLimits, w: World, cycles: seq<CycleResult>) {
    var n := |cycles|;
    n > 0 && (w.signal(2 * n - 1) || CutShort(symbols, l, w, n, cycles[n - 1]))
  }

  /** The check after the last of these cycles found a bound. */
  predicate FoundAfter(symbols: seq<string>, l: RuntimeLimits, w: World, cycles: seq<CycleResult>) {
    cycles != [] && BoundAt(l, w, cycles, 2 * |cycles| - 1, HeardAfter(symbols, l, w, cycles))
  }

  /** The check before the next cycle found one. */
  predicate FoundBefore(symbols: seq<string>, l: RuntimeLimits, w: World, cycles: seq<CycleResult>) {
    BoundAt(l, w, cycles, 2 * |cycles|, HeardAfter(symbols, l, w, cycles) || w.signal(2 * |cycles|))
  }

  /** A bound found after a cycle is still there before the next one. */
  lemma FoundStays(symbols: seq<string>, l: RuntimeLimits, w: World, cycles: seq<CycleResult>)
    requires w.Sticky() && cycles != [] && FoundAfter(symbols, l, w, cycles)
    ensures FoundBefore(symbols, l, w, cycles)
  {
    var n := |cycles|;
    assert w.killSwitch(2 * n - 1) ==> w.killSwitch(2 * n);
    assert w.clock(2 * n - 1) <= w.clock(2 * n);
  }

  /** A stop reason that at most turned from none into a signal. */
  predicate OnlySignalled(before: StopReason, after: StopReason) {
    after == before || (before.NotStopped? && after.Signal?)
  }

  class AutonomousRuntime {
    const symbols: seq<string>
    const limits: RuntimeLimits
    const world: World
    var health: Health
    var cycles: seq<CycleResult>
    var stopRequested: bool
    var checks: nat
    var sleeps: nat
    /** Whether the loop slept after each cycle. */
    ghost var slept: seq<bool>

    constructor (symbols: seq<string>, limits: RuntimeLimits, world: World)
      requires symbols != [] && limits.Valid()
      ensures this.symbols == symbols && this.limits == limits && this.world == world
      ensures Valid() && NotYetRun() && sleeps == 0
    {
      this.symbols, this.limits, this.world := symbols, limits, world;
      health := Health(Idle, NotStopped, 0, 0, 0);
      cycles, stopRequested, checks, sleeps, slept := [], false, 0, 0, [];
    }

    /** The bounds and the bookkeeping, at every point between cycles. */
    ghost predicate Valid()
      reads this
    {
      && limits.Valid()
      && health.cyclesCompleted == |cycles| == |slept|
      && health.ordersSubmitted == TotalOrders(cycles)
      && health.consecutiveErrors == TrailingFailures(cycles)
      && sleeps == CountSleeps(slept)
      && (forall i :: 0 <= i < |cycles| ==> cycles[i].ordersSubmitted <= |symbols|)
      && (limits.maxCycles.Some? ==> |cycles| <= limits.maxCycles.value)
      && (limits.maxOrders.Some? ==>
            if limits.maxOrders.value == 0 then cycles == []
            else TotalOrders(cycles) < limits.maxOrders.value + |symbols|)
      && health.consecutiveErrors <= limits.maxConsecutiveErrors
    }

    method RequestStop(reason: StopReason)
      modifies this`stopRequested, this`health
      ensures stopRequested
      ensures health == old(health).(stopReason := if old(health).stopReason.NotStopped? then reason
                                                   else old(health).stopReason, state := Stopping)
    {
      stopRequested := true;
      if health.stopReason.NotStopped? {
        health := health.(stopReason := reason);
      }
      health := health.(state := Stopping);
    }

    method StopNow() returns (r: StopReason)
      requires Valid()
      modifies this`stopRequested, this`health, this`checks
      ensures Valid() && checks == old(checks) + 1
      ensures stopRequested == (old(stopRequested) || world.signal(old(checks)))
      ensures health.cyclesCompleted == old(health).cyclesCompleted
      ensures health.ordersSubmitted == old(health).ordersSubmitted
      ensures health.consecutiveErrors == old(health).consecutiveErrors
      ensures !world.signal(old(checks)) ==> health == old(health)
      ensures OnlySignalled(old(health).stopReason, health.stopReason)
      ensures r == NotStopped <==> !BoundAt(limits, world, cycles, old(checks), stopRequested)
      ensures r == Reason(health, limits, stopRequested, world.killSwitch(old(checks)), world.clock(old(checks)))
    {
      if world.signal(checks) {
        RequestStop(Signal);
      }
      var kill, now := world.killSwitch(checks), world.clock(checks);
      checks := checks + 1;
      if stopRequested { return if health.stopReason.NotStopped? then Signal else health.stopReason; }
      if kill { return KillSwitch; }
      if limits.maxCycles.Some? && health.cyclesCompleted >= limits.maxCycles.value { return MaxCycles; }
      if limits.maxOrders.Some? && health.ordersSubmitted >= limits.maxOrders.value { return MaxOrders; }
      if limits.until.Some? && now >= limits.until.value { return Deadline; }
      if health.consecutiveErrors >= limits.maxConsecutiveErrors { return TooManyErrors; }
      return NotStopped;
    }

    /** One cycle. A failing symbol is recorded and the others still run; a closed or unknown market runs none. */
    method RunCycle(index: nat) returns (c: CycleResult)
      requires Valid()
      modifies this`stopRequested, this`health
      ensures Valid()
      ensures c.ordersSubmitted <= c.decisions && c.decisions + c.errors <= |symbols| + 1
      ensures c.ordersSubmitted <= |c.symbols| && c.symbols <= symbols
      ensures c.index == index && c.ordersSubmitted == |world.Hits(index, |c.symbols|)|
      ensures c.decisions == |world.Decisions(index, |c.symbols|)|
      ensures limits.requireMarketOpen && world.hasMarketClock ==>
                (c.skipped <==> world.market(index).Closed?) && (world.market(index).ClockFailed? ==> c.errors == 1)
      ensures MarketAllows(limits, world, index) ==> !c.skipped && c.errors == |world.Failures(index, |c.symbols|)|
      ensures MarketAllows(limits, world, index) && !stopRequested ==> c.symbols == symbols
      ensures limits.requireMarketOpen && world.hasMarketClock && !world.market(index).MarketOpen? ==>
                c.symbols == [] && (c.Ok() <==> world.market(index).Closed?)
      ensures !(limits.requireMarketOpen && world.hasMarketClock && !world.market(index).MarketOpen?) ==>
                (c.Ok() <==> forall j :: 0 <= j < |c.symbols| ==> !world.outcome(index, j).Raised?)
      ensures health.cyclesCompleted == old(health).cyclesCompleted
      ensures health.ordersSubmitted == old(health).ordersSubmitted
      ensures health.consecutiveErrors == old(health).consecutiveErrors
      ensures !old(stopRequested) ==> (stopRequested <==> CutShort(symbols, limits, world, index, c))
      ensures old(stopRequested) ==> stopRequested
      ensures OnlySignalled(old(health).stopReason, health.stopReason)
    {
      c := CycleResult(index, [], 0, 0, 0, false);
      if limits.requireMarketOpen && world.hasMarketClock {
        var answer := world.market(index);
        if answer.ClockFailed? {
          c := c.(errors := 1);
          return;
        }
        if answer.Closed? {
          c := c.(skipped := true);
          return;
        }
      }
      var i := 0;
      while i < |symbols|
        invariant 0 <= i <= |symbols|
        invariant c.symbols == symbols[..i]
        invariant c.decisions + c.errors <= i && c.ordersSubmitted <= c.decisions
        invariant c.ordersSubmitted == |world.Hits(index, i)| && c.decisions == |world.Decisions(index, i)|
        invariant c.errors == |world.Failures(index, i)| && c.index == index && !c.skipped
        invariant c.Ok() <==> forall j :: 0 <= j < i ==> !world.outcome(index, j).Raised?
        invariant health.cyclesCompleted == old(health).cyclesCompleted
        invariant health.ordersSubmitted == old(health).ordersSubmitted
        invariant health.consecutiveErrors == old(health).consecutiveErrors
        invariant stopRequested == old(stopRequested)
        invariant OnlySignalled(old(health).stopReason, health.stopReason)
      {
        if world.signalInCycle(index, i) {
          RequestStop(Signal);
        }
        if stopRequested {
          break;
        }
        c := c.(symbols := c.symbols + [symbols[i]]);
        world.CountStep(index, i);
        match world.outcome(index, i) {
          case Raised => c := c.(errors := c.errors + 1);
          case NoDecision =>
          case Decided(execution) =>
            c := c.(decisions := c.decisions + 1);
            if execution.Some? && (execution.value.SubmittedState? || execution.value.UnknownState?) {
              c := c.(ordersSubmitted := c.ordersSubmitted + 1);
            }
        }
        i := i + 1;
      }
    }

    /** The counters after a cycle. */
    method Account(c: CycleResult)
      requires limits.Valid() && c.ordersSubmitted <= |symbols|
      requires Valid()
      requires limits.maxCycles.Some? ==> |cycles| < limits.maxCycles.value
      requires limits.maxOrders.Some? ==> TotalOrders(cycles) < limits.maxOrders.value
      requires health.consecutiveErrors < limits.maxConsecutiveErrors
      modifies this`health, this`cycles, this`slept
      ensures cycles == old(cycles) + [c] && slept == old(slept) + [false]
      ensures health.stopReason == old(health).stopReason
      ensures Valid()
    {
      cycles := cycles + [c];
      assert cycles[..|cycles| - 1] == old(cycles);
      slept := slept + [false];
      assert slept[..|slept| - 1] == old(slept);
      health := health.(cyclesCompleted := health.cyclesCompleted + 1,
                        ordersSubmitted := health.ordersSubmitted + c.ordersSubmitted,
                        consecutiveErrors := if c.Ok() then 0 else health.consecutiveErrors + 1);
    }

    method Sleep()
      requires Valid() && slept != [] && !slept[|slept| - 1]
      modifies this`sleeps, this`slept
      ensures sleeps == old(sleeps) + 1
      ensures |slept| == |old(slept)| && slept[|slept| - 1] && slept[..|slept| - 1] == old(slept)[..|slept| - 1]
      ensures Valid()
    {
      sleeps := sleeps + 1;
      ghost var init := slept[..|slept| - 1];
      slept := init + [true];
      assert slept[..|slept| - 1] == init && old(slept)[..|slept| - 1] == init;
    }

    /** A cycle that no bound forbids, then the check that decides whether to sleep. */
    method CycleThenCheck(index: nat)
      requires Valid() && !stopRequested
      requires limits.maxCycles.Some? ==> |cycles| < limits.maxCycles.value
      requires limits.maxOrders.Some? ==> TotalOrders(cycles) < limits.maxOrders.value
      requires health.consecutiveErrors < limits.maxConsecutiveErrors
      modifies this
      ensures Valid() && checks == old(checks) + 1
      ensures |cycles| == |old(cycles)| + 1 && cycles[..|old(cycles)|] == old(cycles)
      ensures |slept| == |cycles| && slept[..|old(cycles)|] == old(slept)
      ensures stopRequested <==>
                world.signal(old(checks)) || CutShort(symbols, limits, world, index, cycles[|cycles| - 1])
      ensures slept[|cycles| - 1] <==> !BoundAt(limits, world, cycles, old(checks), stopRequested)
      ensures OnlySignalled(old(health).stopReason, health.stopReason)
    {
      var c := RunCycle(index);
      Account(c);
      CheckThenSleep();
    }

    /** The check after a cycle, and the sleep when it finds nothing. */
    method CheckThenSleep()
      requires Valid() && slept != [] && !slept[|slept| - 1]
      modifies this`stopRequested, this`health, this`checks, this`sleeps, this`slept
      ensures Valid() && checks == old(checks) + 1
      ensures stopRequested <==> old(stopRequested) || world.signal(old(checks))
      ensures |slept| == |old(slept)| && slept[..|slept| - 1] == old(slept)[..|slept| - 1]
      ensures slept[|slept| - 1] <==> !BoundAt(limits, world, cycles, old(checks), stopRequested)
      ensures OnlySignalled(old(health).stopReason, health.stopReason)
    {
      var after := StopNow();
      if after == NotStopped {
        Sleep();
      }
    }

    /** One pass of the loop: check the bounds, then a cycle unless one is hit. */
    method OnePass(index: nat) returns (stopped: bool)
      requires Valid()
      modifies this
      ensures Valid()
      ensures stopped <==> BoundAt(limits, world, old(cycles), old(checks),
                                     old(stopRequested) || world.signal(old(checks)))
      ensures stopped ==> cycles == old(cycles) && slept == old(slept)
                          && health.state.Stopped? && !health.stopReason.NotStopped?
                          && (old(health).stopReason.NotStopped? || old(health).stopReason.Signal? ==> Justified())
      ensures !stopped ==>
                && checks == old(checks) + 2
                && |cycles| == |old(cycles)| + 1 && cycles[..|old(cycles)|] == old(cycles)
                && |slept| == |cycles| && slept[..|old(cycles)|] == old(slept)
                && (stopRequested <==>
                      world.signal(checks - 1) || CutShort(symbols, limits, world, index, cycles[|cycles| - 1]))
                && (slept[|cycles| - 1] <==> !BoundAt(limits, world, cycles, checks - 1, stopRequested))
                && (old(health).stopReason.NotStopped? || old(health).stopReason.Signal? ==>
                      health.stopReason.NotStopped? || health.stopReason.Signal?)
    {
      var reason := StopNow();
      if reason != NotStopped {
        health := health.(stopReason := reason, state := Stopped);
        stopped := true;
      } else {
        CycleThenCheck(index);
        stopped := false;
      }
    }

    /** A reason that names one of the runtime's own counters is true of it. */
    ghost predicate Justified()
      reads this
    {
      && (health.stopReason.MaxCycles? ==> limits.maxCycles.Some? && |cycles| >= limits.maxCycles.value)
      && (health.stopReason.MaxOrders? ==> limits.maxOrders.Some? && TotalOrders(cycles) >= limits.maxOrders.value)
      && (health.stopReason.TooManyErrors? ==> TrailingFailures(cycles) >= limits.maxConsecutiveErrors)
    }

    /** Before the first pass of a first run. */
    ghost predicate NotYetRun()
      reads this
    {
      cycles == [] && checks == 0 && !stopRequested && health.stopReason.NotStopped?
    }

    /** Between passes of a first run: which checks were made, what they found, and where the loop slept. */
    ghost predicate InStep()
      reads this
    {
      && checks == 2 * |cycles| && |slept| == |cycles|
      && stopRequested == HeardAfter(symbols, limits, world, cycles)
      && (health.stopReason.NotStopped? || health.stopReason.Signal?)
      && History(symbols, limits, world, cycles, slept)
    }

    /** Runs at most `horizon` passes of the loop; `finished` says a bound stopped it within them. What holds
        for every horizon holds at every point of a run, terminating or not. */
    method Run(report: Option<RecoveryReport>, horizon: nat) returns (finished: bool)
      requires Valid()
      modifies this
      ensures Valid()
      ensures |old(cycles)| <= |cycles| && cycles[..|old(cycles)|] == old(cycles)
      ensures report.Some? && !report.value.SafeToTrade() ==>
                finished && cycles == old(cycles) && sleeps == old(sleeps)
                && health.state.Halted? && health.stopReason.UnsafeStart?
      ensures !(report.Some? && !report.value.SafeToTrade()) && finished ==>
                health.state.Stopped? && !health.stopReason.NotStopped?
      ensures limits.maxCycles.Some? && horizon > limits.maxCycles.value ==> finished
      ensures old(NotYetRun()) && !(report.Some? && !report.value.SafeToTrade()) ==>
                Ran(finished, horizon)
    {
      if report.Some? {
        health := health.(state := Recovering);
        if !report.value.SafeToTrade() {
          health := health.(state := Halted, stopReason := UnsafeStart);
          return true;
        }
      }
      health := health.(state := Running);
      finished := Loop(horizon);
    }

    /** What a first run leaves: it stopped at the first check before a cycle that found a bound, or ran out of
        passes; and it slept after exactly the cycles whose own check found none. */
    ghost predicate Ran(finished: bool, horizon: nat)
      reads this
    {
      && |slept| == |cycles|
      && History(symbols, limits, world, cycles, slept)
      && (finished ==> FoundBefore(symbols, limits, world, cycles) && Justified())
      && (!finished ==> |cycles| == horizon)
    }

    method Loop(horizon: nat) returns (finished: bool)
      requires Valid()
      modifies this
      ensures Valid()
      ensures |old(cycles)| <= |cycles| && cycles[..|old(cycles)|] == old(cycles)
      ensures finished ==> health.state.Stopped? && !health.stopReason.NotStopped?
      ensures limits.maxCycles.Some? && horizon > limits.maxCycles.value ==> finished
      ensures old(NotYetRun()) ==> Ran(finished, horizon)
    {
      finished := false;
      var pass := 0;
      ghost var start, first := cycles, NotYetRun();
      while pass < horizon
        invariant Valid()
        invariant pass <= horizon && |cycles| == |start| + pass && cycles[..|start|] == start
        invariant first ==> start == [] && InStep()
      {
        ghost var before, sleptBefore := cycles, slept;
        finished := OnePass(pass + 1);
        if finished {
          return;
        }
        assert cycles[..|start|] == before[..|start|];
        if first {
          HistoryGrows(symbols, limits, world, before, sleptBefore, cycles, slept);
        }
        pass := pass + 1;
      }
    }
  }

  /** No check before a cycle found a bound, and the loop slept after a cycle exactly when the check after it
      found none. */
  ghost predicate History(symbols: seq<string>, l: RuntimeLimits, w: World,
                          cycles: seq<CycleResult>, slept: seq<bool>) {
    |slept| == |cycles| && forall i :: 0 <= i < |cycles| ==> CycleHistory(symbols, l, w, cycles, slept, i)
  }

  ghost predicate CycleHistory(symbols: seq<string>, l: RuntimeLimits, w: World, cycles: seq<CycleResult>,
                               slept: seq<bool>, i: nat) {
    && i < |slept| == |cycles|
    && !FoundBefore(symbols, l, w, cycles[..i])
    && (slept[i] <==> !FoundAfter(symbols, l, w, cycles[..i + 1]))
  }

  lemma HistoryGrows(symbols: seq<string>, l: RuntimeLimits, w: World, cycles: seq<CycleResult>, slept: seq<bool>,
                     cycles': seq<CycleResult>, slept': seq<bool>)
    requires |slept| == |cycles| && |slept'| == |cycles'| == |cycles| + 1
    requires cycles'[..|cycles|] == cycles && slept'[..|cycles|] == slept
    requires History(symbols, l, w, cycles, slept) && !FoundBefore(symbols, l, w, cycles)
    requires slept'[|cycles|] <==> !FoundAfter(symbols, l, w, cycles')
    ensures History(symbols, l, w, cycles', slept')
  {
    forall i | 0 <= i < |cycles'|
      ensures CycleHistory(symbols, l, w, cycles', slept', i)
    {
      if i < |cycles| {
        assert CycleHistory(symbols, l, w, cycles, slept, i);
        assert cycles'[..i] == cycles[..i] && cycles'[..i + 1] == cycles[..i + 1];
        assert slept'[i] == slept'[..|cycles|][i];
      } else {
        assert cycles'[..i + 1] == cycles';
      }
    }
  }

  /** A run that sleeps after every cycle but the last sleeps once less than it cycles; one that also slept
      after the last, because the bound was hit during that sleep, sleeps exactly as often. */
  lemma {:induction false} SleepsOf(slept: seq<bool>)
    requires slept != [] && forall i :: 0 <= i < |slept| - 1 ==> slept[i]
    ensures CountSleeps(slept) == if slept[|slept| - 1] then |slept| else |slept| - 1
  {
    var init := slept[..|slept| - 1];
    if init != [] {
      SleepsOf(init);
    }
  }

  /** `consecutive_errors` is the length of the failed suffix: every cycle in it failed, the one before it did not. */
  lemma {:induction false} TrailingFailuresExact(cycles: seq<CycleResult>)
    ensures var k := TrailingFailures(cycles);
            && k <= |cycles|
            && (forall i :: |cycles| - k <= i < |cycles| ==> !cycles[i].Ok())
            && (k < |cycles| ==> cycles[|cycles| - k - 1].Ok())
  {
    if cycles != [] && !cycles[|cycles| - 1].Ok() {
      TrailingFailuresExact(cycles[..|cycles| - 1]);
    }
  }

  /** In a sticky world every cycle but the last was slept after. */
  lemma SleptBetween(symbols: seq<string>, l: RuntimeLimits, w: World, cycles: seq<CycleResult>, slept: seq<bool>)
    requires w.Sticky() && |slept| == |cycles| && History(symbols, l, w, cycles, slept)
    ensures forall i :: 0 <= i < |slept| - 1 ==> slept[i]
    ensures cycles != [] ==> (slept[|slept| - 1] <==> !FoundAfter(symbols, l, w, cycles))
  {
    forall i | 0 <= i < |slept| - 1
      ensures slept[i]
    {
      assert CycleHistory(symbols, l, w, cycles, slept, i) && CycleHistory(symbols, l, w, cycles, slept, i + 1);
      if FoundAfter(symbols, l, w, cycles[..i + 1]) {
        FoundStays(symbols, l, w, cycles[..i + 1]);
      }
    }
    if cycles != [] {
      assert CycleHistory(symbols, l, w, cycles, slept, |cycles| - 1);
      assert cycles[..|cycles|] == cycles;
    }
  }

  /** A first run. In every world it stops at the first check before a cycle that finds a bound. In a sticky world
      N cycles sleep N - 1 times exactly when the check after the N-th found a bound, and N times otherwise; a run
      that ends on one of its own counters sleeps N - 1 times. */
  method RunFresh(symbols: seq<string>, limits: RuntimeLimits, world: World, report: Option<RecoveryReport>,
                  horizon: nat)
    returns (r: AutonomousRuntime, finished: bool)
    requires symbols != [] && limits.Valid()
    ensures r.Valid() && r.limits == limits && r.symbols == symbols && r.world == world
    ensures if report.Some? && !report.value.SafeToTrade() then finished && r.cycles == [] else r.Ran(finished, horizon)
    ensures |r.cycles| == 0 ==> r.sleeps == 0
    ensures world.Sticky() && |r.cycles| > 0 ==>
              r.sleeps == if FoundAfter(symbols, limits, world, r.cycles) then |r.cycles| - 1 else |r.cycles|
    ensures world.Sticky() && |r.cycles| > 0 && finished
            && (r.health.stopReason.MaxCycles? || r.health.stopReason.MaxOrders?
                || r.health.stopReason.TooManyErrors?) ==>
              r.sleeps == |r.cycles| - 1
    ensures world.Sticky() && |r.cycles| > 0 && finished && world.Quiet() && limits.until.None? ==>
              r.sleeps == |r.cycles| - 1
  {
    r := new AutonomousRuntime(symbols, limits, world);
    finished := r.Run(report, horizon);
    if world.Sticky() && |r.cycles| > 0 {
      SleptBetween(symbols, limits, world, r.cycles, r.slept);
      SleepsOf(r.slept);
    }
  }

  /** A kill switch that appears during the n-th sleep. */
  function KilledAt(n: nat): World {
    World(k => k >= 2 * n, k => 0, k => false, (n, j) => false, n => MarketOpen, false, (n, j) => NoDecision)
  }

  function Unbounded(errors: int): RuntimeLimits {
    RuntimeLimits(60.0, None, None, errors, None, false)
  }

  /** Then n cycles sleep n times. */
  method KillDuringSleep(symbols: seq<string>, n: nat) returns (r: AutonomousRuntime, finished: bool)
    requires symbols != [] && n > 0
    ensures finished && |r.cycles| == n && r.sleeps == n
  {
    var w, l := KilledAt(n), Unbounded(n + 1);
    r, finished := RunFresh(symbols, l, w, None, n + 1);
    KilledAfterExactly(symbols, n, r.cycles, r.slept, finished);
  }

  lemma KilledAfterExactly(symbols: seq<string>, n: nat, cycles: seq<CycleResult>, slept: seq<bool>, finished: bool)
    requires n > 0 && |slept| == |cycles| && History(symbols, Unbounded(n + 1), KilledAt(n), cycles, slept)
    requires finished ==> FoundBefore(symbols, Unbounded(n + 1), KilledAt(n), cycles)
    requires !finished ==> |cycles| == n + 1
    ensures finished && |cycles| == n && !FoundAfter(symbols, Unbounded(n + 1), KilledAt(n), cycles)
    ensures KilledAt(n).Sticky()
  {
    var w, l := KilledAt(n), Unbounded(n + 1);
    TrailingFailuresExact(cycles);
    assert FoundBefore(symbols, l, w, cycles) <==> |cycles| >= n;
    if |cycles| > 0 {
      assert CycleHistory(symbols, l, w, cycles, slept, |cycles| - 1);
    }
  }
}
