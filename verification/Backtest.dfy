/** The walk-forward backtest: a strategy sees only the past, the first touched level decides each trade,
    and one trade at a time is held. */
module Backtest {
  import opened Outcomes
  import opened Market

  datatype Exit = Target | Stop | Unresolved

  datatype Trade = Trade(index: nat, direction: Direction, entry: real, stopLoss: real, takeProfit: real,
                         exit: Exit, barsHeld: nat, rMultiple: real, score: real)
  {
    predicate Resolved() {
      !exit.Unresolved?
    }
  }

  /** What the strategy and the snapshot builder make of a window: `None` covers no snapshot, an
      exception and no signal, which the walk treats alike. */
  type Strategy = seq<Bar> -> Option<Output>

  // ---------------------------------------------------------------- resolving one trade

  predicate HitsStop(b: Bar, d: Direction, stop: real) {
    if d.Buy? then b.l <= stop else b.h >= stop
  }

  predicate HitsTarget(b: Bar, d: Direction, target: real) {
    if d.Buy? then b.h >= target else b.l <= target
  }

  predicate Touches(b: Bar, o: Output) {
    HitsStop(b, o.direction, o.stopLoss) || HitsTarget(b, o.direction, o.takeProfit)
  }

  /** The first bar at or after `from` that touches either level, if any. */
  function FirstTouch(bars: seq<Bar>, from: nat, o: Output): (r: Option<nat>)
    requires from <= |bars|
    ensures r.Some? ==> from <= r.value < |bars| && Touches(bars[r.value], o)
                        && forall k :: from <= k < r.value ==> !Touches(bars[k], o)
    ensures r.None? ==> forall k :: from <= k < |bars| ==> !Touches(bars[k], o)
    decreases |bars| - from
  {
    if from == |bars| then None
    else if Touches(bars[from], o) then Some(from)
    else FirstTouch(bars, from + 1, o)
  }

  /** The exit and the bars held of a trade entered before bar `i`. An ambiguous bar is a stop. */
  function ResolveAt(bars: seq<Bar>, i: nat, o: Output): (Exit, nat)
    requires i <= |bars|
  {
    var touch := FirstTouch(bars, i, o);
    if touch.None? then (Unresolved, |bars| - i)
    else (if HitsStop(bars[touch.value], o.direction, o.stopLoss) then Stop else Target, touch.value - i + 1)
  }

  /** Walks the bars after `start` and reports the first level touched. */
  method Resolve(bars: seq<Bar>, start: nat, d: Direction, stop: real, target: real) returns (exit: Exit, held: nat)
    requires start < |bars|
    ensures exit.Unresolved? ==> held == |bars| - start - 1
    ensures !exit.Unresolved? ==> 1 <= held < |bars| - start
    ensures forall k :: start < k < |bars| && (exit.Unresolved? || k < start + held) ==>
              !HitsStop(bars[k], d, stop) && !HitsTarget(bars[k], d, target)
    ensures exit.Stop? ==> HitsStop(bars[start + held], d, stop)
    ensures exit.Target? ==> HitsTarget(bars[start + held], d, target) && !HitsStop(bars[start + held], d, stop)
  {
    var offset := 1;
    while start + offset < |bars|
      invariant 1 <= offset <= |bars| - start
      invariant forall k :: start < k < start + offset ==>
                  !HitsStop(bars[k], d, stop) && !HitsTarget(bars[k], d, target)
    {
      var bar := bars[start + offset];
      var hitStop, hitTarget;
      if d.Buy? {
        hitStop, hitTarget := bar.l <= stop, bar.h >= target;
      } else {
        hitStop, hitTarget := bar.h >= stop, bar.l <= target;
      }
      if hitStop { return Stop, offset; }
      if hitTarget { return Target, offset; }
      offset := offset + 1;
    }
    return Unresolved, |bars| - start - 1;
  }

  function RMultiple(o: Output, exit: Exit): real {
    var distance := Abs(o.entry - o.stopLoss);
    match exit
    case Target => if distance == 0.0 then 0.0 else Abs(o.takeProfit - o.entry) / distance
    case Stop => -1.0
    case Unresolved => 0.0
  }

  function TradeAt(bars: seq<Bar>, i: nat, o: Output): Trade
    requires i <= |bars|
  {
    var (exit, held) := ResolveAt(bars, i, o);
    Trade(i, o.direction, o.entry, o.stopLoss, o.takeProfit, exit, held, RMultiple(o, exit), o.baseScore)
  }

  // ---------------------------------------------------------------- the walk

  function Max(a: nat, b: nat): nat {
    if a < b then b else a
  }

  /** The trades found from position `i` on; `limit` further trades are allowed, `None` for no limit. */
  function Walk(bars: seq<Bar>, strategy: Strategy, i: nat, limit: Option<nat>): seq<Trade>
    requires limit.Some? ==> limit.value > 0
    decreases |bars| - i
  {
    if i >= |bars| then []
    else
      var signal := strategy(bars[..i]);
      if signal.None? then Walk(bars, strategy, i + 1, limit)
      else
        var t := TradeAt(bars, i, signal.value);
        if limit == Some(1) then [t]
        else [t] + Walk(bars, strategy, i + Max(t.barsHeld, 1), if limit.Some? then Some(limit.value - 1) else None)
  }

  datatype BacktestError = WarmupTooSmall | NegativeCost | TooFewBars

  datatype BacktestResult = BacktestResult(trades: seq<Trade>, barsTested: nat, costR: real)

  datatype Outcome = Failed(error: BacktestError) | Finished(result: BacktestResult)

  /** `max_trades`: nothing, or zero, sets no limit; a negative number stops after the first trade. */
  function LimitOf(maxTrades: Option<int>): (r: Option<nat>)
    ensures r.Some? ==> r.value > 0
  {
    if maxTrades.None? || maxTrades.value == 0 then None
    else if maxTrades.value < 0 then Some(1) else Some(maxTrades.value)
  }

  /** The trade a signal at position `i` becomes. */
  method SimulateTrade(bars: seq<Bar>, i: nat, o: Output) returns (t: Trade)
    requires 1 <= i < |bars|
    ensures t == TradeAt(bars, i, o)
  {
    var exit, held := Resolve(bars, i - 1, o.direction, o.stopLoss, o.takeProfit);
    ResolveMatches(bars, i, o, exit, held);
    var distance := Abs(o.entry - o.stopLoss);
    var reward := Abs(o.takeProfit - o.entry);
    var multiple := if exit.Target? then (if distance == 0.0 then 0.0 else reward / distance)
                    else if exit.Stop? then -1.0 else 0.0;
    t := Trade(i, o.direction, o.entry, o.stopLoss, o.takeProfit, exit, held, multiple, o.baseScore);
  }

  method RunBacktest(bars: seq<Bar>, strategy: Strategy, warmup: int, costR: real, maxTrades: Option<int>)
    returns (r: Outcome)
    ensures r == Failed(WarmupTooSmall) <==> warmup < 1
    ensures r == Failed(NegativeCost) <==> warmup >= 1 && costR < 0.0
    ensures r == Failed(TooFewBars) <==> warmup >= 1 && costR >= 0.0 && |bars| <= warmup
    ensures r.Finished? <==> warmup >= 1 && costR >= 0.0 && |bars| > warmup
    ensures r.Finished? ==>
              r.result == BacktestResult(Walk(bars, strategy, warmup, LimitOf(maxTrades)), |bars| - warmup, costR)
  {
    if warmup < 1 { return Failed(WarmupTooSmall); }
    if costR < 0.0 { return Failed(NegativeCost); }
    if |bars| <= warmup { return Failed(TooFewBars); }
    var trades := WalkForwardBars(bars, strategy, warmup, maxTrades);
    r := Finished(BacktestResult(trades, |bars| - warmup, costR));
  }

  /** The loop: each bar sees only its past, and a trade jumps past the bars it holds. */
  method WalkForwardBars(bars: seq<Bar>, strategy: Strategy, warmup: int, maxTrades: Option<int>)
    returns (trades: seq<Trade>)
    requires 1 <= warmup < |bars|
    ensures trades == Walk(bars, strategy, warmup, LimitOf(maxTrades))
  {
    trades := [];
    var i := warmup;
    ghost var all := Walk(bars, strategy, warmup, LimitOf(maxTrades));
    ghost var left := LimitOf(maxTrades);
    while i < |bars|
      invariant i >= warmup
      invariant left.Some? ==> left.value > 0
      invariant left.Some? == LimitOf(maxTrades).Some?
      invariant left.Some? ==> left.value + |trades| == LimitOf(maxTrades).value
      invariant all == trades + Walk(bars, strategy, i, left)
      decreases |bars| - i
    {
      var signal := strategy(bars[..i]);
      if signal.None? {
        i := i + 1;
        continue;
      }
      var t := SimulateTrade(bars, i, signal.value);
      ghost var before := trades;
      trades := trades + [t];
      if maxTrades.Some? && maxTrades.value != 0 && |trades| >= maxTrades.value {
        assert left == Some(1);
        break;
      }
      ghost var left' := if left.Some? then Some(left.value - 1) else None;
      Assoc(before, [t], Walk(bars, strategy, i + Max(t.barsHeld, 1), left'));
      left := left';
      i := i + Max(t.barsHeld, 1);
    }
  }

  /** The loop's answer and the first touch describe the same trade. */
  lemma ResolveMatches(bars: seq<Bar>, i: nat, o: Output, exit: Exit, held: nat)
    requires 1 <= i < |bars|
    requires exit.Unresolved? ==> held == |bars| - i
    requires !exit.Unresolved? ==> 1 <= held < |bars| - i + 1
    requires forall k :: i <= k < |bars| && (exit.Unresolved? || k < i - 1 + held) ==> !Touches(bars[k], o)
    requires exit.Stop? ==> HitsStop(bars[i - 1 + held], o.direction, o.stopLoss)
    requires exit.Target? ==> HitsTarget(bars[i - 1 + held], o.direction, o.takeProfit)
                              && !HitsStop(bars[i - 1 + held], o.direction, o.stopLoss)
    ensures ResolveAt(bars, i, o) == (exit, held)
  {
    var touch := FirstTouch(bars, i, o);
    if !exit.Unresolved? {
      assert Touches(bars[i - 1 + held], o);
    }
  }

  // ---------------------------------------------------------------- what every walk satisfies

  /** The bars a list of trades holds in all. */
  function TotalHeld(trades: seq<Trade>): nat {
    if trades == [] then 0 else trades[0].barsHeld + TotalHeld(trades[1..])
  }

  lemma {:induction false} HeldInRange(bars: seq<Bar>, i: nat, o: Output)
    requires i < |bars|
    ensures var t := TradeAt(bars, i, o);
            && 1 <= t.barsHeld <= |bars| - i
            && (t.exit.Unresolved? ==> t.barsHeld == |bars| - i)
  {
  }

  /** Every trade lies within bars `i` to `n`, and none starts before an earlier one is over. */
  predicate Spaced(ts: seq<Trade>, i: nat, n: nat) {
    && (forall k :: 0 <= k < |ts| ==> i <= ts[k].index && ts[k].index + ts[k].barsHeld <= n && ts[k].barsHeld >= 1)
    && (forall k, m :: 0 <= k < m < |ts| ==> ts[k].index + ts[k].barsHeld <= ts[m].index)
  }

  lemma SpacedCons(t: Trade, rest: seq<Trade>, i: nat, n: nat)
    requires i <= t.index && t.barsHeld >= 1 && t.index + t.barsHeld <= n && Spaced(rest, t.index + t.barsHeld, n)
    ensures Spaced([t] + rest, i, n)
  {
  }

  /** The same, trade by trade, with no more trades than asked for. */
  predicate Tidy(ts: seq<Trade>, i: nat, n: nat, limit: Option<nat>) {
    ts == [] ||
    (var t := ts[0];
     && i <= t.index && 1 <= t.barsHeld && t.index + t.barsHeld <= n && limit != Some(0)
     && Tidy(ts[1..], t.index + t.barsHeld, n, OneFewer(limit)))
  }

  lemma {:induction false} TidyMeans(ts: seq<Trade>, i: nat, n: nat, limit: Option<nat>)
    requires Tidy(ts, i, n, limit)
    ensures Spaced(ts, i, n)
    ensures i <= n ==> TotalHeld(ts) <= n - i
    ensures limit.Some? ==> |ts| <= limit.value
  {
    if ts != [] {
      var t := ts[0];
      TidyMeans(ts[1..], t.index + t.barsHeld, n, OneFewer(limit));
      SpacedCons(t, ts[1..], i, n);
      assert ts == [t] + ts[1..];
    }
  }

  lemma {:induction false} WalkTidy(bars: seq<Bar>, strategy: Strategy, i: nat, limit: Option<nat>)
    requires limit.Some? ==> limit.value > 0
    ensures Tidy(Walk(bars, strategy, i, limit), i, |bars|, limit)
    decreases |bars| - i
  {
    if i < |bars| {
      var signal := strategy(bars[..i]);
      if signal.None? {
        WalkTidy(bars, strategy, i + 1, limit);
      } else {
        var t := TradeAt(bars, i, signal.value);
        HeldInRange(bars, i, signal.value);
        WalkTakes(bars, strategy, i, limit);
        var rest := After(bars, strategy, i, limit, t);
        assert ([t] + rest)[1..] == rest;
        if limit != Some(1) {
          WalkTidy(bars, strategy, i + t.barsHeld, OneFewer(limit));
        }
      }
    }
  }

  /** Trades never overlap, and the bars they hold sum to no more than the bars tested. */
  lemma NoOverlap(bars: seq<Bar>, strategy: Strategy, i: nat, limit: Option<nat>)
    requires limit.Some? ==> limit.value > 0
    ensures var ts := Walk(bars, strategy, i, limit);
            && Spaced(ts, i, |bars|)
            && (i <= |bars| ==> TotalHeld(ts) <= |bars| - i)
            && (limit.Some? ==> |ts| <= limit.value)
  {
    WalkTidy(bars, strategy, i, limit);
    TidyMeans(Walk(bars, strategy, i, limit), i, |bars|, limit);
  }

  function OneFewer(limit: Option<nat>): Option<nat>
    requires limit != Some(0)
  {
    if limit.Some? then Some(limit.value - 1) else None
  }

  /** A limit cuts the trades of the unlimited run short and changes none of them. */
  lemma {:induction false} LimitTakesPrefix(bars: seq<Bar>, strategy: Strategy, i: nat, limit: nat)
    requires limit > 0
    ensures var all := Walk(bars, strategy, i, None);
            Walk(bars, strategy, i, Some(limit)) == all[..if limit < |all| then limit else |all|]
    decreases |bars| - i
  {
    if i < |bars| {
      var signal := strategy(bars[..i]);
      if signal.None? {
        LimitTakesPrefix(bars, strategy, i + 1, limit);
      } else {
        var t := TradeAt(bars, i, signal.value);
        HeldInRange(bars, i, signal.value);
        WalkTakes(bars, strategy, i, None);
        WalkTakes(bars, strategy, i, Some(limit));
        var rest := After(bars, strategy, i, None, t);
        if limit == 1 {
          assert ([t] + rest)[..1] == [t] + [];
        } else {
          LimitTakesPrefix(bars, strategy, i + t.barsHeld, limit - 1);
        }
      }
    }
  }

  ghost predicate OnlyLastOpen(ts: seq<Trade>) {
    forall k :: 0 <= k < |ts| - 1 ==> ts[k].Resolved()
  }

  /** At most one trade is unresolved, and it is the last. */
  lemma {:induction false} OnlyLastUnresolved(bars: seq<Bar>, strategy: Strategy, i: nat, limit: Option<nat>)
    requires limit.Some? ==> limit.value > 0
    ensures OnlyLastOpen(Walk(bars, strategy, i, limit))
    decreases |bars| - i
  {
    if i < |bars| {
      var signal := strategy(bars[..i]);
      if signal.None? {
        OnlyLastUnresolved(bars, strategy, i + 1, limit);
      } else if limit != Some(1) {
        var t := TradeAt(bars, i, signal.value);
        HeldInRange(bars, i, signal.value);
        var limit' := if limit.Some? then Some(limit.value - 1) else None;
        OnlyLastUnresolved(bars, strategy, i + t.barsHeld, limit');
        var rest := Walk(bars, strategy, i + t.barsHeld, limit');
        assert Walk(bars, strategy, i, limit) == [t] + rest;
        assert !t.Resolved() ==> rest == [];
      }
    }
  }

  predicate Covers(t: Trade, p: nat) {
    t.index <= p < t.index + t.barsHeld
  }

  /** `t` is the trade the strategy asked for on the bars before it. */
  predicate Signalled(bars: seq<Bar>, strategy: Strategy, t: Trade) {
    t.index < |bars| && strategy(bars[..t.index]).Some?
    && t == TradeAt(bars, t.index, strategy(bars[..t.index]).value)
  }

  /** The walk is complete and sound: every trade is the one its own past signals, and every position that
      signals is covered by a trade. */
  lemma {:induction false} EverySignalIsTaken(bars: seq<Bar>, strategy: Strategy, i: nat, p: nat)
    requires i <= p < |bars|
    ensures var ts := Walk(bars, strategy, i, None);
            && (forall t :: t in ts ==> Signalled(bars, strategy, t))
            && (strategy(bars[..p]).Some? ==> exists t :: t in ts && Covers(t, p))
    decreases |bars| - i
  {
    var signal := strategy(bars[..i]);
    if signal.None? {
      if i + 1 < |bars| {
        EverySignalIsTaken(bars, strategy, i + 1, Max(p, i + 1));
      }
    } else {
      var t := TradeAt(bars, i, signal.value);
      HeldInRange(bars, i, signal.value);
      var rest := Walk(bars, strategy, i + t.barsHeld, None);
      assert Walk(bars, strategy, i, None) == [t] + rest;
      assert t in [t] + rest;
      if i + t.barsHeld < |bars| {
        EverySignalIsTaken(bars, strategy, i + t.barsHeld, Max(p, i + t.barsHeld));
        assert forall u :: u in rest ==> u in [t] + rest;
      }
      assert p < i + t.barsHeld ==> Covers(t, p);
    }
  }

  lemma TradeIsSignalled(bars: seq<Bar>, strategy: Strategy, i: nat, limit: Option<nat>, t: Trade)
    requires (limit.Some? ==> limit.value > 0) && t in Walk(bars, strategy, i, limit)
    ensures i <= t.index && Signalled(bars, strategy, t)
  {
    NoOverlap(bars, strategy, i, limit);
    var k :| 0 <= k < |Walk(bars, strategy, i, limit)| && Walk(bars, strategy, i, limit)[k] == t;
    if limit.Some? {
      LimitTakesPrefix(bars, strategy, i, limit.value);
    }
    EverySignalIsTaken(bars, strategy, i, i);
  }

  /** Every trade of every walk carries the levels its signal asked for on the bars before it. A target earns as many R
      as it lies stop distances away from the entry, a stop loses one, and what is still open counts nothing. */
  lemma TradeReward(bars: seq<Bar>, strategy: Strategy, i: nat, limit: Option<nat>, t: Trade)
    requires (limit.Some? ==> limit.value > 0) && t in Walk(bars, strategy, i, limit)
    ensures t.index < |bars| && strategy(bars[..t.index])
              == Some(Output(t.direction, t.entry, t.stopLoss, t.takeProfit, t.score))
    ensures t.exit.Target? && t.entry != t.stopLoss ==>
              t.rMultiple * Abs(t.entry - t.stopLoss) == Abs(t.takeProfit - t.entry)
    ensures t.exit.Target? && t.entry == t.stopLoss ==> t.rMultiple == 0.0
    ensures t.exit.Stop? ==> t.rMultiple == -1.0
    ensures t.exit.Unresolved? ==> t.rMultiple == 0.0
  {
    TradeIsSignalled(bars, strategy, i, limit, t);
    RewardTimes(strategy(bars[..t.index]).value);
  }

  lemma RewardTimes(o: Output)
    ensures o.entry != o.stopLoss ==> RMultiple(o, Target) * Abs(o.entry - o.stopLoss) == Abs(o.takeProfit - o.entry)
    ensures o.entry == o.stopLoss ==> RMultiple(o, Target) == 0.0
  {
  }

  /** Every bar the trade held through lies strictly between stop and target; the last one touches the stop, or the
      target and not the stop, unless the series ends first. */
  lemma TradeExit(bars: seq<Bar>, strategy: Strategy, i: nat, limit: Option<nat>, t: Trade)
    requires (limit.Some? ==> limit.value > 0) && t in Walk(bars, strategy, i, limit)
    ensures t.barsHeld >= 1 && t.index + t.barsHeld <= |bars|
    ensures forall k :: t.index <= k < t.index + t.barsHeld - (if t.exit.Unresolved? then 0 else 1) ==>
              if t.direction.Buy? then t.stopLoss < bars[k].l && bars[k].h < t.takeProfit
              else t.takeProfit < bars[k].l && bars[k].h < t.stopLoss
    ensures t.exit.Unresolved? ==> t.index + t.barsHeld == |bars|
    ensures t.exit.Stop? ==>
              var b := bars[t.index + t.barsHeld - 1];
              if t.direction.Buy? then b.l <= t.stopLoss else b.h >= t.stopLoss
    ensures t.exit.Target? ==>
              var b := bars[t.index + t.barsHeld - 1];
              if t.direction.Buy? then b.h >= t.takeProfit && b.l > t.stopLoss
              else b.l <= t.takeProfit && b.h < t.stopLoss
  {
    TradeIsSignalled(bars, strategy, i, limit, t);
    HeldInRange(bars, t.index, strategy(bars[..t.index]).value);
  }

  /** `max_trades`: none or zero keeps every trade, a positive number that many of the first, a negative one the
      first. */
  lemma MaxTradesExactly(bars: seq<Bar>, strategy: Strategy, i: nat, maxTrades: Option<int>)
    ensures var all := Walk(bars, strategy, i, None);
            var most := if maxTrades.None? || maxTrades.value == 0 then |all|
                        else if maxTrades.value < 0 then 1 else maxTrades.value;
            Walk(bars, strategy, i, LimitOf(maxTrades)) == all[..if most < |all| then most else |all|]
  {
    if maxTrades.Some? && maxTrades.value != 0 {
      LimitTakesPrefix(bars, strategy, i, LimitOf(maxTrades).value);
    }
  }

  function ResolvedOf(ts: seq<Trade>): seq<Trade> {
    if ts == [] then []
    else if ts[0].Resolved() then [ts[0]] + ResolvedOf(ts[1..])
    else ResolvedOf(ts[1..])
  }

  /** A level touched inside the series is touched by the same bar of every longer series. */
  lemma {:induction false} TouchStays(bars: seq<Bar>, more: seq<Bar>, from: nat, o: Output)
    requires from <= |bars| && FirstTouch(bars, from, o).Some?
    ensures FirstTouch(bars + more, from, o) == FirstTouch(bars, from, o)
    decreases |bars| - from
  {
    if !Touches(bars[from], o) {
      TouchStays(bars, more, from + 1, o);
    }
  }

  /** The trades after the one taken at `i`. */
  function After(bars: seq<Bar>, strategy: Strategy, i: nat, limit: Option<nat>, t: Trade): seq<Trade>
    requires i < |bars| && (limit.Some? ==> limit.value > 0)
  {
    if limit == Some(1) then []
    else Walk(bars, strategy, i + Max(t.barsHeld, 1), if limit.Some? then Some(limit.value - 1) else None)
  }

  lemma WalkTakes(bars: seq<Bar>, strategy: Strategy, i: nat, limit: Option<nat>)
    requires i < |bars| && (limit.Some? ==> limit.value > 0) && strategy(bars[..i]).Some?
    ensures var t := TradeAt(bars, i, strategy(bars[..i]).value);
            && Walk(bars, strategy, i, limit) == [t] + After(bars, strategy, i, limit, t)
            && (!t.Resolved() ==> After(bars, strategy, i, limit, t) == [])
            && ResolvedOf(Walk(bars, strategy, i, limit)) ==
               (if t.Resolved() then [t] else []) + ResolvedOf(After(bars, strategy, i, limit, t))
  {
    var t := TradeAt(bars, i, strategy(bars[..i]).value);
    HeldInRange(bars, i, strategy(bars[..i]).value);
    var rest := After(bars, strategy, i, limit, t);
    assert ([t] + rest)[1..] == rest;
  }

  /** A trade resolved inside the series is the same trade in every longer series. */
  lemma TradeStays(bars: seq<Bar>, more: seq<Bar>, i: nat, o: Output)
    requires i < |bars| && TradeAt(bars, i, o).Resolved()
    ensures TradeAt(bars + more, i, o) == TradeAt(bars, i, o)
  {
    TouchStays(bars, more, i, o);
    var touch := FirstTouch(bars, i, o);
    assert (bars + more)[touch.value] == bars[touch.value];
  }

  /** The step at a position that signals, given the claim for the trades after it. */
  lemma TakenIsStable(bars: seq<Bar>, more: seq<Bar>, strategy: Strategy, i: nat, limit: Option<nat>)
    requires i < |bars| && (limit.Some? ==> limit.value > 0) && strategy(bars[..i]).Some?
    requires var t := TradeAt(bars, i, strategy(bars[..i]).value);
             t.Resolved() ==>
               ResolvedOf(After(bars, strategy, i, limit, t)) <= After(bars + more, strategy, i, limit, t)
    ensures ResolvedOf(Walk(bars, strategy, i, limit)) <= Walk(bars + more, strategy, i, limit)
  {
    var all := bars + more;
    assert all[..i] == bars[..i];
    var o := strategy(bars[..i]).value;
    var t := TradeAt(bars, i, o);
    WalkTakes(bars, strategy, i, limit);
    WalkTakes(all, strategy, i, limit);
    if t.Resolved() {
      TradeStays(bars, more, i, o);
    }
  }

  /** Appending bars never rewrites history: the resolved trades of a run are a prefix of the trades of the
      run over the longer series. */
  lemma {:induction false} HistoryIsStable(bars: seq<Bar>, more: seq<Bar>, strategy: Strategy, i: nat,
                                           limit: Option<nat>)
    requires limit.Some? ==> limit.value > 0
    ensures ResolvedOf(Walk(bars, strategy, i, limit)) <= Walk(bars + more, strategy, i, limit)
    decreases |bars| - i
  {
    if i < |bars| {
      assert (bars + more)[..i] == bars[..i];
      if strategy(bars[..i]).None? {
        HistoryIsStable(bars, more, strategy, i + 1, limit);
      } else {
        var t := TradeAt(bars, i, strategy(bars[..i]).value);
        if limit != Some(1) {
          HistoryIsStable(bars, more, strategy, i + Max(t.barsHeld, 1),
                          if limit.Some? then Some(limit.value - 1) else None);
        }
        TakenIsStable(bars, more, strategy, i, limit);
      }
    }
  }

  // ---------------------------------------------------------------- walk-forward windows

  datatype Window = Window(index: nat, start: nat, end: nat, result: BacktestResult)

  datatype WalkForward = TooFewWindows | TooFewTestable | WindowFailed(error: BacktestError)
    | Windows(windows: seq<Window>)

  /** Where the bars a window tests begin. */
  function TestedFrom(w: Window, warmup: nat): nat {
    w.start + warmup
  }

  /** Consecutive windows: each tests the bars right after the previous one, and together they test every bar
      from the warm-up to the end exactly once, with the trades of each window inside its own range. */
  method WalkForwardRun(bars: seq<Bar>, strategy: Strategy, warmup: int, windows: int, costR: real)
    returns (r: WalkForward)
    ensures r.TooFewWindows? <==> windows < 2
    ensures r.TooFewTestable? <==> windows >= 2 && |bars| - warmup < windows
    ensures r.WindowFailed? <==> windows >= 2 && |bars| - warmup >= windows && (warmup < 1 || costR < 0.0)
    ensures r.Windows? ==>
              var ws := r.windows;
              && |ws| == windows
              && TestedFrom(ws[0], warmup) == warmup && ws[|ws| - 1].end == |bars|
              && (forall k :: 0 <= k < |ws| - 1 ==> TestedFrom(ws[k + 1], warmup) == ws[k].end)
              && (forall k :: 0 <= k < |ws| ==>
                    && ws[k].index == k && TestedFrom(ws[k], warmup) < ws[k].end <= |bars|
                    && ws[k].result.barsTested == ws[k].end - TestedFrom(ws[k], warmup)
                    && ws[k].result.costR == costR
                    && (k < windows - 1 ==> ws[k].result.barsTested == (|bars| - warmup) / windows)
                    && ws[k].result.trades == Walk(bars[ws[k].start..ws[k].end], strategy, warmup, None))
  {
    if windows < 2 { return TooFewWindows; }
    var testable := |bars| - warmup;
    if testable < windows { return TooFewTestable; }
    var size := testable / windows;
    if warmup < 1 { return WindowFailed(WarmupTooSmall); }
    SizeFits(testable, windows);
    var out: seq<Window> := [];
    for w := 0 to windows
      invariant |out| == w
      invariant w > 0 ==> costR >= 0.0
      invariant forall k :: 0 <= k < w ==>
                  && out[k].index == k && out[k].start == k * size
                  && out[k].end == (if k == windows - 1 then |bars| else warmup + (k + 1) * size)
                  && out[k].start + warmup < out[k].end <= |bars|
                  && out[k].result.barsTested == out[k].end - TestedFrom(out[k], warmup)
                  && out[k].result.costR == costR
                  && (k < windows - 1 ==> out[k].result.barsTested == size)
                  && out[k].result.trades == Walk(bars[out[k].start..out[k].end], strategy, warmup, None)
    {
      WindowFits(testable, windows, size, w);
      var start := w * size;
      var end := if w == windows - 1 then |bars| else warmup + (w + 1) * size;
      var segment := bars[start..end];
      var run := RunBacktest(segment, strategy, warmup, costR, None);
      if run.Failed? {
        return WindowFailed(run.error);
      }
      out := out + [Window(w, start, end, run.result)];
    }
    r := Windows(out);
  }

  lemma SizeFits(testable: int, windows: int)
    requires 2 <= windows <= testable
    ensures testable / windows >= 1 && windows * (testable / windows) <= testable
  {
  }

  lemma WindowFits(testable: int, windows: int, size: int, w: int)
    requires 0 <= w < windows && size >= 1 && windows * size <= testable
    ensures 0 <= w * size && (w + 1) * size == w * size + size && (w + 1) * size <= testable
  {
    assert (w + 1) * size <= windows * size;
  }
}
