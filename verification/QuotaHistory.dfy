/**
 * What a rung's status is, as a function of everything that was ever done to it: no row, day key or counter is
 * mentioned (backend/app/infrastructure/llm/quota.py).
 */
module QuotaHistory {
  import opened Common
  import opened Quota
  import opened Router

  /** Why and until when a rung is out: to the end of a quota day, or until a moment. */
  datatype Bench = NoBench | RestOfDay(day: int) | Until(end: Time, why: Decision)

  predicate Touches(op: Op, name: string) {
    match op
    case Clear(n) => n == name
    case Reset(n) => n == name
    case _ => op.spec.name == name
  }

  /** Has a moment: clearing a bench and resetting counters do not ask the clock. */
  predicate Timed(op: Op) { !op.Clear? && !op.Reset? }

  /** What was done to this rung was done in the order of the clock, by `now`, and on the rung's own calendar. */
  ghost predicate Timely(ops: seq<Op>, spec: Spec, now: Time)
    decreases |ops|
  {
    ops == [] ||
      (var op, front := ops[|ops| - 1], ops[..|ops| - 1];
       if Timed(op) && Touches(op, spec.name)
       then op.spec.utcOffset == spec.utcOffset && op.at <= now && Timely(front, spec, op.at)
       else Timely(front, spec, now))
  }

  function BenchAfter(c: Config, ops: seq<Op>, spec: Spec): Bench
    requires Sensible(c)
    decreases |ops|
  {
    if ops == [] then NoBench
    else
      var op, before := ops[|ops| - 1], BenchAfter(c, ops[..|ops| - 1], spec);
      if !Touches(op, spec.name) then before
      else
        match op
        case Clear(_) => NoBench
        case Succeed(_, _) => if before.Until? && before.why == Transient then NoBench else before
        case Fail(_, decision, at) =>
          (match decision
           case QuotaSpent => RestOfDay(DayKey(spec, at))
           case Misconfigured => Until(at + c.misconfiguredBench, Misconfigured)
           case RetryLater => before
           case Transient =>
             var n := Streak(ops, spec.name);
             if n < c.benchAfter then before else Until(at + Cooldown(c, n), Transient))
        case _ => before
  }

  predicate IsOut(bench: Bench, spec: Spec, now: Time) {
    match bench
    case NoBench => false
    case RestOfDay(day) => DayKey(spec, now) == day
    case Until(end, _) => now < end
  }

  /** Attempts on one quota day since the counters were last reset by hand. */
  function RequestsOn(ops: seq<Op>, spec: Spec, day: int): nat
    decreases |ops|
  {
    if ops == [] then 0
    else
      var op, before := ops[|ops| - 1], RequestsOn(ops[..|ops| - 1], spec, day);
      if op == Reset(spec.name) then 0
      else if op.Dial? && op.spec.name == spec.name && DayKey(spec, op.at) == day then before + 1
      else before
  }

  /** And tokens. */
  function TokensOn(ops: seq<Op>, spec: Spec, day: int): nat
    decreases |ops|
  {
    if ops == [] then 0
    else
      var op, before := ops[|ops| - 1], TokensOn(ops[..|ops| - 1], spec, day);
      if op == Reset(spec.name) then 0
      else if op.Bill? && op.spec.name == spec.name && DayKey(spec, op.at) == day then before + op.tokens
      else before
  }

  /** When the rung last asked to be left alone for a while. */
  function LastThrottle(ops: seq<Op>, name: string): Time
    decreases |ops|
  {
    if ops == [] then 0
    else
      var op := ops[|ops| - 1];
      if op.Fail? && op.spec.name == name && op.decision == RetryLater then op.at
      else LastThrottle(ops[..|ops| - 1], name)
  }

  /** Who last answered on a lane. */
  function LastServed(ops: seq<Op>, lane: string): Option<string>
    decreases |ops|
  {
    if ops == [] then None
    else
      var op := ops[|ops| - 1];
      if op.Succeed? && op.spec.lane == lane then Some(op.spec.name) else LastServed(ops[..|ops| - 1], lane)
  }

  predicate FitsToday(ops: seq<Op>, spec: Spec, day: int) {
    && (spec.requestLimit.Some? ==> RequestsOn(ops, spec, day) < spec.requestLimit.value)
    && (spec.tokenLimit.Some? ==> TokensOn(ops, spec, day) < spec.tokenLimit.value)
  }

  function StatusByHistory(c: Config, ops: seq<Op>, spec: Spec, now: Time): Status
    requires Sensible(c)
  {
    var bench := BenchAfter(c, ops, spec);
    if !spec.available then Unavailable
    else if IsOut(bench, spec, now) then
      (if bench.RestOfDay? then Spent else if bench.why == Misconfigured then Broken else Failing)
    else if !FitsToday(ops, spec, DayKey(spec, now)) then Spent
    else if now - LastThrottle(ops, spec.name) < c.throttleDisplay then Throttled
    else if LastServed(ops, spec.lane) == Some(spec.name) then Active
    else Ready
  }

  // ------------------------------------------------------------------ the row is the history

  const START: Book := Book(map[], map[], [])

  /** What the row looks like at `now`, if it is looked up. */
  ghost predicate Agrees(c: Config, b: Book, ops: seq<Op>, spec: Spec, now: Time)
    requires Sensible(c)
  {
    var s, day := Row(b, spec, now), DayKey(spec, now);
    && s.requests == RequestsOn(ops, spec, day) && s.tokens == TokensOn(ops, spec, day)
    && s.lastThrottleAt == LastThrottle(ops, spec.name)
    && (spec.lane in b.active <==> LastServed(ops, spec.lane).Some?)
    && (spec.lane in b.active ==> LastServed(ops, spec.lane) == Some(b.active[spec.lane]))
    && BenchAgrees(s, BenchAfter(c, ops, spec), spec, now)
  }

  ghost predicate BenchAgrees(s: TierState, bench: Bench, spec: Spec, now: Time) {
    match bench
    case NoBench => s.benchUntil == 0 && s.benchReason == None
    case RestOfDay(day) =>
      if DayKey(spec, now) == day then s.benchUntil == NextRollover(spec, now) && s.benchReason == Some(QuotaSpent)
      else DayKey(spec, now) > day && s.benchUntil == 0 && s.benchReason == None
    case Until(end, why) => s.benchUntil == end && s.benchReason == Some(why) && why != QuotaSpent
  }

  /** Days that have not come yet have nothing on them. */
  lemma {:induction false} NothingAhead(ops: seq<Op>, spec: Spec, now: Time, day: int)
    requires Timely(ops, spec, now) && day > DayKey(spec, now)
    ensures RequestsOn(ops, spec, day) == 0 && TokensOn(ops, spec, day) == 0
    decreases |ops|
  {
    if ops != [] {
      var op, front := ops[|ops| - 1], ops[..|ops| - 1];
      if Timed(op) && Touches(op, spec.name) {
        assert DayKey(spec, op.at) <= DayKey(spec, now);
        NothingAhead(front, spec, op.at, day);
      } else {
        NothingAhead(front, spec, now, day);
      }
    }
  }

  /** Time passing: the row that agreed earlier agrees now. */
  lemma {:induction false} AgreesLater(c: Config, b: Book, ops: seq<Op>, spec: Spec, before: Time, now: Time)
    requires Sensible(c) && Timely(ops, spec, before) && before <= now
    requires Agrees(c, b, ops, spec, before) && HonestDay(b, spec, before)
    ensures Agrees(c, b, ops, spec, now) && HonestDay(b, spec, now)
  {
    hide BenchAfter, RequestsOn, TokensOn, LastThrottle, LastServed;
    assert DayKey(spec, before) <= DayKey(spec, now);
    if DayKey(spec, before) < DayKey(spec, now) {
      NothingAheadLater(ops, spec, before, now);
    } else {
      SameDaySameRollover(spec, before, now);
    }
  }

  lemma SameDaySameRollover(spec: Spec, before: Time, now: Time)
    requires DayKey(spec, before) == DayKey(spec, now)
    ensures NextRollover(spec, before) == NextRollover(spec, now)
  {
  }

  lemma {:induction false} NothingAheadLater(ops: seq<Op>, spec: Spec, before: Time, now: Time)
    requires Timely(ops, spec, before) && DayKey(spec, before) < DayKey(spec, now)
    ensures RequestsOn(ops, spec, DayKey(spec, now)) == 0 && TokensOn(ops, spec, DayKey(spec, now)) == 0
  {
    NothingAhead(ops, spec, before, DayKey(spec, now));
  }

  /** The history has just grown by one operation on this rung, done now if it is done at any moment. */
  ghost predicate OneMore(c: Config, b: Book, ops: seq<Op>, op: Op, spec: Spec, now: Time)
    requires Sensible(c)
  {
    && ops != [] && ops[|ops| - 1] == op && Touches(op, spec.name)
    && (Timed(op) ==> op.at == now && op.spec.utcOffset == spec.utcOffset)
    && Agrees(c, b, ops[..|ops| - 1], spec, now) && HonestDay(b, spec, now)
  }

  lemma {:induction false} CountsAgree(c: Config, b: Book, ops: seq<Op>, op: Op, spec: Spec, now: Time)
    requires Sensible(c) && OneMore(c, b, ops, op, spec, now)
    ensures var s, day := Row(Apply(c, b, op), spec, now), DayKey(spec, now);
            s.requests == RequestsOn(ops, spec, day) && s.tokens == TokensOn(ops, spec, day)
    ensures HonestDay(Apply(c, b, op), spec, now)
  {
    hide BenchAfter, BenchAgrees, LastServed, LastThrottle, Cooldown;
  }

  lemma {:induction false} ThrottleAgrees(c: Config, b: Book, ops: seq<Op>, op: Op, spec: Spec, now: Time)
    requires Sensible(c) && OneMore(c, b, ops, op, spec, now)
    ensures Row(Apply(c, b, op), spec, now).lastThrottleAt == LastThrottle(ops, spec.name)
  {
    hide BenchAfter, BenchAgrees, LastServed, RequestsOn, TokensOn, Cooldown;
  }

  /** Whoever answered last on the lane, whichever rung the operation was on. */
  lemma {:induction false} ActiveAgrees(c: Config, ops: seq<Op>, lane: string)
    ensures var b := ApplyAll(c, START, ops);
            && (lane in b.active <==> LastServed(ops, lane).Some?)
            && (lane in b.active ==> LastServed(ops, lane) == Some(b.active[lane]))
    decreases |ops|
  {
    hide Cooldown;
    if ops != [] { ActiveAgrees(c, ops[..|ops| - 1], lane); }
  }

  lemma {:induction false} FailureBenchAgrees(c: Config, b: Book, ops: seq<Op>, op: Op, spec: Spec, now: Time)
    requires Sensible(c) && OneMore(c, b, ops, op, spec, now) && op.Fail?
    requires StreakIn(b, spec.name) == Streak(ops[..|ops| - 1], spec.name) && CooldownLaws(c, b)
    ensures BenchAgrees(Row(Apply(c, b, op), spec, now), BenchAfter(c, ops, spec), spec, now)
  {
    hide LastServed, RequestsOn, TokensOn, LastThrottle, Cooldown;
    if op.decision == Transient { TransientFailure(c, b, op.spec, op.at); }
  }

  lemma {:induction false} OtherBenchAgrees(c: Config, b: Book, ops: seq<Op>, op: Op, spec: Spec, now: Time)
    requires Sensible(c) && OneMore(c, b, ops, op, spec, now) && !op.Fail?
    ensures BenchAgrees(Row(Apply(c, b, op), spec, now), BenchAfter(c, ops, spec), spec, now)
  {
    hide LastServed, RequestsOn, TokensOn, LastThrottle, Cooldown;
  }

  /** What is done to another rung leaves this one's row alone. */
  lemma OthersKeepRow(c: Config, b: Book, op: Op, spec: Spec, now: Time)
    requires !Touches(op, spec.name)
    ensures Row(Apply(c, b, op), spec, now) == Row(b, spec, now)
    ensures HonestDay(b, spec, now) ==> HonestDay(Apply(c, b, op), spec, now)
  {
    hide Failed, NextRollover;
  }

  /** And its history. */
  lemma {:induction false} OthersKeepHistory(c: Config, ops: seq<Op>, spec: Spec, day: int)
    requires Sensible(c) && ops != [] && !Touches(ops[|ops| - 1], spec.name)
    ensures BenchAfter(c, ops, spec) == BenchAfter(c, ops[..|ops| - 1], spec)
    ensures RequestsOn(ops, spec, day) == RequestsOn(ops[..|ops| - 1], spec, day)
    ensures TokensOn(ops, spec, day) == TokensOn(ops[..|ops| - 1], spec, day)
    ensures LastThrottle(ops, spec.name) == LastThrottle(ops[..|ops| - 1], spec.name)
  {
    hide Cooldown;
  }

  /** After any history in the order of the clock, the rung's row is what the history says. */
  lemma {:induction false} RowIsHistory(c: Config, ops: seq<Op>, spec: Spec, now: Time)
    requires Sensible(c) && Timely(ops, spec, now)
    ensures Agrees(c, ApplyAll(c, START, ops), ops, spec, now) && HonestDay(ApplyAll(c, START, ops), spec, now)
    decreases |ops|
  {
    hide Row, BenchAgrees, BenchAfter, RequestsOn, TokensOn, LastThrottle, LastServed, HonestDay;
    if ops == [] {
      NothingAgrees(c, spec, now);
    } else {
      var op, front := ops[|ops| - 1], ops[..|ops| - 1];
      var b := ApplyAll(c, START, front);
      ActiveAgrees(c, ops, spec.lane);
      StreakIsHistory(c, START, front, spec.name);
      if Touches(op, spec.name) {
        var at := if Timed(op) then op.at else now;
        RowIsHistory(c, front, spec, at);
        CountsAgree(c, b, ops, op, spec, at);
        ThrottleAgrees(c, b, ops, op, spec, at);
        if op.Fail? { FailureBenchAgrees(c, b, ops, op, spec, at); } else { OtherBenchAgrees(c, b, ops, op, spec, at); }
        AgreesLater(c, ApplyAll(c, START, ops), ops, spec, at, now);
      } else {
        RowIsHistory(c, front, spec, now);
        OthersKeepRow(c, b, op, spec, now);
        OthersKeepHistory(c, ops, spec, DayKey(spec, now));
      }
    }
  }

  lemma NothingAgrees(c: Config, spec: Spec, now: Time)
    requires Sensible(c)
    ensures Agrees(c, START, [], spec, now) && HonestDay(START, spec, now)
  {
  }

  /**
   * The status a caller is told after any history is the one the history gives: out for as long as its last bench
   * lasts, spent when today's requests or tokens are, and otherwise in service.
   */
  lemma {:induction false} StatusIsHistory(c: Config, ops: seq<Op>, spec: Spec, now: Time)
    requires Sensible(c) && Timely(ops, spec, now) && now >= 0
    ensures StatusOf(c, ApplyAll(c, START, ops), spec, now) == StatusByHistory(c, ops, spec, now)
  {
    hide BenchAfter, RequestsOn, TokensOn, LastThrottle, LastServed;
    RowIsHistory(c, ops, spec, now);
    RolloverIsTheNextBoundary(spec, now);
  }

  // ------------------------------------------------------------------ one bench

  /**
   * A failure that promises a time to wait for keeps the rung out of service until exactly then; and from then on, if
   * nothing more is heard of it, only a spent budget does.
   */
  lemma BenchHoldsExactly(c: Config, b: Book, spec: Spec, decision: Decision, now: Time, later: Time)
    requires spec.available && 0 <= now <= later && ClearsAt(c, b, spec, decision, now).Some?
    ensures var t, end := NoteFailure(c, b, spec, decision, now), ClearsAt(c, b, spec, decision, now).value;
            && (later < end ==> !MayServe(StatusOf(c, t, spec, later)))
            && (later >= end ==> (MayServe(StatusOf(c, t, spec, later)) <==> !BudgetSpent(spec, Row(t, spec, later))))
    ensures decision == QuotaSpent ==> ClearsAt(c, b, spec, decision, now) == Some(NextRollover(spec, now))
    ensures decision == Misconfigured ==> ClearsAt(c, b, spec, decision, now) == Some(now + c.misconfiguredBench)
  {
    RolloverIsTheNextBoundary(spec, now);
  }

  /** Every failure but a throttle, and a transient one below the threshold, promises such a time. */
  lemma BenchedExactly(c: Config, b: Book, spec: Spec, decision: Decision, now: Time)
    ensures ClearsAt(c, b, spec, decision, now).Some? <==>
              || decision == QuotaSpent || decision == Misconfigured
              || (decision == Transient && StreakIn(b, spec.name) + 1 >= c.benchAfter)
  {
  }

  /** Clearing a rung by hand puts it back in service at once, and so does its own success after a transient failure. */
  lemma FreedAtOnce(c: Config, b: Book, spec: Spec, now: Time)
    requires spec.available && now >= 0 && spec.name in b.tiers
    ensures var t := ClearBench(b, spec.name);
            MayServe(StatusOf(c, t, spec, now)) <==> !BudgetSpent(spec, Row(b, spec, now))
    ensures b.tiers[spec.name].benchReason == Some(Transient) ==>
              var t := NoteSuccess(b, spec, now);
              MayServe(StatusOf(c, t, spec, now)) <==> !BudgetSpent(spec, Row(b, spec, now))
  {
  }

  // ------------------------------------------------------------------ the walk

  /** A call tries exactly the rungs that, by their history, are neither out nor out of budget. */
  lemma TriedByHistory(c: Config, ops: seq<Op>, chain: seq<Spec>, clock: nat -> Time, j: nat)
    requires Sensible(c) && j < |chain| && DistinctNames(chain)
    requires Timely(ops, chain[j], clock(j)) && clock(j) >= 0
    ensures var bench := BenchAfter(c, ops, chain[j]);
            chain[j] in Eligible(c, ApplyAll(c, START, ops), chain, clock, 0).1 <==>
              && chain[j].available && !IsOut(bench, chain[j], clock(j))
              && FitsToday(ops, chain[j], DayKey(chain[j], clock(j)))
  {
    StatusIsHistory(c, ops, chain[j], clock(j));
    EligibleExactly(c, ApplyAll(c, START, ops), chain, clock, 0, j);
  }

  lemma {:induction false} DialledIsListed(specs: seq<Spec>, w: World, i: nat, name: string) returns (k: nat)
    requires i <= |specs| && name in Dialled(specs, w, i)
    ensures i <= k < |specs| && specs[k].name == name
    decreases |specs| - i
  {
    if Dials(specs, w, i) && specs[i].name == name { k := i; } else { k := DialledIsListed(specs, w, i + 1, name); }
  }

  /** So while a rung is out nobody dials it, whatever the call meets. */
  lemma OutIsNotDialled(c: Config, ops: seq<Op>, chain: seq<Spec>, clock: nat -> Time, j: nat, w: World)
    requires Sensible(c) && j < |chain| && DistinctNames(chain)
    requires Timely(ops, chain[j], clock(j)) && clock(j) >= 0
    requires IsOut(BenchAfter(c, ops, chain[j]), chain[j], clock(j))
    ensures chain[j].name !in Dialled(Eligible(c, ApplyAll(c, START, ops), chain, clock, 0).1, w, 0)
  {
    hide Eligible, BenchAfter, IsOut;
    TriedByHistory(c, ops, chain, clock, j);
    var b := ApplyAll(c, START, ops);
    var specs := Eligible(c, b, chain, clock, 0).1;
    if chain[j].name in Dialled(specs, w, 0) {
      var k := DialledIsListed(specs, w, 0, chain[j].name);
      var n := EligibleAreLater(c, b, chain, clock, 0, specs[k]);
    }
  }

  // ------------------------------------------------------------------ calls are history

  lemma {:induction false} ApplyConcat(c: Config, b: Book, first: seq<Op>, rest: seq<Op>)
    ensures ApplyAll(c, b, first + rest) == ApplyAll(c, ApplyAll(c, b, first), rest)
    decreases |rest|
  {
    if rest == [] {
      assert first + rest == first;
    } else {
      assert (first + rest)[..|first + rest| - 1] == first + rest[..|rest| - 1];
      ApplyConcat(c, b, first, rest[..|rest| - 1]);
    }
  }

  lemma ApplyOne(c: Config, b: Book, first: seq<Op>, op: Op)
    ensures ApplyAll(c, b, first + [op]) == Apply(c, ApplyAll(c, b, first), op)
  {
    assert (first + [op])[..|first|] == first;
  }

  /** What a dialled rung's turn does to the ledger, one operation after another; a report looks the row up twice. */
  function TurnOps(spec: Spec, w: World, i: nat): seq<Op> {
    [Dial(spec, w.attemptAt(i)), Bill(spec, w.tokens(i), w.usageAt(i))] +
    match w.outcome(i)
    case Answered => [Succeed(spec, w.settledAt(i))]
    case Cancelled => []
    case Broke(d) => FailureOps(spec, d, w, i)
    case Lost(d) => FailureOps(spec, d, w, i)
  }

  function FailureOps(spec: Spec, d: Decision, w: World, i: nat): seq<Op> {
    [Fail(spec, d, w.settledAt(i))] +
    (if d == Transient then [Look(spec, w.reportAt(i)), Look(spec.(available := true), w.reportAt(i))] else [])
  }

  ghost function WalkOps(specs: seq<Spec>, w: World, i: nat): seq<Op>
    requires i <= |specs|
    decreases |specs| - i
  {
    if i == |specs| then []
    else (if Dials(specs, w, i) then TurnOps(specs[i], w, i) else []) + WalkOps(specs, w, i + 1)
  }

  function LookOps(chain: seq<Spec>, clock: nat -> Time, i: nat): seq<Op>
    requires i <= |chain|
    decreases |chain| - i
  {
    if i == |chain| then [] else [Look(chain[i], clock(i))] + LookOps(chain, clock, i + 1)
  }

  /** What one call does to the ledger: it looks at every rung, and then the dialled ones have their turns. */
  ghost function CallOps(c: Config, b: Book, call: Call): seq<Op> {
    LookOps(call.chain, call.clock, 0) + WalkOps(Eligible(c, b, call.chain, call.clock, 0).1, call.world, 0)
  }

  lemma LookingIsByName(b: Book, spec: Spec, now: Time)
    ensures AfterStatus(b, spec.(available := true), now) == Touched(b, spec, now)
  {
  }

  lemma FailureIsOps(c: Config, b: Book, spec: Spec, d: Decision, w: World, i: nat)
    ensures ApplyAll(c, b, FailureOps(spec, d, w, i)) == AfterFailure(c, b, spec, d, w, i)
  {
    hide NoteFailure, Row;
    var fail, look := Fail(spec, d, w.settledAt(i)), Look(spec, w.reportAt(i));
    ApplyOne(c, b, [], fail);
    assert [] + [fail] == [fail];
    if d == Transient {
      ApplyOne(c, b, [fail], look);
      ApplyOne(c, b, [fail, look], Look(spec.(available := true), w.reportAt(i)));
      LookingIsByName(ApplyAll(c, b, [fail, look]), spec, w.reportAt(i));
      assert [fail] + [look] == [fail, look];
      assert FailureOps(spec, d, w, i) == [fail, look] + [Look(spec.(available := true), w.reportAt(i))];
    } else {
      assert FailureOps(spec, d, w, i) == [fail];
    }
  }

  lemma TurnIsOps(c: Config, b: Book, spec: Spec, w: World, i: nat)
    ensures ApplyAll(c, b, TurnOps(spec, w, i)) == AfterDial(c, b, spec, w, i)
  {
    hide NoteAttempt, NoteUsage, NoteSuccess, AfterFailure, FailureOps;
    var dial, bill := Dial(spec, w.attemptAt(i)), Bill(spec, w.tokens(i), w.usageAt(i));
    ApplyOne(c, b, [], dial);
    ApplyOne(c, b, [dial], bill);
    assert [] + [dial] == [dial] && [dial] + [bill] == [dial, bill];
    var dialled := ApplyAll(c, b, [dial, bill]);
    match w.outcome(i)
    case Answered => ApplyOne(c, b, [dial, bill], Succeed(spec, w.settledAt(i)));
    case Cancelled => assert TurnOps(spec, w, i) == [dial, bill];
    case Broke(d) =>
      ApplyConcat(c, b, [dial, bill], FailureOps(spec, d, w, i));
      FailureIsOps(c, dialled, spec, d, w, i);
    case Lost(d) =>
      ApplyConcat(c, b, [dial, bill], FailureOps(spec, d, w, i));
      FailureIsOps(c, dialled, spec, d, w, i);
  }

  lemma {:induction false} WalkIsOps(c: Config, b: Book, specs: seq<Spec>, w: World, i: nat, failures: nat)
    requires i <= |specs| && Reached(specs, w, i) && (failures > 0 <==> i > 0)
    ensures WalkFrom(c, b, specs, w, i, failures).book == ApplyAll(c, b, WalkOps(specs, w, i))
    decreases |specs| - i
  {
    hide WalkFrom, AfterDial, TurnOps;
    WalkStep(c, b, specs, w, i, failures);
    if i < |specs| {
      if !Tries(specs, w, i) {
        WalkIsOps(c, b, specs, w, i + 1, failures);
        assert [] + WalkOps(specs, w, i + 1) == WalkOps(specs, w, i + 1);
      } else {
        TurnIsOps(c, b, specs[i], w, i);
        if w.outcome(i).Lost? {
          ApplyConcat(c, b, TurnOps(specs[i], w, i), WalkOps(specs, w, i + 1));
          WalkIsOps(c, AfterDial(c, b, specs[i], w, i), specs, w, i + 1, failures + 1);
        } else {
          NothingAfterwards(specs, w, i, i + 1);
          assert TurnOps(specs[i], w, i) + [] == TurnOps(specs[i], w, i);
        }
      }
    }
  }

  lemma NothingAfterwards(specs: seq<Spec>, w: World, i: nat, j: nat)
    requires i < j <= |specs| && Tries(specs, w, i) && !w.outcome(i).Lost?
    ensures WalkOps(specs, w, j) == []
    decreases |specs| - j
  {
    if j < |specs| { NothingAfterwards(specs, w, i, j + 1); }
  }

  lemma {:induction false} LookingIsOps(c: Config, b: Book, chain: seq<Spec>, clock: nat -> Time, i: nat)
    requires i <= |chain|
    ensures Eligible(c, b, chain, clock, i).0 == ApplyAll(c, b, LookOps(chain, clock, i))
    decreases |chain| - i
  {
    hide AfterStatus, StatusOf;
    if i < |chain| {
      var look := Look(chain[i], clock(i));
      ApplyOne(c, b, [], look);
      assert [] + [look] == [look];
      ApplyConcat(c, b, [look], LookOps(chain, clock, i + 1));
      LookingIsOps(c, AfterStatus(b, chain[i], clock(i)), chain, clock, i + 1);
    }
  }

  /** Whatever a call meets, the ledger afterwards is the history with the call's operations at its end. */
  lemma CallsAreHistory(c: Config, ops: seq<Op>, call: Call)
    ensures Place(c, ApplyAll(c, START, ops), call).book
         == ApplyAll(c, START, ops + CallOps(c, ApplyAll(c, START, ops), call))
  {
    hide Eligible, WalkFrom, LookOps, WalkOps;
    var b := ApplyAll(c, START, ops);
    var (looked, specs) := Eligible(c, b, call.chain, call.clock, 0);
    var looks, turns := LookOps(call.chain, call.clock, 0), WalkOps(specs, call.world, 0);
    LookingIsOps(c, b, call.chain, call.clock, 0);
    TheFirstIsReached(specs, call.world);
    WalkIsOps(c, looked, specs, call.world, 0, 0);
    ApplyConcat(c, b, looks, turns);
    ApplyConcat(c, START, ops, looks + turns);
  }

  // ------------------------------------------------------------------ what a turn costs

  /** Neither counts anything nor clears the counters. */
  predicate IsFree(op: Op) { op.Succeed? || op.Fail? || op.Look? }

  lemma {:induction false} FreeOpsCostNothing(first: seq<Op>, rest: seq<Op>, spec: Spec, day: int)
    requires forall k :: 0 <= k < |rest| ==> IsFree(rest[k])
    ensures RequestsOn(first + rest, spec, day) == RequestsOn(first, spec, day)
    ensures TokensOn(first + rest, spec, day) == TokensOn(first, spec, day)
    decreases |rest|
  {
    if rest == [] {
      assert first + rest == first;
    } else {
      var last := |rest| - 1;
      assert (first + rest)[..|first + rest| - 1] == first + rest[..last];
      assert IsFree(rest[last]);
      FreeOpsCostNothing(first, rest[..last], spec, day);
    }
  }

  /**
   * A rung that is dialled in a streaming call spends one request, and the tokens it used unless the listener walked
   * away from it; each on the quota day it falls on, and whatever the stream came to.
   */
  lemma StreamsCostExactly(spec: Spec, w: World, streams: nat -> Stream, emptyAs: Decision, i: nat, day: int)
    ensures var ops := TurnOps(spec, AsWalk(w, streams, emptyAs), i);
            && RequestsOn(ops, spec, day) == (if DayKey(spec, w.attemptAt(i)) == day then 1 else 0)
            && TokensOn(ops, spec, day) ==
                 if DayKey(spec, w.usageAt(i)) == day && !streams(i).ending.Abandoned? then w.tokens(i) else 0
  {
    hide DayKey;
    var walk := AsWalk(w, streams, emptyAs);
    var dial, bill := Dial(spec, walk.attemptAt(i)), Bill(spec, walk.tokens(i), walk.usageAt(i));
    assert [dial, bill][..1] == [dial] && [dial][..0] == [];
    assert RequestsOn([dial], spec, day) == (if DayKey(spec, w.attemptAt(i)) == day then 1 else 0);
    assert TokensOn([dial], spec, day) == 0;
    FreeOpsCostNothing([dial, bill], TurnOps(spec, walk, i)[2..], spec, day);
    assert TurnOps(spec, walk, i) == [dial, bill] + TurnOps(spec, walk, i)[2..];
  }
}
