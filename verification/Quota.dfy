/** What each rung has spent today and whether it may serve (backend/app/infrastructure/llm/quota.py). */
module Quota {
  import opened Common

  /** Wall-clock microseconds since the epoch. */
  type Time = int

  const DAY: int := 86_400_000_000

  datatype Spec = Spec(
    name: string,
    lane: string,
    requestLimit: Option<int>,
    tokenLimit: Option<int>,
    utcOffset: Time,
    isLocal: bool,
    available: bool)

  datatype Decision = QuotaSpent | Misconfigured | RetryLater | Transient

  datatype Status = Active | Ready | Throttled | Spent | Failing | Broken | Unavailable

  predicate MayServe(s: Status) { s == Active || s == Ready || s == Throttled }

  datatype TierState = TierState(
    quotaDay: Option<int>,
    requests: int,
    tokens: int,
    benchUntil: Time,
    benchReason: Option<Decision>,
    failureStreak: nat,
    nextCooldown: Time,
    lastThrottleAt: Time,
    lastSuccessAt: Time)

  const FRESH_ROW: TierState := TierState(None, 0, 0, 0, None, 0, 0, 0, 0)

  datatype Config = Config(
    benchAfter: nat,
    cooldownBase: Time,
    cooldownCap: Time,
    misconfiguredBench: Time,
    throttleDisplay: Time)

  /** A call that reached the ledger; an attempt is entered under the rung's own quota day. */
  datatype Entry = Attempt(name: string, day: int) | Success(name: string) | Failure(name: string, decision: Decision)

  /** The ledger's rows and last-served rungs, with the history of calls that shaped them. */
  datatype Book = Book(tiers: map<string, TierState>, active: map<string, string>, journal: seq<Entry>)

  // ------------------------------------------------------------------ quota days

  /** The provider's calendar day, in its own time zone. */
  function DayKey(spec: Spec, now: Time): int { (now + spec.utcOffset) / DAY }

  function NextRollover(spec: Spec, now: Time): Time { (DayKey(spec, now) + 1) * DAY - spec.utcOffset }

  /** The rollover is ahead, at most a day away, and it is the first instant of another quota day. */
  lemma RolloverIsTheNextBoundary(spec: Spec, now: Time)
    ensures now < NextRollover(spec, now) <= now + DAY
    ensures forall t :: now <= t ==> (t < NextRollover(spec, now) <==> DayKey(spec, t) == DayKey(spec, now))
    ensures DayKey(spec, NextRollover(spec, now)) == DayKey(spec, now) + 1
  {
  }

  // ------------------------------------------------------------------ the book's operations

  /** This rung's row, rolled over if its day has turned; a new day frees a quota bench and no other. */
  function Row(b: Book, spec: Spec, now: Time): TierState {
    var s := if spec.name in b.tiers then b.tiers[spec.name] else FRESH_ROW;
    if s.quotaDay == Some(DayKey(spec, now)) then s
    else
      var s' := s.(quotaDay := Some(DayKey(spec, now)), requests := 0, tokens := 0);
      if s.benchReason == Some(QuotaSpent) then s'.(benchUntil := 0, benchReason := None) else s'
  }

  function WithRow(b: Book, spec: Spec, s: TierState): Book { b.(tiers := b.tiers[spec.name := s]) }

  /** Looking a rung up rolls its row over. */
  function Touched(b: Book, spec: Spec, now: Time): Book { WithRow(b, spec, Row(b, spec, now)) }

  predicate BudgetSpent(spec: Spec, s: TierState) {
    (spec.requestLimit.Some? && s.requests >= spec.requestLimit.value)
    || (spec.tokenLimit.Some? && s.tokens >= spec.tokenLimit.value)
  }

  function StatusOf(c: Config, b: Book, spec: Spec, now: Time): Status {
    if !spec.available then Unavailable
    else
      var s := Row(b, spec, now);
      if s.benchUntil > now then
        (if s.benchReason == Some(QuotaSpent) then Spent
         else if s.benchReason == Some(Misconfigured) then Broken
         else Failing)
      else if BudgetSpent(spec, s) then Spent
      else if now - s.lastThrottleAt < c.throttleDisplay then Throttled
      else if spec.lane in b.active && b.active[spec.lane] == spec.name then Active
      else Ready
  }

  /** What asking for the status leaves behind. */
  function AfterStatus(b: Book, spec: Spec, now: Time): Book {
    if spec.available then Touched(b, spec, now) else b
  }

  function NoteAttempt(b: Book, spec: Spec, now: Time): Book {
    var s := Row(b, spec, now);
    WithRow(b, spec, s.(requests := s.requests + 1))
      .(journal := b.journal + [Attempt(spec.name, DayKey(spec, now))])
  }

  function NoteUsage(b: Book, spec: Spec, tokens: nat, now: Time): Book {
    if tokens == 0 then b
    else
      var s := Row(b, spec, now);
      WithRow(b, spec, s.(tokens := s.tokens + tokens))
  }

  function NoteSuccess(b: Book, spec: Spec, now: Time): Book {
    var s := Row(b, spec, now).(failureStreak := 0, nextCooldown := 0, lastSuccessAt := now);
    var s' := if s.benchReason == Some(Transient) || s.benchReason == None
              then s.(benchUntil := 0, benchReason := None) else s;
    Book(b.tiers[spec.name := s'], b.active[spec.lane := spec.name], b.journal + [Success(spec.name)])
  }

  function NoteFailure(c: Config, b: Book, spec: Spec, decision: Decision, now: Time): Book {
    WithRow(b, spec, Failed(c, spec, Row(b, spec, now), decision, now))
      .(journal := b.journal + [Failure(spec.name, decision)])
  }

  function Failed(c: Config, spec: Spec, s: TierState, decision: Decision, now: Time): TierState {
    match decision
    case QuotaSpent => s.(benchUntil := NextRollover(spec, now), benchReason := Some(QuotaSpent))
    case Misconfigured => s.(benchUntil := now + c.misconfiguredBench, benchReason := Some(Misconfigured))
    case RetryLater => s.(lastThrottleAt := now)
    case Transient =>
      var s' := s.(failureStreak := s.failureStreak + 1);
      if s'.failureStreak < c.benchAfter then s'
      else
        var cooldown := Min(c.cooldownCap, if s.nextCooldown != 0 then s.nextCooldown * 2 else c.cooldownBase);
        s'.(nextCooldown := cooldown, benchUntil := now + cooldown, benchReason := Some(Transient))
  }

  /** When the rung is eligible again, if this failure benched it. */
  function ClearsAt(c: Config, b: Book, spec: Spec, decision: Decision, now: Time): Option<Time> {
    var s := Failed(c, spec, Row(b, spec, now), decision, now);
    if decision == RetryLater || (decision == Transient && s.failureStreak < c.benchAfter) then None
    else Some(s.benchUntil)
  }

  function ClearBench(b: Book, name: string): Book {
    if name !in b.tiers then b
    else b.(tiers := b.tiers[name :=
      b.tiers[name].(benchUntil := 0, benchReason := None, failureStreak := 0, nextCooldown := 0)])
  }

  function ResetCounters(b: Book, name: string): Book {
    if name !in b.tiers then b
    else b.(tiers := b.tiers[name := b.tiers[name].(requests := 0, tokens := 0)])
  }

  // ------------------------------------------------------------------ a spent quota

  /**
   * The bench and the lazy day reset agree: a rung told its quota is spent stays out exactly until its own
   * rollover, and at that instant it is back with its counters at zero.
   */
  lemma QuotaBenchEndsWithTheDay(c: Config, b: Book, spec: Spec, now: Time, later: Time)
    requires spec.available && now <= later
    requires spec.requestLimit.Some? ==> spec.requestLimit.value > 0
    requires spec.tokenLimit.Some? ==> spec.tokenLimit.value > 0
    ensures var b' := NoteFailure(c, b, spec, QuotaSpent, now);
            && (StatusOf(c, b', spec, later) == Spent <==> later < NextRollover(spec, now))
            && (MayServe(StatusOf(c, b', spec, later)) <==> later >= NextRollover(spec, now) && later >= 0)
            && (later >= NextRollover(spec, now) ==>
                  Row(b', spec, later).requests == 0 && Row(b', spec, later).tokens == 0
                  && Row(b', spec, later).benchReason == None)
  {
  }

  // ------------------------------------------------------------------ cooldowns

  function Pow2(n: nat): nat { if n == 0 then 1 else 2 * Pow2(n - 1) }

  /** The bench earned by the n-th transient failure in a row, once n reaches the threshold. */
  function Cooldown(c: Config, n: nat): Time
    requires n >= c.benchAfter
  {
    Min(c.cooldownCap, c.cooldownBase * Pow2(n - c.benchAfter))
  }

  ghost predicate Sensible(c: Config) { c.benchAfter >= 1 && c.cooldownBase >= 0 && c.cooldownCap >= 0 }

  /** The cooldown a row carries is a function of its streak alone. */
  ghost predicate CooldownLaw(c: Config, s: TierState) {
    s.nextCooldown == if s.failureStreak < c.benchAfter then 0 else Cooldown(c, s.failureStreak)
  }

  ghost predicate CooldownLaws(c: Config, b: Book) { forall n :: n in b.tiers ==> CooldownLaw(c, b.tiers[n]) }

  lemma CooldownDoubles(c: Config, n: nat)
    requires Sensible(c) && n >= c.benchAfter
    ensures Cooldown(c, n + 1) == Min(c.cooldownCap, if Cooldown(c, n) != 0 then Cooldown(c, n) * 2 else c.cooldownBase)
  {
    hide Pow2;
    var k := n - c.benchAfter;
    PowersDouble(c.cooldownBase, k);
    CappedDouble(c.cooldownCap, c.cooldownBase, c.cooldownBase * Pow2(k));
  }

  lemma CappedDouble(cap: int, base: int, x: int)
    requires cap >= 0 && x >= base >= 0
    ensures Min(cap, 2 * x) == Min(cap, if Min(cap, x) != 0 then Min(cap, x) * 2 else base)
  {
  }

  lemma {:induction false} PowersDouble(base: int, n: nat)
    requires base >= 0
    ensures base * Pow2(n + 1) == 2 * (base * Pow2(n))
    ensures base * Pow2(n) >= base
  {
    if n > 0 { PowersDouble(base, n - 1); }
  }

  /** A transient failure keeps the law, and its bench is the cooldown of the new streak. */
  lemma TransientFailure(c: Config, b: Book, spec: Spec, now: Time)
    requires Sensible(c) && CooldownLaws(c, b)
    ensures var s := Row(b, spec, now);
            var s' := Failed(c, spec, s, Transient, now);
            && s'.failureStreak == s.failureStreak + 1 && CooldownLaw(c, s')
            && (s'.failureStreak < c.benchAfter ==>
                  ClearsAt(c, b, spec, Transient, now) == None && s'.benchUntil == s.benchUntil)
            && (s'.failureStreak >= c.benchAfter ==>
                  ClearsAt(c, b, spec, Transient, now) == Some(now + Cooldown(c, s'.failureStreak)))
  {
    var s := Row(b, spec, now);
    assert CooldownLaw(c, s);
    if s.failureStreak >= c.benchAfter {
      CooldownDoubles(c, s.failureStreak);
    } else if s.failureStreak + 1 == c.benchAfter {
      assert Pow2(0) == 1;
    }
  }

  datatype Op =
    | Look(spec: Spec, at: Time)
    | Dial(spec: Spec, at: Time)
    | Bill(spec: Spec, tokens: nat, at: Time)
    | Succeed(spec: Spec, at: Time)
    | Fail(spec: Spec, decision: Decision, at: Time)
    | Clear(name: string)
    | Reset(name: string)

  function Apply(c: Config, b: Book, op: Op): Book {
    match op
    case Look(spec, at) => AfterStatus(b, spec, at)
    case Dial(spec, at) => NoteAttempt(b, spec, at)
    case Bill(spec, tokens, at) => NoteUsage(b, spec, tokens, at)
    case Succeed(spec, at) => NoteSuccess(b, spec, at)
    case Fail(spec, decision, at) => NoteFailure(c, b, spec, decision, at)
    case Clear(name) => ClearBench(b, name)
    case Reset(name) => ResetCounters(b, name)
  }

  function ApplyAll(c: Config, b: Book, ops: seq<Op>): Book {
    if ops == [] then b else Apply(c, ApplyAll(c, b, ops[..|ops| - 1]), ops[|ops| - 1])
  }

  /** Did this operation end `name`'s run of failures? */
  predicate Heals(op: Op, name: string) {
    (op.Succeed? && op.spec.name == name) || (op.Clear? && op.name == name)
  }

  predicate IsTransient(op: Op, name: string) { op.Fail? && op.spec.name == name && op.decision == Transient }

  function StreakIn(b: Book, name: string): nat { if name in b.tiers then b.tiers[name].failureStreak else 0 }

  /** Transient failures of `name` since it was last healed. */
  function Streak(ops: seq<Op>, name: string): nat {
    if ops == [] then 0
    else
      var op, before := ops[|ops| - 1], Streak(ops[..|ops| - 1], name);
      if Heals(op, name) then 0 else if IsTransient(op, name) then before + 1 else before
  }

  lemma ApplyKeepsLaw(c: Config, b: Book, op: Op, name: string)
    requires Sensible(c) && CooldownLaws(c, b)
    ensures CooldownLaws(c, Apply(c, b, op))
    ensures StreakIn(Apply(c, b, op), name) ==
            if Heals(op, name) then 0 else if IsTransient(op, name) then StreakIn(b, name) + 1 else StreakIn(b, name)
  {
    hide Cooldown;
    if op.Fail? && op.decision == Transient { TransientFailure(c, b, op.spec, op.at); }
  }

  /** The ledger's streak is what the history says, and its cooldowns follow from it. */
  lemma {:induction false} StreakIsHistory(c: Config, b: Book, ops: seq<Op>, name: string)
    requires Sensible(c) && b.tiers == map[]
    ensures CooldownLaws(c, ApplyAll(c, b, ops))
    ensures StreakIn(ApplyAll(c, b, ops), name) == Streak(ops, name)
  {
    if ops != [] {
      StreakIsHistory(c, b, ops[..|ops| - 1], name);
      ApplyKeepsLaw(c, ApplyAll(c, b, ops[..|ops| - 1]), ops[|ops| - 1], name);
    }
  }

  /**
   * Cooldowns in closed form. After any history that ends in a transient failure of `spec`, the n-th since its
   * last success or manual clear: below the threshold nothing is benched, and from it on the rung is out for
   * `base` doubled once per failure past the threshold, up to the cap.
   */
  lemma {:induction false} CooldownClosedForm(c: Config, ops: seq<Op>, spec: Spec, now: Time)
    requires Sensible(c)
    ensures var before := ApplyAll(c, Book(map[], map[], []), ops);
            var n := Streak(ops, spec.name) + 1;
            var s := NoteFailure(c, before, spec, Transient, now).tiers[spec.name];
            && (n < c.benchAfter ==> ClearsAt(c, before, spec, Transient, now) == None
                                     && s.benchUntil == Row(before, spec, now).benchUntil)
            && (n >= c.benchAfter ==>
                  && s.benchUntil == now + Min(c.cooldownCap, c.cooldownBase * Pow2(n - c.benchAfter))
                  && ClearsAt(c, before, spec, Transient, now) == Some(s.benchUntil))
  {
    var before := ApplyAll(c, Book(map[], map[], []), ops);
    StreakIsHistory(c, Book(map[], map[], []), ops, spec.name);
    TransientFailure(c, before, spec, now);
  }

  /** The row was last rolled over on this day or an earlier one. */
  ghost predicate HonestDay(b: Book, spec: Spec, now: Time) {
    spec.name in b.tiers && b.tiers[spec.name].quotaDay.Some? ==> b.tiers[spec.name].quotaDay.value <= DayKey(spec, now)
  }

  /** Everything that was done to this rung, was done by now and on its own calendar. */
  ghost predicate Past(ops: seq<Op>, spec: Spec, now: Time) {
    forall i :: 0 <= i < |ops| && !ops[i].Clear? && !ops[i].Reset? && ops[i].spec.name == spec.name ==>
      ops[i].spec.utcOffset == spec.utcOffset && ops[i].at <= now
  }

  lemma {:induction false} PastIsHonest(c: Config, ops: seq<Op>, spec: Spec, now: Time)
    requires Past(ops, spec, now)
    ensures HonestDay(ApplyAll(c, Book(map[], map[], []), ops), spec, now)
  {
    if ops != [] { PastIsHonest(c, ops[..|ops| - 1], spec, now); }
  }

  /**
   * A throttle is a note for the reader: at no moment from then on, today or any later day, does it change whether the
   * rung may serve, it promises no time to wait for, and it breaks no streak.
   */
  lemma ThrottlesNeverBench(c: Config, b: Book, spec: Spec, now: Time, later: Time)
    requires now <= later && HonestDay(b, spec, now)
    ensures MayServe(StatusOf(c, NoteFailure(c, b, spec, RetryLater, now), spec, later))
       <==> MayServe(StatusOf(c, b, spec, later))
    ensures ClearsAt(c, b, spec, RetryLater, now) == None
    ensures StreakIn(NoteFailure(c, b, spec, RetryLater, now), spec.name) == StreakIn(b, spec.name)
  {
    assert DayKey(spec, now) <= DayKey(spec, later);
  }

  // ------------------------------------------------------------------ the ledger object

  class QuotaLedger {
    const config: Config
    var states: map<string, TierState>
    var active: map<string, string>
    /** Every note taken so far. */
    ghost var journal: seq<Entry>

    ghost function Contents(): Book
      reads this
    {
      Book(states, active, journal)
    }

    constructor (config: Config)
      requires config.benchAfter >= 1
      ensures this.config == config && Contents() == Book(map[], map[], [])
    {
      this.config := config;
      states, active, journal := map[], map[], [];
    }

    /** Fetch a row, rolling it over in place. */
    method State(spec: Spec, now: Time) returns (s: TierState)
      modifies this`states
      ensures Contents() == Touched(old(Contents()), spec, now)
      ensures s == Row(old(Contents()), spec, now) && spec.name in states && states[spec.name] == s
    {
      s := if spec.name in states then states[spec.name] else FRESH_ROW;
      var today := DayKey(spec, now);
      if s.quotaDay != Some(today) {
        s := s.(quotaDay := Some(today), requests := 0, tokens := 0);
        if s.benchReason == Some(QuotaSpent) {
          s := s.(benchUntil := 0, benchReason := None);
        }
      }
      states := states[spec.name := s];
    }

    method GetStatus(spec: Spec, now: Time) returns (r: Status)
      modifies this`states
      ensures r == StatusOf(config, old(Contents()), spec, now)
      ensures Contents() == AfterStatus(old(Contents()), spec, now)
    {
      if !spec.available { return Unavailable; }
      var s := State(spec, now);
      if s.benchUntil > now {
        if s.benchReason == Some(QuotaSpent) { return Spent; }
        if s.benchReason == Some(Misconfigured) { return Broken; }
        return Failing;
      }
      if BudgetSpent(spec, s) { return Spent; }
      if now - s.lastThrottleAt < config.throttleDisplay { return Throttled; }
      r := if spec.lane in active && active[spec.lane] == spec.name then Active else Ready;
    }

    method RecordAttempt(spec: Spec, now: Time)
      modifies this`states, this`journal
      ensures Contents() == NoteAttempt(old(Contents()), spec, now)
    {
      var s := State(spec, now);
      states := states[spec.name := s.(requests := s.requests + 1)];
      journal := journal + [Attempt(spec.name, DayKey(spec, now))];
    }

    method RecordUsage(spec: Spec, prompt: int, completion: int, now: Time)
      modifies this`states
      ensures Contents() == NoteUsage(old(Contents()), spec, Max(0, prompt) + Max(0, completion), now)
    {
      if prompt <= 0 && completion <= 0 { return; }
      var s := State(spec, now);
      states := states[spec.name := s.(tokens := s.tokens + (Max(0, prompt) + Max(0, completion)))];
    }

    method RecordSuccess(spec: Spec, now: Time)
      modifies this
      ensures Contents() == NoteSuccess(old(Contents()), spec, now)
    {
      var s := State(spec, now);
      s := s.(failureStreak := 0, nextCooldown := 0, lastSuccessAt := now);
      if s.benchReason == Some(Transient) || s.benchReason == None {
        s := s.(benchUntil := 0, benchReason := None);
      }
      states := states[spec.name := s];
      active := active[spec.lane := spec.name];
      journal := journal + [Success(spec.name)];
    }

    method RecordFailure(spec: Spec, decision: Decision, now: Time) returns (clearsAt: Option<Time>)
      modifies this`states, this`journal
      ensures Contents() == NoteFailure(config, old(Contents()), spec, decision, now)
      ensures clearsAt == ClearsAt(config, old(Contents()), spec, decision, now)
    {
      var s := State(spec, now);
      journal := journal + [Failure(spec.name, decision)];
      match decision {
        case QuotaSpent =>
          s := s.(benchUntil := NextRollover(spec, now), benchReason := Some(decision));
        case Misconfigured =>
          s := s.(benchUntil := now + config.misconfiguredBench, benchReason := Some(decision));
        case RetryLater =>
          states := states[spec.name := s.(lastThrottleAt := now)];
          return None;
        case Transient =>
          s := s.(failureStreak := s.failureStreak + 1);
          if s.failureStreak < config.benchAfter {
            states := states[spec.name := s];
            return None;
          }
          var next := if s.nextCooldown != 0 then s.nextCooldown * 2 else config.cooldownBase;
          var cooldown := Min(config.cooldownCap, next);
          s := s.(nextCooldown := cooldown, benchUntil := now + cooldown, benchReason := Some(decision));
      }
      states := states[spec.name := s];
      clearsAt := Some(s.benchUntil);
    }

    method ClearBenchOf(name: string) returns (known: bool)
      modifies this`states
      ensures Contents() == ClearBench(old(Contents()), name) && known == (name in old(states))
    {
      if name !in states { return false; }
      var s := states[name];
      states := states[name := s.(benchUntil := 0, benchReason := None, failureStreak := 0, nextCooldown := 0)];
      known := true;
    }

    method ResetCountersOf(name: string) returns (known: bool)
      modifies this`states
      ensures Contents() == ResetCounters(old(Contents()), name) && known == (name in old(states))
    {
      if name !in states { return false; }
      states := states[name := states[name].(requests := 0, tokens := 0)];
      known := true;
    }
  }
}
