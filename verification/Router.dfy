/** The walk down the provider chain (backend/app/infrastructure/llm/router.py). */
module Router {
  import opened Common
  import opened Quota

  // ------------------------------------------------------------------ what a call may meet

  /** What dialling a rung comes to. `Broke` is a failure after output has already been handed over. */
  datatype Outcome = Answered | Lost(decision: Decision) | Broke(decision: Decision) | Cancelled

  /** Everything outside the router's control, indexed by position in the list of eligible rungs. */
  datatype World = World(
    attemptAt: nat -> Time,
    usageAt: nat -> Time,
    settledAt: nat -> Time,
    reportAt: nat -> Time,
    /** Was the failover budget already spent when this rung's turn came? */
    late: nat -> bool,
    tokens: nat -> nat,
    outcome: nat -> Outcome)

  datatype End = Served(tier: string) | Exhausted | Raised | Stopped

  datatype Walked = Walked(book: Book, end: End)

  // ------------------------------------------------------------------ eligibility

  /** The rungs worth trying, in chain order; asking may roll a row over. */
  function Eligible(c: Config, b: Book, chain: seq<Spec>, clock: nat -> Time, i: nat): (Book, seq<Spec>)
    requires i <= |chain|
    decreases |chain| - i
  {
    if i == |chain| then (b, [])
    else
      var (b', rest) := Eligible(c, AfterStatus(b, chain[i], clock(i)), chain, clock, i + 1);
      (b', (if MayServe(StatusOf(c, b, chain[i], clock(i))) then [chain[i]] else []) + rest)
  }

  // ------------------------------------------------------------------ the walk as a function

  function WalkFrom(c: Config, b: Book, specs: seq<Spec>, w: World, i: nat, failures: nat): Walked
    requires i <= |specs|
    decreases |specs| - i
  {
    if i == |specs| then Walked(b, Exhausted)
    else if !specs[i].isLocal && failures > 0 && w.late(i) then WalkFrom(c, b, specs, w, i + 1, failures)
    else
      var dialled := NoteUsage(NoteAttempt(b, specs[i], w.attemptAt(i)), specs[i], w.tokens(i), w.usageAt(i));
      match w.outcome(i)
      case Answered => Walked(NoteSuccess(dialled, specs[i], w.settledAt(i)), Served(specs[i].name))
      case Cancelled => Walked(dialled, Stopped)
      case Broke(d) => Walked(AfterFailure(c, dialled, specs[i], d, w, i), Raised)
      case Lost(d) => WalkFrom(c, AfterFailure(c, dialled, specs[i], d, w, i), specs, w, i + 1, failures + 1)
  }

  /** A failure is noted, and for a transient one the row is looked at again for the report. */
  function AfterFailure(c: Config, b: Book, spec: Spec, d: Decision, w: World, i: nat): Book {
    var noted := NoteFailure(c, b, spec, d, w.settledAt(i));
    if d == Transient then Touched(AfterStatus(noted, spec, w.reportAt(i)), spec, w.reportAt(i)) else noted
  }

  // ------------------------------------------------------------------ the outcome, said without the walk

  /** Whether a rung is worth dialling once its turn comes: the first always is, and so is a local one. */
  predicate Tries(specs: seq<Spec>, w: World, j: nat)
    requires j < |specs|
  {
    j == 0 || specs[j].isLocal || !w.late(j)
  }

  /** A rung's turn comes when every rung tried before it lost. */
  ghost predicate Reached(specs: seq<Spec>, w: World, j: nat)
    requires j <= |specs|
  {
    forall k :: 0 <= k < j && Tries(specs, w, k) ==> w.outcome(k).Lost?
  }

  ghost predicate Dials(specs: seq<Spec>, w: World, j: nat)
    requires j < |specs|
  {
    Reached(specs, w, j) && Tries(specs, w, j)
  }

  /** The names of the dialled rungs from `i` on, in chain order. */
  ghost function Dialled(specs: seq<Spec>, w: World, i: nat): seq<string>
    requires i <= |specs|
    decreases |specs| - i
  {
    if i == |specs| then []
    else (if Dials(specs, w, i) then [specs[i].name] else []) + Dialled(specs, w, i + 1)
  }

  /** The failures of the dialled rungs, and the one success if there is one. */
  ghost function Verdicts(specs: seq<Spec>, w: World, i: nat): seq<Entry>
    requires i <= |specs|
    decreases |specs| - i
  {
    if i == |specs| then []
    else (if Dials(specs, w, i) then Verdict(specs[i], w.outcome(i)) else []) + Verdicts(specs, w, i + 1)
  }

  function Verdict(spec: Spec, o: Outcome): seq<Entry> {
    match o
    case Answered => [Success(spec.name)]
    case Cancelled => []
    case Broke(d) => [Failure(spec.name, d)]
    case Lost(d) => [Failure(spec.name, d)]
  }

  function Attempts(entries: seq<Entry>): seq<string> {
    if entries == [] then []
    else (if entries[0].Attempt? then [entries[0].name] else []) + Attempts(entries[1..])
  }

  function Judgements(entries: seq<Entry>): seq<Entry> {
    if entries == [] then []
    else (if entries[0].Attempt? then [] else [entries[0]]) + Judgements(entries[1..])
  }

  lemma {:induction false} AttemptsConcat(a: seq<Entry>, b: seq<Entry>)
    ensures Attempts(a + b) == Attempts(a) + Attempts(b)
  {
    if a == [] {
      assert a + b == b;
    } else {
      var first := if a[0].Attempt? then [a[0].name] else [];
      AttemptsConcat(a[1..], b);
      assert (a + b)[1..] == a[1..] + b;
      assert Attempts(a + b) == first + (Attempts(a[1..]) + Attempts(b)) == (first + Attempts(a[1..])) + Attempts(b);
    }
  }

  lemma {:induction false} JudgementsConcat(a: seq<Entry>, b: seq<Entry>)
    ensures Judgements(a + b) == Judgements(a) + Judgements(b)
  {
    if a == [] {
      assert a + b == b;
    } else {
      var first := if a[0].Attempt? then [] else [a[0]];
      JudgementsConcat(a[1..], b);
      assert (a + b)[1..] == a[1..] + b;
      assert Judgements(a + b) == first + (Judgements(a[1..]) + Judgements(b))
        == (first + Judgements(a[1..])) + Judgements(b);
    }
  }

  lemma OneRung(spec: Spec, day: int, o: Outcome)
    ensures Attempts([Attempt(spec.name, day)] + Verdict(spec, o)) == [spec.name]
    ensures Judgements([Attempt(spec.name, day)] + Verdict(spec, o)) == Verdict(spec, o)
  {
    var v := Verdict(spec, o);
    assert ([Attempt(spec.name, day)] + v)[1..] == v;
    if v != [] {
      assert v == [v[0]] && !v[0].Attempt?;
      assert Attempts(v[1..]) == [] && Judgements(v[1..]) == [];
      assert Attempts(v) == Attempts(v[1..]) && Judgements(v) == [v[0]] + Judgements(v[1..]);
    }
  }

  /** What the ledger is told during the rest of a walk. */
  ghost function Told(c: Config, b: Book, specs: seq<Spec>, w: World, i: nat, failures: nat): seq<Entry>
    requires i <= |specs|
    requires b.journal <= WalkFrom(c, b, specs, w, i, failures).book.journal
  {
    WalkFrom(c, b, specs, w, i, failures).book.journal[|b.journal|..]
  }

  lemma NothingAfterAStop(specs: seq<Spec>, w: World, i: nat, j: nat)
    requires i < j <= |specs| && Tries(specs, w, i) && !w.outcome(i).Lost?
    ensures Dialled(specs, w, j) == [] && Verdicts(specs, w, j) == []
    decreases |specs| - j
  {
    if j < |specs| { NothingAfterAStop(specs, w, i, j + 1); }
  }

  /** One dialled rung's entries: its attempt, then its verdict. */
  lemma DialEntries(c: Config, b: Book, spec: Spec, w: World, i: nat)
    ensures var dialled := NoteUsage(NoteAttempt(b, spec, w.attemptAt(i)), spec, w.tokens(i), w.usageAt(i));
            var entry := Attempt(spec.name, DayKey(spec, w.attemptAt(i)));
            && dialled.journal == b.journal + [entry]
            && NoteSuccess(dialled, spec, w.settledAt(i)).journal == b.journal + [entry, Success(spec.name)]
            && forall d :: AfterFailure(c, dialled, spec, d, w, i).journal == b.journal + [entry, Failure(spec.name, d)]
  {
  }

  /**
   * The walk, from rung `i` with everything tried before it lost: the ledger is told of one attempt per dialled
   * rung, in chain order, and of exactly one verdict for each.
   */
  lemma {:induction false} WalkTells(c: Config, b: Book, specs: seq<Spec>, w: World, i: nat, failures: nat)
    requires i <= |specs| && Reached(specs, w, i) && (failures > 0 <==> i > 0)
    ensures b.journal <= WalkFrom(c, b, specs, w, i, failures).book.journal
    ensures Attempts(Told(c, b, specs, w, i, failures)) == Dialled(specs, w, i)
    ensures Judgements(Told(c, b, specs, w, i, failures)) == Verdicts(specs, w, i)
    decreases |specs| - i
  {
    hide NoteAttempt;
    hide NoteUsage;
    hide NoteSuccess;
    hide AfterFailure;
    hide Attempts;
    hide Judgements;
    if i == |specs| {
      assert Attempts([]) == [] && Judgements([]) == [] by { NothingTold(); }
    } else {
      if !Tries(specs, w, i) {
        WalkTells(c, b, specs, w, i + 1, failures);
      } else {
        var dialled := NoteUsage(NoteAttempt(b, specs[i], w.attemptAt(i)), specs[i], w.tokens(i), w.usageAt(i));
        var day := DayKey(specs[i], w.attemptAt(i));
        var mine := [Attempt(specs[i].name, day)] + Verdict(specs[i], w.outcome(i));
        DialEntries(c, b, specs[i], w, i);
        OneRung(specs[i], day, w.outcome(i));
        if w.outcome(i).Lost? {
          var b' := AfterFailure(c, dialled, specs[i], w.outcome(i).decision, w, i);
          WalkTells(c, b', specs, w, i + 1, failures + 1);
          var rest := Told(c, b', specs, w, i + 1, failures + 1);
          assert Told(c, b, specs, w, i, failures) == mine + rest;
          AttemptsConcat(mine, rest);
          JudgementsConcat(mine, rest);
        } else {
          NothingAfterAStop(specs, w, i, i + 1);
          assert Told(c, b, specs, w, i, failures) == mine;
        }
      }
    }
  }

  lemma NothingTold()
    ensures Attempts([]) == [] && Judgements([]) == []
  {
  }

  /** How the walk ends, for every assignment of failures and clock readings. */
  lemma {:induction false} WalkEnds(c: Config, b: Book, specs: seq<Spec>, w: World, i: nat, failures: nat)
    requires i <= |specs| && Reached(specs, w, i) && (failures > 0 <==> i > 0)
    ensures match WalkFrom(c, b, specs, w, i, failures).end
            case Served(tier) =>
              exists j :: i <= j < |specs| && Dials(specs, w, j) && w.outcome(j) == Answered && tier == specs[j].name
            case Raised => exists j :: i <= j < |specs| && Dials(specs, w, j) && w.outcome(j).Broke?
            case Stopped => exists j :: i <= j < |specs| && Dials(specs, w, j) && w.outcome(j) == Cancelled
            case Exhausted => Reached(specs, w, |specs|)
    decreases |specs| - i
  {
    hide NoteAttempt;
    hide NoteUsage;
    hide NoteSuccess;
    hide AfterFailure;
    if i < |specs| {
      if !Tries(specs, w, i) {
        WalkEnds(c, b, specs, w, i + 1, failures);
      } else if w.outcome(i).Lost? {
        var dialled := NoteUsage(NoteAttempt(b, specs[i], w.attemptAt(i)), specs[i], w.tokens(i), w.usageAt(i));
        WalkEnds(c, AfterFailure(c, dialled, specs[i], w.outcome(i).decision, w, i), specs, w, i + 1, failures + 1);
      } else {
        assert Dials(specs, w, i);
      }
    }
  }

  /**
   * The promises callers rely on. The first eligible rung is always dialled; a rung is passed over only if it
   * is hosted, late and not first; a stop is at the one dialled rung that did not lose; and running out means
   * every eligible local rung was dialled and lost.
   */
  lemma WalkOutcome(c: Config, b: Book, specs: seq<Spec>, w: World)
    ensures specs != [] ==> Dials(specs, w, 0)
    ensures forall j :: 0 <= j < |specs| && Reached(specs, w, j) && specs[j].isLocal ==> Dials(specs, w, j)
    ensures forall j :: 0 <= j < |specs| && Reached(specs, w, j) ==>
              (!Dials(specs, w, j) <==> j > 0 && !specs[j].isLocal && w.late(j))
    ensures forall j, k | 0 <= j < |specs| && 0 <= k < |specs| && Dials(specs, w, j) && Dials(specs, w, k) ::
              w.outcome(j).Lost? || w.outcome(k).Lost? || j == k
    ensures WalkFrom(c, b, specs, w, 0, 0).end == Exhausted <==>
            forall j :: 0 <= j < |specs| && Dials(specs, w, j) ==> w.outcome(j).Lost?
    ensures WalkFrom(c, b, specs, w, 0, 0).end == Exhausted ==>
            forall j :: 0 <= j < |specs| && specs[j].isLocal ==> Dials(specs, w, j) && w.outcome(j).Lost?
  {
    WalkEnds(c, b, specs, w, 0, 0);
    if !Reached(specs, w, |specs|) { var _ := FirstStop(specs, w, |specs|); }
    forall j, k | 0 <= j < |specs| && 0 <= k < |specs| && Dials(specs, w, j) && Dials(specs, w, k)
      ensures w.outcome(j).Lost? || w.outcome(k).Lost? || j == k
    {
      assert Tries(specs, w, j) && Tries(specs, w, k);
    }
  }

  /** If something tried before `n` did not lose, the first such rung was dialled. */
  lemma {:induction false} FirstStop(specs: seq<Spec>, w: World, n: nat) returns (j: nat)
    requires n <= |specs| && !Reached(specs, w, n)
    ensures j < n && Dials(specs, w, j) && !w.outcome(j).Lost?
  {
    if Reached(specs, w, n - 1) {
      j := n - 1;
    } else {
      j := FirstStop(specs, w, n - 1);
    }
  }

  // ------------------------------------------------------------------ once each, in order, and never a benched rung

  ghost predicate DistinctNames(specs: seq<Spec>) {
    forall i, j :: 0 <= i < j < |specs| ==> specs[i].name != specs[j].name
  }

  /** The rungs dialled are exactly those the rule says, in chain order: `at` is where each of them stands. */
  lemma {:induction false} DialledInOrder(specs: seq<Spec>, w: World, i: nat) returns (at: seq<nat>)
    requires i <= |specs|
    ensures |at| == |Dialled(specs, w, i)|
    ensures forall k :: 0 <= k < |at| ==>
              i <= at[k] < |specs| && Dials(specs, w, at[k]) && Dialled(specs, w, i)[k] == specs[at[k]].name
    ensures forall k, l :: 0 <= k < l < |at| ==> at[k] < at[l]
    ensures forall j :: i <= j < |specs| && Dials(specs, w, j) ==> j in at
    decreases |specs| - i
  {
    hide Dials;
    if i == |specs| {
      at := [];
    } else {
      var rest := DialledInOrder(specs, w, i + 1);
      at := if Dials(specs, w, i) then [i] + rest else rest;
    }
  }

  /** No rung is dialled twice in one call. */
  lemma DialledOnce(specs: seq<Spec>, w: World, i: nat)
    requires i <= |specs| && DistinctNames(specs)
    ensures var d := Dialled(specs, w, i); forall k, l :: 0 <= k < l < |d| ==> d[k] != d[l]
  {
    hide Dialled;
    var at := DialledInOrder(specs, w, i);
    var d := Dialled(specs, w, i);
    forall k, l | 0 <= k < l < |d|
      ensures d[k] != d[l]
    {
      assert specs[at[k]].name != specs[at[l]].name;
    }
  }

  /** Asking after one rung leaves what the ledger says of another as it was. */
  lemma StatusesAreApart(c: Config, b: Book, asked: Spec, at: Time, other: Spec, t: Time)
    requires asked.name != other.name
    ensures StatusOf(c, AfterStatus(b, asked, at), other, t) == StatusOf(c, b, other, t)
  {
  }

  /** A rung is in the list exactly when its status, read off the ledger the call started from, lets it serve. */
  lemma {:induction false} EligibleExactly(c: Config, b: Book, chain: seq<Spec>, clock: nat -> Time, i: nat, j: nat)
    requires i <= j < |chain| && DistinctNames(chain)
    ensures chain[j] in Eligible(c, b, chain, clock, i).1 <==> MayServe(StatusOf(c, b, chain[j], clock(j)))
    decreases j - i
  {
    var b' := AfterStatus(b, chain[i], clock(i));
    if i < j {
      StatusesAreApart(c, b, chain[i], clock(i), chain[j], clock(j));
      EligibleExactly(c, b', chain, clock, i + 1, j);
    } else if chain[i] in Eligible(c, b', chain, clock, i + 1).1 {
      var k := EligibleAreLater(c, b', chain, clock, i + 1, chain[i]);
    }
  }

  lemma {:induction false} EligibleAreLater(c: Config, b: Book, chain: seq<Spec>, clock: nat -> Time, i: nat, s: Spec)
    returns (k: nat)
    requires i <= |chain| && s in Eligible(c, b, chain, clock, i).1
    ensures i <= k < |chain| && chain[k] == s
    decreases |chain| - i
  {
    var (_, rest) := Eligible(c, AfterStatus(b, chain[i], clock(i)), chain, clock, i + 1);
    if s in rest {
      k := EligibleAreLater(c, AfterStatus(b, chain[i], clock(i)), chain, clock, i + 1, s);
    } else {
      k := i;
    }
  }

  // ------------------------------------------------------------------ daily limits over whole runs

  /** Attempts entered for a rung under one quota day. */
  function Recorded(journal: seq<Entry>, name: string, day: int): nat {
    if journal == [] then 0
    else Recorded(journal[..|journal| - 1], name, day)
         + (if journal[|journal| - 1] == Attempt(name, day) then 1 else 0)
  }

  lemma RecordedAppend(journal: seq<Entry>, e: Entry, name: string, day: int)
    ensures Recorded(journal + [e], name, day)
        == Recorded(journal, name, day) + (if e == Attempt(name, day) then 1 else 0)
  {
  }

  /** The row of `x` agrees with the history up to `now`, and no day is over the rung's limit. */
  ghost predicate Sound(b: Book, x: Spec, now: Time) {
    && (x.name !in b.tiers || b.tiers[x.name].quotaDay == None ==> forall d :: Recorded(b.journal, x.name, d) == 0)
    && (x.name in b.tiers && b.tiers[x.name].quotaDay.Some? ==>
          var today := b.tiers[x.name].quotaDay.value;
          && today <= DayKey(x, now)
          && Recorded(b.journal, x.name, today) <= b.tiers[x.name].requests
          && forall d :: d > today ==> Recorded(b.journal, x.name, d) == 0)
    && (x.requestLimit.Some? ==> forall d :: Recorded(b.journal, x.name, d) <= Max(0, x.requestLimit.value))
  }

  /** The rung was last seen under its limit. */
  ghost predicate HasRoom(b: Book, x: Spec) {
    x.requestLimit.Some? ==>
      && x.name in b.tiers && b.tiers[x.name].quotaDay.Some?
      && 0 <= b.tiers[x.name].requests < x.requestLimit.value
  }

  lemma SoundLater(b: Book, x: Spec, now: Time, later: Time)
    requires Sound(b, x, now) && now <= later
    ensures Sound(b, x, later)
  {
  }

  lemma RowStaysSound(b: Book, x: Spec, now: Time, s: TierState)
    requires Sound(b, x, now)
    requires s.quotaDay == Row(b, x, now).quotaDay && s.requests == Row(b, x, now).requests
    ensures Sound(WithRow(b, x, s), x, now)
    ensures HasRoom(b, x) ==> HasRoom(WithRow(b, x, s), x)
  {
  }

  lemma AttemptStaysSound(b: Book, x: Spec, now: Time)
    requires Sound(b, x, now) && HasRoom(b, x)
    ensures Sound(NoteAttempt(b, x, now), x, now)
  {
    var today := DayKey(x, now);
    var b' := NoteAttempt(b, x, now);
    forall d
      ensures Recorded(b'.journal, x.name, d) == Recorded(b.journal, x.name, d) + (if d == today then 1 else 0)
    {
      RecordedAppend(b.journal, Attempt(x.name, today), x.name, d);
    }
    var s := Row(b, x, now);
    assert Recorded(b.journal, x.name, today) <= s.requests;
  }

  lemma VerdictStaysSound(b: Book, b': Book, x: Spec, now: Time, e: Entry)
    requires Sound(b, x, now) && !e.Attempt?
    requires b'.journal == b.journal + [e]
    requires x.name in b'.tiers && b'.tiers[x.name].quotaDay == Row(b, x, now).quotaDay
    requires b'.tiers[x.name].requests == Row(b, x, now).requests
    ensures Sound(b', x, now)
  {
    forall d
      ensures Recorded(b'.journal, x.name, d) == Recorded(b.journal, x.name, d)
    {
      RecordedAppend(b.journal, e, x.name, d);
    }
  }

  /** Whatever is done for another rung, this one's row and history stand. */
  lemma OthersStaySound(b: Book, b': Book, x: Spec, now: Time, e: seq<Entry>)
    requires Sound(b, x, now)
    requires |e| <= 1 && b'.journal == b.journal + e && (e != [] && e[0].Attempt? ==> e[0].name != x.name)
    requires x.name in b'.tiers <==> x.name in b.tiers
    requires x.name in b.tiers ==> b'.tiers[x.name] == b.tiers[x.name]
    ensures Sound(b', x, now)
  {
    forall d
      ensures Recorded(b'.journal, x.name, d) == Recorded(b.journal, x.name, d)
    {
      if e == [] {
        assert b'.journal == b.journal;
      } else {
        RecordedAppend(b.journal, e[0], x.name, d);
        assert e == [e[0]];
      }
    }
  }

  /** The wall clock never goes back during the call: rung after rung, and within each rung's turn. */
  ghost predicate Forward(w: World, i: nat, n: nat, from: Time, until: Time) {
    && from <= until
    && (forall j :: i <= j < n ==>
          from <= w.attemptAt(j) <= w.usageAt(j) <= w.settledAt(j) <= w.reportAt(j) <= until)
    && (forall j, k :: i <= j < k < n ==> w.reportAt(j) <= w.attemptAt(k))
  }

  /** One rung's whole turn, whichever rung is being watched. */
  lemma TurnStaysSound(c: Config, b: Book, spec: Spec, w: World, i: nat, x: Spec, from: Time)
    requires Sound(b, x, from) && (spec.name == x.name ==> spec == x && HasRoom(b, x))
    requires from <= w.attemptAt(i) <= w.usageAt(i) <= w.settledAt(i) <= w.reportAt(i)
    ensures var dialled := NoteUsage(NoteAttempt(b, spec, w.attemptAt(i)), spec, w.tokens(i), w.usageAt(i));
            && Sound(dialled, x, w.reportAt(i)) && Sound(NoteSuccess(dialled, spec, w.settledAt(i)), x, w.reportAt(i))
            && forall d :: Sound(AfterFailure(c, dialled, spec, d, w, i), x, w.reportAt(i))
  {
    hide Sound;
    hide HasRoom;
    var b1 := NoteAttempt(b, spec, w.attemptAt(i));
    var b2 := NoteUsage(b1, spec, w.tokens(i), w.usageAt(i));
    var b3 := NoteSuccess(b2, spec, w.settledAt(i));
    SoundLater(b, x, from, w.attemptAt(i));
    if spec == x {
      AttemptStaysSound(b, x, w.attemptAt(i));
    } else {
      OthersStaySound(b, b1, x, w.attemptAt(i), [Attempt(spec.name, DayKey(spec, w.attemptAt(i)))]);
    }
    SoundLater(b1, x, w.attemptAt(i), w.usageAt(i));
    if spec == x && w.tokens(i) > 0 {
      RowStaysSound(b1, x, w.usageAt(i), b2.tiers[x.name]);
    } else {
      OthersStaySound(b1, b2, x, w.usageAt(i), []);
    }
    SoundLater(b2, x, w.usageAt(i), w.settledAt(i));
    if spec == x {
      VerdictStaysSound(b2, b3, x, w.settledAt(i), Success(x.name));
    } else {
      OthersStaySound(b2, b3, x, w.settledAt(i), [Success(spec.name)]);
    }
    SoundLater(b2, x, w.settledAt(i), w.reportAt(i));
    SoundLater(b3, x, w.settledAt(i), w.reportAt(i));
    forall d
      ensures Sound(AfterFailure(c, b2, spec, d, w, i), x, w.reportAt(i))
    {
      FailureStaysSound(c, b2, spec, d, w, i, x);
    }
  }

  lemma FailureStaysSound(c: Config, b: Book, spec: Spec, d: Decision, w: World, i: nat, x: Spec)
    requires Sound(b, x, w.settledAt(i)) && (spec.name == x.name ==> spec == x)
    requires w.settledAt(i) <= w.reportAt(i)
    ensures Sound(AfterFailure(c, b, spec, d, w, i), x, w.reportAt(i))
  {
    hide Sound;
    var b1 := NoteFailure(c, b, spec, d, w.settledAt(i));
    if spec == x {
      VerdictStaysSound(b, b1, x, w.settledAt(i), Failure(x.name, d));
    } else {
      OthersStaySound(b, b1, x, w.settledAt(i), [Failure(spec.name, d)]);
    }
    SoundLater(b1, x, w.settledAt(i), w.reportAt(i));
    StatusStaysSound(b1, spec, x, w.reportAt(i));
    TouchStaysSound(AfterStatus(b1, spec, w.reportAt(i)), spec, x, w.reportAt(i));
  }

  lemma TouchStaysSound(b: Book, spec: Spec, x: Spec, at: Time)
    requires Sound(b, x, at) && (spec.name == x.name ==> spec == x)
    ensures Sound(Touched(b, spec, at), x, at)
  {
  }

  lemma StatusStaysSound(b: Book, spec: Spec, x: Spec, at: Time)
    requires Sound(b, x, at) && (spec.name == x.name ==> spec == x)
    ensures Sound(AfterStatus(b, spec, at), x, at)
  {
  }

  /** A rung's turn leaves the room of the others alone. */
  lemma RoomIsPrivate(c: Config, b: Book, spec: Spec, w: World, i: nat, other: Spec)
    requires HasRoom(b, other) && spec.name != other.name
    ensures var dialled := NoteUsage(NoteAttempt(b, spec, w.attemptAt(i)), spec, w.tokens(i), w.usageAt(i));
            forall d :: HasRoom(AfterFailure(c, dialled, spec, d, w, i), other)
  {
  }

  /** A walk over rungs with room keeps every rung's history within its limit. */
  lemma {:induction false} WalkStaysSound(c: Config, b: Book, specs: seq<Spec>, w: World, i: nat, failures: nat,
                                          x: Spec, from: Time, until: Time)
    requires i <= |specs| && DistinctNames(specs) && Forward(w, i, |specs|, from, until)
    requires forall j :: i <= j < |specs| && specs[j].name == x.name ==> specs[j] == x && HasRoom(b, x)
    requires Sound(b, x, from)
    ensures Sound(WalkFrom(c, b, specs, w, i, failures).book, x, until)
    decreases |specs| - i
  {
    hide Sound;
    hide HasRoom;
    hide NoteAttempt;
    hide NoteUsage;
    hide NoteSuccess;
    hide AfterFailure;
    if i == |specs| {
      SoundLater(b, x, from, until);
    } else if !specs[i].isLocal && failures > 0 && w.late(i) {
      WalkStaysSound(c, b, specs, w, i + 1, failures, x, from, until);
    } else {
      TurnStaysSound(c, b, specs[i], w, i, x, from);
      var dialled := NoteUsage(NoteAttempt(b, specs[i], w.attemptAt(i)), specs[i], w.tokens(i), w.usageAt(i));
      match w.outcome(i)
      case Answered => SoundLater(NoteSuccess(dialled, specs[i], w.settledAt(i)), x, w.reportAt(i), until);
      case Cancelled => SoundLater(dialled, x, w.reportAt(i), until);
      case Broke(d) => SoundLater(AfterFailure(c, dialled, specs[i], d, w, i), x, w.reportAt(i), until);
      case Lost(d) =>
        var b' := AfterFailure(c, dialled, specs[i], d, w, i);
        if specs[i].name != x.name && HasRoom(b, x) { RoomIsPrivate(c, b, specs[i], w, i, x); }
        WalkStaysSound(c, b', specs, w, i + 1, failures + 1, x, w.reportAt(i), until);
    }
  }

  /** The rungs found eligible have room, and finding them keeps the history sound. */
  lemma {:induction false} EligibleHaveRoom(c: Config, b: Book, chain: seq<Spec>, clock: nat -> Time, i: nat,
                                            x: Spec, from: Time, until: Time)
    requires i <= |chain| && DistinctNames(chain) && from <= until
    requires forall j :: i <= j < |chain| ==> from <= clock(j) <= until
    requires forall j, k :: i <= j < k < |chain| ==> clock(j) <= clock(k)
    requires forall j :: i <= j < |chain| && chain[j].name == x.name ==> chain[j] == x
    requires Sound(b, x, from)
    ensures var (b', specs) := Eligible(c, b, chain, clock, i);
            Sound(b', x, until) && (x in specs ==> HasRoom(b', x))
    decreases |chain| - i
  {
    hide Sound;
    hide HasRoom;
    if i == |chain| {
      SoundLater(b, x, from, until);
    } else {
      var b1 := AfterStatus(b, chain[i], clock(i));
      SoundLater(b, x, from, clock(i));
      StatusStaysSound(b, chain[i], x, clock(i));
      EligibleHaveRoom(c, b1, chain, clock, i + 1, x, clock(i), until);
      if chain[i] == x && MayServe(StatusOf(c, b, x, clock(i))) {
        ServingMeansRoom(c, b, x, clock(i));
        LookingKeepsRoom(c, b1, chain, clock, i + 1, x);
      }
    }
  }

  lemma ServingMeansRoom(c: Config, b: Book, x: Spec, now: Time)
    requires Sound(b, x, now) && MayServe(StatusOf(c, b, x, now))
    ensures HasRoom(AfterStatus(b, x, now), x)
  {
  }

  lemma {:induction false} LookingKeepsRoom(c: Config, b: Book, chain: seq<Spec>, clock: nat -> Time, i: nat, x: Spec)
    requires i <= |chain| && HasRoom(b, x)
    requires forall j :: i <= j < |chain| ==> chain[j].name != x.name
    ensures HasRoom(Eligible(c, b, chain, clock, i).0, x)
    decreases |chain| - i
  {
    if i < |chain| {
      LookingKeepsRoom(c, AfterStatus(b, chain[i], clock(i)), chain, clock, i + 1, x);
    }
  }

  /** One call on one lane's chain. */
  datatype Call = Call(chain: seq<Spec>, clock: nat -> Time, world: World, from: Time, mid: Time, until: Time)

  function Place(c: Config, b: Book, call: Call): Walked {
    var (b', specs) := Eligible(c, b, call.chain, call.clock, 0);
    WalkFrom(c, b', specs, call.world, 0, 0)
  }

  function PlaceAll(c: Config, b: Book, calls: seq<Call>): Book {
    if calls == [] then b else Place(c, PlaceAll(c, b, calls[..|calls| - 1]), calls[|calls| - 1]).book
  }

  /** A well-formed chain in which `x`, if named, is `x`, called while the clock goes from `from` to `until`. */
  ghost predicate Proper(call: Call, x: Spec) {
    && DistinctNames(call.chain)
    && (forall j :: 0 <= j < |call.chain| && call.chain[j].name == x.name ==> call.chain[j] == x)
    && call.from <= call.mid
    && (forall j :: 0 <= j < |call.chain| ==> call.from <= call.clock(j) <= call.mid)
    && (forall j, k :: 0 <= j < k < |call.chain| ==> call.clock(j) <= call.clock(k))
    && Forward(call.world, 0, |call.chain|, call.mid, call.until)
  }

  lemma {:induction false} EligibleIsSublist(c: Config, b: Book, chain: seq<Spec>, clock: nat -> Time, i: nat)
    requires i <= |chain| && DistinctNames(chain)
    ensures var specs := Eligible(c, b, chain, clock, i).1;
            && DistinctNames(specs) && |specs| <= |chain| - i
            && forall k :: 0 <= k < |specs| ==> exists j :: i <= j < |chain| && chain[j] == specs[k]
    decreases |chain| - i
  {
    if i < |chain| {
      var b' := AfterStatus(b, chain[i], clock(i));
      var rest := Eligible(c, b', chain, clock, i + 1).1;
      EligibleIsSublist(c, b', chain, clock, i + 1);
      var specs := Eligible(c, b, chain, clock, i).1;
      assert specs == rest || specs == [chain[i]] + rest;
    }
  }

  lemma CallStaysSound(c: Config, b: Book, call: Call, x: Spec)
    requires Proper(call, x) && Sound(b, x, call.from)
    ensures Sound(Place(c, b, call).book, x, call.until)
  {
    hide Sound;
    hide HasRoom;
    var (b', specs) := Eligible(c, b, call.chain, call.clock, 0);
    EligibleHaveRoom(c, b, call.chain, call.clock, 0, x, call.from, call.mid);
    EligibleIsSublist(c, b, call.chain, call.clock, 0);
    WalkStaysSound(c, b', specs, call.world, 0, 0, x, call.mid, call.until);
  }

  /**
   * Daily limits: over any sequence of non-overlapping calls that share a ledger, on any chains, no rung is
   * ever attempted more often in one of its own quota days than its limit allows.
   */
  lemma {:induction false} LimitsHold(c: Config, calls: seq<Call>, x: Spec, limit: int, day: int)
    requires x.requestLimit == Some(limit)
    requires forall i :: 0 <= i < |calls| ==> Proper(calls[i], x)
    requires forall i, j :: 0 <= i < j < |calls| ==> calls[i].until <= calls[j].from
    ensures Recorded(PlaceAll(c, Book(map[], map[], []), calls).journal, x.name, day) <= Max(0, limit)
  {
    if calls != [] { RunStaysSound(c, calls, x); }
  }

  lemma {:induction false} RunStaysSound(c: Config, calls: seq<Call>, x: Spec)
    requires calls != []
    requires forall i :: 0 <= i < |calls| ==> Proper(calls[i], x)
    requires forall i, j :: 0 <= i < j < |calls| ==> calls[i].until <= calls[j].from
    ensures Sound(PlaceAll(c, Book(map[], map[], []), calls), x, calls[|calls| - 1].until)
  {
    hide Place;
    var n := |calls| - 1;
    var start := Book(map[], map[], []);
    if n == 0 {
      assert PlaceAll(c, start, calls[..0]) == start;
      assert Sound(start, x, calls[0].from);
    } else {
      RunStaysSound(c, calls[..n], x);
      SoundLater(PlaceAll(c, start, calls[..n]), x, calls[n - 1].until, calls[n].from);
    }
    CallStaysSound(c, PlaceAll(c, start, calls[..n]), calls[n], x);
  }

  // ------------------------------------------------------------------ streaming

  datatype Ending = Finished | CutOff(decision: Decision) | Abandoned

  /** What a rung's stream brings: the chunks before it ends, and how it ends. */
  datatype Stream = Stream(chunks: seq<string>, ending: Ending)

  /** Failover ends at the first chunk; a stream that ends without one counts as a failure. */
  function OutcomeOf(s: Stream, emptyAs: Decision): Outcome {
    match s.ending
    case Finished => if s.chunks == [] then Lost(emptyAs) else Answered
    case CutOff(d) => if s.chunks == [] then Lost(d) else Broke(d)
    case Abandoned => Cancelled
  }

  /** A rung is passed over exactly when it said nothing, and nothing else lets another rung continue its sentence. */
  lemma FailoverEndsAtTheFirstChunk(s: Stream, emptyAs: Decision)
    requires !s.ending.Abandoned?
    ensures OutcomeOf(s, emptyAs).Lost? <==> s.chunks == []
    ensures OutcomeOf(s, emptyAs) == Answered <==> s.chunks != [] && s.ending.Finished?
    ensures OutcomeOf(s, emptyAs).Broke? <==> s.chunks != [] && s.ending.CutOff?
  {
  }

  /** A streaming call seen as a walk; an abandoned stream is never billed. */
  function AsWalk(w: World, streams: nat -> Stream, emptyAs: Decision): World {
    w.(outcome := (i: nat) => OutcomeOf(streams(i), emptyAs),
       tokens := (i: nat) => if streams(i).ending.Abandoned? then 0 else w.tokens(i))
  }

  function Tagged(chunks: seq<string>, tier: string): (r: seq<(string, string)>)
    ensures |r| == |chunks| && forall i :: 0 <= i < |r| ==> r[i].0 == chunks[i] && r[i].1 == tier
  {
    seq(|chunks|, i requires 0 <= i < |chunks| => (chunks[i], tier))
  }

  /** Once a rung has stopped the walk, no later one is dialled. */
  lemma StopIsLast(specs: seq<Spec>, w: World, j: nat, k: nat)
    requires j < k < |specs| && Dials(specs, w, j) && !w.outcome(j).Lost?
    ensures !Dials(specs, w, k)
  {
  }

  /** A served call records exactly one success, its last verdict; before it come only the losers' failures. */
  lemma {:induction false} OneSuccessAtTheEnd(specs: seq<Spec>, w: World, i: nat, j: nat)
    requires i <= j < |specs| && Dials(specs, w, j) && w.outcome(j) == Answered
    ensures var v := Verdicts(specs, w, i);
            && v != [] && v[|v| - 1] == Success(specs[j].name)
            && forall k :: 0 <= k < |v| - 1 ==> v[k].Failure?
    decreases j - i
  {
    var rest := Verdicts(specs, w, i + 1);
    if i == j {
      NothingAfterAStop(specs, w, i, i + 1);
    } else {
      OneSuccessAtTheEnd(specs, w, i + 1, j);
      assert Dials(specs, w, i) ==> w.outcome(i).Lost?;
    }
  }

  /** A call in which nobody answered records failures only. */
  lemma {:induction false} NoSuccessOtherwise(specs: seq<Spec>, w: World, i: nat)
    requires i <= |specs|
    requires forall j :: i <= j < |specs| && Dials(specs, w, j) ==> w.outcome(j) != Answered
    ensures forall k :: 0 <= k < |Verdicts(specs, w, i)| ==> Verdicts(specs, w, i)[k].Failure?
    decreases |specs| - i
  {
    hide Dials;
    if i < |specs| { NoSuccessOtherwise(specs, w, i + 1); }
  }

  // ------------------------------------------------------------------ the router object

  /** The list so far and what the rest of the chain adds to it. */
  ghost function EligibleAfter(c: Config, b: Book, chain: seq<Spec>, clock: nat -> Time, i: nat, out: seq<Spec>)
    : (Book, seq<Spec>)
    requires i <= |chain|
  {
    (Eligible(c, b, chain, clock, i).0, out + Eligible(c, b, chain, clock, i).1)
  }

  lemma EligibleStep(c: Config, b: Book, chain: seq<Spec>, clock: nat -> Time, i: nat, out: seq<Spec>)
    requires i <= |chain|
    ensures EligibleAfter(c, b, chain, clock, 0, []) == Eligible(c, b, chain, clock, 0)
    ensures i == |chain| ==> EligibleAfter(c, b, chain, clock, i, out) == (b, out)
    ensures i < |chain| ==>
              var keep := MayServe(StatusOf(c, b, chain[i], clock(i)));
              EligibleAfter(c, b, chain, clock, i, out)
              == EligibleAfter(c, AfterStatus(b, chain[i], clock(i)), chain, clock, i + 1,
                               if keep then out + [chain[i]] else out)
  {
    hide StatusOf;
    hide AfterStatus;
    if i < |chain| {
      var rest := Eligible(c, AfterStatus(b, chain[i], clock(i)), chain, clock, i + 1).1;
      assert out + ([chain[i]] + rest) == (out + [chain[i]]) + rest;
      assert out + ([] + rest) == out + rest;
    }
    var all := Eligible(c, b, chain, clock, 0).1;
    assert [] + all == all && out + [] == out;
  }

  /** The ledger once a dialled rung's turn is over. */
  function AfterDial(c: Config, b: Book, spec: Spec, w: World, i: nat): Book {
    var dialled := NoteUsage(NoteAttempt(b, spec, w.attemptAt(i)), spec, w.tokens(i), w.usageAt(i));
    match w.outcome(i)
    case Answered => NoteSuccess(dialled, spec, w.settledAt(i))
    case Cancelled => dialled
    case Broke(d) => AfterFailure(c, dialled, spec, d, w, i)
    case Lost(d) => AfterFailure(c, dialled, spec, d, w, i)
  }

  /** One rung's step of the walk, case by case. */
  lemma WalkStep(c: Config, b: Book, specs: seq<Spec>, w: World, i: nat, failures: nat)
    requires i <= |specs|
    requires Reached(specs, w, i) && (failures > 0 <==> i > 0)
    ensures i == |specs| ==> WalkFrom(c, b, specs, w, i, failures) == Walked(b, Exhausted)
    ensures i < |specs| && !Tries(specs, w, i) ==>
              WalkFrom(c, b, specs, w, i, failures) == WalkFrom(c, b, specs, w, i + 1, failures)
                && Reached(specs, w, i + 1)
    ensures i < |specs| && Tries(specs, w, i) ==>
              && Dials(specs, w, i) && (w.outcome(i).Lost? ==> Reached(specs, w, i + 1))
              && WalkFrom(c, b, specs, w, i, failures) ==
                 match w.outcome(i)
                 case Answered => Walked(AfterDial(c, b, specs[i], w, i), Served(specs[i].name))
                 case Cancelled => Walked(AfterDial(c, b, specs[i], w, i), Stopped)
                 case Broke(d) => Walked(AfterDial(c, b, specs[i], w, i), Raised)
                 case Lost(d) => WalkFrom(c, AfterDial(c, b, specs[i], w, i), specs, w, i + 1, failures + 1)
  {
  }

  /** All of `yielded` is the output of the rung that stopped the walk. */
  ghost predicate FromTheStop(specs: seq<Spec>, w: World, streams: nat -> Stream, yielded: seq<(string, string)>) {
    exists j :: 0 <= j < |specs| && Dials(specs, w, j) && !w.outcome(j).Lost?
                && |yielded| == |streams(j).chunks|
                && forall k :: 0 <= k < |yielded| ==> yielded[k] == (streams(j).chunks[k], specs[j].name)
  }

  lemma TheStopSpeaks(specs: seq<Spec>, w: World, streams: nat -> Stream, j: nat, yielded: seq<(string, string)>)
    requires j < |specs| && Dials(specs, w, j) && !w.outcome(j).Lost?
    requires yielded == Tagged(streams(j).chunks, specs[j].name)
    ensures FromTheStop(specs, w, streams, yielded)
  {
  }

  /** Nothing at all has been tried, so the first rung's turn has come. */
  lemma TheFirstIsReached(specs: seq<Spec>, w: World)
    ensures Reached(specs, w, 0)
  {
  }

  class ChainRouter {
    const chain: seq<Spec>
    const ledger: QuotaLedger

    constructor (chain: seq<Spec>, ledger: QuotaLedger)
      ensures this.chain == chain && this.ledger == ledger
    {
      this.chain, this.ledger := chain, ledger;
    }

    method EligibleRungs(clock: nat -> Time) returns (out: seq<Spec>)
      modifies ledger`states
      ensures (ledger.Contents(), out) == Eligible(ledger.config, old(ledger.Contents()), chain, clock, 0)
    {
      hide Eligible;
      hide StatusOf;
      hide AfterStatus;
      out := [];
      ghost var c, b0 := ledger.config, ledger.Contents();
      EligibleStep(c, b0, chain, clock, 0, []);
      for i := 0 to |chain|
        invariant Eligible(c, b0, chain, clock, 0) == EligibleAfter(c, ledger.Contents(), chain, clock, i, out)
        invariant ledger.active == old(ledger.active) && ledger.journal == old(ledger.journal)
      {
        EligibleStep(c, ledger.Contents(), chain, clock, i, out);
        var status := ledger.GetStatus(chain[i], clock(i));
        if status == Unavailable || status == Spent || status == Broken || status == Failing { continue; }
        out := out + [chain[i]];
      }
      EligibleStep(c, ledger.Contents(), chain, clock, |chain|, out);
    }

    /** The rung that would serve right now. */
    method NextUp(clock: nat -> Time) returns (name: Option<string>)
      requires DistinctNames(chain)
      modifies ledger`states
      ensures name == var specs := Eligible(ledger.config, old(ledger.Contents()), chain, clock, 0).1;
                      if specs == [] then None else Some(specs[0].name)
    {
      ghost var c, b0 := ledger.config, ledger.Contents();
      for i := 0 to |chain|
        invariant Eligible(c, b0, chain, clock, 0).1 == Eligible(c, ledger.Contents(), chain, clock, i).1
        invariant ledger.active == old(ledger.active) && ledger.journal == old(ledger.journal)
      {
        var status := ledger.GetStatus(chain[i], clock(i));
        if MayServe(status) { return Some(chain[i].name); }
      }
      name := None;
    }

    /** Note the failure; a transient one is also reported, which looks the row up again. */
    method HandleFailure(spec: Spec, d: Decision, w: World, i: nat)
      modifies ledger`states, ledger`journal
      ensures ledger.Contents() == AfterFailure(ledger.config, old(ledger.Contents()), spec, d, w, i)
    {
      var _ := ledger.RecordFailure(spec, d, w.settledAt(i));
      if d == Transient {
        var _ := ledger.GetStatus(spec, w.reportAt(i));
        var _ := ledger.State(spec, w.reportAt(i));
      }
    }

    /** One call that either returns an answer or exhausts the chain. */
    method Walk(clock: nat -> Time, w: World) returns (end: End)
      requires forall i :: !w.outcome(i).Broke?
      modifies ledger
      ensures var (b, specs) := Eligible(ledger.config, old(ledger.Contents()), chain, clock, 0);
              Walked(ledger.Contents(), end) == WalkFrom(ledger.config, b, specs, w, 0, 0)
    {
      var specs := EligibleRungs(clock);
      ghost var c, b := ledger.config, ledger.Contents();
      var failures := 0;
      for i := 0 to |specs|
        invariant WalkFrom(c, b, specs, w, 0, 0) == WalkFrom(c, ledger.Contents(), specs, w, i, failures)
      {
        var spec := specs[i];
        if !spec.isLocal && failures > 0 && w.late(i) { continue; }
        ledger.RecordAttempt(spec, w.attemptAt(i));
        ledger.RecordUsage(spec, w.tokens(i), 0, w.usageAt(i));
        match w.outcome(i) {
          case Cancelled => return Stopped;
          case Answered =>
            ledger.RecordSuccess(spec, w.settledAt(i));
            return Served(spec.name);
          case Lost(d) =>
            failures := failures + 1;
            HandleFailure(spec, d, w, i);
        }
      }
      end := Exhausted;
    }

    /** One rung's turn in a streaming call: hand its chunks over, then settle with the ledger. */
    method StreamRung(spec: Spec, w: World, i: nat, stream: Stream, emptyAs: Decision)
      returns (yielded: seq<(string, string)>)
      modifies ledger
      ensures yielded == Tagged(stream.chunks, spec.name)
      ensures forall streams: nat -> Stream | streams(i) == stream ::
                ledger.Contents() == AfterDial(ledger.config, old(ledger.Contents()), spec,
                  AsWalk(w, streams, emptyAs), i)
    {
      hide NoteAttempt;
      hide NoteSuccess;
      yielded := [];
      var delivered := false;
      ledger.RecordAttempt(spec, w.attemptAt(i));
      for k := 0 to |stream.chunks|
        invariant yielded == Tagged(stream.chunks, spec.name)[..k]
        invariant delivered <==> k > 0
      {
        delivered := true;
        yielded := yielded + [(stream.chunks[k], spec.name)];
      }
      if stream.ending.Abandoned? { return; }
      ledger.RecordUsage(spec, w.tokens(i), 0, w.usageAt(i));
      if stream.ending.Finished? && delivered {
        ledger.RecordSuccess(spec, w.settledAt(i));
      } else {
        HandleFailure(spec, if stream.ending.Finished? then emptyAs else stream.ending.decision, w, i);
      }
    }

    /**
     * One streaming call. No splice: everything yielded comes from the one rung that stopped the walk, a normal
     * end means at least one chunk, and nothing is yielded when the chain runs out.
     */
    method StreamCall(clock: nat -> Time, w: World, streams: nat -> Stream, emptyAs: Decision)
      returns (yielded: seq<(string, string)>, end: End)
      modifies ledger
      ensures var (b, specs) := Eligible(ledger.config, old(ledger.Contents()), chain, clock, 0);
              var walk := AsWalk(w, streams, emptyAs);
              && Walked(ledger.Contents(), end) == WalkFrom(ledger.config, b, specs, walk, 0, 0)
              && (end == Exhausted ==> yielded == [])
              && (end != Exhausted ==> FromTheStop(specs, walk, streams, yielded))
      ensures end.Served? ==> yielded != [] && forall k :: 0 <= k < |yielded| ==> yielded[k].1 == end.tier
    {
      hide AfterDial;
      hide Eligible;
      hide WalkFrom;
      hide Reached;
      hide Dials;
      hide FromTheStop;
      var specs := EligibleRungs(clock);
      ghost var c, b := ledger.config, ledger.Contents();
      ghost var walk := AsWalk(w, streams, emptyAs);
      var failures := 0;
      yielded := [];
      TheFirstIsReached(specs, walk);
      for i := 0 to |specs|
        invariant WalkFrom(c, b, specs, walk, 0, 0) == WalkFrom(c, ledger.Contents(), specs, walk, i, failures)
        invariant Reached(specs, walk, i) && (failures > 0 <==> i > 0)
        invariant yielded == []
      {
        var spec := specs[i];
        WalkStep(c, ledger.Contents(), specs, walk, i, failures);
        if !spec.isLocal && failures > 0 && w.late(i) { continue; }
        assert Dials(specs, walk, i);
        var handed := StreamRung(spec, w, i, streams(i), emptyAs);
        yielded := yielded + handed;
        if !OutcomeOf(streams(i), emptyAs).Lost? { TheStopSpeaks(specs, walk, streams, i, yielded); }
        match OutcomeOf(streams(i), emptyAs) {
          case Cancelled => return yielded, Stopped;
          case Answered => return yielded, Served(spec.name);
          case Broke(_) => return yielded, Raised;
          case Lost(_) => failures := failures + 1;
        }
      }
      WalkStep(c, ledger.Contents(), specs, walk, |specs|, failures);
      end := Exhausted;
    }
  }
}
