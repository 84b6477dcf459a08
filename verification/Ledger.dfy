/** The speaking-time ledger and the fairness policy on top of it (backend/app/domain/ledger.py). */
module Ledger {
  import opened Common

  datatype Tally = Tally(
    user: UserId,
    name: string,
    spokenMs: nat,
    turnsTaken: nat,
    followUps: nat,
    connected: bool)

  /** The tallies in registration order, as the program's insertion-ordered dictionary keeps them. */
  type Tallies = seq<Tally>

  ghost predicate Distinct(ts: Tallies) {
    forall i, j :: 0 <= i < j < |ts| ==> ts[i].user != ts[j].user
  }

  /** Where a user's tally is; the length when there is none. */
  function IndexOf(ts: Tallies, u: UserId): (i: nat)
    ensures i <= |ts|
    ensures i < |ts| ==> ts[i].user == u
    ensures forall j :: 0 <= j < i ==> ts[j].user != u
  {
    if ts == [] then 0
    else if ts[0].user == u then 0
    else 1 + IndexOf(ts[1..], u)
  }

  function Registered(ts: Tallies, u: UserId, name: string): Tallies {
    if IndexOf(ts, u) < |ts| then ts else ts + [Tally(u, name, 0, 0, 0, true)]
  }

  function WithSpeech(ts: Tallies, u: UserId, durationMs: int): Tallies {
    var i := IndexOf(ts, u);
    if i == |ts| then ts
    else ts[i := ts[i].(spokenMs := ts[i].spokenMs + Max(0, durationMs), turnsTaken := ts[i].turnsTaken + 1)]
  }

  function WithFollowUp(ts: Tallies, u: UserId): Tallies {
    var i := IndexOf(ts, u);
    if i == |ts| then ts else ts[i := ts[i].(followUps := ts[i].followUps + 1)]
  }

  function WithConnection(ts: Tallies, u: UserId, connected: bool): Tallies {
    var i := IndexOf(ts, u);
    if i == |ts| then ts else ts[i := ts[i].(connected := connected)]
  }

  function Eligible(ts: Tallies): Tallies {
    if ts == [] then []
    else (if ts[0].connected then [ts[0]] else []) + Eligible(ts[1..])
  }

  lemma {:induction false} EligibleIsTheLoop(ts: Tallies, t: Tally)
    ensures t in Eligible(ts) <==> t in ts && t.connected
  {
    if ts != [] {
      EligibleIsTheLoop(ts[1..], t);
      assert t in ts <==> t == ts[0] || t in ts[1..];
    }
  }

  /** The least turn count among those connected; 0 when nobody is. */
  function MinTurns(ts: Tallies): nat {
    if ts == [] then 0
    else if !ts[0].connected then MinTurns(ts[1..])
    else if Eligible(ts[1..]) == [] then ts[0].turnsTaken
    else Min(ts[0].turnsTaken, MinTurns(ts[1..]))
  }

  lemma {:induction false} MinTurnsIsLeast(ts: Tallies, k: nat)
    requires k < |ts| && ts[k].connected
    ensures MinTurns(ts) <= ts[k].turnsTaken
  {
    if k > 0 {
      EligibleIsTheLoop(ts[1..], ts[k]);
      MinTurnsIsLeast(ts[1..], k - 1);
    }
  }

  predicate EveryoneHasSpoken(ts: Tallies, minimumTurns: int) {
    Eligible(ts) != [] && forall t :: t in Eligible(ts) ==> t.turnsTaken >= minimumTurns
  }

  // ------------------------------------------------------------------ selection

  /** Code-point order on names, the last tie-break. */
  predicate NameLeq(a: string, b: string) {
    if a == "" then true
    else if b == "" then false
    else if a[0] != b[0] then a[0] < b[0]
    else NameLeq(a[1..], b[1..])
  }

  lemma {:induction false} NameLeqTotal(a: string, b: string)
    ensures NameLeq(a, b) || NameLeq(b, a)
  {
    if a != "" && b != "" && a[0] == b[0] { NameLeqTotal(a[1..], b[1..]); }
  }

  lemma {:induction false} NameLeqTransitive(a: string, b: string, c: string)
    requires NameLeq(a, b) && NameLeq(b, c)
    ensures NameLeq(a, c)
  {
    if a != "" && b != "" && c != "" && a[0] == b[0] == c[0] { NameLeqTransitive(a[1..], b[1..], c[1..]); }
  }

  /** The shorter of two names that agree as far as it goes, or the one with the lesser character where they part. */
  ghost predicate NameFirst(a: string, b: string) {
    a <= b || exists k :: 0 <= k < |a| && k < |b| && a[..k] == b[..k] && a[k] < b[k]
  }

  lemma {:induction false} NameLeqExactly(a: string, b: string)
    ensures NameLeq(a, b) <==> NameFirst(a, b)
  {
    if a != "" && b != "" {
      NameLeqExactly(a[1..], b[1..]);
      forall k | 0 < k < |a| && k < |b| && a[..k] == b[..k]
        ensures a[0] == b[0]
      {
        assert a[..k][0] == b[..k][0];
      }
      if a[0] == b[0] {
        if a[1..] <= b[1..] { assert a == [a[0]] + a[1..] && b == [b[0]] + b[1..]; }
        if k: nat :| k < |a[1..]| && k < |b[1..]| && a[1..][..k] == b[1..][..k] && a[1..][k] < b[1..][k] {
          assert a[..k + 1] == [a[0]] + a[1..][..k] && b[..k + 1] == [b[0]] + b[1..][..k] && a[k + 1] < b[k + 1];
        }
        if k: nat :| k < |a| && k < |b| && a[..k] == b[..k] && a[k] < b[k] {
          assert k > 0;
          assert a[1..][..k - 1] == a[..k][1..] && b[1..][..k - 1] == b[..k][1..] && a[1..][k - 1] < b[1..][k - 1];
        }
      } else {
        assert a[..0] == b[..0];
      }
    }
  }

  /** Least floor time first, then fewest turns, then name. */
  predicate KeyLeq(a: Tally, b: Tally) {
    if a.spokenMs != b.spokenMs then a.spokenMs < b.spokenMs
    else if a.turnsTaken != b.turnsTaken then a.turnsTaken < b.turnsTaken
    else NameLeq(a.name, b.name)
  }

  /** The first of the least candidates. */
  function Best(ts: Tallies): (b: Tally)
    requires ts != []
    ensures b in ts
  {
    if |ts| == 1 then ts[0]
    else
      var rest := Best(ts[1..]);
      if KeyLeq(ts[0], rest) then ts[0] else rest
  }

  lemma {:induction false} BestIsLeast(ts: Tallies)
    requires ts != []
    ensures forall t :: t in ts ==> KeyLeq(Best(ts), t)
  {
    NameLeqTotal(ts[0].name, ts[0].name);
    if |ts| > 1 {
      BestIsLeast(ts[1..]);
      var rest := Best(ts[1..]);
      NameLeqTotal(ts[0].name, rest.name);
      forall t | t in ts
        ensures KeyLeq(Best(ts), t)
      {
        if t != ts[0] {
          assert t in ts[1..];
          if KeyLeq(ts[0], rest) && ts[0].spokenMs == rest.spokenMs == t.spokenMs
             && ts[0].turnsTaken == rest.turnsTaken == t.turnsTaken {
            NameLeqTransitive(ts[0].name, rest.name, t.name);
          }
        }
      }
    }
  }

  /** Of equals the one that comes first. */
  lemma {:induction false} BestIsFirst(ts: Tallies, p: nat, q: nat)
    requires Distinct(ts) && p < q < |ts| && ts[q] == Best(ts)
    ensures !KeyLeq(ts[p], ts[q])
  {
    hide KeyLeq;
    var rest := ts[1..];
    assert rest[q - 1] == ts[q];
    if p > 0 {
      assert Best(rest) in rest;
      BestIsFirst(rest, p - 1, q - 1);
    }
  }

  function Except(ts: Tallies, last: Option<UserId>): Tallies {
    if ts == [] then []
    else (if Some(ts[0].user) != last then [ts[0]] else []) + Except(ts[1..], last)
  }

  lemma {:induction false} ExceptContains(ts: Tallies, last: Option<UserId>, t: Tally)
    ensures t in Except(ts, last) <==> t in ts && Some(t.user) != last
  {
    if ts != [] {
      ExceptContains(ts[1..], last, t);
      assert t in ts <==> t == ts[0] || t in ts[1..];
    }
  }

  /** Everyone connected but the last speaker, or everyone connected when that leaves nobody. */
  function Candidates(ts: Tallies, last: Option<UserId>): Tallies {
    var others := Except(Eligible(ts), last);
    if others == [] then Eligible(ts) else others
  }

  function SelectNextSpeaker(ts: Tallies, last: Option<UserId>): Option<UserId> {
    if Candidates(ts, last) == [] then None else Some(Best(Candidates(ts, last)).user)
  }

  lemma CandidatesContain(ts: Tallies, last: Option<UserId>, t: Tally)
    requires t in ts && t.connected
    ensures Candidates(ts, last) != []
    ensures Some(t.user) != last ==> t in Candidates(ts, last)
  {
    EligibleIsTheLoop(ts, t);
    ExceptContains(Eligible(ts), last, t);
  }

  lemma ACandidateIs(ts: Tallies, last: Option<UserId>, t: Tally, c: Tally)
    requires c in Candidates(ts, last)
    ensures c in ts && c.connected
    ensures t in ts && t.connected && Some(t.user) != last ==> Some(c.user) != last
  {
    EligibleIsTheLoop(ts, c);
    EligibleIsTheLoop(ts, t);
    ExceptContains(Eligible(ts), last, c);
    ExceptContains(Eligible(ts), last, t);
  }

  /** Leaving people out does not change the order of the others. */
  lemma {:induction false} EligibleInOrder(ts: Tallies, i: nat, j: nat) returns (p: nat, q: nat)
    requires i < j < |ts| && ts[i].connected && ts[j].connected
    ensures p < q < |Eligible(ts)| && Eligible(ts)[p] == ts[i] && Eligible(ts)[q] == ts[j]
  {
    var skipped := if ts[0].connected then 1 else 0;
    if i > 0 {
      p, q := EligibleInOrder(ts[1..], i - 1, j - 1);
      p, q := p + skipped, q + skipped;
    } else {
      EligibleIsTheLoop(ts[1..], ts[j]);
      var k :| 0 <= k < |Eligible(ts[1..])| && Eligible(ts[1..])[k] == ts[j];
      p, q := 0, k + 1;
    }
  }

  lemma {:induction false} ExceptInOrder(ts: Tallies, last: Option<UserId>, i: nat, j: nat) returns (p: nat, q: nat)
    requires i < j < |ts| && Some(ts[i].user) != last && Some(ts[j].user) != last
    ensures p < q < |Except(ts, last)| && Except(ts, last)[p] == ts[i] && Except(ts, last)[q] == ts[j]
  {
    var skipped := if Some(ts[0].user) != last then 1 else 0;
    if i > 0 {
      p, q := ExceptInOrder(ts[1..], last, i - 1, j - 1);
      p, q := p + skipped, q + skipped;
    } else {
      ExceptContains(ts[1..], last, ts[j]);
      var k :| 0 <= k < |Except(ts[1..], last)| && Except(ts[1..], last)[k] == ts[j];
      p, q := 0, k + 1;
    }
  }

  lemma {:induction false} EligibleIsDistinct(ts: Tallies)
    requires Distinct(ts)
    ensures Distinct(Eligible(ts))
  {
    if ts != [] {
      EligibleIsDistinct(ts[1..]);
      forall t | t in Eligible(ts[1..])
        ensures t.user != ts[0].user
      {
        EligibleIsTheLoop(ts[1..], t);
      }
    }
  }

  lemma {:induction false} ExceptIsDistinct(ts: Tallies, last: Option<UserId>)
    requires Distinct(ts)
    ensures Distinct(Except(ts, last))
  {
    if ts != [] {
      ExceptIsDistinct(ts[1..], last);
      forall t | t in Except(ts[1..], last)
        ensures t.user != ts[0].user
      {
        ExceptContains(ts[1..], last, t);
      }
    }
  }

  /** Among those heard equally little with one name, the one registered first is selected. */
  lemma SelectionIsFirst(ts: Tallies, last: Option<UserId>, k: nat, i: nat)
    requires Distinct(ts) && k < i < |ts| && ts[k].connected && SelectNextSpeaker(ts, last) == Some(ts[i].user)
    requires Some(ts[k].user) != last
    ensures !KeyLeq(ts[k], ts[i])
  {
    hide KeyLeq;
    SelectionIsFair(ts, last);
    assert IndexOf(ts, ts[i].user) == i by { IndexUnique(ts, ts[i].user, i); }
    hide Eligible, Except, Best;
    CandidatesContain(ts, last, ts[k]);
    ExceptContains(Eligible(ts), last, ts[k]);
    var p, q := EligibleInOrder(ts, k, i);
    var cs := Candidates(ts, last);
    EligibleIsDistinct(ts);
    ExceptIsDistinct(Eligible(ts), last);
    p, q := ExceptInOrder(Eligible(ts), last, p, q);
    BestAt(cs, q);
    BestIsFirst(cs, p, q);
  }

  lemma BestAt(cs: Tallies, q: nat)
    requires Distinct(cs) && q < |cs| && Best(cs).user == cs[q].user
    ensures Best(cs) == cs[q]
  {
    hide Best;
    var j :| 0 <= j < |cs| && cs[j] == Best(cs);
  }

  /**
   * What selection means: it fails only when nobody is connected, it repeats the last speaker only when nobody
   * else is connected, and otherwise it names a connected participant who has had the least.
   */
  lemma SelectionIsFair(ts: Tallies, last: Option<UserId>)
    requires Distinct(ts)
    ensures SelectNextSpeaker(ts, last) == None <==> forall k :: 0 <= k < |ts| ==> !ts[k].connected
    ensures SelectNextSpeaker(ts, last).Some? ==>
              var i := IndexOf(ts, SelectNextSpeaker(ts, last).value);
              && i < |ts| && ts[i].connected
              && forall k :: 0 <= k < |ts| && ts[k].connected ==>
                   && (Some(ts[k].user) != last ==> Some(ts[i].user) != last && KeyLeq(ts[i], ts[k]))
  {
    var cs := Candidates(ts, last);
    if cs != [] {
      var b := Best(cs);
      ACandidateIs(ts, last, b, b);
      var j :| 0 <= j < |ts| && ts[j] == b;
      assert IndexOf(ts, b.user) == j;
      BestIsLeast(cs);
      forall k | 0 <= k < |ts| && ts[k].connected
        ensures Some(ts[k].user) != last ==> Some(b.user) != last && KeyLeq(b, ts[k])
      {
        CandidatesContain(ts, last, ts[k]);
        ACandidateIs(ts, last, ts[k], b);
      }
    } else {
      forall k | 0 <= k < |ts|
        ensures !ts[k].connected
      {
        if ts[k].connected { CandidatesContain(ts, last, ts[k]); }
      }
    }
  }

  // ------------------------------------------------------------------ fairness over whole rounds

  /** One turn: the floor goes to the selected speaker, who adds `durationMs`. */
  function Turn(ts: Tallies, last: Option<UserId>, durationMs: int): (Tallies, Option<UserId>) {
    match SelectNextSpeaker(ts, last)
    case None => (ts, last)
    case Some(u) => (WithSpeech(ts, u, durationMs), Some(u))
  }

  /** A turn in which somebody is connected touches exactly one tally, and it is a fair choice. */
  lemma TurnTouchesOne(ts: Tallies, last: Option<UserId>, durationMs: int, someone: nat) returns (i: nat, ts': Tallies)
    requires Distinct(ts) && someone < |ts| && ts[someone].connected
    ensures i < |ts| && ts[i].connected && IndexOf(ts, ts[i].user) == i
    ensures SelectNextSpeaker(ts, last) == Some(ts[i].user)
    ensures Turn(ts, last, durationMs) == (ts', Some(ts[i].user))
    ensures ts' == WithSpeech(ts, ts[i].user, durationMs)
    ensures ts' == ts[i := ts[i].(spokenMs := ts[i].spokenMs + Max(0, durationMs), turnsTaken := ts[i].turnsTaken + 1)]
    ensures forall k :: 0 <= k < |ts| && ts[k].connected && Some(ts[k].user) != last ==>
              Some(ts[i].user) != last && KeyLeq(ts[i], ts[k])
  {
    hide SelectNextSpeaker;
    hide KeyLeq;
    SelectionIsFair(ts, last);
    i := IndexOf(ts, SelectNextSpeaker(ts, last).value);
    ts' := Turn(ts, last, durationMs).0;
  }

  /** Who is selected, turn by turn, when the turns last `durations`. */
  function Picks(ts: Tallies, last: Option<UserId>, durations: seq<int>): (r: seq<Option<UserId>>)
    ensures |r| == |durations|
    decreases durations
  {
    if durations == [] then []
    else
      var (ts', last') := Turn(ts, last, durations[0]);
      [SelectNextSpeaker(ts, last)] + Picks(ts', last', durations[1..])
  }

  function After(ts: Tallies, last: Option<UserId>, durations: seq<int>): (Tallies, Option<UserId>)
    decreases durations
  {
    if durations == [] then (ts, last)
    else
      var (ts', last') := Turn(ts, last, durations[0]);
      After(ts', last', durations[1..])
  }

  /** How much the others may still speak before somebody with `ms` must be the least heard. */
  function Deficit(ts: Tallies, x: UserId, ms: nat): nat {
    if ts == [] then 0
    else
      (if ts[0].connected && ts[0].user != x then Max(0, ms + 1 - ts[0].spokenMs) else 0)
      + Deficit(ts[1..], x, ms)
  }

  lemma {:induction false} DeficitAfterSpeech(ts: Tallies, x: UserId, ms: nat, y: UserId, d: int)
    requires x != y && d >= 1
    ensures Deficit(WithSpeech(ts, y, d), x, ms) <= Deficit(ts, x, ms)
    ensures var i := IndexOf(ts, y);
            i < |ts| && ts[i].connected && ts[i].spokenMs <= ms ==>
              Deficit(WithSpeech(ts, y, d), x, ms) < Deficit(ts, x, ms)
  {
    if ts != [] {
      if ts[0].user == y {
        assert WithSpeech(ts, y, d)[1..] == ts[1..];
      } else {
        DeficitAfterSpeech(ts[1..], x, ms, y, d);
        assert WithSpeech(ts, y, d) == [ts[0]] + WithSpeech(ts[1..], y, d);
      }
    }
  }

  /**
   * No starvation: when every turn adds at least one millisecond and nobody joins or leaves, a connected
   * participant is called within two turns more than the others' total head start allows.
   */
  lemma {:induction false} NoStarvation(ts: Tallies, last: Option<UserId>, durations: seq<int>, x: UserId)
    requires Distinct(ts)
    requires IndexOf(ts, x) < |ts| && ts[IndexOf(ts, x)].connected
    requires forall k :: 0 <= k < |durations| ==> durations[k] >= 1
    requires |durations| == 2 + Deficit(ts, x, ts[IndexOf(ts, x)].spokenMs)
    ensures Some(x) in Picks(ts, last, durations)
  {
    NoStarvationWithin(ts, last, durations, x);
  }

  /** The inductive form: the extra turn is needed only while x itself was the last speaker. */
  lemma {:induction false} NoStarvationWithin(ts: Tallies, last: Option<UserId>, durations: seq<int>, x: UserId)
    requires Distinct(ts)
    requires IndexOf(ts, x) < |ts| && ts[IndexOf(ts, x)].connected
    requires forall k :: 0 <= k < |durations| ==> durations[k] >= 1
    requires |durations| >= (if last == Some(x) then 2 else 1) + Deficit(ts, x, ts[IndexOf(ts, x)].spokenMs)
    ensures Some(x) in Picks(ts, last, durations)
    decreases |durations|
  {
    var ix := IndexOf(ts, x);
    var i, ts' := TurnTouchesOne(ts, last, durations[0], ix);
    if i == ix {
      assert Picks(ts, last, durations)[0] == Some(x);
    } else {
      DeficitAfterSpeech(ts, x, ts[ix].spokenMs, ts[i].user, durations[0]);
      IndexUnique(ts', x, ix);
      NoStarvationWithin(ts', Some(ts[i].user), durations[1..], x);
      assert Picks(ts, last, durations)[1..] == Picks(ts', Some(ts[i].user), durations[1..]);
    }
  }

  lemma IndexUnique(ts: Tallies, u: UserId, i: nat)
    requires Distinct(ts) && i < |ts| && ts[i].user == u
    ensures IndexOf(ts, u) == i
  {
  }

  /** Equal shares so far: everyone's time is `d` a turn, and nobody is more than a turn ahead of anybody. */
  ghost predicate Even(ts: Tallies, last: Option<UserId>, d: nat) {
    && Distinct(ts)
    && (forall i :: 0 <= i < |ts| && ts[i].connected ==> ts[i].spokenMs == d * ts[i].turnsTaken)
    && WithinOne(ts)
    && (forall i, j ::
          0 <= i < |ts| && 0 <= j < |ts| && ts[i].connected && ts[j].connected && Some(ts[i].user) == last ==>
          ts[j].turnsTaken <= ts[i].turnsTaken)
  }

  /** No connected participant is more than one turn ahead of another. */
  ghost predicate WithinOne(ts: Tallies) {
    forall i, j :: 0 <= i < |ts| && 0 <= j < |ts| && ts[i].connected && ts[j].connected ==>
      ts[i].turnsTaken <= ts[j].turnsTaken + 1
  }

  lemma MoreTimeMoreTurns(d: nat, a: nat, b: nat)
    ensures d * a < d * b ==> a < b
    ensures d * (a + 1) == d * a + d
  {
  }

  lemma EvenTurn(ts: Tallies, last: Option<UserId>, d: nat)
    requires Even(ts, last, d)
    ensures var (ts', last') := Turn(ts, last, d); Even(ts', last', d)
  {
    SelectionIsFair(ts, last);
    if SelectNextSpeaker(ts, last).Some? {
      var i, ts' := TurnTouchesOne(ts, last, d, IndexOf(ts, SelectNextSpeaker(ts, last).value));
      forall k | 0 <= k < |ts| && ts[k].connected
        ensures ts[i].turnsTaken <= ts[k].turnsTaken
      {
        MoreTimeMoreTurns(d, ts[i].turnsTaken, ts[k].turnsTaken);
      }
      EvenAfter(ts, ts', i, d);
    }
  }

  lemma EvenAfter(ts: Tallies, ts': Tallies, i: nat, d: nat)
    requires Distinct(ts) && WithinOne(ts) && i < |ts| && ts[i].connected
    requires forall k :: 0 <= k < |ts| && ts[k].connected ==> ts[k].spokenMs == d * ts[k].turnsTaken
    requires forall k :: 0 <= k < |ts| && ts[k].connected ==> ts[i].turnsTaken <= ts[k].turnsTaken
    requires ts' == ts[i := ts[i].(spokenMs := ts[i].spokenMs + d, turnsTaken := ts[i].turnsTaken + 1)]
    ensures Even(ts', Some(ts[i].user), d)
  {
  }

  /**
   * Equal contributions from a clean start: after any number of turns of one length, no two connected
   * participants' turn counts differ by more than one.
   */
  lemma EqualSharesStayEqual(ts: Tallies, d: nat, n: nat)
    requires Distinct(ts) && forall i :: 0 <= i < |ts| ==> ts[i].spokenMs == 0 && ts[i].turnsTaken == 0
    ensures var (ts', _) := After(ts, None, seq(n, _ => d));
            WithinOne(ts')
  {
    EvenRun(ts, None, d, n);
  }

  lemma {:induction false} EvenRun(ts: Tallies, last: Option<UserId>, d: nat, n: nat)
    requires Even(ts, last, d)
    ensures var (ts', last') := After(ts, last, seq(n, _ => d)); Even(ts', last', d)
    decreases n
  {
    if n > 0 {
      EvenTurn(ts, last, d);
      var (ts', last') := Turn(ts, last, d);
      assert seq(n, _ => d)[1..] == seq(n - 1, _ => d);
      EvenRun(ts', last', d, n - 1);
    }
  }

  // ------------------------------------------------------------------ the ledger object

  /** No tally but the one of `u` is touched. */
  ghost predicate OnlyTally(before: Tallies, after: Tallies, u: UserId) {
    |after| == |before| && forall i :: 0 <= i < |before| && i != IndexOf(before, u) ==> after[i] == before[i]
  }

  class SpeakingTimeLedger {
    var tallies: Tallies

    constructor ()
      ensures tallies == []
    {
      tallies := [];
    }

    method Register(u: UserId, name: string)
      modifies this
      ensures tallies == Registered(old(tallies), u, name)
      ensures IndexOf(old(tallies), u) < |old(tallies)| ==> tallies == old(tallies)
      ensures IndexOf(old(tallies), u) == |old(tallies)| ==> tallies == old(tallies) + [Tally(u, name, 0, 0, 0, true)]
    {
      if IndexOf(tallies, u) == |tallies| {
        tallies := tallies + [Tally(u, name, 0, 0, 0, true)];
      }
    }

    method AddSpeech(u: UserId, durationMs: int)
      modifies this
      ensures tallies == WithSpeech(old(tallies), u, durationMs)
      ensures OnlyTally(old(tallies), tallies, u)
      ensures var i := IndexOf(old(tallies), u);
              i < |tallies| ==>
                tallies[i] == old(tallies)[i].(spokenMs := old(tallies)[i].spokenMs + Max(0, durationMs),
                                               turnsTaken := old(tallies)[i].turnsTaken + 1)
    {
      var i := IndexOf(tallies, u);
      if i == |tallies| { return; }
      var t := tallies[i];
      tallies := tallies[i := t.(spokenMs := t.spokenMs + Max(0, durationMs), turnsTaken := t.turnsTaken + 1)];
    }

    method AddFollowUp(u: UserId)
      modifies this
      ensures tallies == WithFollowUp(old(tallies), u)
      ensures OnlyTally(old(tallies), tallies, u)
      ensures var i := IndexOf(old(tallies), u);
              i < |tallies| ==> tallies[i] == old(tallies)[i].(followUps := old(tallies)[i].followUps + 1)
    {
      var i := IndexOf(tallies, u);
      if i < |tallies| {
        tallies := tallies[i := tallies[i].(followUps := tallies[i].followUps + 1)];
      }
    }

    method SetConnected(u: UserId, connected: bool)
      modifies this
      ensures tallies == WithConnection(old(tallies), u, connected)
      ensures OnlyTally(old(tallies), tallies, u)
      ensures var i := IndexOf(old(tallies), u);
              i < |tallies| ==> tallies[i] == old(tallies)[i].(connected := connected)
    {
      var i := IndexOf(tallies, u);
      if i < |tallies| {
        tallies := tallies[i := tallies[i].(connected := connected)];
      }
    }
  }
}
