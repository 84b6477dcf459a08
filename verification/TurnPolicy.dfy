/** What the moderator does next, as functions of a snapshot (backend/app/domain/turn_policy.py). */
module TurnPolicy {
  import opened Common
  import opened Ledger
  import opened Text

  datatype Budget = Budget(
    targetSeconds: int,
    maxSeconds: int,
    minTurnsPerParticipant: int,
    maxFollowUps: int,
    maxSilentTurns: int)

  datatype EndReason =
    | Completed | TimeLimit | HostEnded | NotEnoughParticipants | NobodySpoke | JoinTimeout | FatalError

  const THIN_ANSWER_WORDS := 25
  const FULL_ANSWER_WORDS := 110
  const UNSUPPORTED_MARKERS: seq<string> := [
    "better", "worse", "best", "worst", "always", "never", "should", "shouldn't", "faster", "slower", "cheaper"]

  /** `assessment` is the judge's verdict on whether to return to the answer, if there was one in time. */
  predicate DecideFollowUp(
    answer: string, ts: Tallies, speaker: UserId, budget: Budget, elapsedSeconds: int, assessment: Option<bool>)
  {
    var i := IndexOf(ts, speaker);
    if i == |ts| then false
    else if ts[i].followUps >= budget.maxFollowUps then false
    else if elapsedSeconds > budget.targetSeconds then false
    else
      var words := WordCount(answer);
      if words == 0 then false
      else if assessment.Some? then assessment.value
      else if words < THIN_ANSWER_WORDS then true
      else if words > FULL_ANSWER_WORDS then false
      else
        var lowered := Lower(answer);
        exists k :: 0 <= k < |UNSUPPORTED_MARKERS| && Contains(lowered, UNSUPPORTED_MARKERS[k])
  }

  function ShouldClose(ts: Tallies, budget: Budget, elapsedSeconds: int, silentTurns: int): Option<EndReason> {
    if elapsedSeconds >= budget.maxSeconds then Some(TimeLimit)
    else if |Eligible(ts)| < 2 then Some(NotEnoughParticipants)
    else if silentTurns >= budget.maxSilentTurns then Some(NobodySpoke)
    else if EveryoneHasSpoken(ts, budget.minTurnsPerParticipant) && elapsedSeconds >= budget.targetSeconds
    then Some(Completed)
    else None
  }

  /** No verdict, whatever it says, overrules a spent quota or a spent clock. */
  lemma NoVerdictOverrulesTheRules(
    answer: string, ts: Tallies, speaker: UserId, budget: Budget, elapsedSeconds: int, assessment: Option<bool>)
    requires DecideFollowUp(answer, ts, speaker, budget, elapsedSeconds, assessment)
    ensures IndexOf(ts, speaker) < |ts| && ts[IndexOf(ts, speaker)].followUps < budget.maxFollowUps
    ensures elapsedSeconds <= budget.targetSeconds
  {
  }

  /** The answer itself invites more: the judge says so, or, without a verdict, it is thin or makes a bare claim. */
  ghost predicate InvitesMore(answer: string, verdict: Option<bool>) {
    var words := WordCount(answer);
    && words > 0
    && match verdict
       case Some(yes) => yes
       case None => words < 25 || (words <= 110 && exists m :: m in UNSUPPORTED_MARKERS && Mentions(Lower(answer), m))
  }

  ghost predicate Mentions(s: string, part: string) { exists i: nat :: StandsAt(s, part, i) }

  predicate StandsAt(s: string, part: string, i: nat) { i + |part| <= |s| && s[i..i + |part|] == part }

  lemma {:induction false} ContainsIsMentions(s: string, part: string)
    ensures Contains(s, part) <==> Mentions(s, part)
  {
    hide Mentions;
    MentionsFromHere(s, part);
    if s != "" { ContainsIsMentions(s[1..], part); }
  }

  lemma MentionsFromHere(s: string, part: string)
    ensures Mentions(s, part) <==> part <= s || (s != "" && Mentions(s[1..], part))
  {
    hide StandsAt;
    if part <= s { assert StandsAt(s, part, 0) by { StandsLater(s, part, 0); } }
    if s != "" && Mentions(s[1..], part) {
      var i: nat :| StandsAt(s[1..], part, i);
      StandsLater(s, part, i + 1);
    }
    if Mentions(s, part) {
      var i: nat :| StandsAt(s, part, i);
      StandsLater(s, part, i);
    }
  }

  lemma StandsLater(s: string, part: string, i: nat)
    ensures i == 0 ==> (StandsAt(s, part, i) <==> part <= s)
    ensures i > 0 ==> (StandsAt(s, part, i) <==> s != "" && StandsAt(s[1..], part, i - 1))
  {
    if i == 0 {
      if part <= s { assert s[0..|part|] == part; }
    } else if i + |part| <= |s| {
      assert s[1..][i - 1..i - 1 + |part|] == s[i..i + |part|];
    }
  }

  /**
   * A follow-up is asked of a known speaker exactly when they have one left, the time aimed at has not been passed, and
   * the answer invites it: by the judge's verdict alone when there is one, and by its words when there is none.
   */
  lemma FollowsUpExactly(
    answer: string, ts: Tallies, i: nat, budget: Budget, elapsedSeconds: int, verdict: Option<bool>)
    requires i < |ts| && forall j :: 0 <= j < i ==> ts[j].user != ts[i].user
    ensures DecideFollowUp(answer, ts, ts[i].user, budget, elapsedSeconds, verdict) <==>
              && ts[i].followUps < budget.maxFollowUps
              && elapsedSeconds <= budget.targetSeconds
              && InvitesMore(answer, verdict)
  {
    hide Contains, Mentions, WordCount, Lower;
    assert IndexOf(ts, ts[i].user) == i;
    forall m | m in UNSUPPORTED_MARKERS
      ensures Contains(Lower(answer), m) <==> Mentions(Lower(answer), m)
    {
      ContainsIsMentions(Lower(answer), m);
    }
    var known := UNSUPPORTED_MARKERS;
    if m :| m in known && Mentions(Lower(answer), m) {
      var k :| 0 <= k < |known| && known[k] == m;
      assert Contains(Lower(answer), known[k]);
    }
    if k :| 0 <= k < |known| && Contains(Lower(answer), known[k]) {
      assert known[k] in known;
    }
  }

  ghost predicate AtMostOneConnected(ts: Tallies) {
    forall i, j :: 0 <= i < j < |ts| ==> !(ts[i].connected && ts[j].connected)
  }

  ghost predicate AllHaveHad(ts: Tallies, turns: int) {
    forall i :: 0 <= i < |ts| && ts[i].connected ==> ts[i].turnsTaken >= turns
  }

  lemma {:induction false} EligibleCounts(ts: Tallies)
    ensures |Eligible(ts)| == 0 <==> forall i :: 0 <= i < |ts| ==> !ts[i].connected
    ensures |Eligible(ts)| < 2 <==> AtMostOneConnected(ts)
  {
    if ts != [] {
      var rest := ts[1..];
      EligibleCounts(rest);
      assert forall i :: 0 <= i < |rest| ==> rest[i] == ts[i + 1];
      if AtMostOneConnected(ts) {
        forall i, j | 0 <= i < j < |rest|
          ensures !(rest[i].connected && rest[j].connected)
        {
          assert rest[i] == ts[i + 1] && rest[j] == ts[j + 1];
        }
        if ts[0].connected {
          forall i | 0 <= i < |rest|
            ensures !rest[i].connected
          {
            assert rest[i] == ts[i + 1];
          }
        }
      }
      if |Eligible(ts)| < 2 {
        forall i, j | 0 <= i < j < |ts|
          ensures !(ts[i].connected && ts[j].connected)
        {
          assert ts[j] == rest[j - 1];
          if i > 0 { assert ts[i] == rest[i - 1]; }
        }
      }
    }
  }

  /** When a discussion ends on its own, and what for: the reasons in order, each only when none before it applies. */
  lemma ClosesExactly(ts: Tallies, budget: Budget, elapsedSeconds: int, silentTurns: int)
    ensures var close := ShouldClose(ts, budget, elapsedSeconds, silentTurns);
            var late := elapsedSeconds >= budget.maxSeconds;
            var alone := AtMostOneConnected(ts);
            var silent := silentTurns >= budget.maxSilentTurns;
            var done := AllHaveHad(ts, budget.minTurnsPerParticipant) && elapsedSeconds >= budget.targetSeconds;
            && (close == Some(TimeLimit) <==> late)
            && (close == Some(NotEnoughParticipants) <==> !late && alone)
            && (close == Some(NobodySpoke) <==> !late && !alone && silent)
            && (close == Some(Completed) <==> !late && !alone && !silent && done)
            && (close == None <==> !late && !alone && !silent && !done)
  {
    EligibleCounts(ts);
    forall t | t in ts
      ensures t in Eligible(ts) <==> t.connected
    {
      EligibleIsTheLoop(ts, t);
    }
    if !AllHaveHad(ts, budget.minTurnsPerParticipant) {
      var i :| 0 <= i < |ts| && ts[i].connected && ts[i].turnsTaken < budget.minTurnsPerParticipant;
      assert ts[i] in ts;
    }
    forall t | t in Eligible(ts)
      ensures t in ts && t.connected
    {
      EligibleIsTheLoop(ts, t);
    }
  }
}
