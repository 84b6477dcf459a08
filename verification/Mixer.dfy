/**
 * The session mixer (backend/app/modules/voice/mixer.py): one shared buffer per source, a read cursor per peer,
 * and compaction of what everybody has heard. It refines an unbounded log with one absolute position per peer.
 */
module Mixer {
  import opened Common
  import opened Pcm

  const BYTES_PER_FRAME: nat := 1920
  const MAX_LAG_BYTES: nat := 96000

  function Silence(n: nat): (r: seq<byte>)
    ensures |r| == n && forall i :: 0 <= i < n ==> r[i] == 0
  {
    seq(n, _ => 0)
  }

  const SILENCE: seq<byte> := Silence(BYTES_PER_FRAME)

  datatype Source = Moderator | Human

  datatype Cursor = Cursor(moderator: nat, human: nat) {
    function At(source: Source): nat {
      match source
      case Moderator => moderator
      case Human => human
    }
  }

  // ------------------------------------------------------------------ the log

  /** Everything ever pushed, and how far into it each peer has got. */
  datatype Log = Log(
    moderator: seq<byte>,
    human: seq<byte>,
    at: map<UserId, Cursor>,
    floorHolder: Option<UserId>)

  ghost predicate WellPlaced(l: Log) {
    forall u :: u in l.at ==> l.at[u].moderator <= |l.moderator| && l.at[u].human <= |l.human|
  }

  function Attached(l: Log, u: UserId): Log {
    l.(at := l.at[u := Cursor(|l.moderator|, |l.human|)])
  }

  function Detached(l: Log, u: UserId): Log { l.(at := l.at - {u}) }

  function WithModerator(l: Log, pcm: seq<byte>): Log { l.(moderator := l.moderator + pcm) }

  function WithHuman(l: Log, pcm: seq<byte>): Log { l.(human := l.human + pcm) }

  /** Where a read starts: a live source that is too far ahead is joined one frame from its end. */
  function ReadFrom(length: nat, position: nat, stayLive: bool): (p: nat)
    ensures p <= length || p == position
  {
    if stayLive && length - position > MAX_LAG_BYTES then length - BYTES_PER_FRAME else position
  }

  function ReadTo(length: nat, position: nat, stayLive: bool): nat {
    if position >= length then position
    else Min(ReadFrom(length, position, stayLive) + BYTES_PER_FRAME, length)
  }

  /** The bytes one read takes, before padding. */
  function Chunk(source: seq<byte>, position: nat, stayLive: bool): (r: seq<byte>)
    ensures |r| <= BYTES_PER_FRAME
  {
    if position >= |source| then []
    else source[ReadFrom(|source|, position, stayLive)..ReadTo(|source|, position, stayLive)]
  }

  function Padded(chunk: seq<byte>): (r: seq<byte>)
    requires |chunk| <= BYTES_PER_FRAME
    ensures |r| == BYTES_PER_FRAME
  {
    chunk + Silence(BYTES_PER_FRAME - |chunk|)
  }

  /** What peer `u` is sent next: the moderator plus the floor, which its holder does not hear. */
  function Frame(l: Log, u: UserId): (r: seq<byte>)
    ensures |r| == BYTES_PER_FRAME
  {
    if u !in l.at then SILENCE
    else
      var moderator := Padded(Chunk(l.moderator, l.at[u].moderator, false));
      var human := if l.floorHolder == Some(u) then SILENCE else Padded(Chunk(l.human, l.at[u].human, true));
      Bytes(Sum(Samples(moderator), Samples(human)))
  }

  function AfterRead(l: Log, u: UserId): Log {
    if u !in l.at then l
    else l.(at := l.at[u := Cursor(
      ReadTo(|l.moderator|, l.at[u].moderator, false),
      ReadTo(|l.human|, l.at[u].human, true))])
  }

  ghost predicate IsLeast(at: map<UserId, Cursor>, m: nat) {
    (exists u :: u in at && at[u].moderator == m) && forall u :: u in at ==> m <= at[u].moderator
  }

  lemma LeastIsUnique(at: map<UserId, Cursor>, m: nat, m': nat)
    requires IsLeast(at, m) && IsLeast(at, m')
    ensures m == m'
  {
  }

  /** A barge-in puts every peer at `m`, where the slowest one is. */
  function Levelled(l: Log, m: nat): Log {
    l.(at := map u | u in l.at :: l.at[u].(moderator := m))
  }

  lemma {:induction false} LeastExists(at: map<UserId, Cursor>)
    requires at != map[]
    ensures exists m: nat :: IsLeast(at, m)
    decreases |at|
  {
    var u :| u in at;
    var others := at - {u};
    if others == map[] {
      assert forall v :: v in at && v != u ==> v in others;
      assert IsLeast(at, at[u].moderator);
    } else {
      LeastExists(others);
      var least: nat :| IsLeast(others, least);
      assert forall v :: v in at && v != u ==> v in others && others[v] == at[v];
      assert IsLeast(at, Min(least, at[u].moderator));
    }
  }

  /** Where the slowest peer is. */
  ghost function Least(at: map<UserId, Cursor>): (m: nat)
    requires at != map[]
    ensures IsLeast(at, m)
  {
    LeastExists(at);
    var m: nat :| IsLeast(at, m);
    m
  }

  /** A barge-in; with nobody attached there is nobody to move. */
  ghost function Cleared(l: Log): Log {
    if l.at == map[] then l else Levelled(l, Least(l.at))
  }

  // ------------------------------------------------------------------ what a listener hears

  /** Where the next read of the floor starts: where the listener is, unless that is more than a second behind. */
  function LiveFrom(l: Log, u: UserId): nat
    requires u in l.at
  {
    if |l.human| - l.at[u].human > MAX_LAG_BYTES then |l.human| - BYTES_PER_FRAME else l.at[u].human
  }

  /** The next frame's worth of a source from a place in it, shorter at its end. */
  function NextBytes(source: seq<byte>, from: nat): seq<byte>
    requires from <= |source|
  {
    source[from..Min(from + BYTES_PER_FRAME, |source|)]
  }

  /** The floor, as far as the next frame for this listener holds it; whoever has the floor is not sent it. */
  function NextLive(l: Log, u: UserId): seq<byte>
    requires u in l.at && WellPlaced(l)
  {
    if l.floorHolder == Some(u) then [] else NextBytes(l.human, LiveFrom(l, u))
  }

  /** The k-th sample of some bytes followed by silence. */
  function SampleAt(bytes: seq<byte>, k: nat): sample {
    Decode(if 2 * k < |bytes| then bytes[2 * k] else 0, if 2 * k + 1 < |bytes| then bytes[2 * k + 1] else 0)
  }

  ghost predicate MixOf(frame: seq<byte>, a: seq<byte>, b: seq<byte>) {
    && |frame| == BYTES_PER_FRAME
    && forall k :: 0 <= k < BYTES_PER_FRAME / 2 ==> IsMix(SampleAt(frame, k), SampleAt(a, k), SampleAt(b, k))
  }

  /** The frame is what this listener is to hear: the moderator's next bytes and the floor's, together. */
  ghost predicate Carries(frame: seq<byte>, l: Log, u: UserId) {
    u in l.at ==> WellPlaced(l) && MixOf(frame, NextBytes(l.moderator, l.at[u].moderator), NextLive(l, u))
  }

  lemma PaddedSamples(chunk: seq<byte>, k: nat)
    requires |chunk| <= BYTES_PER_FRAME && k < BYTES_PER_FRAME / 2
    ensures |Samples(Padded(chunk))| == BYTES_PER_FRAME / 2 && Samples(Padded(chunk))[k] == SampleAt(chunk, k)
  {
  }

  lemma ChunkIsNext(source: seq<byte>, position: nat)
    requires position <= |source|
    ensures Chunk(source, position, false) == NextBytes(source, position)
    ensures Chunk(source, position, true) ==
            NextBytes(source, if |source| - position > MAX_LAG_BYTES then |source| - BYTES_PER_FRAME else position)
    ensures ReadTo(|source|, position, false) == position + |NextBytes(source, position)|
    ensures ReadTo(|source|, position, true) ==
            var from := if |source| - position > MAX_LAG_BYTES then |source| - BYTES_PER_FRAME else position;
            from + |NextBytes(source, from)|
  {
  }

  /**
   * What a listener is sent is the sum, sample by sample and clipped, of the moderator's next bytes and the floor's,
   * each followed by silence; and the listener is then just past both.
   */
  lemma FrameIsTheMix(l: Log, u: UserId)
    requires WellPlaced(l) && u in l.at
    ensures Carries(Frame(l, u), l, u)
    ensures var at := AfterRead(l, u).at[u];
            && at.moderator == l.at[u].moderator + |NextBytes(l.moderator, l.at[u].moderator)|
            && at.human == LiveFrom(l, u) + |NextBytes(l.human, LiveFrom(l, u))|
  {
    hide Frame, AfterRead, NextBytes, NextLive, LiveFrom, MixOf, Sum, Samples, Bytes, Padded;
    var a, b := NextBytes(l.moderator, l.at[u].moderator), NextLive(l, u);
    FrameIsTheSum(l, u, a, b);
    PaddedSumIsMix(a, b);
    ReadMovesPast(l, u);
  }

  lemma FrameIsTheSum(l: Log, u: UserId, a: seq<byte>, b: seq<byte>)
    requires WellPlaced(l) && u in l.at && a == NextBytes(l.moderator, l.at[u].moderator) && b == NextLive(l, u)
    ensures |a| <= BYTES_PER_FRAME && |b| <= BYTES_PER_FRAME
    ensures Frame(l, u) == Bytes(Sum(Samples(Padded(a)), Samples(Padded(b))))
  {
    hide Sum, Samples, Bytes;
    ChunkIsNext(l.moderator, l.at[u].moderator);
    ChunkIsNext(l.human, l.at[u].human);
    assert Padded([]) == SILENCE;
    hide Chunk, Padded;
  }

  lemma ReadMovesPast(l: Log, u: UserId)
    requires WellPlaced(l) && u in l.at
    ensures var at := AfterRead(l, u).at[u];
            && at.moderator == l.at[u].moderator + |NextBytes(l.moderator, l.at[u].moderator)|
            && at.human == LiveFrom(l, u) + |NextBytes(l.human, LiveFrom(l, u))|
  {
    ChunkIsNext(l.moderator, l.at[u].moderator);
    ChunkIsNext(l.human, l.at[u].human);
    hide NextBytes, ReadTo, Chunk;
  }

  lemma PaddedSumIsMix(a: seq<byte>, b: seq<byte>)
    requires |a| <= BYTES_PER_FRAME && |b| <= BYTES_PER_FRAME
    ensures MixOf(Bytes(Sum(Samples(Padded(a)), Samples(Padded(b)))), a, b)
  {
    hide Padded, Bytes, Samples;
    var sum := Sum(Samples(Padded(a)), Samples(Padded(b)));
    SamplesOfBytes(sum);
    forall k | 0 <= k < BYTES_PER_FRAME / 2
      ensures IsMix(SampleAt(Bytes(sum), k), SampleAt(a, k), SampleAt(b, k))
    {
      PaddedSamples(a, k);
      PaddedSamples(b, k);
      SamplesAre(Bytes(sum), k);
    }
  }

  lemma SamplesAre(bytes: seq<byte>, k: nat)
    requires 2 * k + 1 < |bytes|
    ensures Samples(bytes)[k] == SampleAt(bytes, k)
  {
  }

  // ------------------------------------------------------------------ whole runs

  datatype Op =
    | Attach(u: UserId)
    | Detach(u: UserId)
    | PushModerator(pcm: seq<byte>)
    | PushHuman(pcm: seq<byte>)
    | Read(u: UserId)
    | Clear
    | Floor(holder: Option<UserId>)

  ghost function Step(l: Log, op: Op): Log {
    match op
    case Attach(u) => Attached(l, u)
    case Detach(u) => Detached(l, u)
    case PushModerator(pcm) => WithModerator(l, pcm)
    case PushHuman(pcm) => WithHuman(l, pcm)
    case Read(u) => AfterRead(l, u)
    case Clear => Cleared(l)
    case Floor(holder) => l.(floorHolder := holder)
  }

  ghost function Run(l: Log, ops: seq<Op>): Log
    decreases ops
  {
    if ops == [] then l else Run(Step(l, ops[0]), ops[1..])
  }

  /** The moderator bytes peer `u` is sent during a run, padding left out. */
  ghost function Heard(l: Log, ops: seq<Op>, u: UserId): seq<byte>
    decreases ops
  {
    if ops == [] then []
    else
      (if ops[0] == Read(u) && u in l.at then Chunk(l.moderator, l.at[u].moderator, false) else [])
      + Heard(Step(l, ops[0]), ops[1..], u)
  }

  /** The peer neither comes nor goes during the run. */
  ghost predicate Stays(ops: seq<Op>, u: UserId) {
    forall i :: 0 <= i < |ops| ==> ops[i] != Attach(u) && ops[i] != Detach(u)
  }

  function Span(from: nat, end: nat): seq<nat> {
    if from < end then seq(end - from, i requires 0 <= i => from + i) else []
  }

  /** Which bytes of the moderator's log those are, in the order they are sent. */
  ghost function Places(l: Log, ops: seq<Op>, u: UserId): seq<nat>
    decreases ops
  {
    if ops == [] then []
    else
      (if ops[0] == Read(u) && u in l.at
       then Span(l.at[u].moderator, ReadTo(|l.moderator|, l.at[u].moderator, false)) else [])
      + Places(Step(l, ops[0]), ops[1..], u)
  }

  /** How often a barge-in took peer `u` back over byte `k`: the peer was past it, and the slowest was not. */
  ghost function Rewinds(l: Log, ops: seq<Op>, u: UserId, k: nat): nat
    decreases ops
  {
    if ops == [] then 0
    else
      (if ops[0] == Clear && u in l.at && Least(l.at) <= k < l.at[u].moderator then 1 else 0)
      + Rewinds(Step(l, ops[0]), ops[1..], u, k)
  }

  lemma StepKeeps(l: Log, op: Op, u: UserId)
    requires WellPlaced(l) && u in l.at && op != Attach(u) && op != Detach(u)
    ensures WellPlaced(Step(l, op)) && u in Step(l, op).at
    ensures l.moderator <= Step(l, op).moderator
    ensures op.Clear? ==> l.at != map[] && Step(l, op).at[u].moderator == Least(l.at) <= l.at[u].moderator
    ensures !op.Clear? ==>
              Step(l, op).at[u].moderator ==
              if op == Read(u) then ReadTo(|l.moderator|, l.at[u].moderator, false) else l.at[u].moderator
  {
  }

  /** What is sent is the log, at those places. */
  lemma {:induction false} HeardAtPlaces(l: Log, ops: seq<Op>, u: UserId)
    requires WellPlaced(l) && u in l.at && Stays(ops, u)
    ensures WellPlaced(Run(l, ops)) && u in Run(l, ops).at && l.moderator <= Run(l, ops).moderator
    ensures |Heard(l, ops, u)| == |Places(l, ops, u)|
    ensures forall i :: 0 <= i < |Places(l, ops, u)| ==>
              && Places(l, ops, u)[i] < |Run(l, ops).moderator|
              && Heard(l, ops, u)[i] == Run(l, ops).moderator[Places(l, ops, u)[i]]
    decreases ops
  {
    hide Step;
    if ops != [] {
      StepKeeps(l, ops[0], u);
      HeardAtPlaces(Step(l, ops[0]), ops[1..], u);
      assert l.moderator <= Step(l, ops[0]).moderator <= Run(l, ops).moderator;
    }
  }

  lemma {:induction false} SpanCounts(from: nat, end: nat, k: nat)
    ensures multiset(Span(from, end))[k] == (if from <= k < end then 1 else 0)
    decreases end
  {
    if from < end {
      SpanCounts(from, end - 1, k);
      assert Span(from, end) == Span(from, end - 1) + [end - 1];
    }
  }

  /**
   * Over any run, with other peers coming and going, the floor changing hands and barge-ins at any moment: a byte is
   * sent once if the peer has moved past it, and once more for each barge-in that took the peer back over it. So none
   * is skipped, and none is sent again but those between the slowest peer and this one.
   */
  lemma {:induction false} EachByteSentExactly(l: Log, ops: seq<Op>, u: UserId, k: nat)
    requires WellPlaced(l) && u in l.at && Stays(ops, u)
    ensures u in Run(l, ops).at
    ensures multiset(Places(l, ops, u))[k] + (if k < l.at[u].moderator then 1 else 0)
         == Rewinds(l, ops, u, k) + (if k < Run(l, ops).at[u].moderator then 1 else 0)
    decreases ops
  {
    hide Step, Span, ReadTo;
    if ops != [] {
      var l1, at := Step(l, ops[0]), l.at[u].moderator;
      StepKeeps(l, ops[0], u);
      EachByteSentExactly(l1, ops[1..], u, k);
      var sent := if ops[0] == Read(u) then Span(at, ReadTo(|l.moderator|, at, false)) else [];
      assert Places(l, ops, u) == sent + Places(l1, ops[1..], u);
      if ops[0] == Read(u) {
        SpanCounts(at, l1.at[u].moderator, k);
        ReadsForward(|l.moderator|, at);
      }
    }
  }

  lemma ReadsForward(length: nat, position: nat)
    requires position <= length
    ensures position <= ReadTo(length, position, false) <= length
  {
  }

  /** And in order: each byte sent is the one after the last, or the peer has been taken back. */
  lemma {:induction false} SentInOrder(l: Log, ops: seq<Op>, u: UserId)
    requires WellPlaced(l) && u in l.at && Stays(ops, u)
    ensures Places(l, ops, u) != [] ==> Places(l, ops, u)[0] <= l.at[u].moderator
    ensures forall i :: 0 < i < |Places(l, ops, u)| ==> Places(l, ops, u)[i] <= Places(l, ops, u)[i - 1] + 1
    decreases ops
  {
    hide Step, ReadTo;
    if ops != [] {
      var l1, at := Step(l, ops[0]), l.at[u].moderator;
      StepKeeps(l, ops[0], u);
      SentInOrder(l1, ops[1..], u);
      ReadsForward(|l.moderator|, at);
    }
  }

  /** A peer that joins is sent something from before it came only when a barge-in takes it back there. */
  lemma OldAudioOnlyByBargeIn(l: Log, u: UserId, ops: seq<Op>, k: nat)
    requires WellPlaced(l) && Stays(ops, u) && k < |l.moderator|
    requires k in Places(Attached(l, u), ops, u)
    ensures Rewinds(Attached(l, u), ops, u, k) > 0
  {
    EachByteSentExactly(Attached(l, u), ops, u, k);
  }

  /** Which happens: two people, one of whom joins after the other has fallen behind, and is sent what she missed. */
  lemma JoinerIsSentOldAudio()
    ensures var l := Log([1, 1], [], map[0 := Cursor(0, 0)], None);
            Heard(Attached(l, 1), [Clear, Read(1)], 1) == [1, 1]
  {
    var l := Log([1, 1], [], map[0 := Cursor(0, 0)], None);
    var joined := Attached(l, 1);
    assert joined.at[0].moderator == 0;
    assert Least(joined.at) == 0 by { LeastIsUnique(joined.at, Least(joined.at), 0); }
    var cleared := Step(joined, Clear);
    assert cleared.at[1].moderator == 0;
    assert [Clear, Read(1)][1..] == [Read(1)];
    assert Heard(cleared, [Read(1)], 1) == [1, 1] + Heard(Step(cleared, Read(1)), [], 1);
  }

  /** Between barge-ins: from its attach point on, a peer hears the moderator's log once, in order and without a gap. */
  lemma {:induction false} EachByteHeardOnce(l: Log, ops: seq<Op>, u: UserId)
    requires WellPlaced(l) && u in l.at && Stays(ops, u) && Clear !in ops
    ensures WellPlaced(Run(l, ops)) && u in Run(l, ops).at
    ensures l.at[u].moderator <= Run(l, ops).at[u].moderator <= |Run(l, ops).moderator|
    ensures Heard(l, ops, u) == Run(l, ops).moderator[l.at[u].moderator..Run(l, ops).at[u].moderator]
    ensures l.moderator <= Run(l, ops).moderator
    decreases ops
  {
    hide Step;
    hide Chunk;
    if ops != [] {
      var l1 := Step(l, ops[0]);
      StepHears(l, ops[0], u);
      EachByteHeardOnce(l1, ops[1..], u);
      var from, mid, to := l.at[u].moderator, l1.at[u].moderator, Run(l, ops).at[u].moderator;
      var all := Run(l, ops).moderator;
      assert all[from..to] == all[from..mid] + all[mid..to];
      assert all[from..mid] == l1.moderator[from..mid];
    }
  }

  lemma StepHears(l: Log, op: Op, u: UserId)
    requires WellPlaced(l) && u in l.at && op != Attach(u) && op != Detach(u) && op != Clear
    ensures WellPlaced(Step(l, op)) && u in Step(l, op).at
    ensures l.moderator <= Step(l, op).moderator
    ensures l.at[u].moderator <= Step(l, op).at[u].moderator
    ensures (if op == Read(u) then Chunk(l.moderator, l.at[u].moderator, false) else [])
         == Step(l, op).moderator[l.at[u].moderator..Step(l, op).at[u].moderator]
  {
  }

  /**
   * A joiner's run: attached at the live edge, it hears exactly what was pushed after it came, until the first
   * barge-in.
   */
  lemma JoinerHearsOnlyWhatFollows(l: Log, u: UserId, ops: seq<Op>)
    requires WellPlaced(l) && Stays(ops, u) && Clear !in ops
    ensures var end := Run(l, [Attach(u)] + ops);
            && |l.moderator| <= |end.moderator| && u in end.at
            && |l.moderator| <= end.at[u].moderator <= |end.moderator|
            && Heard(l, [Attach(u)] + ops, u) == end.moderator[|l.moderator|..end.at[u].moderator]
  {
    var l1 := Attached(l, u);
    EachByteHeardOnce(l1, ops, u);
    assert ([Attach(u)] + ops)[1..] == ops;
    var end := Run(l1, ops);
    assert Heard(l, [Attach(u)] + ops, u) == [] + Heard(l1, ops, u);
  }

  // ------------------------------------------------------------------ the floor, over whole runs

  /** The floor's bytes that peer `u` is sent during a run, padding left out. */
  ghost function HeardLive(l: Log, ops: seq<Op>, u: UserId): seq<byte>
    requires WellPlaced(l) && u in l.at && Stays(ops, u)
    decreases ops
  {
    if ops == [] then []
    else
      StepKeeps(l, ops[0], u);
      (if ops[0] == Read(u) then NextLive(l, u) else []) + HeardLive(Step(l, ops[0]), ops[1..], u)
  }

  /** And which bytes of the floor's log those are. */
  ghost function LivePlaces(l: Log, ops: seq<Op>, u: UserId): seq<nat>
    requires WellPlaced(l) && u in l.at && Stays(ops, u)
    decreases ops
  {
    if ops == [] then []
    else
      StepKeeps(l, ops[0], u);
      (if ops[0] == Read(u) && l.floorHolder != Some(u)
       then Span(LiveFrom(l, u), Min(LiveFrom(l, u) + BYTES_PER_FRAME, |l.human|)) else [])
      + LivePlaces(Step(l, ops[0]), ops[1..], u)
  }

  /** At none of its reads does the peer hold the floor or lag by more than is allowed. */
  ghost predicate KeepsUp(l: Log, ops: seq<Op>, u: UserId)
    requires WellPlaced(l) && u in l.at && Stays(ops, u)
    decreases ops
  {
    ops == [] ||
      (StepKeeps(l, ops[0], u);
       && (ops[0] == Read(u) ==> l.floorHolder != Some(u) && |l.human| - l.at[u].human <= MAX_LAG_BYTES)
       && KeepsUp(Step(l, ops[0]), ops[1..], u))
  }

  lemma StepMovesLive(l: Log, op: Op, u: UserId)
    requires WellPlaced(l) && u in l.at && op != Attach(u) && op != Detach(u)
    ensures u in Step(l, op).at && l.human <= Step(l, op).human
    ensures Step(l, op).at[u].human ==
            if op == Read(u) then Min(LiveFrom(l, u) + BYTES_PER_FRAME, |l.human|) else l.at[u].human
    ensures l.at[u].human <= LiveFrom(l, u) <= |l.human|
  {
  }

  lemma NextLiveIsAt(l: Log, u: UserId)
    requires WellPlaced(l) && u in l.at && l.floorHolder != Some(u)
    ensures var span := Span(LiveFrom(l, u), Min(LiveFrom(l, u) + BYTES_PER_FRAME, |l.human|));
            && |NextLive(l, u)| == |span|
            && forall i :: 0 <= i < |span| ==> span[i] < |l.human| && NextLive(l, u)[i] == l.human[span[i]]
  {
  }

  /** What is sent is the log, at those places. */
  lemma {:induction false} HeardAtLivePlaces(l: Log, ops: seq<Op>, u: UserId)
    requires WellPlaced(l) && u in l.at && Stays(ops, u)
    ensures l.human <= Run(l, ops).human && |HeardLive(l, ops, u)| == |LivePlaces(l, ops, u)|
    ensures forall i :: 0 <= i < |LivePlaces(l, ops, u)| ==>
              && LivePlaces(l, ops, u)[i] < |Run(l, ops).human|
              && HeardLive(l, ops, u)[i] == Run(l, ops).human[LivePlaces(l, ops, u)[i]]
    decreases ops
  {
    hide Step, LiveFrom, NextLive, Span, WellPlaced;
    if ops != [] {
      StepKeeps(l, ops[0], u);
      StepMovesLive(l, ops[0], u);
      HeardAtLivePlaces(Step(l, ops[0]), ops[1..], u);
      assert l.human <= Step(l, ops[0]).human <= Run(l, ops).human;
      if ops[0] == Read(u) && l.floorHolder != Some(u) { NextLiveIsAt(l, u); }
      if l.floorHolder == Some(u) { HoldersHearNothing(l, u); }
    }
  }

  lemma HoldersHearNothing(l: Log, u: UserId)
    requires WellPlaced(l) && u in l.at && l.floorHolder == Some(u)
    ensures NextLive(l, u) == []
  {
  }

  /** Live sound is sent in order and no byte of it twice, whatever is skipped. */
  lemma {:induction false} LiveAscends(l: Log, ops: seq<Op>, u: UserId)
    requires WellPlaced(l) && u in l.at && Stays(ops, u)
    ensures u in Run(l, ops).at && l.at[u].human <= Run(l, ops).at[u].human
    ensures forall i :: 0 <= i < |LivePlaces(l, ops, u)| ==>
              l.at[u].human <= LivePlaces(l, ops, u)[i] < Run(l, ops).at[u].human
    ensures forall i, j :: 0 <= i < j < |LivePlaces(l, ops, u)| ==> LivePlaces(l, ops, u)[i] < LivePlaces(l, ops, u)[j]
    decreases ops
  {
    hide Step, LiveFrom;
    if ops != [] {
      StepKeeps(l, ops[0], u);
      StepMovesLive(l, ops[0], u);
      LiveAscends(Step(l, ops[0]), ops[1..], u);
    }
  }

  /** A listener who keeps up hears all that is said on the floor from where they start, once and in order. */
  lemma {:induction false} ListenersHearTheFloor(l: Log, ops: seq<Op>, u: UserId)
    requires WellPlaced(l) && u in l.at && Stays(ops, u) && KeepsUp(l, ops, u)
    ensures WellPlaced(Run(l, ops)) && u in Run(l, ops).at && l.human <= Run(l, ops).human
    ensures l.at[u].human <= Run(l, ops).at[u].human <= |Run(l, ops).human|
    ensures HeardLive(l, ops, u) == Run(l, ops).human[l.at[u].human..Run(l, ops).at[u].human]
    decreases ops
  {
    hide Step;
    if ops != [] {
      var l1 := Step(l, ops[0]);
      StepKeeps(l, ops[0], u);
      StepMovesLive(l, ops[0], u);
      ListenersHearTheFloor(l1, ops[1..], u);
      var from, mid, end := l.at[u].human, l1.at[u].human, Run(l, ops).at[u].human;
      var all := Run(l, ops).human;
      assert all[from..end] == all[from..mid] + all[mid..end];
      assert all[from..mid] == l1.human[from..mid] == l.human[from..mid];
    }
  }

  /** A joiner is sent nothing that was said on the floor before it came. */
  lemma JoinerHearsNoOldFloor(l: Log, u: UserId, ops: seq<Op>)
    requires WellPlaced(l) && Stays(ops, u)
    ensures WellPlaced(Attached(l, u))
    ensures forall i :: 0 <= i < |LivePlaces(Attached(l, u), ops, u)| ==>
              LivePlaces(Attached(l, u), ops, u)[i] >= |l.human|
  {
    LiveAscends(Attached(l, u), ops, u);
  }

  /** What has been pushed to a source during a run, in order. */
  function Pushed(ops: seq<Op>, source: Source): seq<byte> {
    if ops == [] then []
    else
      (match ops[0]
       case PushModerator(pcm) => if source == Moderator then pcm else []
       case PushHuman(pcm) => if source == Human then pcm else []
       case _ => [])
      + Pushed(ops[1..], source)
  }

  /** The logs are what was pushed and nothing else, whoever comes, goes, reads or barges in. */
  lemma {:induction false} LogsAreWhatWasPushed(l: Log, ops: seq<Op>)
    ensures Run(l, ops).moderator == l.moderator + Pushed(ops, Moderator)
    ensures Run(l, ops).human == l.human + Pushed(ops, Human)
    decreases ops
  {
    if ops != [] {
      var l1 := Step(l, ops[0]);
      LogsAreWhatWasPushed(l1, ops[1..]);
      StepPushes(l, ops[0]);
      hide Step;
      var m, h := Pushed([ops[0]], Moderator), Pushed([ops[0]], Human);
      assert (l.moderator + m) + Pushed(ops[1..], Moderator) == l.moderator + (m + Pushed(ops[1..], Moderator));
      assert (l.human + h) + Pushed(ops[1..], Human) == l.human + (h + Pushed(ops[1..], Human));
      assert m + [] == m && h + [] == h;
    }
  }

  lemma StepPushes(l: Log, op: Op)
    ensures Step(l, op).moderator == l.moderator + Pushed([op], Moderator)
    ensures Step(l, op).human == l.human + Pushed([op], Human)
  {
    assert Pushed([op][1..], Moderator) == [] && Pushed([op][1..], Human) == [];
  }

  /** The live source: a peer's place never moves back, and no read leaves it a second behind. */
  lemma LiveEdge(l: Log, u: UserId)
    requires WellPlaced(l) && u in l.at
    ensures WellPlaced(AfterRead(l, u))
    ensures l.at[u].human <= AfterRead(l, u).at[u].human
    ensures |l.human| - AfterRead(l, u).at[u].human <= MAX_LAG_BYTES - BYTES_PER_FRAME
    ensures |l.moderator| - AfterRead(l, u).at[u].moderator
        == Max(0, |l.moderator| - l.at[u].moderator - BYTES_PER_FRAME)
  {
  }

  ghost predicate Silent(chunk: seq<byte>) { forall i :: 0 <= i < |chunk| ==> chunk[i] == 0 }

  /**
   * The floor holder hears the moderator alone; and when one of the two sources is silent, a listener hears the other
   * unchanged.
   */
  lemma NobodyHearsThemselves(l: Log, u: UserId)
    requires u in l.at
    ensures var moderator, human := Chunk(l.moderator, l.at[u].moderator, false), Chunk(l.human, l.at[u].human, true);
            && (l.floorHolder == Some(u) || Silent(human) ==> Frame(l, u) == Padded(moderator))
            && (l.floorHolder != Some(u) && Silent(moderator) ==> Frame(l, u) == Padded(human))
  {
    var moderator, human := Chunk(l.moderator, l.at[u].moderator, false), Chunk(l.human, l.at[u].human, true);
    SilenceIsNeutral(Padded(moderator), SILENCE);
    SilenceIsNeutral(Padded(human), SILENCE);
    if Silent(moderator) { assert Padded(moderator) == SILENCE; }
    if Silent(human) { assert Padded(human) == SILENCE; }
  }

  // ------------------------------------------------------------------ barge-in, as written

  ghost predicate NothingUnplayed(l: Log) { forall u :: u in l.at ==> l.at[u].moderator == |l.moderator| }

  ghost predicate AllTogether(l: Log) {
    forall u, v :: u in l.at && v in l.at ==> l.at[u].moderator == l.at[v].moderator
  }

  /** A backlog survives a barge-in: the unplayed bytes are still there, and who was ahead is sent them twice. */
  lemma BacklogSurvivesBargeIn()
    ensures var l := Log([1, 1], [], map[0 := Cursor(1, 0), 1 := Cursor(2, 0)], None);
            IsLeast(l.at, 1) && !NothingUnplayed(Levelled(l, 1)) && Levelled(l, 1).at[1].moderator < l.at[1].moderator
  {
    var l := Log([1, 1], [], map[0 := Cursor(1, 0), 1 := Cursor(2, 0)], None);
    assert 0 in l.at && l.at[0].moderator == 1;
    assert 1 in Levelled(l, 1).at && Levelled(l, 1).at[1].moderator == 1;
  }

  /** It discards everything unplayed only when nothing was, and nobody is rewound only when all were level. */
  lemma BargeInExactly(l: Log, m: nat)
    requires WellPlaced(l) && IsLeast(l.at, m)
    ensures WellPlaced(Levelled(l, m))
    ensures NothingUnplayed(Levelled(l, m)) <==> NothingUnplayed(l)
    ensures Levelled(l, m) == l <==> AllTogether(l)
  {
    var l' := Levelled(l, m);
    var u0 :| u0 in l.at && l.at[u0].moderator == m;
    assert l'.at[u0].moderator == m;
    if AllTogether(l) {
      assert l'.at == l.at;
    }
    if l' == l {
      forall u, v | u in l.at && v in l.at
        ensures l.at[u].moderator == l.at[v].moderator
      {
        assert l'.at[u].moderator == m == l'.at[v].moderator;
      }
    }
  }

  // ------------------------------------------------------------------ the mixer

  class SessionMixer {
    var moderator: seq<byte>
    var human: seq<byte>
    var cursors: map<UserId, Cursor>
    var floorHolder: Option<UserId>
    /** The log this mixer stands for, and how much of it has been reclaimed. */
    ghost var log: Log
    ghost var moderatorBase: nat
    ghost var humanBase: nat

    /** The buffers are the log's tails, and every cursor is the peer's absolute position less what is gone. */
    ghost predicate Valid()
      reads this
    {
      && WellPlaced(log)
      && moderatorBase <= |log.moderator| && moderator == log.moderator[moderatorBase..]
      && humanBase <= |log.human| && human == log.human[humanBase..]
      && floorHolder == log.floorHolder
      && cursors.Keys == log.at.Keys
      && forall u :: u in cursors ==>
           && log.at[u] == Cursor(moderatorBase + cursors[u].moderator, humanBase + cursors[u].human)
    }

    constructor ()
      ensures Valid() && log == Log([], [], map[], None)
    {
      moderator, human, cursors, floorHolder := [], [], map[], None;
      log, moderatorBase, humanBase := Log([], [], map[], None), 0, 0;
    }

    method Attach(u: UserId)
      requires Valid()
      modifies this
      ensures Valid() && log == Attached(old(log), u)
      ensures u in log.at && log.at[u] == Cursor(|log.moderator|, |log.human|)
      ensures forall v :: v != u ==>
                (v in log.at <==> v in old(log).at) && (v in log.at ==> log.at[v] == old(log).at[v])
    {
      cursors := cursors[u := Cursor(|moderator|, |human|)];
      log := Attached(log, u);
    }

    method Detach(u: UserId)
      requires Valid()
      modifies this
      ensures Valid() && log == Detached(old(log), u)
      ensures u !in log.at && u !in cursors
      ensures forall v :: v != u ==>
                (v in log.at <==> v in old(log).at) && (v in log.at ==> log.at[v] == old(log).at[v])
      ensures Trimmed()
    {
      cursors := cursors - {u};
      log := Detached(log, u);
      Trim();
    }

    method PushModerator(pcm: seq<byte>)
      requires Valid()
      modifies this
      ensures Valid() && log == WithModerator(old(log), pcm)
      ensures log.moderator == old(log).moderator + pcm && log.at == old(log).at
    {
      moderator := moderator + pcm;
      log := WithModerator(log, pcm);
    }

    method PushHuman(pcm: seq<byte>)
      requires Valid()
      modifies this
      ensures Valid() && log == WithHuman(old(log), pcm)
      ensures log.human == old(log).human + pcm && log.at == old(log).at
    {
      human := human + pcm;
      log := WithHuman(log, pcm);
    }

    /** As written: the played prefix goes, and every cursor returns to the start of what is left. */
    method ClearModerator()
      requires Valid()
      modifies this
      ensures Valid() && log == Cleared(old(log))
    {
      hide IsLeast;
      if cursors == map[] { return; }
      var played := Played();
      ghost var least, l := moderatorBase + played, log;
      LeastIsUnique(l.at, least, Least(l.at));
      moderator := moderator[played..];
      cursors := map u | u in cursors :: cursors[u].(moderator := 0);
      moderatorBase := least;
      log := Levelled(l, least);
    }

    /** The session is over: nothing said is kept, and nobody is attached. */
    method Empty()
      requires Valid()
      modifies this
      ensures Valid() && log == old(log).(at := map[])
      ensures moderator == [] && human == [] && cursors == map[]
    {
      moderator, human, cursors := [], [], map[];
      log := log.(at := map[]);
      moderatorBase, humanBase := |log.moderator|, |log.human|;
    }

    /** How much of the moderator's buffer every peer has heard. */
    method Played() returns (played: nat)
      requires Valid() && cursors != map[]
      ensures IsLeast(log.at, moderatorBase + played) && played <= |moderator|
      ensures forall u :: u in cursors ==> played <= cursors[u].moderator
    {
      played := LeastOf(cursors, Moderator);
      assert forall u :: u in cursors ==> played <= cursors[u].At(Moderator) == cursors[u].moderator;
      LeastIsLeast(played);
    }

    /** The least cursor is the least absolute position. */
    lemma LeastIsLeast(m: nat)
      requires Valid()
      requires exists u :: u in cursors && cursors[u].moderator == m
      requires forall u :: u in cursors ==> m <= cursors[u].moderator
      ensures IsLeast(log.at, moderatorBase + m)
    {
    }

    /** `min(c.moderator for c in cursors.values())`, or the same for the other source. */
    static method LeastOf(cursors: map<UserId, Cursor>, source: Source) returns (m: nat)
      requires cursors != map[]
      ensures exists u :: u in cursors && cursors[u].At(source) == m
      ensures forall u :: u in cursors ==> m <= cursors[u].At(source)
    {
      var u :| u in cursors;
      m := cursors[u].At(source);
      var left := cursors.Keys - {u};
      while left != {}
        invariant left <= cursors.Keys
        invariant exists v :: v in cursors && cursors[v].At(source) == m
        invariant forall v :: v in cursors && v !in left ==> m <= cursors[v].At(source)
        decreases left
      {
        var w :| w in left;
        if cursors[w].At(source) < m { m := cursors[w].At(source); }
        left := left - {w};
      }
    }

    /** How long the slowest peer still has to listen. */
    method ModeratorBacklogMs() returns (ms: nat)
      requires Valid()
      ensures log.at == map[] ==> ms == 0
      ensures forall m :: log.at != map[] && IsLeast(log.at, m) ==> ms == (|log.moderator| - m) * 1000 / 96000
    {
      if cursors == map[] { return 0; }
      var least := LeastOf(cursors, Moderator);
      LeastIsLeast(least);
      forall m | IsLeast(log.at, m)
        ensures m == moderatorBase + least
      {
        LeastIsUnique(log.at, m, moderatorBase + least);
      }
      ms := Max(0, |moderator| - least) * 1000 / 96000;
    }

    /** One frame for one peer. The shortcuts on silence are the sum. */
    method ReadFrame(u: UserId) returns (frame: seq<byte>)
      requires Valid()
      modifies this
      ensures Valid() && log == AfterRead(old(log), u)
      ensures frame == Frame(old(log), u)
      ensures Carries(frame, old(log), u)
      ensures u !in old(log).at ==> frame == SILENCE && log == old(log)
      ensures u in old(log).at ==> Trimmed()
    {
      hide Carries;
      hide Valid;
      hide Frame;
      hide AfterRead;
      hide Chunk;
      hide ReadTo;
      hide Padded;
      hide Samples;
      hide Bytes;
      Place(u);
      FrameOfThisLog(u);
      ghost var l := log;
      ReadIs(l, u);
      if u !in cursors { return SILENCE; }
      var cursor := cursors[u];
      TakeFromTail(l.moderator, moderatorBase, cursor.moderator, false);
      TakeFromTail(l.human, humanBase, cursor.human, true);
      var fromModerator, m := Take(moderator, cursor.moderator, false);
      var fromHuman, h := Take(human, cursor.human, true);
      ghost var at := l.at[u];
      assert fromModerator == Padded(Chunk(l.moderator, at.moderator, false));
      assert fromHuman == Padded(Chunk(l.human, at.human, true));
      assert moderatorBase + m == ReadTo(|l.moderator|, at.moderator, false);
      assert humanBase + h == ReadTo(|l.human|, at.human, true);
      // A speaker is never sent their own microphone back.
      if floorHolder == Some(u) { fromHuman := SILENCE; }
      frame := Combine(fromModerator, fromHuman);
      assert frame == Frame(l, u);
      ReadsStayInside(|moderator|, cursor.moderator, false);
      ReadsStayInside(|human|, cursor.human, true);
      MoveTo(u, Cursor(m, h));
      assert log == AfterRead(l, u);
      Trim();
    }

    lemma FrameOfThisLog(u: UserId)
      requires Valid()
      ensures Carries(Frame(log, u), log, u)
    {
      if u in log.at { FrameIsTheMix(log, u); }
    }

    static lemma ReadIs(l: Log, u: UserId)
      ensures u !in l.at ==> Frame(l, u) == SILENCE && AfterRead(l, u) == l
      ensures u in l.at ==>
                var at := l.at[u];
                var human := if l.floorHolder == Some(u) then SILENCE else Padded(Chunk(l.human, at.human, true));
                && Frame(l, u) == Bytes(Sum(Samples(Padded(Chunk(l.moderator, at.moderator, false))), Samples(human)))
                && AfterRead(l, u) == l.(at := l.at[u := Cursor(
                     ReadTo(|l.moderator|, at.moderator, false), ReadTo(|l.human|, at.human, true))])
    {
    }

    /** Where a peer is, in the buffers and in the log. */
    lemma Place(u: UserId)
      requires Valid()
      ensures u in cursors <==> u in log.at
      ensures floorHolder == log.floorHolder
      ensures u in cursors ==>
                && log.at[u] == Cursor(moderatorBase + cursors[u].moderator, humanBase + cursors[u].human)
                && cursors[u].moderator <= |moderator| && cursors[u].human <= |human|
      ensures moderatorBase <= |log.moderator| && moderator == log.moderator[moderatorBase..]
      ensures humanBase <= |log.human| && human == log.human[humanBase..]
    {
    }

    static lemma ReadsStayInside(length: nat, position: nat, stayLive: bool)
      requires position <= length
      ensures ReadTo(length, position, stayLive) <= length
    {
    }

    /** The sum of two frames, with the shortcuts the mixer takes when one of them is silent. */
    static method Combine(fromModerator: seq<byte>, fromHuman: seq<byte>) returns (frame: seq<byte>)
      requires |fromModerator| == |fromHuman| == BYTES_PER_FRAME
      ensures frame == Bytes(Sum(Samples(fromModerator), Samples(fromHuman)))
    {
      hide Samples;
      hide Bytes;
      if fromHuman == SILENCE {
        frame := fromModerator;
        SilenceIsNeutral(fromModerator, SILENCE);
      } else if fromModerator == SILENCE {
        frame := fromHuman;
        SilenceIsNeutral(fromHuman, SILENCE);
      } else {
        frame := Add(fromModerator, fromHuman);
        BytesOfSamples(frame);
      }
    }

    method MoveTo(u: UserId, cursor: Cursor)
      requires Valid() && u in cursors && cursor.moderator <= |moderator| && cursor.human <= |human|
      modifies this`cursors, this`log
      ensures Valid() && u in cursors
      ensures var place := Cursor(moderatorBase + cursor.moderator, humanBase + cursor.human);
              log == old(log).(at := old(log).at[u := place])
    {
      cursors := cursors[u := cursor];
      log := log.(at := log.at[u := Cursor(moderatorBase + cursor.moderator, humanBase + cursor.human)]);
    }

    /** One frame from one buffer, padded with silence, and the cursor it leaves. */
    static method Take(buffer: seq<byte>, position: nat, stayLive: bool) returns (frame: seq<byte>, cursor: nat)
      ensures frame == Padded(Chunk(buffer, position, stayLive))
      ensures cursor == ReadTo(|buffer|, position, stayLive)
    {
      var available := |buffer| - position;
      if available <= 0 {
        assert Padded([]) == SILENCE;
        return SILENCE, position;
      }
      var start := position;
      if stayLive && available > MAX_LAG_BYTES { start := |buffer| - BYTES_PER_FRAME; }
      var end := start + BYTES_PER_FRAME;
      frame := buffer[start..Min(end, |buffer|)];
      cursor := Min(end, |buffer|);
      if |frame| < BYTES_PER_FRAME {
        frame := frame + Silence(BYTES_PER_FRAME - |frame|);
      }
    }

    /** Reading the tail of a log is reading the log. */
    static lemma TakeFromTail(source: seq<byte>, base: nat, position: nat, stayLive: bool)
      requires base + position <= |source|
      ensures Chunk(source[base..], position, stayLive) == Chunk(source, base + position, stayLive)
      ensures base + ReadTo(|source| - base, position, stayLive) == ReadTo(|source|, base + position, stayLive)
    {
    }

    /** Somebody still needs bytes within fifty frames of each buffer's start; with nobody attached both are empty. */
    ghost predicate Trimmed()
      reads this
    {
      if cursors == map[] then moderator == [] && human == []
      else
        && (exists u :: u in cursors && cursors[u].At(Moderator) <= 50 * BYTES_PER_FRAME)
        && (exists u :: u in cursors && cursors[u].At(Human) <= 50 * BYTES_PER_FRAME)
    }

    /** Compaction changes what is stored and nothing else. */
    method Trim()
      requires Valid()
      modifies this`moderator, this`human, this`cursors, this`moderatorBase, this`humanBase
      ensures Valid() && Trimmed()
    {
      if cursors == map[] {
        moderator, human := [], [];
        moderatorBase, humanBase := |log.moderator|, |log.human|;
        return;
      }
      TrimModerator();
      TrimHuman();
    }

    method TrimModerator()
      requires Valid() && cursors != map[]
      modifies this`moderator, this`human, this`cursors, this`moderatorBase, this`humanBase
      ensures Valid() && cursors.Keys == old(cursors).Keys
      ensures exists u :: u in cursors && cursors[u].At(Moderator) <= 50 * BYTES_PER_FRAME
    {
      var least := LeastOf(cursors, Moderator);
      if least > BYTES_PER_FRAME * 50 { Reclaim(least, 0); }
    }

    method TrimHuman()
      requires Valid() && cursors != map[]
      modifies this`moderator, this`human, this`cursors, this`moderatorBase, this`humanBase
      ensures Valid() && cursors.Keys == old(cursors).Keys
      ensures forall u :: u in cursors ==> cursors[u].At(Moderator) == old(cursors)[u].At(Moderator)
      ensures exists u :: u in cursors && cursors[u].At(Human) <= 50 * BYTES_PER_FRAME
    {
      var least := LeastOf(cursors, Human);
      if least > BYTES_PER_FRAME * 50 { Reclaim(0, least); }
    }

    /** Drop prefixes that every cursor is past. */
    method Reclaim(m: nat, h: nat)
      requires Valid()
      requires forall u :: u in cursors ==> m <= cursors[u].At(Moderator) && h <= cursors[u].At(Human)
      requires m <= |moderator| && h <= |human|
      modifies this`moderator, this`human, this`cursors, this`moderatorBase, this`humanBase
      ensures Valid() && cursors.Keys == old(cursors).Keys
      ensures forall u :: u in cursors ==>
                && cursors[u].At(Moderator) == old(cursors)[u].At(Moderator) - m
                && cursors[u].At(Human) == old(cursors)[u].At(Human) - h
    {
      moderator, human := moderator[m..], human[h..];
      cursors := map u | u in cursors :: Cursor(cursors[u].At(Moderator) - m, cursors[u].At(Human) - h);
      moderatorBase, humanBase := moderatorBase + m, humanBase + h;
    }

    /** The floor is routed by the voice plane. */
    method SetFloor(u: Option<UserId>)
      requires Valid()
      modifies this`floorHolder, this`log
      ensures Valid() && log == old(log).(floorHolder := u) && floorHolder == u
    {
      floorHolder := u;
      log := log.(floorHolder := u);
    }
  }
}
