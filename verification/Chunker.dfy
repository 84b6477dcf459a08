/**
 * Cutting a model's token stream into sentences for the synthesiser
 * (backend/app/modules/moderation/runner.py, `_chunk_sentences` and `_sentences_of`).
 */
module Chunker {
  import opened Common
  import opened Text

  // ------------------------------------------------------------------ the patterns

  predicate IsTerminator(c: char) { c == '.' || c == '!' || c == '?' || c == '\U{2026}' }

  /** A sentence ends just before `e`: a terminator, then whitespace or the end of the text. */
  predicate EndsAt(s: string, e: nat) {
    0 < e <= |s| && IsTerminator(s[e - 1]) && (e == |s| || IsSpace(s[e]))
  }

  /** The end of the first sentence that ends after `i`. */
  function FirstEnd(s: string, i: nat): (e: Option<nat>)
    requires i <= |s|
    ensures e.Some? ==> i < e.value <= |s| && EndsAt(s, e.value)
    ensures forall k :: i < k <= |s| && EndsAt(s, k) ==> e.Some? && e.value <= k
    decreases |s| - i
  {
    if i == |s| then None
    else if EndsAt(s, i + 1) then Some(i + 1)
    else FirstEnd(s, i + 1)
  }

  predicate CommaAt(s: string, i: int) { 0 <= i && i + 1 < |s| && s[i] == ',' && s[i + 1] == ' ' }

  /** `s.rfind(", ")`, searching left from `i`. */
  function LastComma(s: string, i: int): (cut: int)
    requires i < |s|
    ensures cut == -1 || (cut <= i && CommaAt(s, cut))
    ensures forall k :: k <= i && CommaAt(s, k) ==> k <= cut
  {
    if i < 0 then -1
    else if CommaAt(s, i) then i
    else LastComma(s, i - 1)
  }

  function SkipSpace(s: string, i: nat): (j: nat)
    requires i <= |s|
    ensures i <= j <= |s|
    decreases |s| - i
  {
    if i < |s| && IsSpace(s[i]) then SkipSpace(s, i + 1) else i
  }

  function ToLower(c: char): char { if 'A' <= c <= 'Z' then c - 'A' + 'a' else c }

  /** `word` (in lower case) stands at `i`, in any case. */
  predicate MatchesWord(s: string, i: nat, word: string)
    decreases word
  {
    word == "" || (i < |s| && ToLower(s[i]) == word[0] && MatchesWord(s, i + 1, word[1..]))
  }

  predicate IsLabelDash(c: char) { c == ':' || c == '-' || c == '\U{2013}' || c == '\U{2014}' }

  /** How much of `s` the speaker-label pattern matches at the start; 0 when it does not. */
  function LabelLength(s: string): (n: nat)
    ensures n <= |s|
  {
    LabelledBy(s, "moderator")
  }

  function LabelledBy(s: string, word: string): (n: nat)
    ensures n <= |s|
  {
    var i := SkipSpace(s, 0);
    if !MatchesWord(s, i, word) || i + |word| > |s| then 0
    else
      var j := SkipSpace(s, i + |word|);
      if j < |s| && IsLabelDash(s[j]) then SkipSpace(s, j + 1) else 0
  }

  /** Only spaces stand in `s` from `i` up to `j`. */
  ghost predicate SpacesTo(s: string, i: nat, j: nat) {
    i <= j <= |s| && forall k :: i <= k < j ==> IsSpace(s[k])
  }

  lemma {:induction false} SkipSpaceExactly(s: string, i: nat, j: nat)
    requires i <= |s|
    ensures j == SkipSpace(s, i) <==> SpacesTo(s, i, j) && (j == |s| || !IsSpace(s[j]))
    decreases |s| - i
  {
    hide IsSpace;
    if i < |s| && IsSpace(s[i]) { SkipSpaceExactly(s, i + 1, j); }
  }

  /** `word` stands at `i`, each letter as it is or as the capital 32 places before it. */
  ghost predicate Spells(s: string, i: nat, word: string) {
    i + |word| <= |s| && forall k :: 0 <= k < |word| ==> SameLetter(s[i + k], word[k])
  }

  predicate SameLetter(c: char, letter: char) { c == letter || c as int == letter as int - 32 }

  lemma {:induction false} MatchesWordExactly(s: string, i: nat, word: string)
    requires forall k :: 0 <= k < |word| ==> 'a' <= word[k] <= 'z'
    ensures MatchesWord(s, i, word) && i + |word| <= |s| <==> Spells(s, i, word)
    decreases |word|
  {
    if word != "" {
      MatchesWordExactly(s, i + 1, word[1..]);
      assert Spells(s, i, word) ==> Spells(s, i + 1, word[1..]);
      if i < |s| && SameLetter(s[i], word[0]) && Spells(s, i + 1, word[1..]) {
        forall k | 0 <= k < |word| ensures SameLetter(s[i + k], word[k]) {
          if k > 0 { assert SameLetter(s[i + 1 + (k - 1)], word[1..][k - 1]); }
        }
      }
    }
  }

  /**
   * The first `n` characters of `s` are a speaker label: spaces, the nine letters in either case, spaces, a colon,
   * hyphen, en dash or em dash, and all the spaces that follow.
   */
  ghost predicate IsLabel(s: string, n: nat) {
    exists i: nat, j: nat ::
      && SpacesTo(s, 0, i) && Spells(s, i, "moderator") && SpacesTo(s, i + 9, j)
      && j < n <= |s| && s[j] in [':', '-', '\U{2013}', '\U{2014}']
      && SpacesTo(s, j + 1, n) && (n == |s| || !IsSpace(s[n]))
  }

  /** Exactly such a label is found: its length if there is one, and 0 if there is none. */
  lemma LabelExactly(s: string, n: nat)
    ensures n > 0 ==> (LabelLength(s) == n <==> IsLabel(s, n))
    ensures LabelLength(s) == 0 <==> forall m :: !IsLabel(s, m)
  {
    hide IsSpace;
    var found := LabelLength(s);
    if found > 0 { LabelFound(s); }
    forall m | IsLabel(s, m)
      ensures found == m > 0
    {
      LabelIsFound(s, m);
    }
  }

  lemma LabelFound(s: string)
    requires LabelLength(s) > 0
    ensures IsLabel(s, LabelLength(s))
  {
    hide IsSpace, SpacesTo, Spells, SkipSpace, MatchesWord;
    var i := SkipSpace(s, 0);
    SkipSpaceExactly(s, 0, i);
    MatchesWordExactly(s, i, "moderator");
    var j := SkipSpace(s, i + 9);
    SkipSpaceExactly(s, i + 9, j);
    SkipSpaceExactly(s, j + 1, LabelLength(s));
    assert SpacesTo(s, 0, i) && Spells(s, i, "moderator") && SpacesTo(s, i + 9, j);
  }

  lemma NotASpace(c: char)
    requires SameLetter(c, 'm') || c in [':', '-', '\U{2013}', '\U{2014}']
    ensures !IsSpace(c)
  {
  }

  lemma LabelIsFound(s: string, n: nat)
    requires IsLabel(s, n)
    ensures LabelLength(s) == n > 0
  {
    hide IsSpace, SkipSpace, MatchesWord;
    var i: nat, j: nat :|
      && SpacesTo(s, 0, i) && Spells(s, i, "moderator") && SpacesTo(s, i + 9, j)
      && j < n <= |s| && s[j] in [':', '-', '\U{2013}', '\U{2014}']
      && SpacesTo(s, j + 1, n) && (n == |s| || !IsSpace(s[n]));
    MatchesWordExactly(s, i, "moderator");
    assert SameLetter(s[i + 0], "moderator"[0]);
    NotASpace(s[i]);
    NotASpace(s[j]);
    SkipSpaceExactly(s, 0, i);
    SkipSpaceExactly(s, i + 9, j);
    SkipSpaceExactly(s, j + 1, n);
  }

  function StripLabel(s: string): string { s[LabelLength(s)..] }

  // ------------------------------------------------------------------ the chunker as a function

  datatype Chunk = Chunk(buffer: string, first: bool, out: seq<string>)

  function Cut(c: Chunk, end: nat): Chunk
    requires end <= |c.buffer|
  {
    var head := c.buffer[..end];
    var said := Strip(if c.first then StripLabel(head) else head);
    Chunk(c.buffer[end..], false, c.out + [said])
  }

  /** Everything in the buffer that is already a whole sentence. */
  function Drain(c: Chunk): (r: Chunk)
    ensures FirstEnd(r.buffer, 0) == None
    decreases |c.buffer|
  {
    match FirstEnd(c.buffer, 0)
    case None => c
    case Some(e) =>
      var r := Cut(c, e);
      Drain(if r.out[|c.out|] == "" then r.(out := c.out) else r)
  }

  /** A very long clause goes out at its last comma. */
  function FlushLong(c: Chunk): Chunk {
    if |c.buffer| <= 140 then c
    else
      var cut := LastComma(c.buffer, |c.buffer| - 1);
      if cut <= 40 then c else Cut(c, cut + 1)
  }

  function Feed(c: Chunk, delta: string): Chunk {
    FlushLong(Drain(c.(buffer := c.buffer + delta)))
  }

  function FeedAll(deltas: seq<string>): Chunk {
    if deltas == [] then Chunk("", true, [])
    else Feed(FeedAll(deltas[..|deltas| - 1]), deltas[|deltas| - 1])
  }

  function Finish(c: Chunk): seq<string> {
    if Strip(c.buffer) == "" then c.out
    else c.out + [Strip(if c.first then StripLabel(c.buffer) else c.buffer)]
  }

  /** The sentences yielded for a reply that arrives as `deltas`. */
  function Sentences(deltas: seq<string>): seq<string> { Finish(FeedAll(deltas)) }

  // ------------------------------------------------------------------ the label is settled by the first cut

  /** A character no part of the speaker label can be. */
  predicate IsStopper(c: char) { IsTerminator(c) || c == ',' }

  /** `s` and `t` agree up to and including a stopper at `k`. */
  ghost predicate AgreeTo(s: string, t: string, k: nat) {
    k < |s| && k < |t| && s[..k + 1] == t[..k + 1] && IsStopper(s[k])
  }

  lemma SettledPrefixesAgree(s: string, t: string, k: nat, i: nat)
    requires AgreeTo(s, t, k) && i <= k
    ensures s[i] == t[i]
  {
  }

  lemma {:induction false} SkipSpaceAgrees(s: string, t: string, k: nat, i: nat)
    requires AgreeTo(s, t, k) && i <= k
    ensures SkipSpace(s, i) == SkipSpace(t, i) <= k
    decreases k - i
  {
    SettledPrefixesAgree(s, t, k, i);
    if IsSpace(s[i]) { SkipSpaceAgrees(s, t, k, i + 1); }
  }

  lemma {:induction false} MatchesWordAgrees(s: string, t: string, k: nat, i: nat, word: string)
    requires AgreeTo(s, t, k) && i <= k
    requires forall j :: 0 <= j < |word| ==> 'a' <= word[j] <= 'z'
    ensures MatchesWord(s, i, word) == MatchesWord(t, i, word)
    ensures MatchesWord(s, i, word) ==> i + |word| <= k
    decreases |word|
  {
    if word != "" {
      SettledPrefixesAgree(s, t, k, i);
      if i < k { MatchesWordAgrees(s, t, k, i + 1, word[1..]); }
    }
  }

  /** Once a stopper has been seen, nothing after it can change what the label is. */
  lemma LabelAgrees(s: string, t: string, k: nat, word: string)
    requires AgreeTo(s, t, k)
    requires forall j :: 0 <= j < |word| ==> 'a' <= word[j] <= 'z'
    ensures LabelledBy(s, word) == LabelledBy(t, word) <= k
  {
    hide SkipSpace;
    hide MatchesWord;
    SkipSpaceAgrees(s, t, k, 0);
    var i := SkipSpace(s, 0);
    MatchesWordAgrees(s, t, k, i, word);
    if MatchesWord(s, i, word) {
      SkipSpaceAgrees(s, t, k, i + |word|);
      var j := SkipSpace(s, i + |word|);
      SettledPrefixesAgree(s, t, k, j);
      if IsLabelDash(s[j]) { SkipSpaceAgrees(s, t, k, j + 1); }
    }
  }

  // ------------------------------------------------------------------ conservation

  /** `whole` has a stopper, so its label is final. */
  ghost predicate Settled(whole: string) { exists k :: 0 <= k < |whole| && IsStopper(whole[k]) }

  /** Nothing of `whole` is lost so far: it is what came out plus what is still buffered. */
  ghost predicate Conserves(c: Chunk, whole: string) {
    if c.first then c.out == [] && c.buffer == whole
    else Settled(whole) && Content(Join(c.out)) + Content(c.buffer) == Content(StripLabel(whole))
  }

  lemma StripLabelExtends(whole: string, more: string)
    requires Settled(whole)
    ensures Settled(whole + more) && StripLabel(whole + more) == StripLabel(whole) + more
  {
    hide LabelledBy;
    hide IsStopper;
    var k :| 0 <= k < |whole| && IsStopper(whole[k]);
    assert (whole + more)[..k + 1] == whole[..k + 1];
    LabelAgrees(whole, whole + more, k, "moderator");
    assert IsStopper((whole + more)[k]);
  }

  /** Handing `said` over, stripped, moves its characters from the buffer to the output. */
  lemma OutputMoves(out: seq<string>, said: string, rest: string)
    ensures Content(Join(out + [Strip(said)])) + Content(rest) == Content(Join(out)) + Content(said + rest)
  {
    JoinAppend(out, Strip(said));
    var _, _ := StripIsSlice(said);
    ContentConcat(Join(out), Strip(said));
    ContentConcat(said, rest);
  }

  /** The same when a blank `said` is not handed over. */
  lemma OutputMovesUnlessBlank(out: seq<string>, said: string, rest: string)
    ensures Content(Join(if Strip(said) == "" then out else out + [Strip(said)])) + Content(rest)
            == Content(Join(out)) + Content(said + rest)
  {
    hide Strip;
    OutputMoves(out, said, rest);
    JoinAppend(out, "");
    assert Join(out) + "" == Join(out);
  }

  lemma CutConserves(c: Chunk, end: nat, whole: string)
    requires Conserves(c, whole) && 0 < end <= |c.buffer| && IsStopper(c.buffer[end - 1])
    ensures Conserves(Cut(c, end), whole)
  {
    hide LabelLength;
    hide Strip;
    var head, rest := c.buffer[..end], c.buffer[end..];
    assert c.buffer == head + rest;
    if c.first {
      assert IsStopper(head[end - 1]);
      StripLabelExtends(head, rest);
      OutputMoves([], StripLabel(head), rest);
    } else {
      OutputMoves(c.out, head, rest);
    }
  }

  lemma {:induction false} DrainConserves(c: Chunk, whole: string)
    requires Conserves(c, whole)
    ensures Conserves(Drain(c), whole)
    decreases |c.buffer|
  {
    match FirstEnd(c.buffer, 0)
    case None =>
    case Some(e) =>
      CutConserves(c, e, whole);
      var r := Cut(c, e);
      if r.out[|c.out|] == "" {
        JoinAppend(c.out, "");
        assert Join(r.out) == Join(c.out);
        DrainConserves(r.(out := c.out), whole);
      } else {
        DrainConserves(r, whole);
      }
  }

  lemma FeedConserves(c: Chunk, delta: string, whole: string)
    requires Conserves(c, whole)
    ensures Conserves(Feed(c, delta), whole + delta)
  {
    hide LabelLength;
    hide Cut;
    hide Drain;
    var c1 := c.(buffer := c.buffer + delta);
    if !c.first {
      StripLabelExtends(whole, delta);
      ContentConcat(c.buffer, delta);
      ContentConcat(StripLabel(whole), delta);
    }
    DrainConserves(c1, whole + delta);
    var c2 := Drain(c1);
    if |c2.buffer| > 140 {
      var cut := LastComma(c2.buffer, |c2.buffer| - 1);
      if cut > 40 { CutConserves(c2, cut + 1, whole + delta); }
    }
  }

  lemma StartConserves()
    ensures Conserves(Chunk("", true, []), "")
  {
  }

  lemma {:induction false} FeedAllConserves(deltas: seq<string>)
    ensures Conserves(FeedAll(deltas), Join(deltas))
    decreases |deltas|
  {
    hide Conserves;
    hide Feed;
    if deltas == [] {
      StartConserves();
    } else {
      var n := |deltas| - 1;
      FeedAllConserves(deltas[..n]);
      FeedConserves(FeedAll(deltas[..n]), deltas[n], Join(deltas[..n]));
      JoinAppend(deltas[..n], deltas[n]);
      assert deltas == deltas[..n] + [deltas[n]];
    }
  }

  lemma FinishConserves(c: Chunk, whole: string)
    requires Conserves(c, whole)
    ensures Content(Join(Finish(c))) == Content(StripLabel(whole))
  {
    hide LabelLength;
    hide Strip;
    hide Settled;
    hide IsSpace;
    var rest := if c.first then StripLabel(c.buffer) else c.buffer;
    OutputMovesUnlessBlank(c.out, rest, "");
    OutputMoves(c.out, rest, "");
    LastPiece(c.out, rest);
    if Strip(c.buffer) == "" {
      var _, _ := StripIsSlice(c.buffer);
      if c.first {
        ContentConcat(c.buffer[..LabelLength(c.buffer)], rest);
        assert c.buffer == c.buffer[..LabelLength(c.buffer)] + rest;
        assert Content(rest) == "";
      }
    }
  }

  lemma LastPiece(out: seq<string>, said: string)
    ensures Content(Join(out + [Strip(said)])) == Content(Join(out)) + Content(said)
    ensures out == [] ==> Content(Join(out)) + Content(said) == Content(said)
    ensures Content(said) == "" ==> Content(Join(out)) + Content(said) == Content(Join(out))
  {
    hide Strip;
    OutputMoves(out, said, "");
    assert said + "" == said;
    assert Content(Join(out + [Strip(said)])) + "" == Content(Join(out + [Strip(said)]));
  }

  /**
   * Conservation: however a reply is cut into deltas, the sentences yielded carry exactly the reply's
   * non-blank characters, in order, less one leading speaker label.
   */
  lemma SentencesConserveText(deltas: seq<string>)
    ensures Content(Join(Sentences(deltas))) == Content(StripLabel(Join(deltas)))
  {
    FeedAllConserves(deltas);
    FinishConserves(FeedAll(deltas), Join(deltas));
  }

  /** Where the network cut the reply does not change what is said. */
  lemma DeltaBoundariesDoNotMatter(deltas: seq<string>, others: seq<string>)
    requires Join(deltas) == Join(others)
    ensures Content(Join(Sentences(deltas))) == Content(Join(Sentences(others)))
  {
    SentencesConserveText(deltas);
    SentencesConserveText(others);
  }

  // ------------------------------------------------------------------ one sentence at a time

  /** No sentence ends strictly inside `s`. */
  ghost predicate OneSentence(s: string) {
    forall e :: 0 < e < |s| && s[e - 1] in ['.', '!', '?', '\U{2026}'] ==> !IsSpace(s[e])
  }

  lemma NoEndInside(s: string)
    ensures OneSentence(s) <==> forall e :: 0 < e < |s| ==> !EndsAt(s, e)
  {
    hide IsSpace;
    if forall e :: 0 < e < |s| ==> !EndsAt(s, e) {
      forall e | 0 < e < |s| && s[e - 1] in ['.', '!', '?', '\U{2026}']
        ensures !IsSpace(s[e])
      {
        assert !EndsAt(s, e);
      }
    }
  }

  lemma SliceOfOneSentence(s: string, a: nat, b: nat)
    requires OneSentence(s) && a <= b <= |s|
    ensures OneSentence(s[a..b])
  {
    forall e | 0 < e < |s[a..b]|
      ensures !EndsAt(s[a..b], e)
    {
      assert !EndsAt(s, a + e);
    }
  }

  lemma StripOneSentence(s: string)
    requires OneSentence(s)
    ensures OneSentence(Strip(s))
  {
    var a, b := StripIsSlice(s);
    SliceOfOneSentence(s, a, b);
  }

  lemma CutIsOneSentence(c: Chunk, end: nat)
    requires end <= |c.buffer| && OneSentence(c.buffer[..end])
    ensures OneSentence(Cut(c, end).out[|c.out|])
  {
    hide OneSentence;
    hide LabelLength;
    hide Strip;
    var head := c.buffer[..end];
    var said := if c.first then StripLabel(head) else head;
    SliceOfOneSentence(head, if c.first then LabelLength(head) else 0, end);
    assert said == head[(if c.first then LabelLength(head) else 0)..end];
    StripOneSentence(said);
  }

  lemma PrefixBeforeFirstEnd(s: string, end: nat)
    requires end <= |s|
    requires FirstEnd(s, 0).Some? ==> end <= FirstEnd(s, 0).value
    ensures OneSentence(s[..end])
  {
    forall e | 0 < e < end
      ensures !EndsAt(s[..end], e)
    {
      assert EndsAt(s[..end], e) ==> EndsAt(s, e);
    }
    NoEndInside(s[..end]);
  }

  ghost predicate AllOneSentence(out: seq<string>) { forall i :: 0 <= i < |out| ==> OneSentence(out[i]) }

  lemma {:induction false} DrainYieldsOneSentence(c: Chunk)
    requires AllOneSentence(c.out)
    ensures AllOneSentence(Drain(c).out)
    decreases |c.buffer|
  {
    match FirstEnd(c.buffer, 0)
    case None =>
    case Some(e) =>
      PrefixBeforeFirstEnd(c.buffer, e);
      CutIsOneSentence(c, e);
      var r := Cut(c, e);
      DrainYieldsOneSentence(if r.out[|c.out|] == "" then r.(out := c.out) else r);
  }

  lemma FeedYieldsOneSentence(c: Chunk, delta: string)
    requires AllOneSentence(c.out)
    ensures AllOneSentence(Feed(c, delta).out)
  {
    hide OneSentence;
    hide Drain;
    hide EndsAt;
    hide LabelLength;
    hide Strip;
    var fed := c.(buffer := c.buffer + delta);
    DrainYieldsOneSentence(fed);
    var d := Drain(fed);
    if |d.buffer| > 140 && LastComma(d.buffer, |d.buffer| - 1) > 40 {
      var cut := LastComma(d.buffer, |d.buffer| - 1);
      PrefixBeforeFirstEnd(d.buffer, cut + 1);
      CutIsOneSentence(d, cut + 1);
    }
  }

  lemma {:induction false} FeedAllYieldsOneSentence(deltas: seq<string>)
    ensures AllOneSentence(FeedAll(deltas).out)
    decreases |deltas|
  {
    hide Feed;
    hide OneSentence;
    if deltas != [] {
      FeedAllYieldsOneSentence(deltas[..|deltas| - 1]);
      FeedYieldsOneSentence(FeedAll(deltas[..|deltas| - 1]), deltas[|deltas| - 1]);
    }
  }

  /** The synthesiser is never handed two sentences in one piece: none yielded has a sentence end strictly inside it. */
  lemma SentencesComeOneAtATime(deltas: seq<string>)
    ensures AllOneSentence(Sentences(deltas))
  {
    hide OneSentence;
    hide FeedAll;
    hide LabelLength;
    hide Strip;
    hide EndsAt;
    FeedAllYieldsOneSentence(deltas);
    var c := FeedAll(deltas);
    NothingLeftToDrain(deltas);
    PrefixBeforeFirstEnd(c.buffer, |c.buffer|);
    assert c.buffer[..|c.buffer|] == c.buffer;
    CutIsOneSentence(c, |c.buffer|);
  }

  lemma NothingLeftToDrain(deltas: seq<string>)
    ensures FirstEnd(FeedAll(deltas).buffer, 0) == None
  {
    if deltas != [] {
      hide Drain, FlushLong, EndsAt;
      var n := |deltas| - 1;
      var c := FeedAll(deltas[..n]);
      FlushLeavesNoEnd(Drain(c.(buffer := c.buffer + deltas[n])));
    }
  }

  lemma FlushLeavesNoEnd(d: Chunk)
    requires FirstEnd(d.buffer, 0) == None
    ensures FirstEnd(FlushLong(d).buffer, 0) == None
  {
    hide LabelLength, Strip, LastComma, IsSpace;
    var r := FlushLong(d);
    if r != d {
      var cut := LastComma(d.buffer, |d.buffer| - 1);
      forall e | 0 < e <= |r.buffer|
        ensures !EndsAt(r.buffer, e)
      {
        EndsLater(d.buffer, cut + 1, e);
      }
    }
  }

  lemma EndsLater(s: string, k: nat, e: nat)
    requires k <= |s|
    ensures EndsAt(s[k..], e) ==> EndsAt(s, k + e)
  {
  }

  // ------------------------------------------------------------------ where the cuts are

  /** What is said of the pieces: each stripped, the first without its label, and nothing of a blank one. */
  function SaidOf(raw: seq<string>): seq<string> {
    if raw == [] then []
    else
      var last := raw[|raw| - 1];
      var said := Strip(if |raw| == 1 then last[LabelLength(last)..] else last);
      SaidOf(raw[..|raw| - 1]) + (if said == "" then [] else [said])
  }

  /** How much of the reply has been cut off with the first `k` pieces. */
  function CutOff(raw: seq<string>, k: nat): nat
    requires k <= |raw|
  {
    |Join(raw[..k])|
  }

  /**
   * The k-th piece holds one sentence. Either it ends with a terminator, which a space follows unless the network had
   * delivered exactly that much; or it ends with the comma of a clause of which more than 140 characters had come in,
   * and is longer than 41 of them.
   */
  ghost predicate CutRight(deltas: seq<string>, raw: seq<string>, k: nat)
    requires k < |raw|
  {
    var whole, piece, end := Join(deltas), raw[k], CutOff(raw, k + 1);
    && OneSentence(piece) && piece != "" && end <= |whole|
    && var last := piece[|piece| - 1];
       || (last in ['.', '!', '?', '\U{2026}']
           && ((end < |whole| && IsSpace(whole[end])) || exists m :: Delivered(deltas, m) == end))
       || (last == ',' && |piece| > 41 && end < |whole| && whole[end] == ' '
           && exists m :: Delivered(deltas, m) > CutOff(raw, k) + 140)
  }

  /** How much has come in with the first `m` deltas. */
  function Delivered(deltas: seq<string>, m: int): int {
    if 0 <= m <= |deltas| then |Join(deltas[..m])| else -1
  }

  ghost predicate CutInto(c: Chunk, deltas: seq<string>, raw: seq<string>) {
    && Join(raw) + c.buffer == Join(deltas)
    && (c.first <==> raw == [])
    && c.out == SaidOf(raw)
    && forall k :: 0 <= k < |raw| ==> CutRight(deltas, raw, k)
  }

  lemma OneMorePiece(raw: seq<string>, piece: string)
    ensures var more := raw + [piece];
            && Join(more) == Join(raw) + piece
            && CutOff(more, |raw| + 1) == |Join(raw)| + |piece|
            && CutOff(raw, |raw|) == |Join(raw)|
            && forall k :: 0 <= k <= |raw| ==> CutOff(more, k) == CutOff(raw, k)
  {
    hide Join;
    var more := raw + [piece];
    JoinAppend(raw, piece);
    assert more[..|raw| + 1] == more && raw[..|raw|] == raw;
    assert forall k :: 0 <= k <= |raw| ==> more[..k] == raw[..k];
  }

  lemma CuttingOne(c: Chunk, deltas: seq<string>, raw: seq<string>, end: nat)
    requires CutInto(c, deltas, raw) && end <= |c.buffer|
    ensures var more := raw + [c.buffer[..end]];
            && Join(more) + c.buffer[end..] == Join(deltas)
            && (forall k :: 0 <= k < |raw| ==> CutRight(deltas, more, k))
            && SaidOf(more) == if Cut(c, end).out[|c.out|] == "" then c.out else Cut(c, end).out
  {
    hide OneSentence, Strip, LabelLength, CutOff, Join, IsSpace, Delivered;
    var head := c.buffer[..end];
    var more := raw + [head];
    OneMorePiece(raw, head);
    assert more[..|raw|] == raw;
    assert (Join(raw) + head) + c.buffer[end..] == Join(raw) + c.buffer;
    forall k | 0 <= k < |raw|
      ensures CutRight(deltas, more, k)
    {
      assert CutRight(deltas, raw, k) && more[k] == raw[k];
    }
  }

  lemma {:induction false} DrainingCuts(c: Chunk, deltas: seq<string>, raw: seq<string>) returns (more: seq<string>)
    requires CutInto(c, deltas, raw)
    ensures CutInto(Drain(c), deltas, more)
    decreases |c.buffer|
  {
    hide Strip, LabelLength;
    match FirstEnd(c.buffer, 0)
    case None => more := raw;
    case Some(e) =>
      CuttingOne(c, deltas, raw, e);
      more := raw + [c.buffer[..e]];
      PrefixBeforeFirstEnd(c.buffer, e);
      CutAtAnEnd(c.buffer, deltas, raw, e);
      var r := Cut(c, e);
      more := DrainingCuts(if r.out[|c.out|] == "" then r.(out := c.out) else r, deltas, more);
  }

  lemma AllDelivered(deltas: seq<string>)
    ensures Delivered(deltas, |deltas|) == |Join(deltas)|
  {
    assert deltas[..|deltas|] == deltas;
  }

  lemma TerminatorListed(c: char)
    ensures IsTerminator(c) <==> c in ['.', '!', '?', '\U{2026}']
  {
  }

  lemma CutAtAnEnd(buffer: string, deltas: seq<string>, raw: seq<string>, end: nat)
    requires EndsAt(buffer, end) && OneSentence(buffer[..end]) && Join(raw) + buffer == Join(deltas)
    ensures CutRight(deltas, raw + [buffer[..end]], |raw|)
  {
    hide OneSentence, Join, CutOff, IsSpace, Delivered, IsTerminator;
    var piece, at := buffer[..end], |Join(raw)| + end;
    OneMorePiece(raw, piece);
    AllDelivered(deltas);
    TerminatorListed(buffer[end - 1]);
    assert piece[|piece| - 1] == buffer[end - 1];
    assert CutOff(raw + [piece], |raw| + 1) == at;
    if end < |buffer| {
      assert Join(deltas)[at] == buffer[end];
    } else {
      assert Delivered(deltas, |deltas|) == at;
    }
  }

  lemma CutAtAComma(buffer: string, deltas: seq<string>, raw: seq<string>, cut: nat)
    requires 40 < cut && cut + 1 < |buffer| && buffer[cut] == ',' && buffer[cut + 1] == ' '
    requires Join(raw) + buffer == Join(deltas) && OneSentence(buffer[..cut + 1]) && |buffer| > 140
    ensures CutRight(deltas, raw + [buffer[..cut + 1]], |raw|)
  {
    hide OneSentence, Join, CutOff, IsSpace, Delivered;
    OneMorePiece(raw, buffer[..cut + 1]);
    AllDelivered(deltas);
    assert Join(deltas)[|Join(raw)| + cut + 1] == buffer[cut + 1];
    assert Delivered(deltas, |deltas|) > CutOff(raw + [buffer[..cut + 1]], |raw|) + 140;
  }

  /** More of the reply does not undo a cut. */
  lemma CutsStand(deltas: seq<string>, delta: string, raw: seq<string>, k: nat)
    requires k < |raw| && CutRight(deltas, raw, k)
    ensures CutRight(deltas + [delta], raw, k)
  {
    hide OneSentence;
    JoinAppend(deltas, delta);
    var more := deltas + [delta];
    forall m
      ensures Delivered(deltas, m) >= 0 ==> Delivered(more, m) == Delivered(deltas, m)
    {
      if 0 <= m <= |deltas| { assert more[..m] == deltas[..m]; }
    }
    var end := CutOff(raw, k + 1);
    if exists m :: Delivered(deltas, m) == end {
      var m :| Delivered(deltas, m) == end;
      assert Delivered(more, m) == end;
    }
    if exists m :: Delivered(deltas, m) > CutOff(raw, k) + 140 {
      var m :| Delivered(deltas, m) > CutOff(raw, k) + 140;
      assert Delivered(more, m) > CutOff(raw, k) + 140;
    }
  }

  lemma {:induction false} FeedingCuts(deltas: seq<string>) returns (raw: seq<string>)
    ensures CutInto(FeedAll(deltas), deltas, raw)
    decreases |deltas|
  {
    hide Drain, Strip, LabelLength;
    if deltas == [] {
      raw := [];
    } else {
      var n := |deltas| - 1;
      var front, delta := deltas[..n], deltas[n];
      var c := FeedAll(front);
      raw := FeedingCuts(front);
      assert deltas == front + [delta];
      JoinAppend(front, delta);
      assert Join(raw) + (c.buffer + delta) == (Join(raw) + c.buffer) + delta;
      forall k | 0 <= k < |raw| ensures CutRight(deltas, raw, k) { CutsStand(front, delta, raw, k); }
      var fed := c.(buffer := c.buffer + delta);
      raw := DrainingCuts(fed, deltas, raw);
      var d := Drain(fed);
      raw := FlushingCuts(d, deltas, raw);
    }
  }

  lemma FlushingCuts(d: Chunk, deltas: seq<string>, raw: seq<string>) returns (more: seq<string>)
    requires CutInto(d, deltas, raw) && FirstEnd(d.buffer, 0) == None
    ensures CutInto(FlushLong(d), deltas, more)
  {
    hide CutRight, Strip, LabelLength, OneSentence, Join, FirstEnd, SaidOf, IsSpace, EndsAt;
    more := raw;
    if |d.buffer| > 140 {
      var cut := LastComma(d.buffer, |d.buffer| - 1);
      if cut > 40 {
        CuttingOne(d, deltas, raw, cut + 1);
        PrefixBeforeFirstEnd(d.buffer, cut + 1);
        CutAtAComma(d.buffer, deltas, raw, cut);
        CommaIsSaid(d, cut + 1);
        more := raw + [d.buffer[..cut + 1]];
      }
    }
  }

  /** A piece with a comma is never blank, label or not. */
  lemma CommaIsSaid(c: Chunk, end: nat)
    requires 0 < end <= |c.buffer| && c.buffer[end - 1] == ','
    ensures Cut(c, end).out[|c.out|] != ""
  {
    hide LabelLength;
    var head := c.buffer[..end];
    var said := if c.first then StripLabel(head) else head;
    if LabelLength(head) == |head| { LabelFound(head); }
    assert said[|said| - 1] == ',';
    var a, b := StripExactly(said);
  }

  /**
   * Where a reply is cut. It falls into pieces and a rest, in order and without loss; each piece is cut where a
   * sentence ended or, in a clause of more than 140 characters, after a comma beyond the fortieth; and what is said is
   * the pieces and the rest, stripped, without the label and without the blank ones.
   */
  lemma CutsAreRight(deltas: seq<string>) returns (raw: seq<string>, rest: string)
    ensures Join(raw) + rest == Join(deltas)
    ensures forall k :: 0 <= k < |raw| ==> CutRight(deltas, raw, k)
    ensures OneSentence(rest) && (rest == "" || rest[|rest| - 1] !in ['.', '!', '?', '\U{2026}'])
    ensures Sentences(deltas) ==
            if AllSpace(rest) then SaidOf(raw)
            else SaidOf(raw) + [Strip(if raw == [] then rest[LabelLength(rest)..] else rest)]
  {
    hide CutRight, LabelLength, SaidOf, FeedAll, Join, OneSentence, IsSpace;
    raw := FeedingCuts(deltas);
    rest := FeedAll(deltas).buffer;
    NothingLeftToDrain(deltas);
    PrefixBeforeFirstEnd(rest, |rest|);
    assert rest[..|rest|] == rest;
    assert !EndsAt(rest, |rest|);
    var a, b := StripExactly(rest);
  }

  lemma FlushLeavesNoComma(d: Chunk, i: nat)
    requires 40 < i && i + 1 < |FlushLong(d).buffer| && |d.buffer| > 140
    ensures FlushLong(d).buffer[i] != ',' || FlushLong(d).buffer[i + 1] != ' '
  {
    hide LabelLength, Strip;
    var r := FlushLong(d).buffer;
    var cut := LastComma(d.buffer, |d.buffer| - 1);
    var at := if cut <= 40 then i else cut + 1 + i;
    assert d.buffer[at] == r[i] && d.buffer[at + 1] == r[i + 1];
    assert CommaAt(d.buffer, at) ==> at <= cut;
  }

  /** A clause is flushed, up to its last comma, exactly when over 140 characters wait with one beyond the 40th. */
  lemma FlushedExactly(d: Chunk) returns (cut: int)
    ensures |d.buffer| > 140 && (exists i :: i > 40 && CommaAt(d.buffer, i)) ==>
              && CommaAt(d.buffer, cut) && (forall i :: CommaAt(d.buffer, i) ==> i <= cut)
              && FlushLong(d).buffer == d.buffer[cut + 1..]
              && var head := d.buffer[..cut + 1];
                 FlushLong(d).out == d.out + [Strip(if d.first then head[LabelLength(head)..] else head)]
    ensures !(|d.buffer| > 140 && exists i :: i > 40 && CommaAt(d.buffer, i)) ==> FlushLong(d) == d
  {
    hide LabelLength, Strip;
    cut := if |d.buffer| > 0 then LastComma(d.buffer, |d.buffer| - 1) else -1;
  }

  lemma FlushingOnlyCuts(d: Chunk)
    ensures |FlushLong(d).buffer| <= |d.buffer|
  {
    hide LabelLength, Strip;
  }

  /** No clause that could have been flushed is kept waiting. */
  lemma NothingLongWaits(deltas: seq<string>, i: nat)
    requires deltas != [] && 40 < i && i + 1 < |FeedAll(deltas).buffer| && |FeedAll(deltas).buffer| > 140
    ensures FeedAll(deltas).buffer[i] != ',' || FeedAll(deltas).buffer[i + 1] != ' '
  {
    hide Drain, FlushLong;
    var n := |deltas| - 1;
    var c := FeedAll(deltas[..n]);
    var d := Drain(c.(buffer := c.buffer + deltas[n]));
    FlushingOnlyCuts(d);
    FlushLeavesNoComma(d, i);
  }

  // ------------------------------------------------------------------ the loops themselves

  lemma DrainStep(c: Chunk)
    ensures match FirstEnd(c.buffer, 0)
            case None => Drain(c) == c
            case Some(e) =>
              var said := Strip(if c.first then StripLabel(c.buffer[..e]) else c.buffer[..e]);
              Drain(c) == Drain(Chunk(c.buffer[e..], false, if said == "" then c.out else c.out + [said]))
  {
  }

  lemma NothingFed()
    ensures FeedAll([]) == Chunk("", true, [])
  {
  }

  lemma FedOneMore(deltas: seq<string>, i: nat)
    requires i < |deltas|
    ensures FeedAll(deltas[..i + 1]) == Feed(FeedAll(deltas[..i]), deltas[i])
  {
    assert deltas[..i + 1][..i] == deltas[..i];
  }

  /** The generator, run to the end of its stream. */
  method ChunkSentences(deltas: seq<string>) returns (out: seq<string>)
    ensures out == Sentences(deltas)
  {
    hide LabelLength, FeedAll;
    hide Strip;
    hide EndsAt;
    hide Drain;
    out := [];
    var buffer, first := "", true;
    NothingFed();
    for i := 0 to |deltas|
      invariant Chunk(buffer, first, out) == FeedAll(deltas[..i])
    {
      FedOneMore(deltas, i);
      buffer := buffer + deltas[i];
      ghost var fed := Chunk(buffer, first, out);
      while true
        invariant Drain(Chunk(buffer, first, out)) == Drain(fed)
        decreases |buffer|
      {
        DrainStep(Chunk(buffer, first, out));
        var found := FirstEnd(buffer, 0);
        if found.None? { break; }
        var head := buffer[..found.value];
        buffer := buffer[found.value..];
        if first { head, first := StripLabel(head), false; }
        if Strip(head) != "" { out := out + [Strip(head)]; }
      }
      if |buffer| > 140 {
        var cut := LastComma(buffer, |buffer| - 1);
        if cut > 40 {
          var head := buffer[..cut + 1];
          if first { head, first := StripLabel(head), false; }
          out := out + [Strip(head)];
          buffer := buffer[cut + 1..];
        }
      }
    }
    assert deltas[..|deltas|] == deltas;
    if Strip(buffer) != "" {
      out := out + [Strip(if first then StripLabel(buffer) else buffer)];
    }
  }

  /** Fixed words, cut wherever a sentence ends. */
  function Pieces(text: string): seq<string>
    decreases |text|
  {
    match FirstEnd(text, 0)
    case None => [text]
    case Some(e) => [text[..e]] + Pieces(text[e..])
  }

  function Stripped(pieces: seq<string>): seq<string> {
    if pieces == [] then []
    else
      var said := Strip(pieces[0]);
      (if said == "" then [] else [said]) + Stripped(pieces[1..])
  }

  predicate EndsWithTerminator(s: string) { s != "" && s[|s| - 1] in ['.', '!', '?', '\U{2026}'] }

  /**
   * Every piece is one sentence. All but the last end with a terminator that a space, or the end of the text, follows;
   * the last does not.
   */
  ghost predicate CutRightly(pieces: seq<string>) {
    && pieces != [] && OneSentence(pieces[0])
    && if |pieces| == 1 then !EndsWithTerminator(pieces[0])
       else
         && EndsWithTerminator(pieces[0])
         && (if pieces[1] == "" then |pieces| == 2 else IsSpace(pieces[1][0]))
         && CutRightly(pieces[1..])
  }

  lemma {:induction false} PiecesAreRight(text: string)
    ensures Join(Pieces(text)) == text && CutRightly(Pieces(text))
    decreases |text|
  {
    hide OneSentence, IsSpace;
    match FirstEnd(text, 0)
    case None =>
      assert Pieces(text)[1..] == [] && text + "" == text;
      PrefixBeforeFirstEnd(text, |text|);
      assert text[..|text|] == text && !EndsAt(text, |text|);
    case Some(e) =>
      PrefixBeforeFirstEnd(text, e);
      PiecesAreRight(text[e..]);
      assert Pieces(text)[1..] == Pieces(text[e..]);
      assert text == text[..e] + text[e..];
      FirstPiece(text[e..]);
  }

  /** A first piece starts where the text does. */
  lemma FirstPiece(text: string)
    ensures var p := Pieces(text);
            if text == "" then p == [""] else p[0] != "" && p[0][0] == text[0]
  {
  }

  lemma {:induction false} StrippedPieces(pieces: seq<string>)
    requires forall i :: 0 <= i < |pieces| ==> OneSentence(pieces[i])
    ensures Content(Join(Stripped(pieces))) == Content(Join(pieces))
    ensures AllOneSentence(Stripped(pieces))
    ensures forall i :: 0 <= i < |Stripped(pieces)| ==> Stripped(pieces)[i] != ""
  {
    hide Strip, OneSentence, IsSpace, Content;
    if pieces != [] {
      StrippedPieces(pieces[1..]);
      StripOneSentence(pieces[0]);
      var _, _ := StripIsSlice(pieces[0]);
      var said := Strip(pieces[0]);
      var rest := Stripped(pieces[1..]);
      ContentConcat(pieces[0], Join(pieces[1..]));
      ContentConcat(said, Join(rest));
      if said == "" {
        assert [] + rest == rest && said + Join(rest) == Join(rest);
      } else {
        assert ([said] + rest)[1..] == rest;
      }
    }
  }

  lemma {:induction false} AllAreOneSentence(pieces: seq<string>)
    requires CutRightly(pieces)
    ensures forall i :: 0 <= i < |pieces| ==> OneSentence(pieces[i])
  {
    hide OneSentence, IsSpace;
    if |pieces| > 1 {
      AllAreOneSentence(pieces[1..]);
      assert forall i :: 1 <= i < |pieces| ==> pieces[i] == pieces[1..][i - 1];
    }
  }

  /** Fixed words are split the same way, with no label and no comma flush. */
  method SentencesOf(text: string) returns (out: seq<string>)
    ensures out == Stripped(Pieces(text))
    ensures Content(Join(out)) == Content(text)
    ensures AllOneSentence(out)
    ensures forall i :: 0 <= i < |out| ==> out[i] != ""
  {
    hide Strip, OneSentence, EndsAt, FirstEnd, IsSpace, Pieces, Stripped, CutRightly;
    out := [];
    var rest := text;
    assert [] + Stripped(Pieces(text)) == Stripped(Pieces(text));
    while FirstEnd(rest, 0).Some?
      invariant out + Stripped(Pieces(rest)) == Stripped(Pieces(text))
      decreases |rest|
    {
      StrippedSteps(out, rest);
      var e := FirstEnd(rest, 0).value;
      var head := rest[..e];
      if Strip(head) != "" { out := out + [Strip(head)]; }
      rest := rest[e..];
    }
    StrippedSteps(out, rest);
    if Strip(rest) != "" { out := out + [Strip(rest)]; }
    PiecesAreRight(text);
    AllAreOneSentence(Pieces(text));
    StrippedPieces(Pieces(text));
  }

  lemma StrippedSteps(out: seq<string>, rest: string)
    ensures var e := FirstEnd(rest, 0);
            var said := Strip(if e.Some? then rest[..e.value] else rest);
            out + Stripped(Pieces(rest)) ==
              (if said == "" then out else out + [said]) + (if e.Some? then Stripped(Pieces(rest[e.value..])) else [])
  {
    hide Strip, FirstEnd;
    assert Pieces(rest)[1..] == if FirstEnd(rest, 0).Some? then Pieces(rest[FirstEnd(rest, 0).value..]) else [];
  }
}
