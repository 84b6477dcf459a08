/**
 * Merging pattern matches into spans and redacting them (backend/app/domain/privacy.py). The patterns
 * themselves are not modelled: a list of nonempty in-bounds matches stands for what they found.
 */
module Privacy {
  import opened Common

  datatype Kind = Email | Phone | Identifier

  datatype Span = Span(kind: Kind, start: nat, end: nat)

  const REDACTION := "[removed]"

  ghost predicate InBounds(spans: seq<Span>, length: nat) {
    forall i :: 0 <= i < |spans| ==> spans[i].start < spans[i].end <= length
  }

  // ------------------------------------------------------------------ sorting by (start, -end)

  predicate Before(a: Span, b: Span) { a.start < b.start || (a.start == b.start && a.end >= b.end) }

  ghost predicate Sorted(spans: seq<Span>) {
    forall i, j :: 0 <= i < j < |spans| ==> Before(spans[i], spans[j])
  }

  /** Insertion after everything that may come first, so equal keys keep their order. */
  function Insert(s: Span, sorted: seq<Span>): seq<Span> {
    if sorted == [] || !Before(sorted[0], s) then [s] + sorted
    else [sorted[0]] + Insert(s, sorted[1..])
  }

  /** `found.sort(key=lambda m: (m.start, -m.end))`. */
  function Sort(found: seq<Span>): seq<Span> {
    if found == [] then [] else Insert(found[|found| - 1], Sort(found[..|found| - 1]))
  }

  lemma {:induction false} InsertSorts(s: Span, sorted: seq<Span>)
    requires Sorted(sorted)
    ensures Sorted(Insert(s, sorted)) && multiset(Insert(s, sorted)) == multiset(sorted) + multiset{s}
  {
    if sorted != [] && Before(sorted[0], s) {
      InsertSorts(s, sorted[1..]);
      hide Before;
      var rest := Insert(s, sorted[1..]);
      assert sorted == [sorted[0]] + sorted[1..];
      forall j | 0 <= j < |rest|
        ensures Before(sorted[0], rest[j])
      {
        assert rest[j] in multiset(rest);
        if rest[j] != s { assert rest[j] in multiset(sorted[1..]); }
      }
    }
  }

  lemma {:induction false} SortSorts(found: seq<Span>)
    ensures Sorted(Sort(found)) && multiset(Sort(found)) == multiset(found)
  {
    if found != [] {
      var n := |found| - 1;
      SortSorts(found[..n]);
      InsertSorts(found[n], Sort(found[..n]));
      assert found == found[..n] + [found[n]];
    }
  }

  lemma SortKeepsMembers(found: seq<Span>, s: Span)
    ensures s in Sort(found) <==> s in found
  {
    SortSorts(found);
    assert s in multiset(Sort(found)) <==> s in multiset(found);
  }

  // ------------------------------------------------------------------ merging

  /** The spans kept out of a sorted list: those that start at or after the end of the last one kept. */
  function Kept(sorted: seq<Span>): seq<Span> {
    if sorted == [] then []
    else
      var merged := Kept(sorted[..|sorted| - 1]);
      var span := sorted[|sorted| - 1];
      if merged != [] && span.start < merged[|merged| - 1].end then merged else merged + [span]
  }

  /** In order, and each one over before the next begins. */
  ghost predicate Disjoint(spans: seq<Span>) {
    forall i, j :: 0 <= i < j < |spans| ==> spans[i].end <= spans[j].start
  }

  lemma {:induction false} KeptAreApart(sorted: seq<Span>, length: nat)
    requires Sorted(sorted) && InBounds(sorted, length)
    ensures Disjoint(Kept(sorted)) && InBounds(Kept(sorted), length)
  {
    hide Disjoint, Sorted;
    if sorted == [] {
      NoSpansAreApart();
    } else {
      var front, span := sorted[..|sorted| - 1], sorted[|sorted| - 1];
      SortedFront(sorted);
      KeptAreApart(front, length);
      if Kept(sorted) != Kept(front) { OneMoreApart(Kept(front), span, length); }
    }
  }

  lemma NoSpansAreApart()
    ensures Disjoint([])
  {
  }

  lemma SortedFront(sorted: seq<Span>)
    requires Sorted(sorted) && sorted != []
    ensures Sorted(sorted[..|sorted| - 1])
  {
  }

  lemma OneMoreApart(spans: seq<Span>, span: Span, length: nat)
    requires Disjoint(spans) && InBounds(spans, length)
    requires spans != [] ==> spans[|spans| - 1].end <= span.start
    ensures Disjoint(spans + [span])
  {
    assert forall i :: 0 <= i < |spans| ==> spans[i].end <= span.start;
  }

  /** The kept span a match starts in. */
  lemma {:induction false} StartIsInside(sorted: seq<Span>, length: nat, i: nat) returns (k: nat)
    requires Sorted(sorted) && InBounds(sorted, length) && i < |sorted|
    ensures k < |Kept(sorted)| && Kept(sorted)[k].start <= sorted[i].start < Kept(sorted)[k].end
  {
    var n := |sorted| - 1;
    var front, merged, kept := sorted[..n], Kept(sorted[..n]), Kept(sorted);
    if i < n {
      k := StartIsInside(front, length, i);
      assert kept[k] == merged[k];
    } else if kept == merged {
      k := |merged| - 1;
      var j := KeptIsMember(front, k);
      assert Before(sorted[j], sorted[n]);
    } else {
      k := |merged|;
    }
  }

  lemma {:induction false} KeptIsMember(sorted: seq<Span>, k: nat) returns (i: nat)
    requires k < |Kept(sorted)|
    ensures i < |sorted| && sorted[i] == Kept(sorted)[k]
  {
    var n := |sorted| - 1;
    if k < |Kept(sorted[..n])| { i := KeptIsMember(sorted[..n], k); } else { i := n; }
  }

  lemma {:induction false} KeptIsLongest(sorted: seq<Span>, length: nat, k: nat, i: nat)
    requires Sorted(sorted) && InBounds(sorted, length)
    requires k < |Kept(sorted)| && i < |sorted| && sorted[i].start == Kept(sorted)[k].start
    ensures sorted[i].end <= Kept(sorted)[k].end
  {
    var n := |sorted| - 1;
    var front, merged := sorted[..n], Kept(sorted[..n]);
    if k < |merged| {
      if i < n {
        KeptIsLongest(front, length, k, i);
      } else {
        var j := KeptIsMember(front, k);
        assert Before(sorted[j], sorted[n]);
      }
    } else if i < n {
      KeptAreApart(front, length);
      var j := StartIsInside(front, length, i);
    }
  }

  /** `find_personal_information`, given what the patterns matched. */
  method FindPersonalInformation(found: seq<Span>) returns (merged: seq<Span>)
    ensures merged == Kept(Sort(found))
  {
    var sorted := Sort(found);
    merged := [];
    for i := 0 to |sorted|
      invariant merged == Kept(sorted[..i])
    {
      assert sorted[..i + 1][..i] == sorted[..i];
      var span := sorted[i];
      if merged != [] && span.start < merged[|merged| - 1].end { continue; }
      merged := merged + [span];
    }
    assert sorted[..|sorted|] == sorted;
  }

  lemma SortedInBounds(found: seq<Span>, length: nat)
    requires InBounds(found, length)
    ensures Sorted(Sort(found)) && InBounds(Sort(found), length)
  {
    hide Sort;
    SortSorts(found);
    forall i | 0 <= i < |Sort(found)|
      ensures Sort(found)[i].start < Sort(found)[i].end <= length
    {
      SortKeepsMembers(found, Sort(found)[i]);
    }
  }

  /** What is kept is in order and apart, and each span is an actual match. */
  lemma KeptAreMatches(found: seq<Span>, length: nat)
    requires InBounds(found, length)
    ensures Disjoint(Kept(Sort(found))) && InBounds(Kept(Sort(found)), length)
    ensures forall k :: 0 <= k < |Kept(Sort(found))| ==> Kept(Sort(found))[k] in found
  {
    hide Sort;
    hide Kept;
    SortedInBounds(found, length);
    KeptAreApart(Sort(found), length);
    forall k | 0 <= k < |Kept(Sort(found))|
      ensures Kept(Sort(found))[k] in found
    {
      var i := KeptIsMember(Sort(found), k);
      SortKeepsMembers(found, Sort(found)[i]);
    }
  }

  /** Every match starts inside a kept span, which is the longest of the matches that start where it does. */
  lemma MatchStartsInKept(found: seq<Span>, length: nat, m: Span) returns (k: nat)
    requires InBounds(found, length) && m in found
    ensures k < |Kept(Sort(found))|
    ensures var s := Kept(Sort(found))[k]; s.start <= m.start < s.end && (s.start == m.start ==> m.end <= s.end)
  {
    hide Sort;
    hide Kept;
    SortedInBounds(found, length);
    SortKeepsMembers(found, m);
    var i :| 0 <= i < |Sort(found)| && Sort(found)[i] == m;
    k := StartIsInside(Sort(found), length, i);
    if Kept(Sort(found))[k].start == m.start { KeptIsLongest(Sort(found), length, k, i); }
  }

  // ------------------------------------------------------------------ what redaction covers

  ghost predicate Within(m: Span, k: Span) { k.start <= m.start && m.end <= k.end }

  ghost predicate Covered(m: Span, kept: seq<Span>) { exists k :: k in kept && Within(m, k) }

  /** `b` starts inside `a` and runs past its end. */
  ghost predicate SticksOut(a: Span, b: Span) { a.start <= b.start < a.end < b.end }

  /** Wherever one match runs past another it started in, some match holds both. */
  ghost predicate OverlapsAreHeld(found: seq<Span>) {
    forall a, b :: a in found && b in found && SticksOut(a, b) ==> Held(a, b, found)
  }

  ghost predicate Held(a: Span, b: Span, found: seq<Span>) {
    exists q :: q in found && Within(a, q) && Within(b, q)
  }

  /** The merge covers starts, not every end: the second of two overlapping matches keeps its tail in clear. */
  lemma TailsCanSurvive()
    ensures var found := [Span(Phone, 0, 5), Span(Identifier, 3, 8)];
            Kept(Sort(found)) == [Span(Phone, 0, 5)] && !Covered(found[1], Kept(Sort(found)))
  {
    var a, b := Span(Phone, 0, 5), Span(Identifier, 3, 8);
    assert [a, b][..1] == [a] && [a][..0] == [];
    assert Sort([a]) == Insert(a, Sort([])) == [a];
    assert Insert(b, [a]) == [a] + Insert(b, [a][1..]) == [a, b];
    assert Sort([a, b]) == [a, b];
    assert Kept([a]) == Kept([]) + [a] == [a];
    assert Kept([a, b]) == [a];
  }

  /** Exactly when redaction leaves nothing of any match behind. */
  lemma CoversAllExactly(found: seq<Span>, length: nat)
    requires InBounds(found, length)
    ensures (forall m :: m in found ==> Covered(m, Kept(Sort(found)))) <==> OverlapsAreHeld(found)
  {
    hide Sort;
    hide Kept;
    var kept := Kept(Sort(found));
    if forall m :: m in found ==> Covered(m, kept) {
      forall a, b | a in found && b in found && SticksOut(a, b)
        ensures Held(a, b, found)
      {
        CoveredOverlapIsHeld(found, length, a, b);
      }
    }
    if OverlapsAreHeld(found) {
      forall m | m in found
        ensures Covered(m, kept)
      {
        HeldIsCovered(found, length, m);
      }
    }
  }

  lemma CoveredOverlapIsHeld(found: seq<Span>, length: nat, a: Span, b: Span)
    requires InBounds(found, length) && SticksOut(a, b)
    requires Covered(a, Kept(Sort(found))) && Covered(b, Kept(Sort(found)))
    ensures Held(a, b, found)
  {
    hide Sort;
    hide Kept;
    var kept := Kept(Sort(found));
    KeptAreMatches(found, length);
    var q :| q in kept && Within(a, q);
    var r :| r in kept && Within(b, r);
    var i :| 0 <= i < |kept| && kept[i] == q;
    var j :| 0 <= j < |kept| && kept[j] == r;
    assert i == j;
  }

  /** A match that sticks out of its kept span would be held by one that starts earlier, and so on down. */
  lemma {:induction false} HeldIsCovered(found: seq<Span>, length: nat, m: Span)
    requires InBounds(found, length) && OverlapsAreHeld(found) && m in found
    ensures Covered(m, Kept(Sort(found)))
    decreases m.start
  {
    hide Sort;
    hide Kept;
    var kept := Kept(Sort(found));
    var i := MatchStartsInKept(found, length, m);
    var k := kept[i];
    if k.end < m.end {
      KeptAreMatches(found, length);
      assert Held(k, m, found);
      var q :| q in found && Within(k, q) && Within(m, q);
      var j := MatchStartsInKept(found, length, q);
      assert q.start < k.start || i == j;
      HeldIsCovered(found, length, q);
    } else {
      assert Within(m, k);
    }
  }

  // ------------------------------------------------------------------ redacting

  /** Where the text between spans resumes before span `i`. */
  function CursorAt(spans: seq<Span>, i: nat): nat
    requires i <= |spans|
  {
    if i == 0 then 0 else spans[i - 1].end
  }

  /** `text` from span `i` on, with the spans replaced by `words`, one for one. */
  function Splice(text: string, spans: seq<Span>, words: seq<string>, i: nat): string
    requires i <= |spans| == |words|
    requires InBounds(spans, |text|) && Disjoint(spans)
    decreases |spans| - i
  {
    if i == |spans| then text[CursorAt(spans, i)..]
    else text[CursorAt(spans, i)..spans[i].start] + (words[i] + Splice(text, spans, words, i + 1))
  }

  function Redacted(text: string, spans: seq<Span>): string
    requires InBounds(spans, |text|) && Disjoint(spans)
  {
    Splice(text, spans, seq(|spans|, _ => REDACTION), 0)
  }

  /** The words behind each span. */
  function Originals(text: string, spans: seq<Span>): seq<string>
    requires InBounds(spans, |text|)
  {
    seq(|spans|, i requires 0 <= i < |spans| => text[spans[i].start..spans[i].end])
  }

  lemma SpliceStep(text: string, spans: seq<Span>, words: seq<string>, i: nat, out: seq<string>)
    requires InBounds(spans, |text|) && Disjoint(spans) && i < |spans| == |words|
    ensures var plain := text[CursorAt(spans, i)..spans[i].start];
            Concat((out + [plain]) + [words[i]]) + Splice(text, spans, words, i + 1)
            == Concat(out) + Splice(text, spans, words, i)
  {
    hide Concat;
    var plain := text[CursorAt(spans, i)..spans[i].start];
    ConcatAppend(out, plain);
    ConcatAppend(out + [plain], words[i]);
    Regroup(Concat(out), plain, words[i], Splice(text, spans, words, i + 1));
  }

  lemma Regroup(a: string, b: string, c: string, d: string)
    ensures ((a + b) + c) + d == a + (b + (c + d))
  {
  }

  /** Where the plain stretch before span `i` begins in what is handed out: after what is handed out before it. */
  function OutAt(spans: seq<Span>, i: nat): (n: int)
    requires i <= |spans|
  {
    if i == 0 then 0 else OutAt(spans, i - 1) + (spans[i - 1].start - CursorAt(spans, i - 1)) + 9
  }

  /** How much of the text the first `i` spans take up. */
  function Covering(spans: seq<Span>, i: nat): int
    requires i <= |spans|
  {
    if i == 0 then 0 else Covering(spans, i - 1) + (spans[i - 1].end - spans[i - 1].start)
  }

  lemma {:induction false} OutAtIs(spans: seq<Span>, i: nat, length: nat)
    requires InBounds(spans, length) && Disjoint(spans) && i <= |spans|
    ensures OutAt(spans, i) == CursorAt(spans, i) - Covering(spans, i) + 9 * i && OutAt(spans, i) >= 0
  {
    if i > 0 {
      OutAtIs(spans, i - 1, length);
      if i > 1 { assert spans[i - 2].end <= spans[i - 1].start; }
    }
  }

  /** `r` holds the stretch before span `k`, and then the marker, where they belong. */
  ghost predicate StandsAt(r: string, text: string, spans: seq<Span>, k: nat)
    requires InBounds(spans, |text|) && Disjoint(spans) && k < |spans|
  {
    var from, plain := OutAt(spans, k), spans[k].start - CursorAt(spans, k);
    && 0 <= from && 0 <= plain && from + plain + 9 <= |r|
    && r[from..from + plain] == text[CursorAt(spans, k)..spans[k].start]
    && r[from + plain..from + plain + 9] == "[removed]"
  }

  /** `r` is the text with each span, and nothing else, replaced by a marker. */
  ghost predicate IsRedaction(r: string, text: string, spans: seq<Span>)
    requires InBounds(spans, |text|) && Disjoint(spans)
  {
    var n := |spans|;
    && |r| == |text| - Covering(spans, n) + 9 * n
    && (forall k :: 0 <= k < n ==> StandsAt(r, text, spans, k))
    && 0 <= OutAt(spans, n) <= |r|
    && r[OutAt(spans, n)..] == text[CursorAt(spans, n)..]
  }

  lemma {:induction false} SpliceStands(text: string, spans: seq<Span>, i: nat, before: string)
    requires InBounds(spans, |text|) && Disjoint(spans) && i <= |spans| && |before| == OutAt(spans, i)
    ensures var r := before + Splice(text, spans, seq(|spans|, _ => REDACTION), i);
            && (forall k :: i <= k < |spans| ==> StandsAt(r, text, spans, k))
            && 0 <= OutAt(spans, |spans|) <= |r|
            && r[OutAt(spans, |spans|)..] == text[CursorAt(spans, |spans|)..]
    decreases |spans| - i
  {
    hide StandsAt;
    var words := seq(|spans|, _ => REDACTION);
    if i < |spans| {
      var plain := text[CursorAt(spans, i)..spans[i].start];
      var rest := Splice(text, spans, words, i + 1);
      MarkerStands(text, spans, i, before, rest);
      SpliceStands(text, spans, i + 1, (before + plain) + REDACTION);
      Regroup(before, plain, REDACTION, rest);
    } else {
      assert (before + text[CursorAt(spans, i)..])[|before|..] == text[CursorAt(spans, i)..];
    }
  }

  lemma MarkerStands(text: string, spans: seq<Span>, i: nat, before: string, rest: string)
    requires InBounds(spans, |text|) && Disjoint(spans) && i < |spans| && |before| == OutAt(spans, i)
    ensures var plain := text[CursorAt(spans, i)..spans[i].start];
            && StandsAt(((before + plain) + REDACTION) + rest, text, spans, i)
            && |(before + plain) + REDACTION| == OutAt(spans, i + 1)
  {
    var plain := text[CursorAt(spans, i)..spans[i].start];
    var r := ((before + plain) + REDACTION) + rest;
    assert r[|before|..|before| + |plain|] == plain;
    assert r[|before| + |plain|..|before| + |plain| + 9] == REDACTION;
  }

  lemma RedactedIsRedaction(text: string, spans: seq<Span>)
    requires InBounds(spans, |text|) && Disjoint(spans)
    ensures IsRedaction(Redacted(text, spans), text, spans)
  {
    SpliceStands(text, spans, 0, "");
    var r := Redacted(text, spans);
    assert "" + r == r;
    OutAtIs(spans, |spans|, |text|);
  }

  ghost predicate Outside(i: nat, spans: seq<Span>) {
    forall k :: 0 <= k < |spans| ==> i < spans[k].start || spans[k].end <= i
  }

  lemma OutsideBetween(spans: seq<Span>, length: nat, k: nat, i: nat)
    requires InBounds(spans, length) && Disjoint(spans) && k <= |spans|
    requires CursorAt(spans, k) <= i && (k < |spans| ==> i < spans[k].start)
    ensures Outside(i, spans)
  {
    forall j | 0 <= j < |spans|
      ensures i < spans[j].start || spans[j].end <= i
    {
      if j < k - 1 { assert spans[j].end <= spans[k - 1].start; }
      if j > k { assert spans[k].end <= spans[j].start; }
    }
  }

  /**
   * Nothing of what was removed can be told from what is handed out: two texts that differ only inside the spans are
   * redacted to the same string.
   */
  lemma NothingRemovedIsLeft(text: string, other: string, spans: seq<Span>, r: string, q: string)
    requires |text| == |other| && InBounds(spans, |text|) && Disjoint(spans)
    requires forall i :: 0 <= i < |text| && Outside(i, spans) ==> text[i] == other[i]
    requires IsRedaction(r, text, spans) && IsRedaction(q, other, spans)
    ensures r == q
  {
    SamePlainUpTo(text, other, spans, r, q, |spans|);
    var c, n := CursorAt(spans, |spans|), OutAt(spans, |spans|);
    forall i | c <= i < |text|
      ensures text[i] == other[i]
    {
      OutsideBetween(spans, |text|, |spans|, i);
    }
    assert text[c..] == other[c..];
    assert r == r[..n] + r[n..] && q == q[..n] + q[n..];
  }

  lemma {:induction false} SamePlainUpTo(text: string, other: string, spans: seq<Span>, r: string, q: string, k: nat)
    requires |text| == |other| && InBounds(spans, |text|) && Disjoint(spans) && k <= |spans|
    requires forall i :: 0 <= i < |text| && Outside(i, spans) ==> text[i] == other[i]
    requires IsRedaction(r, text, spans) && IsRedaction(q, other, spans)
    ensures 0 <= OutAt(spans, k) <= |r| && OutAt(spans, k) <= |q| && r[..OutAt(spans, k)] == q[..OutAt(spans, k)]
    decreases k
  {
    hide Disjoint, Outside;
    if k > 0 {
      SamePlainUpTo(text, other, spans, r, q, k - 1);
      assert StandsAt(r, text, spans, k - 1) && StandsAt(q, other, spans, k - 1);
      SamePlain(text, other, spans, k - 1);
      var a := OutAt(spans, k - 1);
      SamePieces(r, q, a, a + (spans[k - 1].start - CursorAt(spans, k - 1)), OutAt(spans, k));
    }
  }

  lemma SamePlain(text: string, other: string, spans: seq<Span>, k: nat)
    requires |text| == |other| && InBounds(spans, |text|) && Disjoint(spans) && k < |spans|
    requires forall i :: 0 <= i < |text| && Outside(i, spans) ==> text[i] == other[i]
    ensures CursorAt(spans, k) <= spans[k].start
    ensures text[CursorAt(spans, k)..spans[k].start] == other[CursorAt(spans, k)..spans[k].start]
  {
    forall i | CursorAt(spans, k) <= i < spans[k].start
      ensures text[i] == other[i]
    {
      OutsideBetween(spans, |text|, k, i);
    }
  }

  lemma SamePieces(r: string, q: string, a: nat, b: nat, c: nat)
    requires a <= b <= c <= |r| && c <= |q|
    requires r[..a] == q[..a] && r[a..b] == q[a..b] && r[b..c] == q[b..c]
    ensures r[..c] == q[..c]
  {
    assert r[..c] == r[..a] + r[a..b] + r[b..c];
    assert q[..c] == q[..a] + q[a..b] + q[b..c];
  }

  /** `redact`: nothing but the spans is touched, and a text without matches comes back as it was. */
  method Redact(text: string, found: seq<Span>) returns (r: string)
    requires InBounds(found, |text|)
    ensures var kept := Kept(Sort(found));
            && Disjoint(kept) && InBounds(kept, |text|)
            && r == Redacted(text, kept) && IsRedaction(r, text, kept)
    ensures found == [] ==> r == text
  {
    KeptAreMatches(found, |text|);
    hide Sort;
    hide Kept;
    var matches := FindPersonalInformation(found);
    var words := seq(|matches|, _ => REDACTION);
    RedactedIsRedaction(text, matches);
    hide IsRedaction;
    if matches == [] {
      return text;
    }
    var out: seq<string> := [];
    var cursor: nat := 0;
    for i := 0 to |matches|
      invariant cursor == CursorAt(matches, i)
      invariant Concat(out) + Splice(text, matches, words, i) == Redacted(text, matches)
    {
      SpliceStep(text, matches, words, i, out);
      out := out + [text[cursor..matches[i].start]];
      out := out + [REDACTION];
      cursor := matches[i].end;
    }
    ConcatAppend(out, text[cursor..]);
    out := out + [text[cursor..]];
    r := Concat(out);
  }

  function Concat(parts: seq<string>): string {
    if parts == [] then "" else Concat(parts[..|parts| - 1]) + parts[|parts| - 1]
  }

  lemma ConcatAppend(parts: seq<string>, last: string)
    ensures Concat(parts + [last]) == Concat(parts) + last
  {
    assert (parts + [last])[..|parts|] == parts;
  }

  /** Putting the removed words back in place of the markers gives the text that was redacted. */
  lemma RestoringGivesBack(text: string, spans: seq<Span>)
    requires InBounds(spans, |text|) && Disjoint(spans)
    ensures Splice(text, spans, Originals(text, spans), 0) == text
  {
    RestoringFrom(text, spans, 0);
    assert text[0..] == text;
  }

  lemma {:induction false} RestoringFrom(text: string, spans: seq<Span>, i: nat)
    requires InBounds(spans, |text|) && Disjoint(spans) && i <= |spans|
    ensures Splice(text, spans, Originals(text, spans), i) == text[CursorAt(spans, i)..]
    decreases |spans| - i
  {
    if i < |spans| {
      var c, s := CursorAt(spans, i), spans[i];
      RestoringFrom(text, spans, i + 1);
      assert text[c..] == text[c..s.start] + (text[s.start..s.end] + text[s.end..]);
    }
  }

  /** `a` appears before `b` first does. */
  ghost predicate Precedes(matches: seq<Span>, a: Kind, b: Kind) {
    exists p :: 0 <= p < |matches| && matches[p].kind == a && forall q :: 0 <= q <= p ==> matches[q].kind != b
  }

  lemma StillPrecedes(matches: seq<Span>, n: nat, m: nat, a: Kind, b: Kind)
    requires n <= m <= |matches| && Precedes(matches[..n], a, b)
    ensures Precedes(matches[..m], a, b)
  {
    var p :| 0 <= p < n && matches[..n][p].kind == a && forall q :: 0 <= q <= p ==> matches[..n][q].kind != b;
    assert matches[..m][p].kind == a;
    assert forall q :: 0 <= q <= p ==> matches[..m][q] == matches[..n][q];
  }

  /** The kinds present, each once, in the order in which they first appear. */
  method KindsIn(found: seq<Span>) returns (seen: seq<Kind>)
    ensures forall k :: k in seen <==> exists s :: s in Kept(Sort(found)) && s.kind == k
    ensures forall i, j :: 0 <= i < j < |seen| ==> seen[i] != seen[j]
    ensures forall i, j :: 0 <= i < j < |seen| ==> Precedes(Kept(Sort(found)), seen[i], seen[j])
  {
    hide Precedes;
    var matches := FindPersonalInformation(found);
    seen := [];
    for n := 0 to |matches|
      invariant forall k :: k in seen <==> exists s :: s in matches[..n] && s.kind == k
      invariant forall i, j :: 0 <= i < j < |seen| ==> seen[i] != seen[j]
      invariant forall i, j :: 0 <= i < j < |seen| ==> Precedes(matches[..n], seen[i], seen[j])
    {
      assert matches[..n + 1] == matches[..n] + [matches[n]];
      forall i, j | 0 <= i < j < |seen|
        ensures Precedes(matches[..n + 1], seen[i], seen[j])
      {
        StillPrecedes(matches, n, n + 1, seen[i], seen[j]);
      }
      var kind := matches[n].kind;
      if kind !in seen {
        forall i | 0 <= i < |seen|
          ensures Precedes(matches[..n + 1], seen[i], kind)
        {
          assert seen[i] in seen;
          NewcomerIsLast(matches, n, seen[i], kind);
        }
        seen := seen + [kind];
      }
    }
    assert matches[..|matches|] == matches;
  }

  lemma NewcomerIsLast(matches: seq<Span>, n: nat, a: Kind, b: Kind)
    requires n < |matches|
    requires exists s :: s in matches[..n] && s.kind == a
    requires forall s :: s in matches[..n] ==> s.kind != b
    ensures Precedes(matches[..n + 1], a, b)
  {
    var s :| s in matches[..n] && s.kind == a;
    var p :| 0 <= p < n && matches[..n][p] == s;
    var upTo := matches[..n + 1];
    assert upTo[p].kind == a;
    forall q | 0 <= q <= p
      ensures upTo[q].kind != b
    {
      assert upTo[q] in matches[..n];
    }
  }
}
