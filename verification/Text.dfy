/** The parts of Python's string handling the discussion depends on. */
module Text {

  /** What `str.isspace` and the regex class `\s` accept. */
  predicate IsSpace(c: char) {
    var n := c as int;
    || 9 <= n <= 13 || 28 <= n <= 32 || n == 0x85 || n == 0xA0 || n == 0x1680
    || 0x2000 <= n <= 0x200A || n == 0x2028 || n == 0x2029 || n == 0x202F || n == 0x205F || n == 0x3000
  }

  /** `s` with every whitespace character left out: what is said, however it is laid out. */
  function Content(s: string): string {
    if s == "" then "" else (if IsSpace(s[0]) then "" else [s[0]]) + Content(s[1..])
  }

  function LeftStrip(s: string): string {
    if s != "" && IsSpace(s[0]) then LeftStrip(s[1..]) else s
  }

  function RightStrip(s: string): string {
    if s != "" && IsSpace(s[|s| - 1]) then RightStrip(s[..|s| - 1]) else s
  }

  function Strip(s: string): string { RightStrip(LeftStrip(s)) }

  function Join(parts: seq<string>): string {
    if parts == [] then "" else parts[0] + Join(parts[1..])
  }

  function Lower(s: string): string {
    if s == "" then "" else [if 'A' <= s[0] <= 'Z' then s[0] - 'A' + 'a' else s[0]] + Lower(s[1..])
  }

  /** Letter by letter, and only the capitals of ASCII change. */
  lemma {:induction false} LowerIsLetterwise(s: string)
    ensures |Lower(s)| == |s|
    ensures forall i :: 0 <= i < |s| ==>
              Lower(s)[i] as int == s[i] as int + (if 'A' <= s[i] <= 'Z' then 32 else 0)
  {
    if s != "" {
      LowerIsLetterwise(s[1..]);
      forall i | 1 <= i < |s|
        ensures Lower(s)[i] == Lower(s[1..])[i - 1] && s[i] == s[1..][i - 1]
      {
      }
    }
  }

  predicate Contains(s: string, part: string) {
    part <= s || (s != "" && Contains(s[1..], part))
  }

  /** `len(text.split())`: maximal runs of non-space characters. */
  function WordCount(s: string): nat {
    if s == "" then 0
    else (if !IsSpace(s[0]) && (|s| == 1 || IsSpace(s[1])) then 1 else 0) + WordCount(s[1..])
  }

  ghost predicate NoSpace(s: string) { forall i :: 0 <= i < |s| ==> !IsSpace(s[i]) }

  ghost predicate AllSpace(s: string) { forall i :: 0 <= i < |s| ==> IsSpace(s[i]) }

  /** A stretch without spaces is one word, and spaces are none. */
  lemma {:induction false} OneWord(s: string)
    requires NoSpace(s) || AllSpace(s)
    ensures WordCount(s) == if s == "" || IsSpace(s[0]) then 0 else 1
  {
    hide IsSpace;
    if |s| > 1 {
      assert forall i :: 0 <= i < |s[1..]| ==> s[1..][i] == s[i + 1];
      OneWord(s[1..]);
    }
  }

  /** Words on the two sides of a space add up; with what `OneWord` says, this determines the count. */
  lemma {:induction false} WordsAddUp(a: string, b: string)
    requires a == "" || b == "" || IsSpace(a[|a| - 1]) || IsSpace(b[0])
    ensures WordCount(a + b) == WordCount(a) + WordCount(b)
  {
    hide IsSpace;
    if a == "" {
      assert a + b == b;
    } else if b == "" {
      assert a + b == a;
    } else {
      assert (a + b)[1..] == a[1..] + b;
      if |a| > 1 { assert a[1..][|a[1..]| - 1] == a[|a| - 1]; }
      WordsAddUp(a[1..], b);
    }
  }

  lemma {:induction false} ContentConcat(a: string, b: string)
    ensures Content(a + b) == Content(a) + Content(b)
  {
    hide IsSpace;
    if a == "" {
      assert a + b == b;
    } else {
      var head := if IsSpace(a[0]) then "" else [a[0]];
      ContentConcat(a[1..], b);
      assert (a + b)[1..] == a[1..] + b;
      assert Content(a + b) == head + (Content(a[1..]) + Content(b)) == (head + Content(a[1..])) + Content(b);
    }
  }

  lemma {:induction false} JoinConcat(a: seq<string>, b: seq<string>)
    ensures Join(a + b) == Join(a) + Join(b)
  {
    if a == [] {
      assert a + b == b;
    } else {
      JoinConcat(a[1..], b);
      assert (a + b)[1..] == a[1..] + b;
      assert Join(a + b) == a[0] + (Join(a[1..]) + Join(b)) == (a[0] + Join(a[1..])) + Join(b);
    }
  }

  lemma JoinAppend(a: seq<string>, last: string)
    ensures Join(a + [last]) == Join(a) + last
  {
    JoinConcat(a, [last]);
    assert Join([last]) == last + Join([]);
  }

  lemma {:induction false} LeftStripIsSuffix(s: string) returns (k: nat)
    ensures k <= |s| && LeftStrip(s) == s[k..] && Content(s[..k]) == ""
  {
    if s != "" && IsSpace(s[0]) {
      k := LeftStripIsSuffix(s[1..]);
      assert s[..k + 1][1..] == s[1..][..k];
      k := k + 1;
    } else {
      k := 0;
    }
  }

  lemma {:induction false} RightStripIsPrefix(s: string) returns (k: nat)
    ensures k <= |s| && RightStrip(s) == s[..k] && Content(s[k..]) == ""
  {
    if s != "" && IsSpace(s[|s| - 1]) {
      var t := s[..|s| - 1];
      k := RightStripIsPrefix(t);
      ContentConcat(t[k..], [s[|s| - 1]]);
      assert s[k..] == t[k..] + [s[|s| - 1]];
      assert Content([s[|s| - 1]]) == "" + Content("");
    } else {
      k := |s|;
    }
  }

  /** Stripping cuts a slice out of the text and loses only whitespace. */
  lemma StripIsSlice(s: string) returns (a: nat, b: nat)
    ensures a <= b <= |s| && Strip(s) == s[a..b]
    ensures Content(Strip(s)) == Content(s)
  {
    hide Content;
    a := LeftStripIsSuffix(s);
    var t := s[a..];
    var k := RightStripIsPrefix(t);
    b := a + k;
    ContentSplits(s, a);
    ContentSplits(t, k);
    assert Content(t[..k]) + "" == Content(t[..k]);
  }

  /** Exactly the spaces at the two ends go. */
  lemma StripExactly(s: string) returns (a: nat, b: nat)
    ensures a <= b <= |s| && Strip(s) == s[a..b]
    ensures AllSpace(s[..a]) && AllSpace(s[b..])
    ensures a < b ==> !IsSpace(s[a]) && !IsSpace(s[b - 1])
  {
    hide IsSpace;
    a := LeftStripExactly(s);
    var t := s[a..];
    var k := RightStripExactly(t);
    b := a + k;
    assert s[b..] == t[k..];
  }

  lemma {:induction false} LeftStripExactly(s: string) returns (a: nat)
    ensures a <= |s| && LeftStrip(s) == s[a..] && AllSpace(s[..a]) && (a < |s| ==> !IsSpace(s[a]))
  {
    hide IsSpace;
    if s != "" && IsSpace(s[0]) {
      var k := LeftStripExactly(s[1..]);
      a := k + 1;
      forall i | 0 <= i < a ensures IsSpace(s[i]) { if i > 0 { assert s[1..][..k][i - 1] == s[i]; } }
    } else {
      a := 0;
    }
  }

  lemma {:induction false} RightStripExactly(s: string) returns (b: nat)
    ensures b <= |s| && RightStrip(s) == s[..b] && AllSpace(s[b..]) && (b > 0 ==> !IsSpace(s[b - 1]))
  {
    hide IsSpace;
    if s != "" && IsSpace(s[|s| - 1]) {
      var t := s[..|s| - 1];
      b := RightStripExactly(t);
      forall i | 0 <= i < |s[b..]| ensures IsSpace(s[b..][i]) {
        if i < |t| - b { assert t[b..][i] == s[b..][i]; }
      }
    } else {
      b := |s|;
    }
  }

  lemma ContentSplits(s: string, k: nat)
    requires k <= |s|
    ensures Content(s) == Content(s[..k]) + Content(s[k..])
    ensures Content(s[..k]) == "" ==> Content(s) == Content(s[k..])
  {
    hide Content;
    hide IsSpace;
    ContentConcat(s[..k], s[k..]);
    assert s == s[..k] + s[k..];
    assert "" + Content(s[k..]) == Content(s[k..]);
  }
}
