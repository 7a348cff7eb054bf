// Sentence splitting and sliding windows.
module Chunker {

  // ----- characters -----

  // Unicode White_Space.
  predicate IsSpace(c: char) {
    || '\t' <= c <= '\r' || c == ' ' || c == '\U{85}' || c == '\U{A0}' || c == '\U{1680}'
    || '\U{2000}' <= c <= '\U{200A}' || c == '\U{2028}' || c == '\U{2029}' || c == '\U{202F}' || c == '\U{205F}'
    || c == '\U{3000}'
  }

  // By code point: the five controls from tab on, the blank, next line, the no-break space and the wide blanks.
  lemma SpaceByCode(c: char)
    ensures IsSpace(c) <==> var n := c as int;
              n in {0x20, 0x85, 0xA0, 0x1680, 0x2028, 0x2029, 0x202F, 0x205F, 0x3000} || 9 <= n <= 13 || 0x2000 <= n <= 0x200A
  {
  }

  predicate IsTerminator(c: char) { c == '.' || c == '?' || c == '!' }

  predicate IsBlankAscii(c: char) { c == ' ' || c == '\t' || c == '\n' || c == '\r' }

  // The lower-case mapping, as far as it reaches ASCII letters.
  function Lower(c: char): char {
    if 'A' <= c <= 'Z' then c - 'A' + 'a'
    else if c == '\U{130}' then 'i'
    else if c == '\U{212A}' then 'k'
    else c
  }

  function ToLower(s: string): string { seq(|s|, i requires 0 <= i < |s| => Lower(s[i])) }

  // ----- trimming -----

  predicate AllSpace(s: string, i: nat, j: nat)
    requires i <= j <= |s|
  {
    forall k :: i <= k < j ==> IsSpace(s[k])
  }

  // No whitespace at either end.
  predicate Trimmed(s: string) { s != "" ==> !IsSpace(s[0]) && !IsSpace(s[|s| - 1]) }

  function SkipSpace(s: string, i: nat): (j: nat)
    requires i <= |s|
    ensures i <= j <= |s| && AllSpace(s, i, j) && (j < |s| ==> !IsSpace(s[j]))
    decreases |s| - i
  {
    if i < |s| && IsSpace(s[i]) then SkipSpace(s, i + 1) else i
  }

  function DropSpace(s: string, i: nat, j: nat): (e: nat)
    requires i <= j <= |s|
    ensures i <= e <= j && AllSpace(s, e, j) && (i < e ==> !IsSpace(s[e - 1]))
    decreases j
  {
    if i < j && IsSpace(s[j - 1]) then DropSpace(s, i, j - 1) else j
  }

  function TrimSpace(s: string): (r: string)
    ensures Trimmed(r) && (r == "" <==> AllSpace(s, 0, |s|))
  {
    var i := SkipSpace(s, 0);
    s[i..DropSpace(s, i, |s|)]
  }

  // Only whitespace goes, and only at the ends.
  lemma TrimSpaceDropsSpace(s: string) returns (i: nat, j: nat)
    ensures i <= j <= |s| && TrimSpace(s) == s[i..j] && AllSpace(s, 0, i) && AllSpace(s, j, |s|)
  {
    i := SkipSpace(s, 0);
    j := DropSpace(s, i, |s|);
  }

  lemma TrimSpaceKeepsTrimmed(s: string)
    requires Trimmed(s)
    ensures TrimSpace(s) == s
  {
    assert s[0..|s|] == s;
  }

  // ----- abbreviations -----

  const CommonAbbreviations: set<string> := {
    "mr", "mrs", "ms", "dr", "prof", "sr", "jr", "st", "mt", "e.g", "i.e", "cf", "etc", "vs",
    "u.s", "u.k", "n.y", "a.m", "p.m", "no", "fig", "ed", "eds", "vol", "inc", "ltd", "co", "corp"}

  // The list by the lengths of its words.
  lemma ListByLength(w: string)
    ensures w in CommonAbbreviations ==> 2 <= |w| <= 4
    ensures |w| == 2 ==> (w in CommonAbbreviations <==> w in {"mr", "ms", "dr", "sr", "jr", "st", "mt", "cf", "vs", "no", "ed", "co"})
    ensures |w| == 3 ==> (w in CommonAbbreviations <==>
              w in {"mrs", "e.g", "i.e", "etc", "u.s", "u.k", "n.y", "a.m", "p.m", "fig", "eds", "vol", "inc", "ltd"})
    ensures |w| == 4 ==> (w in CommonAbbreviations <==> w in {"prof", "corp"})
  {
  }

  function TrimRightBlank(s: string): string {
    if s != "" && IsBlankAscii(s[|s| - 1]) then TrimRightBlank(s[..|s| - 1]) else s
  }

  function TrimRightTerminators(s: string): string {
    if s != "" && IsTerminator(s[|s| - 1]) then TrimRightTerminators(s[..|s| - 1]) else s
  }

  // What follows the last ASCII blank.
  function LastWord(s: string): (w: string)
    ensures |w| <= |s| && w == s[|s| - |w|..] && (forall i :: 0 <= i < |w| ==> !IsBlankAscii(w[i]))
    ensures |w| < |s| ==> IsBlankAscii(s[|s| - |w| - 1])
  {
    if s == "" || IsBlankAscii(s[|s| - 1]) then "" else LastWord(s[..|s| - 1]) + [s[|s| - 1]]
  }

  predicate IsAbbreviationOrInitial(s: string) {
    var t := TrimRightTerminators(TrimRightBlank(s));
    && t != ""
    && var last := LastWord(t);
       (|last| == 1 && 'A' <= last[0] <= 'Z') || ToLower(last) in CommonAbbreviations
  }

  // ----- where a sentence ends -----

  function RunEnd(s: string, i: nat): (j: nat)
    requires i <= |s|
    ensures i <= j <= |s| && (forall k :: i <= k < j ==> IsTerminator(s[k])) && (j < |s| ==> !IsTerminator(s[j]))
    decreases |s| - i
  {
    if i < |s| && IsTerminator(s[i]) then RunEnd(s, i + 1) else i
  }

  // The end of the sentence that began at start and is unbroken up to i.
  function SentenceEnd(s: string, start: nat, i: nat): (e: nat)
    requires start <= i <= |s|
    ensures i <= e <= |s| && (i < |s| ==> i < e)
    decreases |s| - i
  {
    if i == |s| then |s|
    else if !IsTerminator(s[i]) then SentenceEnd(s, start, i + 1)
    else
      var e := RunEnd(s, i + 1);
      if SkipSpace(s, e) == |s| then e
      else if s[i] == '.' && IsAbbreviationOrInitial(s[start..e]) then SentenceEnd(s, start, e)
      else e
  }

  function Split(s: string, start: nat): seq<string>
    requires start <= |s|
    decreases |s| - start
  {
    if start == |s| then []
    else
      var e := SentenceEnd(s, start, start);
      [s[start..e]] + Split(s, SkipSpace(s, e))
  }

  // ----- what a splitting is, without running it -----

  // A run of terminators begins at i in the sentence that began at start.
  predicate RunStarts(s: string, start: nat, i: nat)
    requires start <= i < |s|
  {
    IsTerminator(s[i]) && (i == start || !IsTerminator(s[i - 1]))
  }

  // The run at i is suppressed: text follows, it opens with a full stop, and what it closes is an
  // abbreviation or an initial.
  predicate Suppressed(s: string, start: nat, i: nat)
    requires start <= i < |s|
  {
    RunEnd(s, i) < |s| && s[i] == '.' && IsAbbreviationOrInitial(s[start..RunEnd(s, i)])
  }

  // A sentence ends at e: every run inside it is suppressed, and it closes with one that is not,
  // or with the text.
  ghost predicate EndsAt(s: string, start: nat, e: nat) {
    && start < e <= |s|
    && (forall i :: start <= i < e && RunStarts(s, start, i) && RunEnd(s, i) < e ==> Suppressed(s, start, i))
    && (e < |s| ==> exists i :: start <= i < e && RunStarts(s, start, i) && RunEnd(s, i) == e && !Suppressed(s, start, i))
  }

  // Consecutive sentences with nothing but whitespace between them.
  ghost predicate IsSplitting(s: string, start: nat, out: seq<string>)
    requires start <= |s|
    decreases |out|
  {
    if start == |s| then out == []
    else
      && out != []
      && var e := start + |out[0]|;
         EndsAt(s, start, e) && out[0] == s[start..e] && IsSplitting(s, SkipSpace(s, e), out[1..])
  }

  lemma EndsWithText(s: string, e: nat)
    requires Trimmed(s) && e <= |s|
    ensures SkipSpace(s, e) == |s| <==> e == |s|
  {
    hide IsSpace;
    if e < |s| {
      assert !IsSpace(s[|s| - 1]);
    }
  }

  // One step of the scan over a trimmed text.
  lemma NextEnd(s: string, start: nat, i: nat)
    requires Trimmed(s) && start <= i < |s|
    ensures !IsTerminator(s[i]) ==> SentenceEnd(s, start, i) == SentenceEnd(s, start, i + 1)
    ensures IsTerminator(s[i]) ==>
              SentenceEnd(s, start, i)
              == if RunEnd(s, i + 1) < |s| && s[i] == '.' && IsAbbreviationOrInitial(s[start..RunEnd(s, i + 1)])
                 then SentenceEnd(s, start, RunEnd(s, i + 1)) else RunEnd(s, i + 1)
  {
    hide IsAbbreviationOrInitial, IsSpace, Trimmed, AllSpace, SkipSpace;
    EndsWithText(s, RunEnd(s, i + 1));
  }

  lemma TerminatorIsNoSpace(c: char)
    requires IsTerminator(c)
    ensures !IsSpace(c)
  {
  }

  lemma SentenceIsTrimmed(s: string, start: nat, e: nat)
    requires Trimmed(s) && EndsAt(s, start, e) && !IsSpace(s[start])
    ensures s[start..e] != "" && Trimmed(s[start..e]) && !IsSpace(s[e - 1])
  {
    hide IsSpace, Suppressed;
    if e < |s| {
      var i :| start <= i < e && RunStarts(s, start, i) && RunEnd(s, i) == e;
      TerminatorIsNoSpace(s[e - 1]);
    }
  }

  lemma OneEnd(s: string, start: nat, e: nat, f: nat)
    requires EndsAt(s, start, e) && EndsAt(s, start, f)
    ensures e == f
  {
  }

  // Every run before i ends by i and is suppressed.
  ghost predicate Passed(s: string, start: nat, i: nat) {
    && start <= i <= |s|
    && (forall k :: start <= k < i && RunStarts(s, start, k) ==> RunEnd(s, k) <= i && Suppressed(s, start, k))
    && (start < i < |s| && IsTerminator(s[i]) ==> !IsTerminator(s[i - 1]))
  }

  lemma PassLetter(s: string, start: nat, i: nat)
    requires Passed(s, start, i) && i < |s| && !IsTerminator(s[i])
    ensures Passed(s, start, i + 1)
  {
    hide IsAbbreviationOrInitial, Suppressed, RunEnd;
  }

  lemma PassRun(s: string, start: nat, i: nat, e: nat)
    requires Passed(s, start, i) && i < |s| && IsTerminator(s[i]) && e == RunEnd(s, i + 1)
    ensures RunStarts(s, start, i) && RunEnd(s, i) == e
    ensures Suppressed(s, start, i) ==> Passed(s, start, e)
    ensures !Suppressed(s, start, i) ==> EndsAt(s, start, e)
  {
    hide IsAbbreviationOrInitial, Suppressed;
    assert RunEnd(s, i) == e;
    hide RunEnd;
    assert RunStarts(s, start, i);
  }

  lemma PassText(s: string, start: nat)
    requires Passed(s, start, |s|) && start < |s|
    ensures EndsAt(s, start, |s|)
  {
    hide IsAbbreviationOrInitial, Suppressed, RunEnd;
  }

  lemma {:induction false} SentenceEndMeets(s: string, start: nat, i: nat)
    requires Trimmed(s) && start < |s| && Passed(s, start, i)
    ensures EndsAt(s, start, SentenceEnd(s, start, i))
    decreases |s| - i
  {
    hide IsAbbreviationOrInitial, IsSpace, Trimmed, AllSpace, EndsAt, Passed, SentenceEnd, RunEnd, SkipSpace;
    PassedBounds(s, start, i);
    if i == |s| {
      NoneLeft(s, start);
      PassText(s, start);
    } else {
      NextEnd(s, start, i);
      if !IsTerminator(s[i]) {
        PassLetter(s, start, i);
        SentenceEndMeets(s, start, i + 1);
      } else {
        PassRun(s, start, i, RunEnd(s, i + 1));
        if Suppressed(s, start, i) {
          SentenceEndMeets(s, start, RunEnd(s, i + 1));
        }
      }
    }
  }

  lemma PassedBounds(s: string, start: nat, i: nat)
    requires Passed(s, start, i)
    ensures start <= i <= |s|
  {
  }

  lemma PassedNothing(s: string, start: nat)
    requires start <= |s|
    ensures Passed(s, start, start)
  {
  }

  // The scan finds the sentence ends and nothing else.
  lemma SentenceEndIsTheEnd(s: string, start: nat, e: nat)
    requires Trimmed(s) && start < |s|
    ensures EndsAt(s, start, e) <==> e == SentenceEnd(s, start, start)
  {
    PassedNothing(s, start);
    SentenceEndMeets(s, start, start);
    if EndsAt(s, start, e) {
      OneEnd(s, start, e, SentenceEnd(s, start, start));
    }
  }

  lemma SameHead(out: seq<string>, t: string, rest: seq<string>)
    ensures out == [t] + rest <==> out != [] && out[0] == t && out[1..] == rest
  {
    if out != [] {
      assert out == [out[0]] + out[1..];
    }
  }

  // A trimmed text has one splitting, and it is the one computed.
  lemma {:induction false} SplitIsTheSplitting(s: string, start: nat, out: seq<string>)
    requires Trimmed(s) && start <= |s|
    ensures IsSplitting(s, start, out) <==> out == Split(s, start)
    decreases |s| - start
  {
    hide IsAbbreviationOrInitial, IsSpace, AllSpace, EndsAt, SentenceEnd, SkipSpace, Trimmed;
    if start < |s| {
      var e := SentenceEnd(s, start, start);
      SameHead(out, s[start..e], Split(s, SkipSpace(s, e)));
      SentenceEndIsTheEnd(s, start, e);
      if out != [] {
        SentenceEndIsTheEnd(s, start, start + |out[0]|);
        SplitIsTheSplitting(s, SkipSpace(s, e), out[1..]);
      }
    }
  }

  // ----- conservation -----

  function Interleave(out: seq<string>, gaps: seq<string>): string
    requires |out| == |gaps|
  {
    if out == [] then "" else out[0] + gaps[0] + Interleave(out[1..], gaps[1..])
  }

  // The sentences with whitespace put back between them are the text; none is empty or has outer whitespace.
  lemma {:induction false} SentencesRebuildText(s: string, start: nat) returns (gaps: seq<string>)
    requires Trimmed(s) && start <= |s| && (start < |s| ==> !IsSpace(s[start]))
    ensures |gaps| == |Split(s, start)| && Interleave(Split(s, start), gaps) == s[start..]
    ensures forall i :: 0 <= i < |gaps| ==> AllSpace(gaps[i], 0, |gaps[i]|)
    ensures gaps != [] ==> gaps[|gaps| - 1] == ""
    ensures forall t :: t in Split(s, start) ==> t != "" && Trimmed(t)
    decreases |s| - start
  {
    hide IsAbbreviationOrInitial, IsSpace, EndsAt, SentenceEnd, SkipSpace, Trimmed;
    gaps := [];
    if start < |s| {
      var e := SentenceEnd(s, start, start);
      var next := SkipSpace(s, e);
      SentenceEndIsTheEnd(s, start, e);
      SentenceIsTrimmed(s, start, e);
      EndsWithText(s, e);
      var rest := SentencesRebuildText(s, next);
      gaps := [s[e..next]] + rest;
      InterleaveCons(s[start..e], Split(s, next), s[e..next], rest);
      assert s[start..] == s[start..e] + s[e..next] + s[next..];
    }
  }

  lemma InterleaveCons(t: string, out: seq<string>, gap: string, gaps: seq<string>)
    requires |out| == |gaps|
    ensures Interleave([t] + out, [gap] + gaps) == t + gap + Interleave(out, gaps)
  {
    assert ([t] + out)[1..] == out && ([gap] + gaps)[1..] == gaps;
  }

  // From the raw text: only whitespace is missing from the sentences, before, between and after them.
  lemma TextRebuilt(text: string) returns (before: string, gaps: seq<string>, after: string)
    ensures |gaps| == |Split(TrimSpace(text), 0)|
    ensures text == before + Interleave(Split(TrimSpace(text), 0), gaps) + after
    ensures AllSpace(before, 0, |before|) && AllSpace(after, 0, |after|)
    ensures forall i :: 0 <= i < |gaps| ==> AllSpace(gaps[i], 0, |gaps[i]|)
    ensures forall t :: t in Split(TrimSpace(text), 0) ==> t != "" && Trimmed(t)
  {
    hide IsSpace, Split, TrimSpace, Interleave;
    var i, j := TrimSpaceDropsSpace(text);
    before, after := text[..i], text[j..];
    var s := TrimSpace(text);
    gaps := SentencesRebuildText(s, 0);
    assert s[0..] == s;
    assert text == text[..i] + text[i..j] + text[j..];
  }

  // ----- splitting again -----

  lemma {:induction false} RunEndWithin(s: string, start: nat, e: nat, i: nat)
    requires start <= i <= e <= |s| && RunEnd(s, i) <= e
    ensures RunEnd(s[start..e], i - start) == RunEnd(s, i) - start
    decreases e - i
  {
    if i < e && IsTerminator(s[i]) {
      RunEndWithin(s, start, e, i + 1);
    }
  }

  lemma {:induction false} EndWithin(s: string, start: nat, i: nat, e: nat)
    requires Trimmed(s) && start <= i <= |s| && start < e && e == SentenceEnd(s, start, i) && Trimmed(s[start..e])
    ensures SentenceEnd(s[start..e], 0, i - start) == e - start
    decreases |s| - i
  {
    hide *;
    var t := s[start..e];
    if i < e {
      NextEnd(s, start, i);
      NextEnd(t, 0, i - start);
      if !IsTerminator(s[i]) {
        EndWithin(s, start, i + 1, e);
      } else {
        var stop := RunEnd(s, i + 1);
        RunEndWithin(s, start, e, i + 1);
        if stop < e {
          assert t[0..stop - start] == s[start..stop];
          EndWithin(s, start, stop, e);
        }
      }
    } else {
      NoneLeft(t, 0);
    }
  }

  lemma NoneLeft(s: string, start: nat)
    requires start <= |s|
    ensures SentenceEnd(s, start, |s|) == |s|
  {
  }

  // Splitting is idempotent: every sentence, split again, is that sentence alone.
  lemma {:induction false} SplitAgain(s: string, start: nat, t: string)
    requires Trimmed(s) && start <= |s| && (start < |s| ==> !IsSpace(s[start]))
    requires t in Split(s, start)
    ensures Split(TrimSpace(t), 0) == [t]
    decreases |s| - start
  {
    hide IsAbbreviationOrInitial, IsSpace, AllSpace;
    var e := SentenceEnd(s, start, start);
    PassedNothing(s, start);
    SentenceEndMeets(s, start, start);
    SentenceIsTrimmed(s, start, e);
    if t == s[start..e] {
      EndWithin(s, start, start, e);
      TrimSpaceKeepsTrimmed(t);
      assert t[0..|t|] == t;
    } else {
      SplitAgain(s, SkipSpace(s, e), t);
    }
  }

  // ----- what suppresses a break -----

  lemma {:induction false} LastWordAfterBlank(s: string, w: string)
    requires s == "" || IsBlankAscii(s[|s| - 1])
    requires forall i :: 0 <= i < |w| ==> !IsBlankAscii(w[i])
    ensures LastWord(s + w) == w
  {
    if w != "" {
      var n := |w| - 1;
      assert (s + w)[..|s + w| - 1] == s + w[..n];
      LastWordAfterBlank(s, w[..n]);
    } else {
      assert s + w == s;
    }
  }

  lemma NoOneLetterAbbreviation(s: string)
    requires |s| == 1
    ensures s !in CommonAbbreviations
  {
  }

  lemma TrimOneStop(s: string, c: char)
    requires !IsBlankAscii(c) && !IsTerminator(c)
    ensures TrimRightTerminators(TrimRightBlank(s + [c] + ".")) == s + [c]
  {
    var u := s + [c] + ".";
    assert TrimRightBlank(u) == u;
    assert u[..|u| - 1] == s + [c];
  }

  // A full stop after a one-letter word breaks the sentence unless the letter is an ASCII capital.
  lemma OneLetterWord(s: string, c: char)
    requires s == "" || IsBlankAscii(s[|s| - 1])
    requires !IsBlankAscii(c) && !IsTerminator(c)
    ensures IsAbbreviationOrInitial(s + [c] + ".") <==> 'A' <= c <= 'Z'
  {
    hide CommonAbbreviations, TrimRightTerminators, TrimRightBlank, LastWord;
    TrimOneStop(s, c);
    LastWordAfterBlank(s, [c]);
    NoOneLetterAbbreviation(ToLower([c]));
  }

  lemma {:induction false} TrimRun(u: string, run: string)
    requires u != "" && !IsTerminator(u[|u| - 1])
    requires forall k :: 0 <= k < |run| ==> IsTerminator(run[k])
    ensures TrimRightTerminators(u + run) == u
  {
    if run == "" {
      assert u + run == u;
    } else {
      var n := |run| - 1;
      assert (u + run)[..|u + run| - 1] == u + run[..n];
      TrimRun(u, run[..n]);
    }
  }

  // One ASCII capital.
  predicate IsInitial(w: string) { |w| == 1 && 'A' <= w[0] <= 'Z' }

  // A word before a run is suppressed exactly when it is an initial or on the list.
  lemma WordBeforeRun(u: string, w: string, run: string)
    requires (u == "" || IsBlankAscii(u[|u| - 1])) && (forall k :: 0 <= k < |w| ==> !IsBlankAscii(w[k]))
    requires w != "" && !IsTerminator(w[|w| - 1])
    requires run != "" && forall k :: 0 <= k < |run| ==> IsTerminator(run[k])
    ensures IsAbbreviationOrInitial(u + w + run) <==> IsInitial(w) || ToLower(w) in CommonAbbreviations
  {
    hide CommonAbbreviations, LastWord, TrimRightTerminators, ToLower;
    var t := u + w + run;
    assert TrimRightBlank(t) == t;
    TrimRun(u + w, run);
    LastWordAfterBlank(u, w);
  }

  // Capitals make no difference to the list, the dotted I and the Kelvin sign included.
  lemma CaseMakesNoDifference(w: string, v: string)
    requires |w| == |v|
    requires forall k :: 0 <= k < |w| ==>
               || w[k] == v[k] || ('A' <= w[k] <= 'Z' && v[k] as int == w[k] as int + 32)
               || (w[k] == '\U{130}' && v[k] == 'i') || (w[k] == '\U{212A}' && v[k] == 'k')
    ensures ToLower(w) == ToLower(v)
    ensures ToLower(w) in CommonAbbreviations <==> ToLower(v) in CommonAbbreviations
  {
    hide CommonAbbreviations;
  }

  const Stops: set<char> := {'.', '?', '!'}

  const Blanks: set<char> := {' ', '\t', '\n', '\r'}

  // A word of a sentence, its run of stops, and text after it.
  predicate WordAndRun(s: string, start: nat, i: nat, j: nat, e: nat) {
    && start <= i < j < e < |s|
    && (i == start || s[i - 1] in Blanks) && (forall k :: i <= k < j ==> s[k] !in Blanks) && s[j - 1] !in Stops
    && (forall k :: j <= k < e ==> s[k] in Stops) && s[e] !in Stops
  }

  lemma RunAt(s: string, start: nat, i: nat, j: nat, e: nat)
    requires WordAndRun(s, start, i, j, e)
    ensures RunStarts(s, start, j) && RunEnd(s, j) == e
    ensures Suppressed(s, start, j) <==> s[j] == '.' && (IsInitial(s[i..j]) || ToLower(s[i..j]) in CommonAbbreviations)
  {
    hide CommonAbbreviations, ToLower, IsAbbreviationOrInitial, IsInitial;
    RunIs(s, j, e);
    WordIs(s, start, i, j, e);
  }

  lemma {:induction false} RunIs(s: string, j: nat, e: nat)
    requires j <= e < |s| && (forall k :: j <= k < e ==> s[k] in Stops) && s[e] !in Stops
    ensures RunEnd(s, j) == e
    decreases e - j
  {
    if j < e {
      RunIs(s, j + 1, e);
    }
  }

  lemma WordIs(s: string, start: nat, i: nat, j: nat, e: nat)
    requires WordAndRun(s, start, i, j, e)
    ensures IsAbbreviationOrInitial(s[start..e]) <==> IsInitial(s[i..j]) || ToLower(s[i..j]) in CommonAbbreviations
  {
    hide CommonAbbreviations, ToLower, IsAbbreviationOrInitial, IsInitial;
    var u, w, run := s[start..i], s[i..j], s[j..e];
    assert s[start..e] == u + w + run;
    WordBeforeRun(u, w, run);
  }

  lemma RunsAreOne(s: string, start: nat, i: nat, j: nat)
    requires start <= i < |s| && start <= j < |s| && RunStarts(s, start, i) && RunStarts(s, start, j) && RunEnd(s, i) == RunEnd(s, j)
    ensures i == j
  {
  }

  // A sentence that reaches a run ends with it, or goes on after it, by the word before the run alone: a full stop
  // ends the sentence unless the word is an initial or on the list, and any other stop always does.
  lemma StopEndsSentence(s: string, start: nat, i: nat, j: nat, e: nat)
    requires Trimmed(s) && WordAndRun(s, start, i, j, e) && |Split(s, start)[0]| > j - start
    ensures Split(s, start)[0] == s[start..e] <==> !(s[j] == '.' && (IsInitial(s[i..j]) || ToLower(s[i..j]) in CommonAbbreviations))
    ensures |Split(s, start)[0]| >= e - start
  {
    hide CommonAbbreviations, ToLower, IsAbbreviationOrInitial, IsSpace, Suppressed, IsInitial, RunEnd, SentenceEnd;
    var end := SentenceEnd(s, start, start);
    assert Split(s, start)[0] == s[start..end];
    SentenceEndIsTheEnd(s, start, end);
    RunAt(s, start, i, j, e);
    if end < |s| {
      var m :| start <= m < end && RunStarts(s, start, m) && RunEnd(s, m) == end && !Suppressed(s, start, m);
      if end == e {
        RunsAreOne(s, start, m, j);
      }
    }
  }

  // Every sentence but the last closes with one of the three stops, and the character after it is none of them.
  lemma SentenceCloses(s: string, start: nat)
    requires Trimmed(s) && start < |s| && start + |Split(s, start)[0]| < |s|
    ensures var e := start + |Split(s, start)[0]|; start < e && s[e - 1] in Stops && s[e] !in Stops
  {
    hide IsAbbreviationOrInitial, IsSpace, Suppressed, SentenceEnd;
    var e := SentenceEnd(s, start, start);
    assert Split(s, start)[0] == s[start..e];
    SentenceEndIsTheEnd(s, start, e);
  }

  // The letters of a dotted entry, in either case.
  lemma DottedLetters(a: char, b: char)
    requires [Lower(a), '.', Lower(b)] in CommonAbbreviations
    ensures !IsBlankAscii(a) && !IsTerminator(a) && !IsBlankAscii(b) && !IsTerminator(b)
    ensures !IsBlankAscii('.') && IsTerminator('.')
  {
  }

  lemma LowerThree(a: char, b: char)
    ensures ToLower([a, '.', b]) == [Lower(a), '.', Lower(b)]
  {
  }

  // A dotted entry of the list, in whatever case, after a blank and with text to follow: the scan goes past it
  // exactly when its first letter is an ASCII capital. Otherwise the break inside the entry comes first.
  lemma DottedEntry(s: string, start: nat, i: nat)
    requires Trimmed(s) && start <= i && i + 4 <= |s| && RunEnd(s, i + 4) < |s|
    requires i == start || IsBlankAscii(s[i - 1])
    requires s[i + 1] == '.' && s[i + 3] == '.' && [Lower(s[i]), '.', Lower(s[i + 2])] in CommonAbbreviations
    ensures SentenceEnd(s, start, i) == if 'A' <= s[i] <= 'Z' then SentenceEnd(s, start, RunEnd(s, i + 4)) else i + 2
    ensures SentenceEnd(s, start, i) > i + 2 <==> 'A' <= s[i] <= 'Z'
  {
    hide *;
    var u, a, b, e := s[start..i], s[i], s[i + 2], RunEnd(s, i + 4);
    DottedLetters(a, b);
    NextEnd(s, start, i);
    NextEnd(s, start, i + 1);
    ScanStops(s, i + 2);
    assert s[start..i + 2] == u + [a] + ".";
    OneLetterWord(u, a);
    if 'A' <= a <= 'Z' {
      NextEnd(s, start, i + 2);
      NextEnd(s, start, i + 3);
      DottedKept(s, start, i);
    }
  }

  lemma DottedKept(s: string, start: nat, i: nat)
    requires start <= i && i + 4 <= |s| && (i == start || IsBlankAscii(s[i - 1]))
    requires s[i + 1] == '.' && s[i + 3] == '.' && [Lower(s[i]), '.', Lower(s[i + 2])] in CommonAbbreviations
    ensures IsAbbreviationOrInitial(s[start..RunEnd(s, i + 4)])
  {
    hide *;
    var u, w, run := s[start..i], [s[i], '.', s[i + 2]], s[i + 3..RunEnd(s, i + 4)];
    DottedLetters(s[i], s[i + 2]);
    assert s[start..RunEnd(s, i + 4)] == u + w + run;
    LowerThree(s[i], s[i + 2]);
    WordBeforeRun(u, w, run);
  }

  lemma ScanStops(s: string, i: nat)
    requires i < |s|
    ensures !IsTerminator(s[i]) ==> RunEnd(s, i) == i
    ensures !IsSpace(s[i]) ==> SkipSpace(s, i) == i
    ensures IsSpace(s[i]) && i + 1 < |s| && !IsSpace(s[i + 1]) ==> SkipSpace(s, i) == i + 1
  {
  }

  lemma ForExample(a: char, b: char)
    requires Lower(a) == 'e' && Lower(b) == 'g'
    ensures [Lower(a), '.', Lower(b)] in CommonAbbreviations
  {
    assert "e.g" == ['e', '.', 'g'];
    assert "e.g" in CommonAbbreviations;
  }

  // With the first letter lower-case: "e.g. x" is three sentences.
  lemma LowerCaseBreaks(s: string)
    requires s == "e.g. x"
    ensures Split(s, 0) == ["e.", "g.", "x"]
  {
    hide IsAbbreviationOrInitial, SentenceEnd, RunEnd, SkipSpace;
    ForExample('e', 'g');
    ScanStops(s, 4);
    ScanStops(s, 2);
    DottedEntry(s, 0, 0);
    OneLetterWord("", 'g');
    assert s[0..2] == "e." && s[2..4] == "" + ['g'] + "." && s[5..] == "x";
    NextEnd(s, 2, 2);
    NextEnd(s, 2, 3);
    LastSentence(s, 5);
    assert SentenceEnd(s, 2, 2) == 4 && SkipSpace(s, 4) == 5 && s[2..4] == "g.";
    assert Split(s, 2) == ["g."] + Split(s, 5);
  }

  // With a capital it is kept: "E.g. x" is one.
  lemma CapitalKeeps(s: string)
    requires s == "E.g. x"
    ensures Split(s, 0) == ["E.g. x"]
  {
    hide IsAbbreviationOrInitial, SentenceEnd, RunEnd, SkipSpace;
    ForExample('E', 'g');
    ScanStops(s, 4);
    DottedEntry(s, 0, 0);
    NextEnd(s, 0, 4);
    NextEnd(s, 0, 5);
    NoneLeft(s, 0);
    GapAtEnd(s);
    assert s[0..6] == s;
  }

  lemma {:induction false} ScanTo(s: string, start: nat, i: nat, j: nat)
    requires Trimmed(s) && start <= i <= j <= |s| && forall k :: i <= k < j ==> !IsTerminator(s[k])
    ensures SentenceEnd(s, start, i) == SentenceEnd(s, start, j)
    decreases j - i
  {
    hide IsAbbreviationOrInitial, IsSpace, SentenceEnd;
    if i < j {
      NextEnd(s, start, i);
      ScanTo(s, start, i + 1, j);
    }
  }

  lemma CameIsOrdinary(w: string)
    requires w == "came"
    ensures !IsInitial(w) && ToLower(w) !in CommonAbbreviations
  {
    assert ToLower(w)[0] == 'c' && ToLower(w)[1] == 'a';
  }

  // Ordinary full stops: "I came. I saw." is two sentences.
  lemma OrdinaryStops(s: string)
    requires s == "I came. I saw."
    ensures Split(s, 0) == ["I came.", "I saw."]
  {
    hide IsAbbreviationOrInitial, SentenceEnd, RunEnd, SkipSpace, ToLower, CommonAbbreviations, IsInitial, Split;
    SplitHead(s, 0);
    ScanTo(s, 0, 0, 6);
    CameIsOrdinary(s[2..6]);
    StopEndsSentence(s, 0, 2, 6, 7);
    ScanStops(s, 7);
    OneStopLeft(s, 8);
    assert s[0..7] == "I came." && s[8..] == "I saw.";
  }

  // What ends with its only stop is one sentence.
  lemma OneStopLeft(s: string, start: nat)
    requires Trimmed(s) && start < |s| && IsTerminator(s[|s| - 1]) && forall k :: start <= k < |s| - 1 ==> !IsTerminator(s[k])
    ensures Split(s, start) == [s[start..]]
  {
    hide IsAbbreviationOrInitial, SentenceEnd, RunEnd, SkipSpace, Split;
    SplitHead(s, start);
    ScanTo(s, start, start, |s| - 1);
    NextEnd(s, start, |s| - 1);
    GapAtEnd(s);
    assert s[start..|s|] == s[start..];
  }

  lemma SplitHead(s: string, start: nat)
    requires start < |s|
    ensures var e := SentenceEnd(s, start, start); Split(s, start) == [s[start..e]] + Split(s, SkipSpace(s, e))
  {
  }

  lemma GapAtEnd(s: string)
    ensures SkipSpace(s, |s|) == |s| && Split(s, |s|) == []
  {
  }

  // A last character that ends no sentence is one.
  lemma LastSentence(s: string, i: nat)
    requires Trimmed(s) && i + 1 == |s| && !IsTerminator(s[i])
    ensures Split(s, i) == [s[i..]]
  {
    hide IsAbbreviationOrInitial, IsSpace;
    NextEnd(s, i, i);
    assert SentenceEnd(s, i, i + 1) == i + 1 && Split(s, i + 1) == [];
    assert s[i..i + 1] == s[i..];
  }

  // ----- the splitter -----

  method Flush(buf: string, sentences: seq<string>) returns (out: seq<string>)
    ensures out == if TrimSpace(buf) != "" then sentences + [TrimSpace(buf)] else sentences
  {
    var s := TrimSpace(buf);
    out := sentences;
    if s != "" {
      out := out + [s];
    }
  }

  // A sentence found, and the next one begun after the gap.
  lemma SplitStep(s: string, start: nat, e: nat)
    requires Trimmed(s) && start < |s| && !IsSpace(s[start]) && e == SentenceEnd(s, start, start)
    ensures Split(s, start) == [s[start..e]] + Split(s, SkipSpace(s, e))
    ensures TrimSpace(s[start..e]) == s[start..e] != ""
    ensures SkipSpace(s, e) == |s| <==> e == |s|
  {
    hide IsAbbreviationOrInitial, IsSpace, AllSpace, EndsAt, TrimSpace;
    SentenceEndIsTheEnd(s, start, e);
    SentenceIsTrimmed(s, start, e);
    TrimSpaceKeepsTrimmed(s[start..e]);
    EndsWithText(s, e);
  }

  // The scan stands at i in the sentence begun at start, with the sentences before it in out.
  ghost predicate Scanning(s: string, start: nat, i: nat, out: seq<string>) {
    && Trimmed(s) && start <= i <= |s| && (start < |s| ==> !IsSpace(s[start]))
    && SentenceEnd(s, start, start) == SentenceEnd(s, start, i)
    && Split(s, 0) == out + Split(s, start)
  }

  lemma ScanOn(s: string, start: nat, i: nat, next: nat, out: seq<string>)
    requires Scanning(s, start, i, out) && i < |s|
    requires next == if IsTerminator(s[i]) then RunEnd(s, i + 1) else i + 1
    requires IsTerminator(s[i]) ==> next < |s| && s[i] == '.' && IsAbbreviationOrInitial(s[start..next])
    ensures Scanning(s, start, next, out)
  {
    hide IsAbbreviationOrInitial, IsSpace, AllSpace, Trimmed, SentenceEnd, Split, RunEnd;
    NextEnd(s, start, i);
  }

  lemma ScanFlush(s: string, start: nat, i: nat, e: nat, out: seq<string>)
    requires Scanning(s, start, i, out) && i < |s| && IsTerminator(s[i]) && e == RunEnd(s, i + 1)
    requires !(e < |s| && s[i] == '.' && IsAbbreviationOrInitial(s[start..e]))
    ensures TrimSpace(s[start..e]) == s[start..e] != ""
    ensures Scanning(s, SkipSpace(s, e), SkipSpace(s, e), out + [s[start..e]])
  {
    hide IsAbbreviationOrInitial, IsSpace, AllSpace, Trimmed, TrimSpace, SentenceEnd, Split, RunEnd, SkipSpace;
    NextEnd(s, start, i);
    SplitStep(s, start, e);
    Append(out, s[start..e], Split(s, SkipSpace(s, e)));
  }

  // At the end of the text at most an unterminated fragment is left.
  lemma ScanEnd(s: string, start: nat, out: seq<string>)
    requires Scanning(s, start, |s|, out)
    ensures TrimSpace(s[start..]) == s[start..]
    ensures Split(s, 0) == if s[start..] == "" then out else out + [s[start..]]
  {
    hide IsAbbreviationOrInitial, IsSpace, AllSpace, Trimmed, TrimSpace, SentenceEnd, Split, SkipSpace;
    SplitNothing(s);
    NoneLeft(s, start);
    if start < |s| {
      SplitStep(s, start, |s|);
      assert s[start..] == s[start..|s|];
    }
  }

  lemma Grow(s: string, start: nat, i: nat)
    requires start <= i < |s|
    ensures s[start..i] + [s[i]] == s[start..i + 1]
  {
  }

  // Coalesces a run of terminators: i moves to its last one.
  method TakeRun(runes: string, first: nat, buf0: string, ghost start: nat) returns (i: nat, buf: string)
    requires start <= first < |runes| && buf0 == runes[start..first + 1]
    ensures i + 1 == RunEnd(runes, first + 1) && buf == runes[start..i + 1]
  {
    i, buf := first, buf0;
    while i + 1 < |runes| && IsTerminator(runes[i + 1])
      invariant first <= i < |runes| && buf == runes[start..i + 1]
      invariant RunEnd(runes, first + 1) == RunEnd(runes, i + 1)
    {
      i := i + 1;
      Grow(runes, start, i);
      buf := buf + [runes[i]];
    }
  }

  method NextNonSpace(runes: string, i: nat) returns (j: nat)
    requires i <= |runes|
    ensures j == SkipSpace(runes, i)
  {
    hide IsSpace;
    j := i;
    while j < |runes| && IsSpace(runes[j])
      invariant i <= j <= |runes| && SkipSpace(runes, i) == SkipSpace(runes, j)
    {
      j := j + 1;
    }
  }

  method SplitSentences(text: string) returns (sentences: seq<string>)
    ensures sentences == Split(TrimSpace(text), 0)
  {
    hide IsAbbreviationOrInitial, IsSpace, IsTerminator, AllSpace, Trimmed, TrimSpace, SentenceEnd, Split, RunEnd, SkipSpace, Scanning;
    var runes := TrimSpace(text);
    sentences := [];
    if runes == "" {
      SplitNothing(runes);
      return;
    }
    var buf := "";
    ghost var start := 0;
    var i := 0;
    ScanStart(runes);
    while i < |runes|
      invariant 0 <= start <= i <= |runes| && buf == runes[start..i]
      invariant Scanning(runes, start, i, sentences)
    {
      var r := runes[i];
      ghost var first := i;
      Grow(runes, start, i);
      buf := buf + [r];
      if !IsTerminator(r) {
        ScanOn(runes, start, i, i + 1, sentences);
        i := i + 1;
        continue;
      }
      i, buf := TakeRun(runes, i, buf, start);
      var j := NextNonSpace(runes, i + 1);
      EndsWithText(runes, i + 1);
      if j < |runes| && r == '.' && IsAbbreviationOrInitial(buf) {
        ScanOn(runes, start, first, i + 1, sentences);
        i := i + 1;
        continue;
      }
      ScanFlush(runes, start, first, i + 1, sentences);
      sentences := Flush(buf, sentences);
      buf := "";
      start := j;
      i := j;
    }
    ScanEnd(runes, start, sentences);
    assert buf == runes[start..];
    sentences := Flush(buf, sentences);
  }

  lemma ScanStart(s: string)
    requires Trimmed(s) && s != ""
    ensures Scanning(s, 0, 0, [])
  {
  }

  lemma Append(out: seq<string>, t: string, rest: seq<string>)
    ensures out + ([t] + rest) == (out + [t]) + rest
  {
  }

  lemma SplitNothing(s: string)
    ensures Split(s, |s|) == [] && TrimSpace("") == ""
  {
  }

  // ----- sliding windows -----

  // A half-open range of sentences and its text.
  datatype Chunk = Chunk(spanStart: nat, spanEnd: nat, text: string)

  function Join(parts: seq<string>): string {
    if parts == [] then ""
    else if |parts| == 1 then parts[0]
    else parts[0] + " " + Join(parts[1..])
  }

  // The text of a window: its sentences in order, one blank between neighbours.
  lemma {:induction false} JoinOneMore(parts: seq<string>, p: string)
    ensures Join([p]) == p && Join([]) == ""
    ensures parts != [] ==> Join(parts + [p]) == Join(parts) + [' '] + p
  {
    if |parts| > 1 {
      JoinOneMore(parts[1..], p);
      assert (parts + [p])[1..] == parts[1..] + [p];
    } else if |parts| == 1 {
      assert (parts + [p])[1..] == [p];
    }
  }

  function ClampWindow(window: int): nat { if window < 1 then 1 else window }

  function ClampStride(window: int, stride: int): (r: nat)
    ensures 1 <= r <= ClampWindow(window)
  {
    if stride < 1 then 1 else if stride > ClampWindow(window) then ClampWindow(window) else stride
  }

  function Min(a: nat, b: nat): nat { if a < b then a else b }

  // The first k windows: k * stride onwards, cut off at the last sentence.
  ghost predicate Windows(sentences: seq<string>, window: nat, stride: nat, out: seq<Chunk>) {
    forall k :: 0 <= k < |out| ==>
      && k * stride < |sentences|
      && out[k].spanStart == k * stride
      && out[k].spanEnd == Min(k * stride + window, |sentences|)
      && out[k].text == Join(sentences[k * stride..Min(k * stride + window, |sentences|)])
  }

  // All windows: only the last one reaches the last sentence.
  ghost predicate AllWindows(sentences: seq<string>, window: nat, stride: nat, out: seq<Chunk>) {
    && Windows(sentences, window, stride, out)
    && (out == [] <==> sentences == [])
    && (out != [] ==> out[|out| - 1].spanEnd == |sentences|)
    && (forall k :: 0 <= k < |out| - 1 ==> out[k].spanEnd < |sentences|)
  }

  ghost predicate Covered(out: seq<Chunk>, i: nat) {
    exists k :: 0 <= k < |out| && out[k].spanStart <= i < out[k].spanEnd
  }

  // No window is empty or too long, neighbours share window - stride sentences, and no sentence is left out.
  lemma WindowsCover(sentences: seq<string>, window: nat, stride: nat, out: seq<Chunk>)
    requires 1 <= stride <= window && AllWindows(sentences, window, stride, out)
    ensures forall k :: 0 <= k < |out| ==> 0 < out[k].spanEnd - out[k].spanStart <= window
    ensures forall k :: 0 < k < |out| ==> out[k - 1].spanEnd - out[k].spanStart == window - stride
    ensures forall i :: 0 <= i < |sentences| ==> Covered(out, i)
  {
    forall k | 0 < k < |out| ensures out[k - 1].spanEnd - out[k].spanStart == window - stride {
      NextMultiple(k, stride);
    }
    forall i | 0 <= i < |sentences| ensures Covered(out, i) {
      var k := CoveringWindow(sentences, window, stride, out, i, |out| - 1);
    }
  }

  lemma NextMultiple(k: int, stride: int)
    ensures k * stride == (k - 1) * stride + stride
  {
  }

  lemma {:induction false} CoveringWindow(sentences: seq<string>, window: nat, stride: nat, out: seq<Chunk>, i: nat, last: nat)
    returns (k: nat)
    requires 1 <= stride <= window && AllWindows(sentences, window, stride, out)
    requires last < |out| && i < out[last].spanEnd
    ensures k < |out| && out[k].spanStart <= i < out[k].spanEnd
    decreases last
  {
    k := last;
    if i < out[last].spanStart {
      NextMultiple(last, stride);
      k := CoveringWindow(sentences, window, stride, out, i, last - 1);
    }
  }

  // One window when everything fits, otherwise one more for every started stride past the first window.
  lemma WindowCount(sentences: seq<string>, window: nat, stride: nat, out: seq<Chunk>)
    requires 1 <= stride <= window && AllWindows(sentences, window, stride, out)
    ensures |out| == if sentences == [] then 0
                     else if |sentences| <= window then 1
                     else (|sentences| - window + stride - 1) / stride + 1
  {
    var n, m := |sentences|, |out|;
    if n > window {
      assert m > 1 by { assert out[0].spanEnd == Min(0 * stride + window, n); }
      assert out[m - 2].spanEnd == Min((m - 2) * stride + window, n) < n;
      assert out[m - 1].spanEnd == Min((m - 1) * stride + window, n) == n;
      NextMultiple(m - 1, stride);
      CeilingQuotient(n - window, stride, m - 1);
    } else if n > 0 {
      assert out[0].spanEnd == Min(0 * stride + window, n);
    }
  }

  lemma CeilingQuotient(x: nat, d: nat, q: nat)
    requires d > 0 && (q - 1) * d < x <= q * d
    ensures (x + d - 1) / d == q
  {
    var r := x + d - 1 - q * d;
    NextMultiple(q, d);
    assert x + d - 1 == q * d + r && 0 <= r < d;
    QuotientOf(q, d, r);
  }

  lemma MulMono(a: int, b: int, d: int)
    requires a < b && d > 0
    ensures a * d + d <= b * d
    decreases b - a
  {
    NextMultiple(b, d);
    if a + 1 < b {
      MulMono(a, b - 1, d);
    }
  }

  lemma QuotientOf(q: int, d: int, r: int)
    requires 0 <= r < d && q * d + r >= 0
    ensures (q * d + r) / d == q
  {
    var s := q * d + r;
    var a := s / d;
    assert s == a * d + s % d;
    if a < q {
      MulMono(a, q, d);
    } else if a > q {
      MulMono(q, a, d);
    }
  }

  method Chunkify(text: string, windowSize: int, stride0: int) returns (out: seq<Chunk>)
    ensures AllWindows(Split(TrimSpace(text), 0), ClampWindow(windowSize), ClampStride(windowSize, stride0), out)
    ensures out == [] <==> TrimSpace(text) == ""
  {
    hide Split, TrimSpace, Trimmed, Join, Windows;
    var window, stride := windowSize, stride0;
    if window < 1 {
      window := 1;
    }
    if stride < 1 {
      stride := 1;
    }
    if stride > window {
      stride := window;
    }
    var sentences := SplitSentences(text);
    SplitEmpty(TrimSpace(text));
    out := [];
    NoWindows(sentences, window, stride);
    if |sentences| == 0 {
      return;
    }
    var start := 0;
    while start < |sentences|
      invariant start == |out| * stride && Windows(sentences, window, stride, out)
      invariant forall k :: 0 <= k < |out| ==> out[k].spanEnd < |sentences|
      invariant out != [] ==> start <= out[|out| - 1].spanEnd
    {
      var end := start + window;
      if end > |sentences| {
        end := |sentences|;
      }
      NextMultiple(|out| + 1, stride);
      OneWindow(sentences, window, stride, out, Chunk(start, end, Join(sentences[start..end])));
      out := out + [Chunk(start, end, Join(sentences[start..end]))];
      if end == |sentences| {
        break;
      }
      start := start + stride;
    }
  }

  lemma OneWindow(sentences: seq<string>, window: nat, stride: nat, out: seq<Chunk>, c: Chunk)
    requires Windows(sentences, window, stride, out)
    requires c.spanStart == |out| * stride < |sentences| && c.spanEnd == Min(c.spanStart + window, |sentences|)
    requires c.spanStart <= c.spanEnd && c.text == Join(sentences[c.spanStart..c.spanEnd])
    ensures Windows(sentences, window, stride, out + [c])
  {
  }

  lemma NoWindows(sentences: seq<string>, window: nat, stride: nat)
    ensures Windows(sentences, window, stride, [])
  {
  }

  lemma SplitEmpty(s: string)
    ensures Split(s, 0) == [] <==> s == ""
  {
  }
}
