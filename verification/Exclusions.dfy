// Wildcard host patterns of the exclusion list (src/exclusions.rs).
module Exclusions {
  import opened Basics

  // ----- What a pattern means -----

  function Stars(pattern: string): nat {
    if pattern == "" then 0 else (if pattern[0] == '*' then 1 else 0) + Stars(pattern[1..])
  }

  // `pattern` with its stars replaced, left to right, by the texts of `runs`.
  function Fill(pattern: string, runs: seq<string>): string
    requires |runs| == Stars(pattern)
  {
    if pattern == "" then ""
    else if pattern[0] == '*' then runs[0] + Fill(pattern[1..], runs[1..])
    else [pattern[0]] + Fill(pattern[1..], runs)
  }

  // A text matches when some choice of (possibly empty) runs for the stars spells it.
  ghost predicate Matches(text: string, pattern: string) {
    exists runs: seq<string> :: |runs| == Stars(pattern) && Fill(pattern, runs) == text
  }

  // ----- The algorithm -----

  // `pattern.split('*')`
  function SplitStars(pattern: string): (parts: seq<string>)
    ensures |parts| == Stars(pattern) + 1
    ensures forall i :: 0 <= i < |parts| ==> '*' !in parts[i]
  {
    if pattern == "" then [""]
    else
      var rest := SplitStars(pattern[1..]);
      if pattern[0] == '*' then [""] + rest else [[pattern[0]] + rest[0]] + rest[1..]
  }

  lemma StartsAt(text: string, part: string, k: nat)
    requires k + |part| <= |text|
    ensures part <= text[k..] <==> part == text[k..k + |part|]
  {
    assert text[k..][..|part|] == text[k..k + |part|];
  }

  // `str::find`: the leftmost occurrence.
  method Find(text: string, part: string) returns (at: Option<nat>)
    ensures at.Some? ==> at.value + |part| <= |text| && part <= text[at.value..]
    ensures at.Some? ==> forall k :: 0 <= k < at.value ==> !(part <= text[k..])
    ensures at.None? ==> forall k :: 0 <= k <= |text| ==> !(part <= text[k..])
  {
    var k := 0;
    while k + |part| <= |text|
      invariant forall j :: 0 <= j < k && j <= |text| ==> !(part <= text[j..])
    {
      StartsAt(text, part, k);
      if part == text[k..k + |part|] {
        return Some(k);
      }
      k := k + 1;
    }
    return None;
  }

  method GlobMatch(text: string, pattern: string) returns (matched: bool)
    ensures matched <==> Matches(text, pattern)
  {
    MatchesIffAnchored(text, pattern);
    hide Matches, Anchored, AfterStar;
    var parts := SplitStars(pattern);
    if '*' !in pattern {
      NoStars(pattern);
      OnlyPart(text, pattern);
      return text == pattern;
    }
    HasStars(pattern);
    OpeningPart(text, parts);
    if !(parts[0] <= text) {
      return false;
    }
    var pos := |parts[0]|;
    var i := 1;
    while i < |parts| - 1
      invariant 1 <= i <= |parts| - 1 && 0 <= pos <= |text|
      invariant Anchored(text, parts) == AfterStar(text[pos..], parts[i..])
    {
      var at := Find(text[pos..], parts[i]);
      GreedyAt(text, pos, parts, i, at);
      match at {
        case Some(idx) =>
          pos := pos + idx + |parts[i]|;
        case None =>
          return false;
      }
      i := i + 1;
    }
    var last := parts[|parts| - 1];
    assert parts[i..] == [last];
    LastPart(text, pos, last);
    matched := |last| <= |text| - pos && text[|text| - |last|..] == last;
  }

  // ----- Expanding a user's list into concrete hosts -----

  // One configured entry: the host extracted from it and the text the user typed.
  datatype Entry = Entry(host: string, display: string)

  // The universe wildcards are expanded against: known hosts and listed concrete hosts.
  ghost predicate Candidate(known: seq<string>, entries: seq<Entry>, host: string) {
    '*' !in host && (host in known || exists i :: 0 <= i < |entries| && entries[i].host == host)
  }

  ghost predicate Selects(known: seq<string>, entries: seq<Entry>, i: nat, host: string)
    requires i < |entries|
  {
    if '*' in entries[i].host then Candidate(known, entries, host) && Matches(host, entries[i].host)
    else host == entries[i].host
  }

  // `host` is to be resolved and shown as `display`: entry `i` is the first that selects it.
  ghost predicate FirstSelects(known: seq<string>, entries: seq<Entry>, i: nat, host: string, display: string)
    requires i < |entries|
  {
    Selects(known, entries, i, host) && entries[i].display == display &&
    forall j :: 0 <= j < i ==> !Selects(known, entries, j, host)
  }

  method ListCandidates(known: seq<string>, entries: seq<Entry>) returns (hosts: seq<string>)
    ensures forall h :: '*' !in h ==> (h in hosts <==> Candidate(known, entries, h))
  {
    hosts := known;
    for i := 0 to |entries|
      invariant forall h :: '*' !in h ==>
        (h in hosts <==> h in known || exists k :: 0 <= k < i && entries[k].host == h)
    {
      if '*' !in entries[i].host && entries[i].host !in hosts {
        hosts := hosts + [entries[i].host];
      }
    }
  }

  // A wildcard adds every candidate it matches, under its own display unless already listed.
  method ExpandWildcard(candidates: seq<string>, entry: Entry, before: map<string, string>)
    returns (hosts: map<string, string>)
    ensures forall h :: h in hosts <==> h in before || ('*' !in h && h in candidates && Matches(h, entry.host))
    ensures forall h :: h in hosts ==> hosts[h] == if h in before then before[h] else entry.display
  {
    hosts := before;
    for c := 0 to |candidates|
      invariant forall h :: h in hosts <==>
        h in before || ('*' !in h && h in candidates[..c] && Matches(h, entry.host))
      invariant forall h :: h in hosts ==> hosts[h] == if h in before then before[h] else entry.display
    {
      var candidate := candidates[c];
      if '*' !in candidate {
        var matched := GlobMatch(candidate, entry.host);
        if matched && candidate !in hosts {
          hosts := hosts[candidate := entry.display];
        }
      }
      assert candidates[..c + 1] == candidates[..c] + [candidate];
    }
    assert candidates[..|candidates|] == candidates;
  }

  // The host-collecting loop of `resolve_and_set`: every host some entry selects, and nothing
  // else, each shown under the first entry that selects it.
  method ExpandHosts(known: seq<string>, entries: seq<Entry>) returns (hosts: map<string, string>)
    ensures forall h :: h in hosts <==> exists i :: 0 <= i < |entries| && Selects(known, entries, i, h)
    ensures forall h :: h in hosts ==>
      exists i :: 0 <= i < |entries| && FirstSelects(known, entries, i, h, hosts[h])
  {
    hide Matches, FirstSelects;
    var candidates := ListCandidates(known, entries);
    hosts := map[];
    for i := 0 to |entries|
      invariant forall h :: h in hosts <==> exists j :: 0 <= j < i && Selects(known, entries, j, h)
      invariant forall h :: h in hosts ==>
        exists j :: 0 <= j < i && FirstSelects(known, entries, j, h, hosts[h])
    {
      ghost var before := hosts;
      var entry := entries[i];
      if '*' in entry.host {
        hosts := ExpandWildcard(candidates, entry, hosts);
      } else if entry.host !in hosts {
        hosts := hosts[entry.host := entry.display];
      }
      assert forall h :: h in hosts <==> h in before || Selects(known, entries, i, h);
      forall h | h in hosts
        ensures exists j :: 0 <= j < i + 1 && FirstSelects(known, entries, j, h, hosts[h])
      {
        if h in before {
          var j :| 0 <= j < i && FirstSelects(known, entries, j, h, before[h]);
          assert hosts[h] == before[h];
        } else {
          FirstNow(known, entries, i, h, hosts[h]);
        }
      }
    }
  }

  lemma FirstNow(known: seq<string>, entries: seq<Entry>, i: nat, host: string, display: string)
    requires i < |entries| && Selects(known, entries, i, host) && entries[i].display == display
    requires !exists j :: 0 <= j < i && Selects(known, entries, j, host)
    ensures FirstSelects(known, entries, i, host, display)
  {
  }

  // ----- Why leftmost-greedy is enough -----

  // The text starts with the first part; the rest follows a star.
  ghost predicate Anchored(text: string, parts: seq<string>)
    requires parts != []
    decreases |parts|, 0
  {
    if |parts| == 1 then text == parts[0]
    else parts[0] <= text && AfterStar(text[|parts[0]|..], parts[1..])
  }

  // The parts match once some run has been skipped.
  ghost predicate AfterStar(text: string, parts: seq<string>)
    requires parts != []
    decreases |parts|, 1
  {
    exists k :: 0 <= k <= |text| && Anchored(text[k..], parts)
  }

  lemma AfterStarLonger(text: string, parts: seq<string>, j: nat)
    requires parts != [] && j <= |text| && AfterStar(text[j..], parts)
    ensures AfterStar(text, parts)
  {
    var k :| 0 <= k <= |text[j..]| && Anchored(text[j..][k..], parts);
    assert text[j..][k..] == text[j + k..];
  }

  // Taking the leftmost occurrence loses no match: any other occurrence leaves less text.
  lemma GreedyStep(text: string, parts: seq<string>, at: Option<nat>)
    requires |parts| > 1
    requires at.Some? ==> at.value + |parts[0]| <= |text| && parts[0] <= text[at.value..]
    requires at.Some? ==> forall k :: 0 <= k < at.value ==> !(parts[0] <= text[k..])
    requires at.None? ==> forall k :: 0 <= k <= |text| ==> !(parts[0] <= text[k..])
    ensures AfterStar(text, parts) <==>
            at.Some? && AfterStar(text[at.value + |parts[0]|..], parts[1..])
  {
    if AfterStar(text, parts) {
      var k :| 0 <= k <= |text| && Anchored(text[k..], parts);
      assert at.Some? && at.value <= k;
      var later := text[at.value + |parts[0]|..];
      assert text[k..][|parts[0]|..] == later[k - at.value..];
      AfterStarLonger(later, parts[1..], k - at.value);
    }
    if at.Some? && AfterStar(text[at.value + |parts[0]|..], parts[1..]) {
      assert text[at.value..][|parts[0]|..] == text[at.value + |parts[0]|..];
      assert Anchored(text[at.value..], parts);
    }
  }

  lemma GreedyAt(text: string, pos: nat, parts: seq<string>, i: nat, at: Option<nat>)
    requires pos <= |text| && i + 1 < |parts|
    requires at.Some? ==> at.value + |parts[i]| <= |text[pos..]| && parts[i] <= text[pos..][at.value..]
    requires at.Some? ==> forall k :: 0 <= k < at.value ==> !(parts[i] <= text[pos..][k..])
    requires at.None? ==> forall k :: 0 <= k <= |text[pos..]| ==> !(parts[i] <= text[pos..][k..])
    ensures AfterStar(text[pos..], parts[i..]) <==>
            at.Some? && AfterStar(text[pos + at.value + |parts[i]|..], parts[i + 1..])
  {
    assert parts[i..][0] == parts[i] && parts[i..][1..] == parts[i + 1..];
    GreedyStep(text[pos..], parts[i..], at);
    if at.Some? {
      assert text[pos..][at.value + |parts[i]|..] == text[pos + at.value + |parts[i]|..];
    }
  }

  lemma OnlyPart(text: string, part: string)
    ensures Anchored(text, [part]) <==> text == part
  {
  }

  lemma OpeningPart(text: string, parts: seq<string>)
    requires |parts| > 1
    ensures Anchored(text, parts) <==> parts[0] <= text && AfterStar(text[|parts[0]|..], parts[1..])
  {
  }

  lemma LastPart(text: string, pos: nat, last: string)
    requires pos <= |text|
    ensures AfterStar(text[pos..], [last]) <==>
            |last| <= |text| - pos && text[|text| - |last|..] == last
  {
    if AfterStar(text[pos..], [last]) {
      var k :| 0 <= k <= |text[pos..]| && Anchored(text[pos..][k..], [last]);
      assert text[pos..][k..] == text[pos + k..];
    } else if |last| <= |text| - pos {
      var k := |text| - |last| - pos;
      assert text[pos..][k..] == text[|text| - |last|..];
      assert !Anchored(text[pos..][k..], [last]);
    }
  }

  lemma {:induction false} NoStars(pattern: string)
    requires '*' !in pattern
    ensures SplitStars(pattern) == [pattern]
  {
    if pattern != "" {
      NoStars(pattern[1..]);
      assert pattern == [pattern[0]] + pattern[1..];
    }
  }

  lemma {:induction false} HasStars(pattern: string)
    requires '*' in pattern
    ensures |SplitStars(pattern)| > 1
  {
    if pattern[0] != '*' {
      HasStars(pattern[1..]);
    }
  }

  // The parts of the split carry exactly the meaning of the pattern.
  lemma {:induction false} MatchesIffAnchored(text: string, pattern: string)
    ensures Matches(text, pattern) <==> Anchored(text, SplitStars(pattern))
  {
    if Matches(text, pattern) {
      var runs :| |runs| == Stars(pattern) && Fill(pattern, runs) == text;
      FillIsAnchored(pattern, runs);
    }
    if Anchored(text, SplitStars(pattern)) {
      var runs := AnchoredRuns(text, pattern);
    }
  }

  lemma {:induction false} FillIsAnchored(pattern: string, runs: seq<string>)
    requires |runs| == Stars(pattern)
    ensures Anchored(Fill(pattern, runs), SplitStars(pattern))
  {
    var text, parts := Fill(pattern, runs), SplitStars(pattern);
    if pattern != "" {
      var rest := SplitStars(pattern[1..]);
      if pattern[0] == '*' {
        FillIsAnchored(pattern[1..], runs[1..]);
        assert text[|runs[0]|..] == Fill(pattern[1..], runs[1..]);
        assert text[|parts[0]|..] == text && parts[1..] == rest;
      } else {
        FillIsAnchored(pattern[1..], runs);
        assert text[|parts[0]|..] == Fill(pattern[1..], runs)[|rest[0]|..];
      }
    }
  }

  lemma PrefixTail(text: string, c: char, part: string)
    requires [c] + part <= text
    ensures text[0] == c && part <= text[1..]
    ensures text[1..][|part|..] == text[|[c] + part|..]
    ensures |part| + 1 == |text| ==> part == text[1..]
  {
    assert forall i :: 0 <= i < |part| ==> text[1..][i] == ([c] + part)[i + 1];
  }

  lemma {:induction false} AnchoredRuns(text: string, pattern: string) returns (runs: seq<string>)
    requires Anchored(text, SplitStars(pattern))
    ensures |runs| == Stars(pattern) && Fill(pattern, runs) == text
    decreases |pattern|
  {
    var parts := SplitStars(pattern);
    if pattern == "" {
      runs := [];
    } else if pattern[0] == '*' {
      var rest := SplitStars(pattern[1..]);
      assert text[|parts[0]|..] == text && parts[1..] == rest;
      var k :| 0 <= k <= |text| && Anchored(text[k..], rest);
      var later := AnchoredRuns(text[k..], pattern[1..]);
      runs := [text[..k]] + later;
      assert runs[1..] == later;
    } else {
      var rest := SplitStars(pattern[1..]);
      assert parts == [[pattern[0]] + rest[0]] + rest[1..] && parts[1..] == rest[1..];
      PrefixTail(text, pattern[0], rest[0]);
      runs := AnchoredRuns(text[1..], pattern[1..]);
      assert text == [pattern[0]] + text[1..];
    }
  }

  // ----- Patterns by their parts -----

  // Matching is determined by two laws: without a star a pattern matches itself only, and a star
  // stands for any text between what the patterns on its sides match.
  lemma PlainMatches(text: string, pattern: string)
    requires '*' !in pattern
    ensures Matches(text, pattern) <==> text == pattern
  {
    MatchesIffAnchored(text, pattern);
    NoStars(pattern);
    OnlyPart(text, pattern);
  }

  lemma {:induction false} FillAppend(p: string, q: string, rp: seq<string>, rq: seq<string>)
    requires |rp| == Stars(p) && |rq| == Stars(q)
    ensures Stars(p + q) == Stars(p) + Stars(q) && Fill(p + q, rp + rq) == Fill(p, rp) + Fill(q, rq)
  {
    if p == "" {
      assert p + q == q && rp + rq == rq;
    } else {
      assert (p + q)[1..] == p[1..] + q;
      if p[0] == '*' {
        FillAppend(p[1..], q, rp[1..], rq);
        assert (rp + rq)[1..] == rp[1..] + rq;
      } else {
        FillAppend(p[1..], q, rp, rq);
      }
    }
  }

  lemma StarMatches(text: string, p: string, q: string)
    ensures Matches(text, p + "*" + q) <==>
            exists i, j :: 0 <= i <= j <= |text| && Matches(text[..i], p) && Matches(text[j..], q)
  {
    hide Matches;
    if Matches(text, p + "*" + q) {
      var i, j := SidesOfStar(text, p, q);
    }
    if i, j :| 0 <= i <= j <= |text| && Matches(text[..i], p) && Matches(text[j..], q) {
      AroundStar(text, p, q, i, j);
    }
  }

  // The runs of a pattern around a star, put together.
  lemma FillAround(p: string, q: string, rp: seq<string>, run: string, rq: seq<string>)
    requires |rp| == Stars(p) && |rq| == Stars(q)
    ensures Stars(p + "*" + q) == Stars(p) + 1 + Stars(q)
    ensures Fill(p + "*" + q, rp + [run] + rq) == Fill(p, rp) + run + Fill(q, rq)
  {
    FillStar(run);
    FillAppend(p, "*", rp, [run]);
    FillAppend(p + "*", q, rp + [run], rq);
  }

  lemma SidesOfStar(text: string, p: string, q: string) returns (i: nat, j: nat)
    requires Matches(text, p + "*" + q)
    ensures i <= j <= |text| && Matches(text[..i], p) && Matches(text[j..], q)
  {
    var runs :| |runs| == Stars(p + "*" + q) && Fill(p + "*" + q, runs) == text;
    FillAround(p, q, seq(Stars(p), _ => ""), "", seq(Stars(q), _ => ""));
    hide Fill, Stars;
    var n := Stars(p);
    var rp, run, rq := runs[..n], runs[n], runs[n + 1..];
    OneRunOut(runs, n);
    FillAround(p, q, rp, run, rq);
    i, j := |Fill(p, rp)|, |Fill(p, rp)| + |run|;
    Sides(Fill(p, rp), run, Fill(q, rq));
  }

  lemma OneRunOut(runs: seq<string>, n: nat)
    requires n < |runs|
    ensures runs == runs[..n] + [runs[n]] + runs[n + 1..]
  {
  }

  lemma Sides(a: string, b: string, c: string)
    ensures (a + b + c)[..|a|] == a && (a + b + c)[|a| + |b|..] == c
  {
  }

  lemma ThreeParts(text: string, i: nat, j: nat)
    requires i <= j <= |text|
    ensures text[..i] + text[i..j] + text[j..] == text
  {
  }

  lemma AroundStar(text: string, p: string, q: string, i: nat, j: nat)
    requires i <= j <= |text| && Matches(text[..i], p) && Matches(text[j..], q)
    ensures Matches(text, p + "*" + q)
  {
    var rp :| |rp| == Stars(p) && Fill(p, rp) == text[..i];
    var rq :| |rq| == Stars(q) && Fill(q, rq) == text[j..];
    hide Fill, Stars;
    var run := text[i..j];
    FillAround(p, q, rp, run, rq);
    ThreeParts(text, i, j);
    var runs := rp + [run] + rq;
    assert |runs| == Stars(p + "*" + q) && Fill(p + "*" + q, runs) == text;
  }

  lemma FillStar(run: string)
    ensures Stars("*") == 1 && Fill("*", [run]) == run
  {
    assert "*"[1..] == "";
    assert [run][1..] == [];
  }
}
