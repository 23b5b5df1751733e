/** Server-name patterns of the trust policy (internal/keys/trustpolicy_runtime.go). */
module Wildcard {

  /** The slice bound of the suffix cut can go below zero; Go panics there. */
  datatype Outcome = Answer(matched: bool) | Panic

  // ---- What a pattern means --------------------------------------------------------------------

  function Stars(p: string): nat {
    if p == [] then 0 else (if p[0] == '*' then 1 else 0) + Stars(p[1..])
  }

  /** The pattern with its stars replaced, in order. */
  function Fill(p: string, fills: seq<string>): string
    requires |fills| == Stars(p)
  {
    if p == [] then ""
    else if p[0] == '*' then fills[0] + Fill(p[1..], fills[1..])
    else [p[0]] + Fill(p[1..], fills)
  }

  ghost predicate Matches(p: string, s: string) {
    exists fills :: |fills| == Stars(p) && Fill(p, fills) == s
  }

  // ---- The pattern cut at its stars ------------------------------------------------------------

  function Split(p: string): (parts: seq<string>)
    ensures |parts| == Stars(p) + 1
  {
    if p == [] then [""]
    else
      var rest := Split(p[1..]);
      if p[0] == '*' then [""] + rest else [[p[0]] + rest[0]] + rest[1..]
  }

  /** s is the first part, then anything, then the second part, and so on to the last. */
  ghost predicate InParts(parts: seq<string>, s: string)
    requires parts != []
    decreases |parts|, 0
  {
    && parts[0] <= s
    && var r := s[|parts[0]|..];
       if |parts| == 1 then r == [] else AnywhereIn(parts[1..], r)
  }

  ghost predicate AnywhereIn(parts: seq<string>, r: string)
    requires parts != []
    decreases |parts|, 1
  {
    exists k :: 0 <= k <= |r| && InParts(parts, r[k..])
  }

  lemma {:induction false} StarFirst(p: string, s: string)
    requires p != [] && p[0] == '*'
    ensures Matches(p, s) <==> exists k :: 0 <= k <= |s| && Matches(p[1..], s[k..])
  {
    if Matches(p, s) {
      var fills :| |fills| == Stars(p) && Fill(p, fills) == s;
      var k := |fills[0]|;
      assert s[k..] == Fill(p[1..], fills[1..]);
      assert Matches(p[1..], s[k..]);
    }
    if k :| 0 <= k <= |s| && Matches(p[1..], s[k..]) {
      var fills :| |fills| == Stars(p[1..]) && Fill(p[1..], fills) == s[k..];
      assert Fill(p, [s[..k]] + fills) == s by { assert ([s[..k]] + fills)[1..] == fills; }
    }
  }

  lemma LetterFirst(p: string, s: string)
    requires p != [] && p[0] != '*'
    ensures Matches(p, s) <==> s != [] && s[0] == p[0] && Matches(p[1..], s[1..])
  {
  }

  lemma {:induction false} SplitMeans(p: string, s: string)
    ensures Matches(p, s) <==> InParts(Split(p), s)
    decreases p
  {
    if p == [] {
      assert Fill(p, []) == "";
    } else if p[0] == '*' {
      StarFirst(p, s);
      forall k | 0 <= k <= |s| ensures Matches(p[1..], s[k..]) <==> InParts(Split(p[1..]), s[k..]) {
        SplitMeans(p[1..], s[k..]);
      }
      assert Split(p)[1..] == Split(p[1..]) && s[0..] == s;
      assert InParts(Split(p), s) <==> AnywhereIn(Split(p[1..]), s);
    } else {
      LetterFirst(p, s);
      if s != [] { SplitMeans(p[1..], s[1..]); LongerFirst(p[0], Split(p[1..]), s); }
    }
  }

  lemma LongerFirst(c: char, parts: seq<string>, s: string)
    requires parts != [] && s != []
    ensures InParts([[c] + parts[0]] + parts[1..], s) <==> s[0] == c && InParts(parts, s[1..])
  {
  }

  // ---- The middle parts, one after another -----------------------------------------------------

  predicate OccursAt(part: string, r: string, k: int) {
    0 <= k <= k + |part| <= |r| && r[k..k + |part|] == part
  }

  ghost predicate Fits(parts: seq<string>, r: string) {
    parts == [] || exists k :: OccursAt(parts[0], r, k) && Fits(parts[1..], r[k + |parts[0]|..])
  }

  predicate EndsWith(r: string, last: string) {
    |last| <= |r| && r[|r| - |last|..] == last
  }

  lemma {:induction false} AnywhereIff(parts: seq<string>, r: string)
    requires parts != []
    ensures var last := parts[|parts| - 1];
            AnywhereIn(parts, r) <==> EndsWith(r, last) && Fits(parts[..|parts| - 1], r[..|r| - |last|])
    decreases |parts|
  {
    var last := parts[|parts| - 1];
    if |parts| == 1 {
      if EndsWith(r, last) { assert InParts(parts, r[|r| - |last|..]); }
      if AnywhereIn(parts, r) {
        var k :| 0 <= k <= |r| && InParts(parts, r[k..]);
        assert r[k..] == last;
      }
    } else {
      if AnywhereIn(parts, r) { AnywhereFits(parts, r); }
      if EndsWith(r, last) && Fits(parts[..|parts| - 1], r[..|r| - |last|]) { FitsAnywhere(parts, r); }
    }
  }

  lemma {:induction false} AnywhereFits(parts: seq<string>, r: string)
    requires |parts| > 1 && AnywhereIn(parts, r)
    ensures var last := parts[|parts| - 1]; EndsWith(r, last) && Fits(parts[..|parts| - 1], r[..|r| - |last|])
    decreases |parts|, 0
  {
    var last, head := parts[|parts| - 1], parts[0];
    var k :| 0 <= k <= |r| && InParts(parts, r[k..]);
    HeadThere(head, r, k);
    var r' := r[k + |head|..];
    AnywhereIff(parts[1..], r');
    hide Fits, InParts, AnywhereIn;
    HeadInMiddle(head, last, r, k);
    var init := parts[..|parts| - 1];
    assert init[1..] == parts[1..][..|parts| - 2];
    FitsHere(init, r[..|r| - |last|], k);
  }

  lemma HeadThere(head: string, r: string, k: nat)
    requires k <= |r| && head <= r[k..]
    ensures OccursAt(head, r, k) && r[k..][|head|..] == r[k + |head|..]
  {
  }

  lemma HeadInMiddle(head: string, last: string, r: string, k: nat)
    requires OccursAt(head, r, k) && EndsWith(r[k + |head|..], last)
    ensures var m, r' := r[..|r| - |last|], r[k + |head|..];
            EndsWith(r, last) && OccursAt(head, m, k) && m[k + |head|..] == r'[..|r'| - |last|]
  {
  }

  lemma FitsHere(parts: seq<string>, r: string, k: nat)
    requires parts != [] && OccursAt(parts[0], r, k) && Fits(parts[1..], r[k + |parts[0]|..])
    ensures Fits(parts, r)
  {
  }

  lemma {:induction false} FitsAnywhere(parts: seq<string>, r: string)
    requires |parts| > 1
    requires var last := parts[|parts| - 1]; EndsWith(r, last) && Fits(parts[..|parts| - 1], r[..|r| - |last|])
    ensures AnywhereIn(parts, r)
    decreases |parts|, 0
  {
    var last, head := parts[|parts| - 1], parts[0];
    var m := r[..|r| - |last|];
    assert parts[..|parts| - 1][0] == head && parts[..|parts| - 1][1..] == parts[1..][..|parts| - 2];
    var k :| OccursAt(head, m, k) && Fits(parts[..|parts| - 1][1..], m[k + |head|..]);
    var r' := r[k + |head|..];
    assert m[k + |head|..] == r'[..|r'| - |last|];
    AnywhereIff(parts[1..], r');
    assert r[k..][..|head|] == m[k..k + |head|];
    assert r[k..][|head|..] == r';
    assert InParts(parts, r[k..]);
  }

  /** More room in front never hurts. */
  lemma FitsInMore(parts: seq<string>, r: string, k: nat)
    requires k <= |r| && Fits(parts, r[k..])
    ensures Fits(parts, r)
  {
    if parts != [] {
      var j :| OccursAt(parts[0], r[k..], j) && Fits(parts[1..], r[k..][j + |parts[0]|..]);
      assert r[k..][j..j + |parts[0]|] == r[k + j..k + j + |parts[0]|];
      assert r[k..][j + |parts[0]|..] == r[k + j + |parts[0]|..];
      assert OccursAt(parts[0], r, k + j);
    }
  }

  /** strings.Index: the first place where the part occurs. */
  function Index(r: string, part: string): (i: int)
    ensures -1 <= i
    ensures i >= 0 ==> OccursAt(part, r, i) && forall k :: 0 <= k < i ==> !OccursAt(part, r, k)
    ensures i == -1 ==> forall k :: !OccursAt(part, r, k)
  {
    IndexFrom(r, part, 0)
  }

  function IndexFrom(r: string, part: string, k: nat): (i: int)
    requires k <= |r|
    ensures -1 <= i
    ensures i >= 0 ==> k <= i && OccursAt(part, r, i) && forall j :: k <= j < i ==> !OccursAt(part, r, j)
    ensures i == -1 ==> forall j :: j >= k ==> !OccursAt(part, r, j)
    decreases |r| - k
  {
    if OccursAt(part, r, k) then k else if k == |r| then -1 else IndexFrom(r, part, k + 1)
  }

  /** Taking the first occurrence loses no match. */
  lemma GreedyIsEnough(parts: seq<string>, r: string)
    requires parts != []
    ensures var i := Index(r, parts[0]); Fits(parts, r) <==> i >= 0 && Fits(parts[1..], r[i + |parts[0]|..])
  {
    var i, n := Index(r, parts[0]), |parts[0]|;
    if Fits(parts, r) {
      var k :| OccursAt(parts[0], r, k) && Fits(parts[1..], r[k + n..]);
      assert i >= 0;
      assert r[i + n..][k - i..] == r[k + n..];
      FitsInMore(parts[1..], r[i + n..], k - i);
    }
  }

  // ---- The matcher -----------------------------------------------------------------------------

  predicate Overlap(parts: seq<string>, s: string)
    requires parts != []
  {
    && |parts| > 1 && parts[0] <= s && EndsWith(s, parts[|parts| - 1])
    && |s| < |parts[0]| + |parts[|parts| - 1]|
  }

  /** The last part starts, inside the first part, with its t last characters. */
  ghost predicate Overhangs(parts: seq<string>, t: nat)
    requires parts != []
  {
    var first, last := parts[0], parts[|parts| - 1];
    |parts| > 1 && 1 <= t <= |first| && t <= |last| && first[|first| - t..] == last[..t]
  }

  /** A pattern has such a name exactly when an end of its first part begins its last part. */
  lemma PanicsOnSomeIff(pattern: string)
    ensures (exists s :: Overlap(Split(pattern), s)) <==> exists t: nat :: Overhangs(Split(pattern), t)
  {
    hide Split;
    var parts := Split(pattern);
    var first, last := parts[0], parts[|parts| - 1];
    if s :| Overlap(parts, s) {
      var t := |first| + |last| - |s|;
      assert first == s[..|first|] && last == s[|s| - |last|..];
      assert Overhangs(parts, t);
    }
    if t: nat :| Overhangs(parts, t) {
      var s := first + last[t..];
      assert s[|s| - |last|..] == first[|first| - t..] + last[t..];
      assert Overlap(parts, s);
    }
  }

  lemma ShortNamePanics()
    ensures Overlap(Split("a*a"), "a") && !Matches("a*a", "a")
  {
    assert Split("") == [""] && "a"[1..] == "" && "*a"[1..] == "a" && "a*a"[1..] == "*a";
    assert ['a'] + "" == "a";
    assert Split("a") == ["a"];
    assert Split("*a") == ["", "a"];
    assert Split("a*a") == ["a", "a"];
    SplitMeans("a*a", "a");
    PartsMean(["a", "a"], "a");
  }

  /**
   The answer is whether some choice of strings for the stars gives the name. There is no answer
   exactly when the name starts and ends as it should but is too short for both; it then does not match.
   */
  method MatchWildcard(pattern: string, s: string) returns (r: Outcome)
    ensures r == Panic <==> Overlap(Split(pattern), s)
    ensures r.Answer? ==> r.matched == Matches(pattern, s)
    ensures r == Panic ==> !Matches(pattern, s)
  {
    hide Matches, Split, InParts, Fits;
    SplitMeans(pattern, s);
    if pattern == "*" {
      StarMatches(s);
      return Answer(true);
    }
    var parts := Split(pattern);
    if |parts| == 1 {
      NoStars(pattern, s);
      return Answer(pattern == s);
    }
    PartsMean(parts, s);
    if parts[0] != "" && !(parts[0] <= s) { return Answer(false); }
    var lastPart := parts[|parts| - 1];
    if lastPart != "" && !EndsWith(s, lastPart) { return Answer(false); }
    var remaining := s;
    if parts[0] != "" { remaining := remaining[|parts[0]|..]; }
    if lastPart != "" {
      if |remaining| < |lastPart| { return Panic; }
      remaining := remaining[..|remaining| - |lastPart|];
    }
    assert EndsWith(s[|parts[0]|..], lastPart);
    assert remaining == Middle(parts, s);
    var ok := FitMiddle(parts[1..|parts| - 1], remaining);
    return Answer(ok);
  }

  /** What is left of the name between the first and the last part. */
  function Middle(parts: seq<string>, s: string): string
    requires parts != [] && |parts[0]| + |parts[|parts| - 1]| <= |s|
  {
    s[|parts[0]|..|s| - |parts[|parts| - 1]|]
  }

  lemma PartsMean(parts: seq<string>, s: string)
    requires |parts| > 1
    ensures var first, last := parts[0], parts[|parts| - 1];
            InParts(parts, s) <==> && first <= s && EndsWith(s, last) && |first| + |last| <= |s|
                                   && Fits(parts[1..|parts| - 1], Middle(parts, s))
  {
    hide Fits;
    var first, last := parts[0], parts[|parts| - 1];
    if first <= s {
      var r := s[|first|..];
      AnywhereIff(parts[1..], r);
      assert parts[1..][..|parts| - 2] == parts[1..|parts| - 1];
      assert EndsWith(r, last) <==> EndsWith(s, last) && |first| + |last| <= |s|;
      if EndsWith(r, last) { assert r[..|r| - |last|] == Middle(parts, s); }
    }
  }

  lemma StarMatches(s: string)
    ensures Matches("*", s) && !Overlap(Split("*"), s)
  {
    assert Split("") == [""] && "*"[1..] == "";
    assert Split("*") == ["", ""];
    assert Fill("*", [s]) == s + Fill("", []);
    assert s + "" == s;
  }

  lemma {:induction false} NoStars(p: string, s: string)
    requires |Split(p)| == 1
    ensures Matches(p, s) <==> p == s
    decreases p
  {
    if p == [] {
      assert Fill(p, []) == "";
    } else {
      LetterFirst(p, s);
      if s != [] {
        NoStars(p[1..], s[1..]);
        assert p == [p[0]] + p[1..] && s == [s[0]] + s[1..];
      }
    }
  }

  method FitMiddle(parts: seq<string>, r: string) returns (ok: bool)
    ensures ok == Fits(parts, r)
  {
    var remaining := r;
    for i := 0 to |parts|
      invariant Fits(parts[i..], remaining) == Fits(parts, r)
    {
      GreedyIsEnough(parts[i..], remaining);
      assert parts[i..][0] == parts[i] && parts[i..][1..] == parts[i + 1..];
      hide Fits;
      if parts[i] == "" {
        assert OccursAt("", remaining, 0);
        assert remaining[0 + 0..] == remaining;
        continue;
      }
      var idx := Index(remaining, parts[i]);
      if idx == -1 { return false; }
      remaining := remaining[idx + |parts[i]|..];
    }
    return true;
  }
}
