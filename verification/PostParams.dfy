/** Moving request parameters from a URL to the POST body: what stays, what moves, and in which order. */
module PostParams {

  // ---------- Searching ----------

  /** The position of the first occurrence, or -1. */
  function IndexOf(s: string, p: string): (i: int)
    ensures i == -1 || 0 <= i <= i + |p| <= |s|
  {
    if p <= s then 0
    else if s == "" then -1
    else
      var i := IndexOf(s[1..], p);
      if i < 0 then -1 else i + 1
  }

  function IndexFrom(s: string, p: string, from: nat): (i: int)
    requires from <= |s|
    ensures i < 0 || from <= i <= |s|
  {
    var i := IndexOf(s[from..], p);
    if i < 0 then -1 else from + i
  }

  function Shift(n: nat, i: int): int {
    if i < 0 then -1 else n + i
  }

  predicate NoAmp(s: string) {
    forall i :: 0 <= i < |s| ==> s[i] != '&'
  }

  /** An ampersand and what follows it up to the next one; a pattern to look for has this form too. */
  predicate Segment(s: string) {
    s != "" && s[0] == '&' && NoAmp(s[1..])
  }

  predicate Segments(segs: seq<string>) {
    forall i :: 0 <= i < |segs| ==> Segment(segs[i])
  }

  /** Nothing, or more segments. */
  predicate Onward(t: string) {
    t == "" || t[0] == '&'
  }

  function Join(segs: seq<string>): (t: string)
    ensures Segments(segs) ==> Onward(t)
  {
    if segs == [] then "" else segs[0] + Join(segs[1..])
  }

  lemma {:induction false} JoinConcat(a: seq<string>, b: seq<string>)
    ensures Join(a + b) == Join(a) + Join(b)
  {
    if a == [] {
      assert a + b == b;
    } else {
      assert (a + b)[1..] == a[1..] + b;
      JoinConcat(a[1..], b);
      assert a[0] + (Join(a[1..]) + Join(b)) == a[0] + Join(a[1..]) + Join(b);
    }
  }

  /** No pattern is found at a place without an ampersand. */
  lemma {:induction false} SkipPlain(s: string, t: string, p: string)
    requires NoAmp(s) && Segment(p)
    ensures IndexOf(s + t, p) == Shift(|s|, IndexOf(t, p))
  {
    if s == "" {
      assert s + t == t;
    } else {
      assert (s + t)[1..] == s[1..] + t && (s + t)[0] == s[0];
      SkipPlain(s[1..], t, p);
    }
  }

  /** A pattern at the start of a text does not reach into its next segment. */
  lemma {:induction false} PrefixWithin(s: string, t: string, p: string)
    requires s != "" && Segment(p) && Onward(t)
    ensures p <= s + t <==> p <= s
  {
    assert forall i :: 1 <= i < |p| ==> p[i] == p[1..][i - 1];
    assert t != "" ==> (s + t)[|s|] == '&';
    if p <= s + t {
      assert |p| <= |s|;
      assert p == (s + t)[..|p|];
    }
  }

  lemma {:induction false} SkipSegment(s: string, t: string, p: string)
    requires Segment(s) && Segment(p) && Onward(t) && !(p <= s)
    ensures IndexOf(s + t, p) == Shift(|s|, IndexOf(t, p))
  {
    PrefixWithin(s, t, p);
    assert (s + t)[1..] == s[1..] + t;
    SkipPlain(s[1..], t, p);
  }

  // ---------- Segments that match a pattern ----------

  function Matches(segs: seq<string>, p: string): seq<string> {
    if segs == [] then [] else (if p <= segs[0] then [segs[0]] else []) + Matches(segs[1..], p)
  }

  function Others(segs: seq<string>, p: string): seq<string> {
    if segs == [] then [] else (if p <= segs[0] then [] else [segs[0]]) + Others(segs[1..], p)
  }

  lemma {:induction false} AllOthers(segs: seq<string>, p: string)
    requires Matches(segs, p) == []
    ensures Others(segs, p) == segs && (segs != [] ==> !(p <= segs[0]) && Matches(segs[1..], p) == [])
  {
    if segs != [] {
      assert !(p <= segs[0]);
      AllOthers(segs[1..], p);
    }
  }

  lemma {:induction false} JoinHead(segs: seq<string>, t: string)
    requires Segments(segs) && segs != [] && Onward(t)
    ensures Segments(segs[1..]) && Segment(segs[0]) && Onward(Join(segs[1..]) + t)
    ensures Join(segs) + t == segs[0] + (Join(segs[1..]) + t) && |Join(segs)| == |segs[0]| + |Join(segs[1..])|
  {
  }

  lemma {:induction false} NoneMatch(segs: seq<string>, t: string, p: string)
    requires Segments(segs) && Segment(p) && Onward(t) && Matches(segs, p) == []
    ensures IndexOf(Join(segs) + t, p) == Shift(|Join(segs)|, IndexOf(t, p))
    ensures Others(segs, p) == segs
  {
    AllOthers(segs, p);
    if segs == [] {
      assert Join(segs) + t == t;
    } else {
      JoinHead(segs, t);
      NoneMatch(segs[1..], t, p);
      SkipSegment(segs[0], Join(segs[1..]) + t, p);
    }
  }

  lemma {:induction false} MatchesConcat(a: seq<string>, b: seq<string>, p: string)
    ensures Matches(a + b, p) == Matches(a, p) + Matches(b, p)
  {
    if a == [] {
      assert a + b == b;
    } else {
      assert (a + b)[1..] == a[1..] + b;
      MatchesConcat(a[1..], b, p);
      var first := if p <= a[0] then [a[0]] else [];
      assert first + (Matches(a[1..], p) + Matches(b, p)) == first + Matches(a[1..], p) + Matches(b, p);
    }
  }

  lemma {:induction false} OthersConcat(a: seq<string>, b: seq<string>, p: string)
    ensures Others(a + b, p) == Others(a, p) + Others(b, p)
  {
    if a == [] {
      assert a + b == b;
    } else {
      assert (a + b)[1..] == a[1..] + b;
      OthersConcat(a[1..], b, p);
      var first := if p <= a[0] then [] else [a[0]];
      assert first + (Others(a[1..], p) + Others(b, p)) == first + Others(a[1..], p) + Others(b, p);
    }
  }

  lemma {:induction false} FirstMatch(segs: seq<string>, p: string) returns (j: nat)
    requires Matches(segs, p) != []
    ensures j < |segs| && p <= segs[j] && Matches(segs[..j], p) == []
  {
    if p <= segs[0] {
      j := 0;
    } else {
      j := FirstMatch(segs[1..], p);
      assert segs[..j + 1][1..] == segs[1..][..j];
      j := j + 1;
    }
  }

  // ---------- One pass ----------

  /** Where the parameter at the position ends: before the next ampersand, or with the URL. */
  function EndOf(url: string, start: nat): (end: nat)
    requires start < |url|
    ensures start < end <= |url|
  {
    var next := IndexFrom(url, "&", start + 1);
    if next <= 0 then |url| else next
  }

  /** URL and data after every parameter found has been moved; a parameter found at position 0 ends the search. */
  function Passed(url: string, p: string): (string, string)
    requires p != ""
    decreases |url|
  {
    var k := IndexOf(url, p);
    if k <= 0 then (url, "")
    else
      var end := EndOf(url, k);
      var (rest, data) := Passed(url[..k] + url[end..], p);
      (rest, url[k..end] + data)
  }

  lemma {:induction false} NextAmp(s: string, t: string)
    requires NoAmp(s) && Onward(t)
    ensures IndexOf(s + t, "&") == if t == "" then -1 else |s|
  {
    SkipPlain(s, t, "&");
    if t != "" { assert "&" <= t; }
  }

  lemma {:induction false} EndOfSegment(before: string, s: string, t: string)
    requires Segment(s) && Onward(t)
    ensures EndOf(before + s + t, |before|) == |before| + |s|
  {
    var url := before + s + t;
    assert url[|before| + 1..] == s[1..] + t;
    NextAmp(s[1..], t);
  }

  lemma {:induction false} JoinAt(head: string, segs: seq<string>, j: nat)
    requires j < |segs|
    ensures Join(segs) == Join(segs[..j]) + (segs[j] + Join(segs[j + 1..]))
    ensures head + Join(segs) == head + Join(segs[..j]) + segs[j] + Join(segs[j + 1..])
    ensures head + Join(segs) == head + (Join(segs[..j]) + (segs[j] + Join(segs[j + 1..])))
  {
    var pre, post := segs[..j], segs[j + 1..];
    assert segs == pre + ([segs[j]] + post);
    JoinConcat(pre, [segs[j]] + post);
    JoinConcat([segs[j]], post);
    assert Join([segs[j]]) == segs[j];
    assert head + (Join(pre) + (segs[j] + Join(post))) == head + Join(pre) + segs[j] + Join(post);
  }

  lemma {:induction false} FoundAt(head: string, segs: seq<string>, j: nat, p: string)
    requires NoAmp(head) && Segments(segs) && Segment(p) && j < |segs| && p <= segs[j] && Matches(segs[..j], p) == []
    ensures IndexOf(head + Join(segs), p) == |head + Join(segs[..j])|
  {
    var t := segs[j] + Join(segs[j + 1..]);
    JoinAt(head, segs, j);
    assert p <= t && Onward(t);
    NoneMatch(segs[..j], t, p);
    SkipPlain(head, Join(segs[..j]) + t, p);
  }

  /** A pass moves the matching segments, in order, and leaves the others, in order, unless the URL starts with the
      pattern: then it moves nothing. */
  lemma {:induction false} PassMoves(head: string, segs: seq<string>, p: string)
    requires NoAmp(head) && Segments(segs) && Segment(p)
    ensures Passed(head + Join(segs), p) ==
            if p <= head + Join(segs) then (head + Join(segs), "")
            else (head + Join(Others(segs, p)), Join(Matches(segs, p)))
    decreases |segs|
  {
    var url := head + Join(segs);
    if p <= url {
    } else if Matches(segs, p) == [] {
      NoneMatch(segs, "", p);
      assert Join(segs) + "" == Join(segs);
      SkipPlain(head, Join(segs), p);
      assert IndexOf("", p) < 0;
    } else {
      var j := FirstMatch(segs, p);
      PassStep(head, segs, j, p);
      FilterStep(segs, j, p);
      PassMoves(head, segs[..j] + segs[j + 1..], p);
    }
  }

  lemma {:induction false} FilterStep(segs: seq<string>, j: nat, p: string)
    requires j < |segs| && p <= segs[j] && Matches(segs[..j], p) == []
    ensures Others(segs, p) == Others(segs[..j] + segs[j + 1..], p)
    ensures Matches(segs, p) == [segs[j]] + Matches(segs[..j] + segs[j + 1..], p)
  {
    var pre, post := segs[..j], segs[j + 1..];
    assert segs == pre + ([segs[j]] + post);
    MatchesConcat(pre, [segs[j]] + post, p);
    MatchesConcat([segs[j]], post, p);
    MatchesConcat(pre, post, p);
    OthersConcat(pre, [segs[j]] + post, p);
    OthersConcat([segs[j]], post, p);
    OthersConcat(pre, post, p);
    assert ([segs[j]] + post)[0] == segs[j];
  }

  lemma {:induction false} PassedOne(before: string, s: string, after: string, p: string)
    requires before != "" && Segment(s) && Onward(after) && Segment(p)
    requires IndexOf(before + s + after, p) == |before|
    ensures Passed(before + s + after, p) == (Passed(before + after, p).0, s + Passed(before + after, p).1)
  {
    var url := before + s + after;
    EndOfSegment(before, s, after);
    assert url[..|before|] == before && url[|before|..|before| + |s|] == s && url[|before| + |s|..] == after;
  }

  lemma {:induction false} StillNotAtStart(before: string, s: string, after: string, p: string)
    requires Segment(s) && Onward(after) && Segment(p) && p <= s && !(p <= before + s + after)
    ensures before != "" && !(p <= before + after)
  {
    assert before + s + after == before + (s + after);
    assert p <= s + after;
    assert "" + (s + after) == s + after;
    if before != "" {
      PrefixWithin(before, s + after, p);
      PrefixWithin(before, after, p);
    }
  }

  lemma {:induction false} JoinLess(head: string, segs: seq<string>, j: nat)
    requires j < |segs|
    ensures head + Join(segs[..j]) + Join(segs[j + 1..]) == head + Join(segs[..j] + segs[j + 1..])
  {
    JoinConcat(segs[..j], segs[j + 1..]);
    assert head + Join(segs[..j]) + Join(segs[j + 1..]) == head + (Join(segs[..j]) + Join(segs[j + 1..]));
  }

  lemma {:induction false} PassHere(url: string, before: string, s: string, after: string, p: string)
    requires url == before + s + after && Segment(s) && Onward(after) && Segment(p) && p <= s && !(p <= url)
    requires IndexOf(url, p) == |before|
    ensures Passed(url, p) == (Passed(before + after, p).0, s + Passed(before + after, p).1) && !(p <= before + after)
  {
    StillNotAtStart(before, s, after, p);
    PassedOne(before, s, after, p);
  }

  lemma {:induction false} PassStep(head: string, segs: seq<string>, j: nat, p: string)
    requires NoAmp(head) && Segments(segs) && Segment(p) && j < |segs| && p <= segs[j] && Matches(segs[..j], p) == []
    requires !(p <= head + Join(segs))
    ensures
      var less := head + Join(segs[..j] + segs[j + 1..]);
      Passed(head + Join(segs), p) == (Passed(less, p).0, segs[j] + Passed(less, p).1) && !(p <= less)
  {
    FoundAt(head, segs, j, p);
    JoinAt(head, segs, j);
    JoinLess(head, segs, j);
    PassHere(head + Join(segs), head + Join(segs[..j]), segs[j], Join(segs[j + 1..]), p);
  }

  // ---------- All passes ----------

  /** What is searched for: names that start with "data", then each of the given names. */
  function Patterns(names: seq<string>): (ps: seq<string>)
    ensures forall i :: 0 <= i < |ps| ==> ps[i] != ""
    ensures (forall i :: 0 <= i < |names| ==> NoAmp(names[i])) ==> Segments(ps)
  {
    ["&data"] + NamePatterns(names)
  }

  function NamePatterns(names: seq<string>): (ps: seq<string>)
    ensures forall i :: 0 <= i < |ps| ==> ps[i] != ""
    ensures (forall i :: 0 <= i < |names| ==> NoAmp(names[i])) ==> Segments(ps)
  {
    if names == [] then [] else ["&" + names[0] + "="] + NamePatterns(names[1..])
  }

  function PassedAll(url: string, ps: seq<string>): (string, string)
    requires forall i :: 0 <= i < |ps| ==> ps[i] != ""
    decreases |ps|
  {
    if ps == [] then (url, "")
    else
      var (rest, data) := Passed(url, ps[0]);
      var (last, more) := PassedAll(rest, ps[1..]);
      (last, data + more)
  }

  /** The patterns that the URL does not start with. */
  function Working(url: string, ps: seq<string>): seq<string> {
    if ps == [] then [] else (if ps[0] <= url then [] else [ps[0]]) + Working(url, ps[1..])
  }

  predicate Matched(s: string, ps: seq<string>) {
    exists i :: 0 <= i < |ps| && ps[i] <= s
  }

  /** The segments that match none of the patterns. */
  function Kept(segs: seq<string>, ps: seq<string>): seq<string> {
    if segs == [] then []
    else (if Matched(segs[0], ps) then [] else [segs[0]]) + Kept(segs[1..], ps)
  }

  /** The segments that match, by pattern, those of one pattern in their own order. */
  function InTurn(segs: seq<string>, ps: seq<string>): seq<string>
    decreases |ps|
  {
    if ps == [] then [] else Matches(segs, ps[0]) + InTurn(Others(segs, ps[0]), ps[1..])
  }

  lemma {:induction false} OthersSegments(segs: seq<string>, p: string)
    requires Segments(segs)
    ensures Segments(Others(segs, p)) && Segments(Matches(segs, p))
    ensures multiset(segs) == multiset(Others(segs, p)) + multiset(Matches(segs, p))
  {
    if segs != [] {
      assert segs == [segs[0]] + segs[1..];
      OthersSegments(segs[1..], p);
    }
  }

  lemma {:induction false} KeptNothing(segs: seq<string>)
    ensures Kept(segs, []) == segs
  {
    if segs != [] { KeptNothing(segs[1..]); }
  }

  lemma {:induction false} MatchedSplits(s: string, ps: seq<string>)
    requires ps != []
    ensures Matched(s, ps) <==> ps[0] <= s || Matched(s, ps[1..])
  {
    if Matched(s, ps) {
      var i :| 0 <= i < |ps| && ps[i] <= s;
      if i > 0 { assert ps[1..][i - 1] <= s; }
    }
    if Matched(s, ps[1..]) {
      var i :| 0 <= i < |ps[1..]| && ps[1..][i] <= s;
      assert ps[i + 1] <= s;
    }
  }

  lemma {:induction false} KeptSplits(segs: seq<string>, ps: seq<string>)
    requires ps != []
    ensures Kept(segs, ps) == Kept(Others(segs, ps[0]), ps[1..])
  {
    if segs != [] {
      KeptSplits(segs[1..], ps);
      MatchedSplits(segs[0], ps);
      var others, more := Others(segs, ps[0]), Others(segs[1..], ps[0]);
      if ps[0] <= segs[0] {
        assert others == more;
      } else {
        assert others == [segs[0]] + more && others[1..] == more;
      }
    }
  }

  /** A pass does not change whether the URL starts with another pattern: what stands at position 0 never moves. */
  lemma {:induction false} StartStays(head: string, segs: seq<string>, p: string, q: string)
    requires NoAmp(head) && Segments(segs) && Segment(p) && Segment(q) && !(p <= head + Join(segs))
    ensures q <= head + Join(Others(segs, p)) <==> q <= head + Join(segs)
  {
    OthersSegments(segs, p);
    if head != "" {
      PrefixWithin(head, Join(segs), q);
      PrefixWithin(head, Join(Others(segs, p)), q);
    } else if segs != [] {
      OthersSegments(segs[1..], p);
      assert head + Join(segs) == segs[0] + Join(segs[1..]);
      PrefixWithin(segs[0], Join(segs[1..]), p);
      PrefixWithin(segs[0], Join(segs[1..]), q);
      PrefixWithin(segs[0], Join(Others(segs[1..], p)), q);
      assert head + Join(Others(segs, p)) == segs[0] + Join(Others(segs[1..], p));
    }
  }

  lemma {:induction false} WorkingStays(head: string, segs: seq<string>, p: string, ps: seq<string>)
    requires NoAmp(head) && Segments(segs) && Segment(p) && Segments(ps) && !(p <= head + Join(segs))
    ensures Working(head + Join(Others(segs, p)), ps) == Working(head + Join(segs), ps)
  {
    if ps != [] {
      StartStays(head, segs, p, ps[0]);
      WorkingStays(head, segs, p, ps[1..]);
    }
  }

  lemma {:induction false} TurnSplits(segs: seq<string>, p: string, more: seq<string>)
    ensures Kept(segs, [p] + more) == Kept(Others(segs, p), more)
    ensures Join(InTurn(segs, [p] + more)) == Join(Matches(segs, p)) + Join(InTurn(Others(segs, p), more))
  {
    assert ([p] + more)[1..] == more;
    KeptSplits(segs, [p] + more);
    JoinConcat(Matches(segs, p), InTurn(Others(segs, p), more));
  }

  lemma {:induction false} FirstPass(url: string, p: string, rest: string, data: string, ps: seq<string>)
    requires p != "" && (forall i :: 0 <= i < |ps| ==> ps[i] != "") && Passed(url, p) == (rest, data)
    ensures ([p] + ps)[1..] == ps
    ensures PassedAll(url, [p] + ps) == (PassedAll(rest, ps).0, data + PassedAll(rest, ps).1)
    ensures p <= url && data == "" ==> PassedAll(url, [p] + ps) == PassedAll(rest, ps)
    ensures Working(url, [p] + ps) == if p <= url then Working(url, ps) else [p] + Working(url, ps)
  {
    assert ([p] + ps)[1..] == ps;
    assert "" + PassedAll(rest, ps).1 == PassedAll(rest, ps).1;
  }

  /** For every URL: with the working patterns, the URL keeps its other segments in order, and the data gets the
      matching ones, pattern by pattern. */
  lemma {:induction false} PassesMove(head: string, segs: seq<string>, ps: seq<string>)
    requires NoAmp(head) && Segments(segs) && Segments(ps)
    ensures
      var work := Working(head + Join(segs), ps);
      PassedAll(head + Join(segs), ps) == (head + Join(Kept(segs, work)), Join(InTurn(segs, work)))
    decreases |ps|
  {
    if ps == [] {
      KeptNothing(segs);
    } else {
      var url, p, more := head + Join(segs), ps[0], ps[1..];
      assert ps == [p] + more;
      PassMoves(head, segs, p);
      FirstPass(url, p, Passed(url, p).0, Passed(url, p).1, more);
      if p <= url {
        PassesMove(head, segs, more);
      } else {
        OthersSegments(segs, p);
        PassesMove(head, Others(segs, p), more);
        WorkingStays(head, segs, p, more);
        TurnSplits(segs, p, Working(url, more));
      }
    }
  }

  /** No segment is lost and none is made. */
  lemma {:induction false} Conserved(segs: seq<string>, ps: seq<string>)
    requires Segments(segs)
    ensures multiset(segs) == multiset(Kept(segs, ps)) + multiset(InTurn(segs, ps))
    decreases |ps|
  {
    if ps == [] {
      KeptNothing(segs);
    } else {
      OthersSegments(segs, ps[0]);
      Conserved(Others(segs, ps[0]), ps[1..]);
      KeptSplits(segs, ps);
    }
  }

  // ---------- A URL as its segments ----------

  /** The length of what comes before the first ampersand. */
  function HeadLength(url: string): (n: nat)
    ensures n <= |url| && NoAmp(url[..n]) && Onward(url[n..])
  {
    if url == "" || url[0] == '&' then 0
    else
      var n := HeadLength(url[1..]);
      assert url[..n + 1][1..] == url[1..][..n] && url[n + 1..] == url[1..][n..];
      assert forall i :: 1 <= i < n + 1 ==> url[i] == url[1..][..n][i - 1];
      n + 1
  }

  function Head(url: string): string {
    url[..HeadLength(url)]
  }

  /** The length of the first segment. */
  function FirstLength(t: string): (n: nat)
    requires t != "" && t[0] == '&'
    ensures 0 < n <= |t| && Segment(t[..n]) && Onward(t[n..])
  {
    var n := HeadLength(t[1..]);
    assert t[..n + 1][1..] == t[1..][..n] && t[n + 1..] == t[1..][n..];
    n + 1
  }

  function Split(t: string): (segs: seq<string>)
    requires Onward(t)
    ensures Segments(segs) && Join(segs) == t
    decreases |t|
  {
    if t == "" then []
    else
      var n := FirstLength(t);
      assert t == t[..n] + t[n..];
      [t[..n]] + Split(t[n..])
  }

  function SegmentsOf(url: string): (segs: seq<string>)
    ensures Segments(segs) && Head(url) + Join(segs) == url && NoAmp(Head(url))
  {
    Split(url[HeadLength(url)..])
  }

  /** What becomes of a URL: its segments are conserved, and those that match a working pattern are the data. */
  lemma {:induction false} Separation(url: string, names: seq<string>)
    requires NoAmps(names)
    ensures
      var segs, work := SegmentsOf(url), Working(url, Patterns(names));
      && PassedAll(url, Patterns(names)) == (Head(url) + Join(Kept(segs, work)), Join(InTurn(segs, work)))
      && multiset(segs) == multiset(Kept(segs, work)) + multiset(InTurn(segs, work))
  {
    PassesMove(Head(url), SegmentsOf(url), Patterns(names));
    Conserved(SegmentsOf(url), Working(url, Patterns(names)));
  }

  lemma {:induction false} KeptSegments(segs: seq<string>, ps: seq<string>)
    requires Segments(segs)
    ensures Segments(Kept(segs, ps)) && forall p :: p in ps ==> Matches(Kept(segs, ps), p) == []
  {
    if segs != [] {
      KeptSegments(segs[1..], ps);
      forall p | p in ps ensures Matches(Kept(segs, ps), p) == [] {
        var i :| 0 <= i < |ps| && ps[i] == p;
        var more := Kept(segs[1..], ps);
        if Matched(segs[0], ps) {
          assert Kept(segs, ps) == more;
        } else {
          assert Kept(segs, ps) == [segs[0]] + more && Kept(segs, ps)[1..] == more && !(ps[i] <= segs[0]);
        }
      }
    }
  }

  lemma {:induction false} NoneLeft(head: string, segs: seq<string>, work: seq<string>, p: string)
    requires NoAmp(head) && Segments(segs) && Segment(p) && p in work
    ensures IndexOf(head + Join(Kept(segs, work)), p) == -1
  {
    var kept := Kept(segs, work);
    KeptSegments(segs, work);
    NoneMatch(kept, "", p);
    assert Join(kept) + "" == Join(kept);
    SkipPlain(head, Join(kept), p);
  }

  /** Nothing that matches a pattern is left in the URL, unless the URL starts with that pattern. */
  lemma {:induction false} NothingLeft(url: string, names: seq<string>, p: string)
    requires NoAmps(names) && (p == "&data" || exists i :: 0 <= i < |names| && p == "&" + names[i] + "=")
    ensures
      var rest := PassedAll(url, Patterns(names)).0;
      if p <= url then p <= rest && IndexOf(rest, p) == 0 else IndexOf(rest, p) == -1
  {
    var segs, work := SegmentsOf(url), Working(url, Patterns(names));
    IsPattern(names, p);
    var i :| 0 <= i < |Patterns(names)| && Patterns(names)[i] == p;
    assert Segment(p);
    PassesMove(Head(url), segs, Patterns(names));
    WorkingHas(url, Patterns(names), p);
    if p <= url {
      forall q | q in work ensures !(q <= url) { WorkingHas(url, Patterns(names), q); }
      FirstStays(Head(url), segs, work, p);
    } else {
      NoneLeft(Head(url), segs, work, p);
    }
  }

  lemma {:induction false} WorkingHas(url: string, ps: seq<string>, p: string)
    ensures p in Working(url, ps) <==> p in ps && !(p <= url)
  {
    if ps != [] { WorkingHas(url, ps[1..], p); }
  }

  /** A segment at position 0 stays if it starts with a pattern. */
  lemma {:induction false} FirstStays(head: string, segs: seq<string>, work: seq<string>, p: string)
    requires NoAmp(head) && Segments(segs) && Segment(p) && p <= head + Join(segs)
    requires forall q :: q in work ==> !(q <= head + Join(segs))
    ensures p <= head + Join(Kept(segs, work))
  {
    assert (head + Join(segs))[0] == '&';
    assert head == "";
    assert "" + Join(segs) == Join(segs) && segs != [];
    assert segs[0] <= Join(segs);
    forall i | 0 <= i < |work| ensures !(work[i] <= segs[0]) {
      assert work[i] in work;
    }
    assert !Matched(segs[0], work);
    PrefixWithin(segs[0], Join(segs[1..]), p);
    assert Kept(segs, work) == [segs[0]] + Kept(segs[1..], work);
    assert Kept(segs, work)[1..] == Kept(segs[1..], work);
    assert segs[0] <= Join(Kept(segs, work));
  }

  // ---------- What is searched for, in so many words ----------

  /** A name that starts with "data", or one of the given names. */
  predicate Searched(seg: string, names: seq<string>) {
    "&data" <= seg || exists i :: 0 <= i < |names| && "&" + names[i] + "=" <= seg
  }

  /** The segments with one of the names, name by name. */
  function Named(segs: seq<string>, names: seq<string>): seq<string>
    decreases |names|
  {
    if names == [] then []
    else Matches(segs, "&" + names[0] + "=") + Named(Others(segs, "&" + names[0] + "="), names[1..])
  }

  /** The URL starts with none of the names searched for. */
  predicate StartsPlain(url: string, names: seq<string>) {
    !("&data" <= url) && forall i :: 0 <= i < |names| ==> !("&" + names[i] + "=" <= url)
  }

  lemma {:induction false} NamedInTurn(segs: seq<string>, names: seq<string>)
    ensures InTurn(segs, NamePatterns(names)) == Named(segs, names)
    decreases |names|
  {
    if names != [] {
      assert NamePatterns(names)[1..] == NamePatterns(names[1..]);
      NamedInTurn(Others(segs, NamePatterns(names)[0]), names[1..]);
    }
  }

  lemma {:induction false} PatternAt(names: seq<string>, i: nat)
    requires i < |names|
    ensures |NamePatterns(names)| == |names| && NamePatterns(names)[i] == "&" + names[i] + "="
  {
    if |names| > 1 { PatternAt(names[1..], if i > 0 then i - 1 else 0); }
  }

  lemma {:induction false} IsPattern(names: seq<string>, p: string)
    requires p == "&data" || exists i :: 0 <= i < |names| && p == "&" + names[i] + "="
    ensures p in Patterns(names)
  {
    var ps := Patterns(names);
    assert ps[0] == "&data" && ps[1..] == NamePatterns(names);
    if i :| 0 <= i < |names| && p == "&" + names[i] + "=" {
      PatternAt(names, i);
      assert ps[i + 1] == p;
    }
  }

  lemma {:induction false} MatchedIsSearched(seg: string, names: seq<string>)
    ensures Matched(seg, Patterns(names)) <==> Searched(seg, names)
  {
    var ps := Patterns(names);
    assert ps[1..] == NamePatterns(names) && ps[0] == "&data";
    MatchedSplits(seg, ps);
    forall i: nat | i < |names| ensures |ps| == |names| + 1 && NamePatterns(names)[i] == "&" + names[i] + "=" {
      PatternAt(names, i);
    }
    if Matched(seg, NamePatterns(names)) {
      var i :| 0 <= i < |NamePatterns(names)| && NamePatterns(names)[i] <= seg;
      if names != [] { PatternAt(names, 0); }
      assert "&" + names[i] + "=" <= seg;
    }
    if i :| 0 <= i < |names| && "&" + names[i] + "=" <= seg {
      PatternAt(names, i);
      assert NamePatterns(names)[i] <= seg;
    }
  }

  lemma {:induction false} AllWork(url: string, ps: seq<string>)
    requires forall i :: 0 <= i < |ps| ==> !(ps[i] <= url)
    ensures Working(url, ps) == ps
  {
    if ps != [] {
      forall i | 0 <= i < |ps[1..]| ensures !(ps[1..][i] <= url) { assert ps[i + 1] == ps[1..][i]; }
      AllWork(url, ps[1..]);
      assert ps == [ps[0]] + ps[1..];
    }
  }

  lemma {:induction false} PlainWorks(url: string, names: seq<string>)
    requires StartsPlain(url, names)
    ensures Working(url, Patterns(names)) == Patterns(names)
  {
    var ps := Patterns(names);
    forall i | 0 <= i < |ps| ensures !(ps[i] <= url) {
      if i > 0 {
        if names != [] { PatternAt(names, 0); }
        PatternAt(names, i - 1);
      }
    }
    AllWork(url, ps);
  }

  /** The segments that are not searched for. */
  function Plain(segs: seq<string>, names: seq<string>): seq<string> {
    if segs == [] then []
    else (if Searched(segs[0], names) then [] else [segs[0]]) + Plain(segs[1..], names)
  }

  lemma {:induction false} KeptIsPlain(segs: seq<string>, names: seq<string>)
    ensures Kept(segs, Patterns(names)) == Plain(segs, names)
  {
    if segs != [] {
      MatchedIsSearched(segs[0], names);
      KeptIsPlain(segs[1..], names);
    }
  }

  predicate NoAmps(names: seq<string>) {
    forall i :: 0 <= i < |names| ==> NoAmp(names[i])
  }

  /**
    For a URL that starts with no searched name: the data are its parameters whose names start with "data", in order,
    then for each given name in turn those of that name; the other parameters, and they alone, stay, in order.
  */
  lemma {:induction false} SearchedMove(url: string, names: seq<string>)
    requires NoAmps(names) && StartsPlain(url, names)
    ensures var segs := SegmentsOf(url);
            PassedAll(url, Patterns(names)) ==
            (Head(url) + Join(Plain(segs, names)), Join(Matches(segs, "&data") + Named(Others(segs, "&data"), names)))
  {
    var segs, ps := SegmentsOf(url), Patterns(names);
    Separation(url, names);
    PlainWorks(url, names);
    assert ps[1..] == NamePatterns(names);
    NamedInTurn(Others(segs, "&data"), names);
    KeptIsPlain(segs, names);
  }

  // ---------- The function itself ----------

  /** The URL with its response type named, in a form that depends on whether there are parameters already. */
  function WithType(url: string, json: bool): string {
    if !json then url else if IndexOf(url, "?") > 0 then url + "&responseType=json" else url + "?responseType=json"
  }

  lemma {:induction false} IndexIsFirst(s: string, c: char)
    ensures var i := IndexOf(s, [c]);
            if c in s then 0 <= i < |s| && s[i] == c && c !in s[..i] else i == -1
  {
    if s != "" && s[0] != c {
      IndexIsFirst(s[1..], c);
      assert s == [s[0]] + s[1..];
      var i := IndexOf(s, [c]);
      if i > 0 { assert s[..i] == [s[0]] + s[1..][..i - 1]; }
    }
  }

  /** The response type comes behind an ampersand if a question mark stands behind the first character, else behind a
      question mark of its own. */
  lemma TypeIsParameter(url: string)
    ensures WithType(url, false) == url
    ensures url != "" && url[0] != '?' && '?' in url ==> WithType(url, true) == url + "&responseType=json"
    ensures url == "" || url[0] == '?' || '?' !in url ==> WithType(url, true) == url + "?responseType=json"
  {
    IndexIsFirst(url, '?');
  }

  class Request {
    var url: string
    var data: string

    constructor (url: string)
      ensures this.url == url && data == ""
    {
      this.url, data := url, "";
    }

    /** Moves the parameter that starts at the position. */
    method Move(start: nat)
      requires start < |url|
      modifies this
      ensures url == old(url)[..start] + old(url)[EndOf(old(url), start)..]
      ensures data == old(data) + old(url)[start..EndOf(old(url), start)]
    {
      var end := IndexFrom(url, "&", start + 1);
      if end <= 0 {
        end := |url|;
      }
      data := data + url[start..end];
      url := url[..start] + url[end..];
    }

    method MoveAll(pattern: string)
      requires pattern != ""
      modifies this
      ensures url == Passed(old(url), pattern).0 && data == old(data) + Passed(old(url), pattern).1
    {
      var start := IndexOf(url, pattern);
      while start > 0
        invariant start == IndexOf(url, pattern)
        invariant Passed(old(url), pattern).0 == Passed(url, pattern).0
        invariant old(data) + Passed(old(url), pattern).1 == data + Passed(url, pattern).1
        decreases |url|
      {
        ghost var had, moved := data, url[start..EndOf(url, start)];
        PassedStep(url, pattern);
        Move(start);
        JoinThree(had, moved, Passed(url, pattern).1);
        start := IndexOf(url, pattern);
      }
      assert data + "" == data;
    }

    method MoveNames(names: seq<string>)
      modifies this
      ensures url == PassedAll(old(url), NamePatterns(names)).0
      ensures data == old(data) + PassedAll(old(url), NamePatterns(names)).1
    {
      for i := 0 to |names|
        invariant PassedAll(old(url), NamePatterns(names)).0 == PassedAll(url, NamePatterns(names[i..])).0
        invariant old(data) + PassedAll(old(url), NamePatterns(names)).1 == data + PassedAll(url, NamePatterns(names[i..])).1
      {
        ghost var was, had := url, data;
        var pattern := "&" + names[i] + "=";
        MoveAll(pattern);
        NextName(was, url, names, i);
        JoinThree(had, Passed(was, pattern).1, PassedAll(url, NamePatterns(names[i + 1..])).1);
      }
      assert data + "" == data;
    }

    method SeparatePostParams(names: seq<string>, json: bool)
      modifies this
      ensures url == WithType(PassedAll(old(url), Patterns(names)).0, json)
      ensures data == old(data) + PassedAll(old(url), Patterns(names)).1
      ensures NoAmps(names) && StartsPlain(old(url), names) ==>
                var segs := SegmentsOf(old(url));
                && url == WithType(Head(old(url)) + Join(Plain(segs, names)), json)
                && data == old(data) + Join(Matches(segs, "&data") + Named(Others(segs, "&data"), names))
    {
      if NoAmps(names) && StartsPlain(url, names) { SearchedMove(url, names); }
      MoveAll("&data");
      ghost var rest, moved := url, Passed(old(url), "&data").1;
      FirstPass(old(url), "&data", rest, moved, NamePatterns(names));
      MoveNames(names);
      JoinThree(old(data), moved, PassedAll(rest, NamePatterns(names)).1);
      if json {
        if IndexOf(url, "?") > 0 {
          url := url + "&responseType=json";
        } else {
          url := url + "?responseType=json";
        }
      }
    }
  }

  lemma {:induction false} PassedStep(url: string, p: string)
    requires p != "" && IndexOf(url, p) > 0
    ensures
      var k := IndexOf(url, p);
      var end := EndOf(url, k);
      var rest := url[..k] + url[end..];
      |rest| < |url| && Passed(url, p) == (Passed(rest, p).0, url[k..end] + Passed(rest, p).1)
  {
  }

  lemma {:induction false} NextName(was: string, url: string, names: seq<string>, i: nat)
    requires i < |names| && url == Passed(was, "&" + names[i] + "=").0
    ensures
      var p, more := "&" + names[i] + "=", NamePatterns(names[i + 1..]);
      PassedAll(was, NamePatterns(names[i..])) == (PassedAll(url, more).0, Passed(was, p).1 + PassedAll(url, more).1)
  {
    var p, more := "&" + names[i] + "=", NamePatterns(names[i + 1..]);
    assert names[i..][1..] == names[i + 1..];
    assert NamePatterns(names[i..]) == [p] + more;
    FirstPass(was, p, url, Passed(was, p).1, more);
  }

  lemma JoinThree(a: string, b: string, c: string)
    ensures a + (b + c) == a + b + c
  {
  }

  /** A URL that starts with a pattern keeps all its parameters of that name, wherever they stand. */
  lemma StartExample()
    ensures Passed("&data=1&data=2", "&data") == ("&data=1&data=2", "")
  {
    assert "&data" <= "&data=1&data=2";
  }
}
