/**
  The engine that runs compiled matchers over the nodes.  A search along all ancestors or all previous siblings
  leaves one cache record on every element it visits; the record is shared by them and completed at the end.
*/
module SelectorEngines {
  import opened Common
  import opened Selectors

  /** The array `[dirruns, doneName, result]`; only the result is written after it is made. */
  class CacheRecord {
    const run: nat
    const doneName: nat
    var result: bool

    constructor (run: nat, doneName: nat)
      ensures this.run == run && this.doneName == doneName && !result
    {
      this.run, this.doneName, result := run, doneName, false;
    }
  }

  /** A place for a record: an element and the direction that serves as the key. */
  type Slot = (nat, Direction)

  datatype Entry = Entry(run: nat, doneName: nat, result: bool)

  type Snapshot = map<Slot, Entry>

  // ---------- What the caches may hold ----------

  /** As compiled: only the first matcher is a combinator's, and no name is used twice. */
  predicate Chain(matchers: seq<Matcher>) {
    && (forall i :: 0 < i < |matchers| ==> !matchers[i].Combined?)
    && (matchers != [] && matchers[0].Combined? ==>
          Chain(matchers[0].inner) && matchers[0].doneName !in Names(matchers[0].inner))
  }

  function Names(matchers: seq<Matcher>): set<nat> {
    if matchers == [] || !matchers[0].Combined? then {}
    else {matchers[0].doneName} + Names(matchers[0].inner)
  }

  /** Every record of this run that a combinator of these matchers will look at holds the answer of the uncached search. */
  ghost predicate Right(dom: Dom, cache: Snapshot, run: nat, matchers: seq<Matcher>)
    requires WellFormed(dom)
  {
    matchers != [] && matchers[0].Combined? ==>
      var m := matchers[0];
      && Right(dom, cache, run, m.inner)
      && (!First(m.combinator) ==> RightFor(dom, cache, run, m.inner, DirectionOf(m.combinator), m.doneName))
  }

  ghost predicate RightFor(dom: Dom, cache: Snapshot, run: nat, inner: seq<Matcher>, dir: Direction, doneName: nat)
    requires WellFormed(dom)
  {
    forall x: nat :: x < |dom| && (x, dir) in cache && cache[(x, dir)].run == run && cache[(x, dir)].doneName == doneName ==>
      cache[(x, dir)].result == FoundFrom(dom, dir, inner, x)
  }

  /** The entries under the given names are among those there were before. */
  predicate NoneNew(cache: Snapshot, cache': Snapshot, names: set<nat>) {
    forall k :: k in cache' && cache'[k].doneName in names ==> k in cache && cache[k] == cache'[k]
  }

  lemma {:induction false} RightKept(dom: Dom, cache: Snapshot, cache': Snapshot, run: nat, matchers: seq<Matcher>)
    requires WellFormed(dom) && Right(dom, cache, run, matchers) && NoneNew(cache, cache', Names(matchers))
    ensures Right(dom, cache', run, matchers)
  {
    if matchers != [] && matchers[0].Combined? {
      RightKept(dom, cache, cache', run, matchers[0].inner);
    }
  }

  /** At the start of a run no record is of that run, and any matchers may be used. */
  lemma {:induction false} RightAtStart(dom: Dom, cache: Snapshot, run: nat, matchers: seq<Matcher>)
    requires WellFormed(dom) && forall k :: k in cache ==> cache[k].run != run
    ensures Right(dom, cache, run, matchers)
  {
    if matchers != [] && matchers[0].Combined? {
      RightAtStart(dom, cache, run, matchers[0].inner);
    }
  }

  /** Compiled matchers are chains, with names from the given one on. */
  lemma {:induction false} CompileChain(tokens: seq<Token>, doneName: nat)
    ensures Chain(Compile(tokens, doneName)) && Compile(tokens, doneName) != []
    ensures forall d :: d in Names(Compile(tokens, doneName)) ==> doneName <= d < doneName + Combinators(tokens)
    decreases |tokens|
  {
    if tokens != [] {
      var init := tokens[..|tokens| - 1];
      CompileChain(init, doneName);
      if tokens[|tokens| - 1].Filter? {
        assert Compile(tokens, doneName)[0] == Compile(init, doneName)[0];
        assert Names(Compile(tokens, doneName)) == Names(Compile(init, doneName));
      } else {
        assert Names(Compile(tokens, doneName)) == {doneName + Combinators(init)} + Names(Compile(init, doneName));
      }
    }
  }

  /** The elements a run is to collect: those accepted by one of the matchers, in the order they come. */
  ghost predicate Accepts(dom: Dom, groups: seq<seq<Matcher>>, e: nat) {
    exists j :: 0 <= j < |groups| && MatchesAll(dom, groups[j], e)
  }

  /** The accepted elements among the given ones, once each and in the same order. */
  ghost predicate Collected(dom: Dom, groups: seq<seq<Matcher>>, elems: seq<nat>, results: seq<nat>) {
    && Increasing(results)
    && forall e :: e in results <==> e in elems && Accepts(dom, groups, e)
  }

  predicate Increasing(s: seq<nat>) {
    forall i, j :: 0 <= i < j < |s| ==> s[i] < s[j]
  }

  /** No two groups share a name. */
  predicate Disjoint(groups: seq<seq<Matcher>>) {
    forall i, j :: 0 <= i < j < |groups| ==> Names(groups[i]) !! Names(groups[j])
  }

  /** One of the selectors represents the element. */
  ghost predicate InGroup(dom: Dom, group: seq<seq<Token>>, e: nat) {
    exists k :: 0 <= k < |group| && Represents(dom, group[k], e)
  }

  /** The results of a selector group: exactly the elements it represents, once each, in document order. */
  ghost predicate IsSelection(dom: Dom, group: seq<seq<Token>>, results: seq<nat>) {
    && Increasing(results)
    && forall e :: e in results <==> IsElement(dom, e) && InGroup(dom, group, e)
  }

  /** There is one such list. */
  lemma {:induction false} SelectionIsUnique(dom: Dom, group: seq<seq<Token>>, results: seq<nat>, others: seq<nat>)
    requires IsSelection(dom, group, results) && IsSelection(dom, group, others)
    ensures results == others
  {
    forall e ensures e in results <==> e in others {
    }
    SameIncreasing(results, others);
  }

  lemma {:induction false} SameIncreasing(s: seq<nat>, t: seq<nat>)
    requires Increasing(s) && Increasing(t) && forall e :: e in s <==> e in t
    ensures s == t
    decreases |s|
  {
    if s != [] { assert s[0] in s && s[0] in t; }
    if t != [] { assert t[0] in t && t[0] in s; }
    if s != [] && t != [] {
      FirstLeast(s, t[0]);
      FirstLeast(t, s[0]);
      forall e ensures e in s[1..] <==> e in t[1..] {
        InRest(s, e);
        InRest(t, e);
      }
      SameIncreasing(s[1..], t[1..]);
      assert s == [s[0]] + s[1..] && t == [t[0]] + t[1..];
    }
  }

  lemma FirstLeast(s: seq<nat>, e: nat)
    requires Increasing(s) && e in s
    ensures s[0] <= e
  {
    var i :| 0 <= i < |s| && s[i] == e;
  }

  lemma {:induction false} InRest(s: seq<nat>, e: nat)
    requires Increasing(s) && s != []
    ensures e in s[1..] <==> e in s && e != s[0]
  {
  }

  lemma {:induction false} OneSelector(dom: Dom, tokens: seq<Token>, results: seq<nat>)
    requires Increasing(results)
    requires forall e: nat :: e in results <==> IsElement(dom, e) && Represents(dom, tokens, e)
    ensures IsSelection(dom, [tokens], results)
  {
    forall e: nat ensures InGroup(dom, [tokens], e) <==> Represents(dom, tokens, e) {
      assert [tokens][0] == tokens;
    }
  }

  // ---------- Seeds ----------

  /** `getElementsByTagName` and `getElementsByClassName` find elements; attribute tests have no such method. */
  predicate HasFinder(simple: Simple) {
    !simple.Attribute?
  }

  function FindBelow(dom: Dom, simple: Simple, n: nat): seq<nat>
    requires n <= |dom|
  {
    if n == 0 then []
    else FindBelow(dom, simple, n - 1) + if dom[n - 1].element && Holds(dom[n - 1], simple) then [n - 1] else []
  }

  function Find(dom: Dom, simple: Simple): seq<nat> {
    FindBelow(dom, simple, |dom|)
  }

  lemma {:induction false} FindsAll(dom: Dom, simple: Simple, n: nat)
    requires n <= |dom|
    ensures Increasing(FindBelow(dom, simple, n))
    ensures forall i :: 0 <= i < |FindBelow(dom, simple, n)| ==> FindBelow(dom, simple, n)[i] < n
    ensures forall e: nat :: e in FindBelow(dom, simple, n) <==> e < n && dom[e].element && Holds(dom[e], simple)
  {
    if n > 0 {
      FindsAll(dom, simple, n - 1);
      var found := FindBelow(dom, simple, n - 1);
      forall k | 0 <= k < |found| ensures found[k] < n - 1 { assert found[k] in found; }
    }
  }

  /** A simple selector of the last compound may be tested first, on its own. */
  lemma {:induction false} SeedSplits(dom: Dom, tokens: seq<Token>, i: nat, e: nat)
    requires i < |tokens| && tokens[i].Filter? && forall k :: i < k < |tokens| ==> tokens[k].Filter?
    requires e < |dom|
    ensures Represents(dom, tokens, e) <==>
              Holds(dom[e], tokens[i].simple) && Represents(dom, tokens[..i] + tokens[i + 1..], e)
    decreases |tokens|
  {
    var n, rest := |tokens| - 1, tokens[..i] + tokens[i + 1..];
    if i < n {
      var init := tokens[..n];
      SeedSplits(dom, init, i, e);
      assert rest[..|rest| - 1] == init[..i] + init[i + 1..];
      assert rest[|rest| - 1] == tokens[n];
    } else {
      assert rest == tokens[..n];
    }
  }

  /** The selectors of the standard's grammar start with a simple selector, not with a combinator. */
  predicate Absolute(tokens: seq<Token>) {
    tokens != [] && tokens[0].Filter?
  }

  class Engine {
    const dom: Dom
    var dirruns: nat
    var done: nat
    var cache: map<Slot, CacheRecord>

    ghost function Snap(): Snapshot
      reads this, cache.Values
    {
      map k | k in cache :: Entry(cache[k].run, cache[k].doneName, cache[k].result)
    }

    /** No record is of a later run. */
    ghost predicate Valid()
      reads this, cache.Values
    {
      WellFormed(dom) && forall k :: k in cache ==> cache[k].run <= dirruns
    }

    constructor (dom: Dom)
      requires WellFormed(dom)
      ensures Valid() && this.dom == dom && cache == map[]
    {
      this.dom, dirruns, done, cache := dom, 0, 0, map[];
    }

    /** The only slots changed hold new records, of this run and under the given names. */
    twostate predicate Grown(names: set<nat>)
      reads this, cache.Values
    {
      && dirruns == old(dirruns)
      && (forall k :: k in cache ==> cache[k].run <= dirruns)
      && (forall k :: k in cache ==>
            || (k in old(cache) && cache[k] == old(cache)[k])
            || (fresh(cache[k]) && cache[k].doneName in names))
    }

    /** `elementMatcher`: all matchers, from the last to the first. */
    method Match(matchers: seq<Matcher>, e: nat) returns (accepted: bool)
      requires Valid() && e < |dom| && Chain(matchers) && Right(dom, Snap(), dirruns, matchers)
      modifies this`cache
      ensures accepted == MatchesAll(dom, matchers, e)
      ensures Right(dom, Snap(), dirruns, matchers) && Grown(Names(matchers))
      decreases matchers, 0
    {
      var i := |matchers|;
      while i > 1
        invariant 0 <= i <= |matchers|
        invariant forall j :: i <= j < |matchers| ==> Matches(dom, matchers[j], e)
        invariant cache == old(cache)
      {
        i := i - 1;
        var holds := matchers[i].Context? || Holds(dom[e], matchers[i].simple);
        if !holds {
          assert !Matches(dom, matchers[i], e);
          return false;
        }
      }
      if matchers == [] {
        return true;
      }
      match matchers[0]
      case Context => accepted := true;
      case Test(simple) => accepted := Holds(dom[e], simple);
      case Combined(inner, combinator, doneName) =>
        if First(combinator) {
          accepted := MatchNearest(inner, DirectionOf(combinator), e);
          NearestDecides(dom, combinator, inner, e);
        } else {
          accepted := Search(inner, DirectionOf(combinator), doneName, e);
          FoundIsRelated(dom, combinator, inner, e);
        }
        assert accepted == Matches(dom, matchers[0], e);
    }

    /** The closure of a child or adjacent combinator. */
    method MatchNearest(inner: seq<Matcher>, dir: Direction, e: nat) returns (accepted: bool)
      requires Valid() && e < |dom| && Chain(inner) && Right(dom, Snap(), dirruns, inner)
      modifies this`cache
      ensures accepted <==> Nearest(dom, dir, e).Some? && MatchesAll(dom, inner, Nearest(dom, dir, e).value)
      ensures Right(dom, Snap(), dirruns, inner) && Grown(Names(inner))
      decreases inner, 1
    {
      var x: nat := e;
      while Next(dom, dir, x).Some?
        invariant x < |dom| && Nearest(dom, dir, x) == Nearest(dom, dir, e)
        invariant cache == old(cache)
        decreases x
      {
        NextDecreases(dom, dir, x);
        x := Next(dom, dir, x).value;
        if dom[x].element {
          accepted := Match(inner, x);
          return;
        }
      }
      accepted := false;
    }

    /** The record stands only on the elements visited so far. */
    ghost predicate OnVisited(dir: Direction, record: CacheRecord, visited: set<nat>)
      reads this
    {
      forall k :: k in cache && cache[k] == record ==> k.1 == dir && k.0 in visited
    }

    /** All other records of the search are right. */
    ghost predicate OthersRight(inner: seq<Matcher>, dir: Direction, doneName: nat, record: CacheRecord)
      requires WellFormed(dom)
      reads this, cache.Values
    {
      forall x: nat :: x < |dom| && (x, dir) in cache && cache[(x, dir)] != record
                       && cache[(x, dir)].run == dirruns && cache[(x, dir)].doneName == doneName ==>
        cache[(x, dir)].result == FoundFrom(dom, dir, inner, x)
    }

    /** Put the record on an element, where it says nothing yet. */
    method Place(inner: seq<Matcher>, dir: Direction, x: nat, record: CacheRecord)
      requires Valid() && x < |dom| && Right(dom, Snap(), dirruns, inner) && record.doneName !in Names(inner)
      requires record.run <= dirruns && OthersRight(inner, dir, record.doneName, record)
      modifies this`cache
      ensures cache == old(cache)[(x, dir) := record]
      ensures Valid() && Right(dom, Snap(), dirruns, inner) && OthersRight(inner, dir, record.doneName, record)
    {
      ghost var before := Snap();
      cache := cache[(x, dir) := record];
      RightKept(dom, before, Snap(), dirruns, inner);
    }

    /** Write the answer into the record. */
    method Complete(inner: seq<Matcher>, dir: Direction, record: CacheRecord, answer: bool)
      requires Valid() && Right(dom, Snap(), dirruns, inner) && record.doneName !in Names(inner)
      requires OthersRight(inner, dir, record.doneName, record)
      modifies record
      ensures record.result == answer
      ensures Valid() && Right(dom, Snap(), dirruns, inner) && OthersRight(inner, dir, record.doneName, record)
    {
      ghost var before := Snap();
      record.result := answer;
      RightKept(dom, before, Snap(), dirruns, inner);
    }

    /** Visit an element: put the record on it, ask the inner matchers, and write their answer down. */
    method Visit(inner: seq<Matcher>, dir: Direction, x: nat, record: CacheRecord, ghost visited: set<nat>)
      returns (accepted: bool)
      requires Valid() && x < |dom| && Chain(inner) && Right(dom, Snap(), dirruns, inner)
      requires record.run == dirruns && record.doneName !in Names(inner)
      requires OnVisited(dir, record, visited) && OthersRight(inner, dir, record.doneName, record)
      modifies this`cache, record
      ensures accepted == MatchesAll(dom, inner, x) == record.result
      ensures Valid() && Right(dom, Snap(), dirruns, inner)
      ensures OnVisited(dir, record, visited + {x}) && OthersRight(inner, dir, record.doneName, record)
      ensures forall k :: k in cache ==>
                || (k in old(cache) && cache[k] == old(cache)[k]) || cache[k] == record
                || (fresh(cache[k]) && cache[k].doneName in Names(inner))
      decreases inner, 1
    {
      Place(inner, dir, x, record);
      assert OnVisited(dir, record, visited + {x});
      label Placed:
      accepted := Match(inner, x);
      assert forall k :: k in cache ==> (k in old@Placed(cache) && cache[k] == old@Placed(cache)[k]) || cache[k] != record;
      Complete(inner, dir, record, accepted);
    }

    /** One node on the way: is the search over, and with which answer? */
    method Pass(inner: seq<Matcher>, dir: Direction, x: nat, record: CacheRecord, ghost visited: set<nat>)
      returns (accepted: bool, over: bool, ghost visited': set<nat>)
      requires Valid() && x < |dom| && Chain(inner) && Right(dom, Snap(), dirruns, inner)
      requires record.run == dirruns && record.doneName !in Names(inner) && !record.result && x !in visited
      requires OnVisited(dir, record, visited) && OthersRight(inner, dir, record.doneName, record)
      modifies this`cache, record
      ensures Valid() && Right(dom, Snap(), dirruns, inner)
      ensures OnVisited(dir, record, visited') && OthersRight(inner, dir, record.doneName, record)
      ensures record.result == accepted && (accepted ==> over) && (visited' == visited || visited' == visited + {x})
      ensures FoundFrom(dom, dir, inner, x) == if over then accepted else Found(dom, dir, inner, x)
      ensures forall k :: k in cache ==>
                || (k in old(cache) && cache[k] == old(cache)[k]) || cache[k] == record
                || (fresh(cache[k]) && cache[k].doneName in Names(inner))
      decreases inner, 2
    {
      accepted, over, visited' := false, false, visited;
      if dom[x].element {
        if (x, dir) in cache && cache[(x, dir)].run == dirruns && cache[(x, dir)].doneName == record.doneName {
          assert cache[(x, dir)] != record;
          accepted, over := cache[(x, dir)].result, true;
          Complete(inner, dir, record, accepted);
        } else {
          accepted := Visit(inner, dir, x, record, visited);
          visited', over := visited + {x}, accepted;
        }
      }
    }

    /**
      The closure of a descendant or sibling combinator: it walks along the direction until an element is accepted
      or has a record of this search, and its answer becomes the answer on all elements visited.
    */
    method Search(inner: seq<Matcher>, dir: Direction, doneName: nat, e: nat) returns (accepted: bool)
      requires Valid() && e < |dom| && Chain(inner) && doneName !in Names(inner)
      requires Right(dom, Snap(), dirruns, inner) && RightFor(dom, Snap(), dirruns, inner, dir, doneName)
      modifies this`cache
      ensures accepted == Found(dom, dir, inner, e)
      ensures Right(dom, Snap(), dirruns, inner) && RightFor(dom, Snap(), dirruns, inner, dir, doneName)
      ensures Grown({doneName} + Names(inner))
      decreases inner, 3
    {
      var newCache := new CacheRecord(dirruns, doneName);
      ghost var answer, visited: set<nat> := Found(dom, dir, inner, e), {};
      var x: nat := e;
      var over := false;
      accepted := false;
      while !over
        invariant x < |dom| && answer == if over then accepted else Found(dom, dir, inner, x)
        invariant forall v :: v in visited ==> x <= v < |dom| && FoundFrom(dom, dir, inner, v) == answer
        invariant newCache.result == accepted && (accepted ==> over)
        invariant OnVisited(dir, newCache, visited) && OthersRight(inner, dir, doneName, newCache)
        invariant Right(dom, Snap(), dirruns, inner) && Grown({doneName} + Names(inner))
        decreases !over, x
      {
        NextDecreases(dom, dir, x);
        var next := Next(dom, dir, x);
        if next.None? {
          over := true;
        } else {
          x := next.value;
          accepted, over, visited := Pass(inner, dir, x, newCache, visited);
        }
      }
    }

    /** Every group may be asked about any element in this run. */
    ghost predicate Ready(groups: seq<seq<Matcher>>)
      reads this, cache.Values
    {
      Valid() && forall j :: 0 <= j < |groups| ==> Chain(groups[j]) && Right(dom, Snap(), dirruns, groups[j])
    }

    /** Ask one group; what the others rely on stays. */
    method Ask(groups: seq<seq<Matcher>>, j: nat, e: nat) returns (accepted: bool)
      requires Ready(groups) && Disjoint(groups) && j < |groups| && e < |dom|
      modifies this`cache
      ensures Ready(groups) && accepted == MatchesAll(dom, groups[j], e)
    {
      ghost var before := Snap();
      accepted := Match(groups[j], e);
      forall k | 0 <= k < |groups| && k != j ensures Right(dom, Snap(), dirruns, groups[k]) {
        assert Names(groups[j]) !! Names(groups[k]);
        RightKept(dom, before, Snap(), dirruns, groups[k]);
      }
    }

    /** The loop of `superMatcher` over the seed, or over all elements, in a run of its own. */
    method SuperMatcher(groups: seq<seq<Matcher>>, elems: seq<nat>) returns (results: seq<nat>)
      requires Valid() && Disjoint(groups) && forall j :: 0 <= j < |groups| ==> Chain(groups[j])
      requires Increasing(elems) && forall i :: 0 <= i < |elems| ==> elems[i] < |dom|
      modifies this`dirruns, this`cache
      ensures Valid() && Collected(dom, groups, elems, results)
    {
      dirruns := dirruns + 1;
      forall j | 0 <= j < |groups| ensures Right(dom, Snap(), dirruns, groups[j]) {
        RightAtStart(dom, Snap(), dirruns, groups[j]);
      }
      results := [];
      for i := 0 to |elems|
        invariant Ready(groups) && Collected(dom, groups, elems[..i], results)
      {
        var elem := elems[i];
        var j := 0;
        var found := false;
        while j < |groups| && !found
          invariant j <= |groups| && Ready(groups)
          invariant found ==> Accepts(dom, groups, elem)
          invariant !found ==> forall k :: 0 <= k < j ==> !MatchesAll(dom, groups[k], elem)
          decreases |groups| - j, !found
        {
          found := Ask(groups, j, elem);
          j := j + 1;
        }
        assert elems[..i + 1] == elems[..i] + [elem];
        forall k | 0 <= k < |results| ensures results[k] < elem {
          assert results[k] in elems[..i];
        }
        if found {
          results := results + [elem];
        }
      }
      assert elems[..|elems|] == elems;
    }

    /** `matcherFromTokens`; the first two names go to the context matchers. */
    method MatcherFromTokens(tokens: seq<Token>) returns (matchers: seq<Matcher>)
      requires Absolute(tokens)
      modifies this`done
      ensures matchers == Compile(tokens, old(done) + 2) && done == old(done) + 2 + Combinators(tokens)
    {
      done := done + 2;
      matchers := [Context];
      for i := 0 to |tokens|
        invariant matchers == Compile(tokens[..i], old(done) + 2)
        invariant done == old(done) + 2 + Combinators(tokens[..i])
      {
        assert tokens[..i + 1][..i] == tokens[..i];
        match tokens[i]
        case Relative(combinator) =>
          matchers := [Combined(matchers, combinator, done)];
          done := done + 1;
        case Filter(simple) =>
          matchers := matchers + [Test(simple)];
      }
      assert tokens[..|tokens|] == tokens;
    }

    /** `Sizzle.select` from the document. */
    method Select(group: seq<seq<Token>>) returns (results: seq<nat>)
      requires Valid() && group != [] && forall tokens :: tokens in group ==> Absolute(tokens)
      modifies this`dirruns, this`done, this`cache
      ensures Valid() && IsSelection(dom, group, results)
    {
      if |group| == 1 {
        var tokens := group[0];
        var i := |tokens|;
        while i > 0 && tokens[i - 1].Filter? && !HasFinder(tokens[i - 1].simple)
          invariant 0 <= i <= |tokens| && forall k :: i <= k < |tokens| ==> tokens[k].Filter?
        {
          i := i - 1;
        }
        if i > 0 && tokens[i - 1].Filter? {
          assert group == [tokens];
          results := SelectFromSeed(tokens, i - 1);
          return;
        }
      }
      results := SelectFromAll(group);
    }

    method SelectFromAll(group: seq<seq<Token>>) returns (results: seq<nat>)
      requires Valid() && forall tokens :: tokens in group ==> Absolute(tokens)
      modifies this`dirruns, this`done, this`cache
      ensures Valid() && IsSelection(dom, group, results)
    {
      var groups := CompileGroup(group);
      var elems := Find(dom, Universal);
      FindsAll(dom, Universal, |dom|);
      results := SuperMatcher(groups, elems);
    }

    /** The elements found by one simple selector of the last compound, filtered by the rest of the selector. */
    method SelectFromSeed(tokens: seq<Token>, i: nat) returns (results: seq<nat>)
      requires Valid() && Absolute(tokens) && i < |tokens| && forall k :: i <= k < |tokens| ==> tokens[k].Filter?
      modifies this`dirruns, this`done, this`cache
      ensures Valid() && IsSelection(dom, [tokens], results)
    {
      var simple, rest := tokens[i].simple, tokens[..i] + tokens[i + 1..];
      var seed := Find(dom, simple);
      FindsAll(dom, simple, |dom|);
      if seed == [] || rest == [] {
        results := seed;
      } else {
        results := FilterSeed(rest, seed);
      }
      forall e: nat ensures e in results <==> IsElement(dom, e) && Represents(dom, tokens, e) {
        if e < |dom| { SeedSplits(dom, tokens, i, e); }
      }
      OneSelector(dom, tokens, results);
    }

    method FilterSeed(rest: seq<Token>, seed: seq<nat>) returns (results: seq<nat>)
      requires Valid() && Absolute(rest) && Increasing(seed) && forall k :: 0 <= k < |seed| ==> seed[k] < |dom|
      modifies this`dirruns, this`done, this`cache
      ensures Valid() && Increasing(results)
      ensures forall e :: e in results <==> e in seed && Represents(dom, rest, e)
    {
      var matchers := MatcherFromTokens(rest);
      ghost var name := done - Combinators(rest);
      CompileChain(rest, name);
      results := SuperMatcher([matchers], seed);
      forall e: nat ensures Accepts(dom, [matchers], e) <==> Represents(dom, rest, e) {
        CompileCorrect(dom, rest, name, e);
        assert [matchers][0] == matchers;
      }
    }

    /** `compile`: the selectors are compiled from the last to the first. */
    method CompileGroup(group: seq<seq<Token>>) returns (groups: seq<seq<Matcher>>)
      requires forall tokens :: tokens in group ==> Absolute(tokens)
      modifies this`done
      ensures Disjoint(groups) && forall j :: 0 <= j < |groups| ==> Chain(groups[j])
      ensures forall e :: Accepts(dom, groups, e) <==> InGroup(dom, group, e)
    {
      groups := [];
      var i := |group|;
      while i > 0
        invariant 0 <= i <= |group| && |groups| == |group| - i
        invariant Disjoint(groups) && forall j :: 0 <= j < |groups| ==> Chain(groups[j])
        invariant forall j, d :: 0 <= j < |groups| && d in Names(groups[j]) ==> d < done
        invariant forall j, e :: 0 <= j < |groups| ==>
                    (MatchesAll(dom, groups[j], e) <==> Represents(dom, group[|group| - 1 - j], e))
      {
        i := i - 1;
        ghost var before := done;
        assert group[i] in group;
        var matchers := MatcherFromTokens(group[i]);
        CompileChain(group[i], before + 2);
        forall e ensures MatchesAll(dom, matchers, e) <==> Represents(dom, group[i], e) {
          CompileCorrect(dom, group[i], before + 2, e);
        }
        groups := groups + [matchers];
      }
      forall e ensures Accepts(dom, groups, e) <==> InGroup(dom, group, e) {
        if k :| 0 <= k < |group| && Represents(dom, group[k], e) {
          assert MatchesAll(dom, groups[|group| - 1 - k], e);
        }
      }
    }
  }
}
