/**
  Selectors over a document: what they mean (section 8 of Selectors Level 3), and the matchers that the engine
  compiles them to.

  Nodes are numbered in document order, the document itself being node 0.  Tag names, class names and attribute
  tests are numbers; what a node answers to an attribute test is part of the node.
*/
module Selectors {
  import opened Common

  datatype Node = Node(element: bool, parent: Option<nat>, previous: Option<nat>, tag: nat, classes: set<nat>, attributes: set<nat>)

  type Dom = seq<Node>

  /** Parents come before their children; `previous` is the nearest earlier child of the same parent. */
  predicate Placed(dom: Dom, i: nat)
    requires i < |dom|
  {
    && dom[i].parent.Some? && dom[i].parent.value < i
    && (dom[dom[i].parent.value].element || dom[i].parent.value == 0)
    && (forall j :: (if dom[i].previous.Some? then dom[i].previous.value + 1 else 0) <= j < i ==>
          dom[j].parent != dom[i].parent)
    && (dom[i].previous.Some? ==>
          dom[i].previous.value < i && dom[dom[i].previous.value].parent == dom[i].parent)
  }

  predicate WellFormed(dom: Dom) {
    && |dom| > 0 && !dom[0].element && dom[0].parent.None? && dom[0].previous.None?
    && (forall i :: 0 < i < |dom| ==> Placed(dom, i))
  }

  predicate IsElement(dom: Dom, e: nat) {
    e < |dom| && dom[e].element
  }

  // ---------- What selectors mean ----------

  datatype Simple = Universal | Tag(tag: nat) | Class(class_: nat) | Attribute(test: nat)

  datatype Combinator = Descendant | Child | Sibling | Adjacent

  /** A selector as its tokens: compounds of simple selectors, with combinators in between. */
  datatype Token = Filter(simple: Simple) | Relative(combinator: Combinator)

  predicate Holds(node: Node, simple: Simple) {
    match simple
    case Universal => true
    case Tag(tag) => node.tag == tag
    case Class(class_) => class_ in node.classes
    case Attribute(test) => test in node.attributes
  }

  predicate Ancestor(dom: Dom, a: nat, e: nat)
    decreases e
  {
    e < |dom| && dom[e].parent.Some? && dom[e].parent.value < e
    && (dom[e].parent.value == a || Ancestor(dom, a, dom[e].parent.value))
  }

  /** `a` precedes `e` among the children of the same parent. */
  predicate Precedes(dom: Dom, a: nat, e: nat) {
    a < e < |dom| && dom[a].parent.Some? && dom[a].parent == dom[e].parent
  }

  /** The element `a` stands to `e` as the combinator demands. */
  ghost predicate Related(dom: Dom, combinator: Combinator, a: nat, e: nat) {
    IsElement(dom, a) &&
    match combinator
    case Descendant => Ancestor(dom, a, e)
    case Child => e < |dom| && dom[e].parent == Some(a)
    case Sibling => Precedes(dom, a, e)
    case Adjacent => Precedes(dom, a, e) && forall b :: a < b < e && IsElement(dom, b) ==> !Precedes(dom, b, e)
  }

  /** Element `e` is represented by the selector. */
  ghost predicate Represents(dom: Dom, tokens: seq<Token>, e: nat)
    decreases |tokens|
  {
    if tokens == [] then true
    else
      var init := tokens[..|tokens| - 1];
      match tokens[|tokens| - 1]
      case Filter(simple) => e < |dom| && Holds(dom[e], simple) && Represents(dom, init, e)
      case Relative(combinator) => exists a :: Related(dom, combinator, a, e) && Represents(dom, init, a)
  }

  /** A simple selector alone stands for all nodes, those with the tag, those of the class, or those passing the test. */
  lemma SimpleMeaning(dom: Dom, n: nat, e: nat)
    requires e < |dom|
    ensures Represents(dom, [Filter(Universal)], e)
    ensures Represents(dom, [Filter(Tag(n))], e) <==> dom[e].tag == n
    ensures Represents(dom, [Filter(Class(n))], e) <==> n in dom[e].classes
    ensures Represents(dom, [Filter(Attribute(n))], e) <==> n in dom[e].attributes
  {
    assert forall token: Token :: [token][..0] == [];
  }

  /** A compound stands for what all its parts stand for; a combinator asks for a related element that fits before it. */
  lemma CompoundMeaning(dom: Dom, tokens: seq<Token>, simple: Simple, combinator: Combinator, e: nat)
    requires e < |dom|
    ensures Represents(dom, tokens + [Filter(simple)], e) <==> Represents(dom, [Filter(simple)], e) && Represents(dom, tokens, e)
    ensures Represents(dom, tokens + [Relative(combinator)], e) <==>
            exists a :: Related(dom, combinator, a, e) && Represents(dom, tokens, a)
  {
    assert (tokens + [Filter(simple)])[..|tokens|] == tokens && (tokens + [Relative(combinator)])[..|tokens|] == tokens;
    assert [Filter(simple)][..0] == [];
  }

  /** The last of the elements from `a` on that precede `e`. */
  lemma {:induction false} AdjacentFrom(dom: Dom, a: nat, e: nat) returns (b: nat)
    requires Related(dom, Sibling, a, e)
    ensures Related(dom, Adjacent, b, e) && (b == a || Related(dom, Sibling, a, b))
    decreases e - a
  {
    if c :| a < c < e && IsElement(dom, c) && Precedes(dom, c, e) {
      b := AdjacentFrom(dom, c, e);
    } else {
      b := a;
    }
  }

  /**
    A child's parent is the one node it hangs under, and an adjacent element is one of the same parent with no element
    between.  The other two combinators are what comes from repeating these.
  */
  lemma CombinatorMeaning(dom: Dom, a: nat, e: nat)
    requires WellFormed(dom) && e < |dom|
    ensures Related(dom, Child, a, e) <==> IsElement(dom, a) && dom[e].parent == Some(a)
    ensures Related(dom, Descendant, a, e) <==>
            Related(dom, Child, a, e) || exists b :: Related(dom, Child, b, e) && Related(dom, Descendant, a, b)
    ensures Related(dom, Adjacent, a, e) ==> dom[a].parent == dom[e].parent && a < e
    ensures forall b :: Related(dom, Adjacent, a, e) && Related(dom, Adjacent, b, e) ==> a == b
    ensures Related(dom, Sibling, a, e) <==>
            Related(dom, Adjacent, a, e) || exists b :: Related(dom, Adjacent, b, e) && Related(dom, Sibling, a, b)
  {
    if e > 0 {
      assert Placed(dom, e);
      if Related(dom, Descendant, a, e) && dom[e].parent != Some(a) {
        assert Ancestor(dom, a, dom[e].parent.value);
        assert Related(dom, Child, dom[e].parent.value, e);
      }
    }
    if Related(dom, Sibling, a, e) {
      var b := AdjacentFrom(dom, a, e);
    }
  }

  // ---------- Compiled matchers ----------

  /** The closures built by `matcherFromTokens`; the first one, for the context, accepts all when that is the document. */
  datatype Matcher = Context | Test(simple: Simple) | Combined(inner: seq<Matcher>, combinator: Combinator, doneName: nat)

  /** What a compiled matcher is to answer. */
  ghost predicate MatchesAll(dom: Dom, matchers: seq<Matcher>, e: nat)
    decreases matchers
  {
    forall i :: 0 <= i < |matchers| ==> Matches(dom, matchers[i], e)
  }

  ghost predicate Matches(dom: Dom, matcher: Matcher, e: nat)
    decreases matcher
  {
    match matcher
    case Context => true
    case Test(simple) => e < |dom| && Holds(dom[e], simple)
    case Combined(inner, combinator, _) => exists a :: Related(dom, combinator, a, e) && MatchesAll(dom, inner, a)
  }

  /** The matchers for a selector, its combinators being named from `doneName` on. */
  function Compile(tokens: seq<Token>, doneName: nat): seq<Matcher>
    decreases |tokens|
  {
    if tokens == [] then [Context]
    else
      var init := tokens[..|tokens| - 1];
      match tokens[|tokens| - 1]
      case Filter(simple) => Compile(init, doneName) + [Test(simple)]
      case Relative(combinator) => [Combined(Compile(init, doneName), combinator, doneName + Combinators(init))]
  }

  function Combinators(tokens: seq<Token>): nat {
    if tokens == [] then 0
    else Combinators(tokens[..|tokens| - 1]) + if tokens[|tokens| - 1].Relative? then 1 else 0
  }

  lemma {:induction false} MatchesAppend(dom: Dom, matchers: seq<Matcher>, matcher: Matcher, e: nat)
    ensures MatchesAll(dom, matchers + [matcher], e) <==> MatchesAll(dom, matchers, e) && Matches(dom, matcher, e)
  {
    var all := matchers + [matcher];
    assert all[|matchers|] == matcher;
    assert forall i :: 0 <= i < |matchers| ==> all[i] == matchers[i];
  }

  /** The compiled matcher accepts exactly the elements the selector represents. */
  lemma {:induction false} CompileCorrect(dom: Dom, tokens: seq<Token>, doneName: nat, e: nat)
    ensures MatchesAll(dom, Compile(tokens, doneName), e) <==> Represents(dom, tokens, e)
    decreases |tokens|
  {
    if tokens != [] {
      var init := tokens[..|tokens| - 1];
      match tokens[|tokens| - 1]
      case Filter(simple) =>
        CompileCorrect(dom, init, doneName, e);
        MatchesAppend(dom, Compile(init, doneName), Test(simple), e);
      case Relative(combinator) =>
        forall a: nat ensures MatchesAll(dom, Compile(init, doneName), a) <==> Represents(dom, init, a) {
          CompileCorrect(dom, init, doneName, a);
        }
        var compiled := Compile(tokens, doneName);
        assert MatchesAll(dom, compiled, e) <==> Matches(dom, compiled[0], e);
    }
  }

  // ---------- The uncached search along a direction ----------

  datatype Direction = ParentNode | PreviousSibling

  function DirectionOf(combinator: Combinator): Direction {
    if combinator.Descendant? || combinator.Child? then ParentNode else PreviousSibling
  }

  /** Does the combinator look at the nearest element only? */
  predicate First(combinator: Combinator) {
    combinator.Child? || combinator.Adjacent?
  }

  function Next(dom: Dom, dir: Direction, e: nat): Option<nat>
    requires e < |dom|
  {
    if dir.ParentNode? then dom[e].parent else dom[e].previous
  }

  lemma {:induction false} NextDecreases(dom: Dom, dir: Direction, e: nat)
    requires WellFormed(dom) && e < |dom|
    ensures Next(dom, dir, e).Some? ==> Next(dom, dir, e).value < e
  {
    assert e > 0 ==> Placed(dom, e);
  }

  /** Some element met on the way from `e` is accepted. */
  ghost predicate Found(dom: Dom, dir: Direction, inner: seq<Matcher>, e: nat)
    requires WellFormed(dom) && e < |dom|
    decreases e, 0
  {
    NextDecreases(dom, dir, e);
    Next(dom, dir, e).Some? && FoundFrom(dom, dir, inner, Next(dom, dir, e).value)
  }

  /** The same, starting with `x` itself. */
  ghost predicate FoundFrom(dom: Dom, dir: Direction, inner: seq<Matcher>, x: nat)
    requires WellFormed(dom) && x < |dom|
    decreases x, 1
  {
    (dom[x].element && MatchesAll(dom, inner, x)) || Found(dom, dir, inner, x)
  }

  /** Following `previous` from `e` meets exactly the nodes that precede it. */
  lemma {:induction false} PrecedesSteps(dom: Dom, a: nat, e: nat)
    requires WellFormed(dom) && e < |dom|
    ensures Precedes(dom, a, e) <==>
              dom[e].previous.Some? && (a == dom[e].previous.value || Precedes(dom, a, dom[e].previous.value))
  {
    assert e > 0 ==> Placed(dom, e);
  }

  /** One step along the direction of a combinator that looks further than the nearest element. */
  lemma {:induction false} RelatedSteps(dom: Dom, combinator: Combinator, a: nat, e: nat)
    requires WellFormed(dom) && e < |dom| && !First(combinator)
    ensures var next := Next(dom, DirectionOf(combinator), e);
            Related(dom, combinator, a, e) <==>
              next.Some? && IsElement(dom, a) && (a == next.value || Related(dom, combinator, a, next.value))
  {
    assert e > 0 ==> Placed(dom, e);
    if combinator.Sibling? { PrecedesSteps(dom, a, e); }
  }

  lemma {:induction false} FoundIsRelated(dom: Dom, combinator: Combinator, inner: seq<Matcher>, e: nat)
    requires WellFormed(dom) && e < |dom| && !First(combinator)
    ensures Found(dom, DirectionOf(combinator), inner, e)
            <==> exists a :: Related(dom, combinator, a, e) && MatchesAll(dom, inner, a)
    decreases e
  {
    var next := Next(dom, DirectionOf(combinator), e);
    NextDecreases(dom, DirectionOf(combinator), e);
    forall a: nat ensures Related(dom, combinator, a, e) <==>
      next.Some? && IsElement(dom, a) && (a == next.value || Related(dom, combinator, a, next.value))
    {
      RelatedSteps(dom, combinator, a, e);
    }
    if next.Some? {
      FoundIsRelated(dom, combinator, inner, next.value);
      if IsElement(dom, next.value) && MatchesAll(dom, inner, next.value) {
        assert Related(dom, combinator, next.value, e);
      }
      assert (exists a :: Related(dom, combinator, a, e) && MatchesAll(dom, inner, a))
        <==> (IsElement(dom, next.value) && MatchesAll(dom, inner, next.value))
             || exists a :: Related(dom, combinator, a, next.value) && MatchesAll(dom, inner, a);
    }
  }

  /** The nearest element along the direction, if there is one. */
  function Nearest(dom: Dom, dir: Direction, e: nat): (a: Option<nat>)
    requires WellFormed(dom) && e < |dom|
    ensures a.Some? ==> a.value < e && IsElement(dom, a.value)
    decreases e
  {
    NextDecreases(dom, dir, e);
    var next := Next(dom, dir, e);
    if next.None? then None else if dom[next.value].element then next else Nearest(dom, dir, next.value)
  }

  /** A child or adjacent combinator relates an element to the nearest one only. */
  lemma {:induction false} NearestIsRelated(dom: Dom, combinator: Combinator, a: nat, e: nat)
    requires WellFormed(dom) && e < |dom| && First(combinator)
    ensures Related(dom, combinator, a, e) <==> Nearest(dom, DirectionOf(combinator), e) == Some(a)
    decreases e
  {
    var next := Next(dom, DirectionOf(combinator), e);
    NextDecreases(dom, DirectionOf(combinator), e);
    assert e > 0 ==> Placed(dom, e);
    if combinator.Adjacent? {
      PrecedesSteps(dom, a, e);
      if next.Some? && !dom[next.value].element {
        NearestIsRelated(dom, combinator, a, next.value);
        forall b ensures Precedes(dom, b, e) <==> b == next.value || Precedes(dom, b, next.value) {
          PrecedesSteps(dom, b, e);
        }
      }
    } else if next.Some? && next.value == 0 {
      assert Nearest(dom, ParentNode, 0).None?;
    }
  }

  lemma {:induction false} NearestDecides(dom: Dom, combinator: Combinator, inner: seq<Matcher>, e: nat)
    requires WellFormed(dom) && e < |dom| && First(combinator)
    ensures var a := Nearest(dom, DirectionOf(combinator), e);
            (a.Some? && MatchesAll(dom, inner, a.value))
            <==> exists a :: Related(dom, combinator, a, e) && MatchesAll(dom, inner, a)
  {
    var nearest := Nearest(dom, DirectionOf(combinator), e);
    forall a: nat ensures Related(dom, combinator, a, e) <==> nearest == Some(a) {
      NearestIsRelated(dom, combinator, a, e);
    }
    if nearest.Some? { assert Related(dom, combinator, nearest.value, e); }
  }
}
