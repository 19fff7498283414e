/** The skill-match scorer: the share of an idea's required technologies
    that a builder's declared stack covers, compared case-insensitively and
    as sets. */
module Skill {
  import opened Text
  import opened Numeric
  import opened TechStack

  /** The lower-cased tokens of a raw stack, as a set (`{t.lower() for t in
      normalize_tech_stack(v)}`). */
  function TokenSet(v: StackInput): set<string> {
    set t | t in Normalize(v) :: Lower(t)
  }

  /** Each element of a token set is still a token, and is already lower
      case. */
  lemma TokenSetTokens(v: StackInput)
    ensures forall t :: t in TokenSet(v) ==> IsToken(t) && Lower(t) == t
  {
    LowerTokens(Normalize(v));
  }

  /** Lower-casing a token gives a token, and lower-casing is idempotent. */
  lemma LowerTokens(xs: seq<string>)
    requires forall k :: 0 <= k < |xs| ==> IsToken(xs[k])
    ensures forall u :: u in xs ==> IsToken(Lower(u)) && Lower(Lower(u)) == Lower(u)
  {
    forall u | u in xs ensures IsToken(Lower(u)) && Lower(Lower(u)) == Lower(u) {
      LowerStripCommute(u);
      LowerIdempotent(u);
    }
  }

  /** `compute_skill_match`: |idea ∩ builder| / |idea| over the two token
      sets, and exactly 0 when the idea has no tokens or the sets are
      disjoint. */
  function SkillMatch(idea: StackInput, builder: StackInput): (r: Ratio)
    ensures r.num <= r.den
    ensures r.num == 0 <==> TokenSet(idea) == {} || TokenSet(idea) * TokenSet(builder) == {}
    ensures r.num == 0 ==> r == Zero
    ensures r.num != 0 ==> r.den == |TokenSet(idea)| && r.num == |TokenSet(idea) * TokenSet(builder)|
  {
    var ideaSet := TokenSet(idea);
    var builderSet := TokenSet(builder);
    if ideaSet == {} then Zero
    else
      var matched := ideaSet * builderSet;
      if matched == {} then Zero
      else
        SubsetCard(matched, ideaSet);
        Ratio(|matched|, |ideaSet|)
  }

  lemma {:induction false} SubsetCard<T>(a: set<T>, b: set<T>)
    requires a <= b
    ensures |a| <= |b|
    ensures |a| == |b| ==> a == b
  {
    if a != {} {
      var x :| x in a;
      SubsetCard(a - {x}, b - {x});
    } else if b != {} {
      var y :| y in b;
    }
  }

  /** A full match: the ratio is 1 exactly when the idea names at least one
      technology and the builder covers every one of them. */
  lemma FullMatch(idea: StackInput, builder: StackInput)
    ensures var r := SkillMatch(idea, builder);
            r.num == r.den <==> TokenSet(idea) != {} && TokenSet(idea) <= TokenSet(builder)
  {
    var a, b := TokenSet(idea), TokenSet(builder);
    SubsetCard(a * b, a);
    var r := SkillMatch(idea, builder);
    if a != {} && a <= b {
      assert a * b == a;
    }
    if r.num == r.den {
      assert |a * b| == |a|;
    }
  }

  /** Covering more of the idea never lowers the score: a builder whose
      token set includes another's scores at least as high. */
  lemma MoreSkillsNoLower(idea: StackInput, b1: StackInput, b2: StackInput)
    requires TokenSet(b1) <= TokenSet(b2)
    ensures AtMost(SkillMatch(idea, b1), SkillMatch(idea, b2))
  {
    var a := TokenSet(idea);
    var x, y := SkillMatch(idea, b1), SkillMatch(idea, b2);
    SubsetCard(a * TokenSet(b1), a * TokenSet(b2));
    if x.num != 0 {
      assert y.num != 0 && x.den == y.den;
      MulMono(x.num, y.num, x.den);
    }
  }

  /** A list's raw items, lower-cased, as a set. */
  function LoweredItems(xs: seq<string>): set<string> {
    set x | x in xs :: Lower(x)
  }

  /** The token set of a list is determined by its lower-cased items: each
      token is the non-empty strip of a lower-cased item. */
  lemma TokenSetOfList(xs: seq<string>)
    ensures TokenSet(List(xs)) == set y | y in LoweredItems(xs) && Strip(y) != [] :: Strip(y)
  {
    var lhs := TokenSet(List(xs));
    var rhs := set y | y in LoweredItems(xs) && Strip(y) != [] :: Strip(y);
    forall t | t in lhs ensures t in rhs {
      var u :| u in StripAll(xs) && t == Lower(u);
      StripAllMembers(xs, u);
      var x :| x in xs && Strip(x) != [] && u == Strip(x);
      LowerStripCommute(x);
      assert Lower(x) in LoweredItems(xs);
    }
    forall t | t in rhs ensures t in lhs {
      var y :| y in LoweredItems(xs) && Strip(y) != [] && t == Strip(y);
      var x :| x in xs && y == Lower(x);
      LowerStripCommute(x);
      assert Strip(x) != [];
      StripAllMembers(xs, Strip(x));
    }
  }

  /** The score depends only on the lower-cased items of each list, so
      reordering, repeating or re-casing items of either stack leaves it
      unchanged. */
  lemma SkillMatchSetInvariant(i1: seq<string>, i2: seq<string>, b1: seq<string>, b2: seq<string>)
    requires LoweredItems(i1) == LoweredItems(i2)
    requires LoweredItems(b1) == LoweredItems(b2)
    ensures SkillMatch(List(i1), List(b1)) == SkillMatch(List(i2), List(b2))
  {
    TokenSetOfList(i1);
    TokenSetOfList(i2);
    TokenSetOfList(b1);
    TokenSetOfList(b2);
  }

  /** The distinct items of a list. */
  function Items(xs: seq<string>): set<string> {
    set x | x in xs
  }

  /** Reordering or repeating items (any two lists with the same elements)
      is a special case. */
  lemma SkillMatchSameElements(i1: seq<string>, i2: seq<string>, b1: seq<string>, b2: seq<string>)
    requires Items(i1) == Items(i2)
    requires Items(b1) == Items(b2)
    ensures SkillMatch(List(i1), List(b1)) == SkillMatch(List(i2), List(b2))
  {
    assert LoweredItems(i1) == LoweredItems(i2) by {
      forall t | t in LoweredItems(i1) ensures t in LoweredItems(i2) {
        var x :| x in i1 && t == Lower(x);
        assert x in Items(i2);
      }
      forall t | t in LoweredItems(i2) ensures t in LoweredItems(i1) {
        var x :| x in i2 && t == Lower(x);
        assert x in Items(i1);
      }
    }
    assert LoweredItems(b1) == LoweredItems(b2) by {
      forall t | t in LoweredItems(b1) ensures t in LoweredItems(b2) {
        var x :| x in b1 && t == Lower(x);
        assert x in Items(b2);
      }
      forall t | t in LoweredItems(b2) ensures t in LoweredItems(b1) {
        var x :| x in b2 && t == Lower(x);
        assert x in Items(b1);
      }
    }
    SkillMatchSetInvariant(i1, i2, b1, b2);
  }
}
