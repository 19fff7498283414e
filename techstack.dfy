/** The tech-stack normalizer: a raw stack value (comma-separated text, a
    list of strings, or anything else) becomes an ordered list of stripped,
    non-empty tokens. */
module TechStack {
  import opened Text

  /** The shapes a raw tech-stack value can take. */
  datatype StackInput = Text(text: string) | List(items: seq<string>) | Other

  /** A normalized token: non-empty and already stripped. */
  predicate IsToken(t: string) {
    t != [] && Strip(t) == t
  }

  /** The stripped, non-empty items of `xs`, in their order. */
  function StripAll(xs: seq<string>): (r: seq<string>)
    ensures |r| <= |xs|
    ensures forall k :: 0 <= k < |r| ==> IsToken(r[k])
  {
    if xs == [] then []
    else
      var t := Strip(xs[0]);
      StripIdempotent(xs[0]);
      if t != [] then [t] + StripAll(xs[1..]) else StripAll(xs[1..])
  }

  /** `normalize_tech_stack`: a list is stripped item by item, text is first
      split on commas, and any other shape gives no tokens. */
  function Normalize(v: StackInput): (r: seq<string>)
    ensures forall k :: 0 <= k < |r| ==> IsToken(r[k])
    ensures v.List? ==> |r| <= |v.items|
    ensures v.Other? ==> r == []
  {
    match v
    case List(xs) => StripAll(xs)
    case Text(s) => StripAll(Split(s, ','))
    case Other => []
  }

  /** Normalizing text is normalizing the list of its comma-separated pieces,
      and no token taken from text contains a comma. */
  lemma NormalizeText(s: string)
    ensures Normalize(Text(s)) == Normalize(List(Split(s, ',')))
    ensures forall k :: 0 <= k < |Normalize(Text(s))| ==> ',' !in Normalize(Text(s))[k]
  {
    NoSeparatorSurvives(Split(s, ','), ',');
  }

  /** Stripping never introduces a character, so a separator-free list stays
      separator-free. */
  lemma {:induction false} NoSeparatorSurvives(xs: seq<string>, c: char)
    requires forall k :: 0 <= k < |xs| ==> c !in xs[k]
    ensures forall k :: 0 <= k < |StripAll(xs)| ==> c !in StripAll(xs)[k]
  {
    if xs != [] {
      NoSeparatorSurvives(xs[1..], c);
      var x := xs[0];
      var r := Strip(x);
      StripSlice(x);
      var lo, hi :| BetweenSpaces(x, lo, hi) && r == x[lo..hi];
      assert c !in x;
      assert forall j :: 0 <= j < |r| ==> r[j] == x[lo + j];
    }
  }

  /** Order is kept: normalizing a concatenation concatenates the results. */
  lemma {:induction false} StripAllAppend(xs: seq<string>, ys: seq<string>)
    ensures StripAll(xs + ys) == StripAll(xs) + StripAll(ys)
  {
    if xs == [] {
      assert xs + ys == ys;
    } else {
      assert (xs + ys)[1..] == xs[1..] + ys;
      StripAllAppend(xs[1..], ys);
    }
  }

  /** One item contributes its strip, unless that is empty. */
  lemma StripAllSingle(x: string)
    ensures StripAll([x]) == if Strip(x) == [] then [] else [Strip(x)]
  {
  }

  /** A token is in the result exactly when it is the non-empty strip of
      some item of the input. */
  lemma {:induction false} StripAllMembers(xs: seq<string>, t: string)
    ensures t in StripAll(xs) <==> exists x :: x in xs && Strip(x) != [] && t == Strip(x)
  {
    if xs != [] {
      StripAllMembers(xs[1..], t);
      assert xs == [xs[0]] + xs[1..];
      if x :| x in xs && Strip(x) != [] && t == Strip(x) {
        if x != xs[0] {
          assert x in xs[1..];
        }
      }
    }
  }

  /** A list of tokens normalizes to itself. */
  lemma {:induction false} StripAllTokens(xs: seq<string>)
    requires forall k :: 0 <= k < |xs| ==> IsToken(xs[k])
    ensures StripAll(xs) == xs
  {
    if xs != [] {
      StripAllTokens(xs[1..]);
    }
  }

  /** Normalizing is idempotent: an already normalized stack, passed again as
      a list, comes back unchanged. */
  lemma NormalizeIdempotent(v: StackInput)
    ensures Normalize(List(Normalize(v))) == Normalize(v)
  {
    StripAllTokens(Normalize(v));
  }
}
