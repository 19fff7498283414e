/** String primitives the engine relies on: whitespace stripping, ASCII
    lower-casing, splitting on a separator and substring containment. */
module Text {

  /** The characters a string's `strip()` removes (those whose `isspace()`
      holds): ASCII tab, line feed, vertical tab, form feed, carriage return,
      the four information separators, space, and the Unicode space and line
      separators. */
  predicate IsSpace(c: char) {
    || ('\t' <= c <= '\r')
    || ('\U{1C}' <= c <= ' ')
    || c == '\U{85}' || c == '\U{A0}' || c == '\U{1680}'
    || ('\U{2000}' <= c <= '\U{200A}')
    || c == '\U{2028}' || c == '\U{2029}' || c == '\U{202F}'
    || c == '\U{205F}' || c == '\U{3000}'
  }

  /** The whitespace `strip()` removes includes the ASCII space, tab, line
      feed, vertical tab, form feed and carriage return, and the no-break
      space; no ASCII letter, digit or comma is whitespace. */
  lemma SpaceCharacters(c: char)
    ensures c == ' ' || c == '\t' || c == '\n' || c == '\U{0B}' || c == '\U{0C}' || c == '\r' || c == '\U{A0}'
            ==> IsSpace(c)
    ensures 'a' <= c <= 'z' || 'A' <= c <= 'Z' || '0' <= c <= '9' || c == ',' ==> !IsSpace(c)
  {
  }

  /** Neither end of `s` is whitespace. */
  predicate Trimmed(s: string) {
    s == [] || (!IsSpace(s[0]) && !IsSpace(s[|s| - 1]))
  }

  /** The first index at or after `i` that does not hold whitespace (or `|s|`). */
  function SkipSpaces(s: string, i: nat): (lo: nat)
    requires i <= |s|
    ensures i <= lo <= |s|
    ensures forall k :: i <= k < lo ==> IsSpace(s[k])
    ensures lo < |s| ==> !IsSpace(s[lo])
    decreases |s| - i
  {
    if i < |s| && IsSpace(s[i]) then SkipSpaces(s, i + 1) else i
  }

  /** The end of `s[lo..j]` once trailing whitespace is dropped. */
  function SkipSpacesBack(s: string, lo: nat, j: nat): (hi: nat)
    requires lo <= j <= |s|
    ensures lo <= hi <= j
    ensures forall k :: hi <= k < j ==> IsSpace(s[k])
    ensures hi > lo ==> !IsSpace(s[hi - 1])
    decreases j
  {
    if j > lo && IsSpace(s[j - 1]) then SkipSpacesBack(s, lo, j - 1) else j
  }

  /** `s[lo..hi]` has nothing but whitespace in front of it and behind it. */
  predicate BetweenSpaces(s: string, lo: int, hi: int) {
    && 0 <= lo <= hi <= |s|
    && (forall k :: 0 <= k < lo ==> IsSpace(s[k]))
    && (forall k :: hi <= k < |s| ==> IsSpace(s[k]))
  }

  /** `str.strip()`: `s` with whitespace removed at both ends. The result is
      trimmed and no longer than `s`; `StripSlice` and `StripUnique` say
      which slice of `s` it is. */
  function Strip(s: string): (r: string)
    ensures Trimmed(r) && |r| <= |s|
  {
    var lo := SkipSpaces(s, 0);
    var hi := SkipSpacesBack(s, lo, |s|);
    s[lo..hi]
  }

  /** The strip is the slice of `s` between two all-whitespace margins. */
  lemma StripSlice(s: string)
    ensures exists lo, hi :: BetweenSpaces(s, lo, hi) && Strip(s) == s[lo..hi]
  {
    var lo := SkipSpaces(s, 0);
    var hi := SkipSpacesBack(s, lo, |s|);
    assert BetweenSpaces(s, lo, hi) && Strip(s) == s[lo..hi];
  }

  /** Conversely, a non-empty trimmed slice between two all-whitespace
      margins is the strip: the margins are exactly what `strip()` removes. */
  lemma StripUnique(s: string, lo: nat, hi: nat)
    requires BetweenSpaces(s, lo, hi) && lo < hi && Trimmed(s[lo..hi])
    ensures Strip(s) == s[lo..hi]
  {
    assert !IsSpace(s[lo]) && !IsSpace(s[hi - 1]);
    var lo' := SkipSpaces(s, 0);
    assert lo' == lo;
    var hi' := SkipSpacesBack(s, lo, |s|);
    assert hi' == hi;
  }

  /** A string that already has no whitespace at its ends is its own strip. */
  lemma StripTrimmed(s: string)
    requires Trimmed(s)
    ensures Strip(s) == s
  {
  }

  /** Stripping is idempotent. */
  lemma StripIdempotent(s: string)
    ensures Strip(Strip(s)) == Strip(s)
  {
    StripTrimmed(Strip(s));
  }

  /** ASCII `str.lower()`: upper-case Latin letters become lower-case, every
      other character is kept. */
  function LowerChar(c: char): char {
    if 'A' <= c <= 'Z' then (c as int + 32) as char else c
  }

  function Lower(s: string): (r: string)
    ensures |r| == |s|
  {
    seq(|s|, i requires 0 <= i < |s| => LowerChar(s[i]))
  }

  lemma LowerCharSpace(c: char)
    ensures IsSpace(LowerChar(c)) == IsSpace(c)
  {
  }

  lemma LowerIdempotent(s: string)
    ensures Lower(Lower(s)) == Lower(s)
  {
  }

  lemma {:induction false} LowerSkipSpaces(s: string, i: nat)
    requires i <= |s|
    ensures SkipSpaces(Lower(s), i) == SkipSpaces(s, i)
    decreases |s| - i
  {
    if i < |s| {
      LowerCharSpace(s[i]);
      if IsSpace(s[i]) {
        LowerSkipSpaces(s, i + 1);
      }
    }
  }

  lemma {:induction false} LowerSkipSpacesBack(s: string, lo: nat, j: nat)
    requires lo <= j <= |s|
    ensures SkipSpacesBack(Lower(s), lo, j) == SkipSpacesBack(s, lo, j)
    decreases j
  {
    if j > lo {
      LowerCharSpace(s[j - 1]);
      if IsSpace(s[j - 1]) {
        LowerSkipSpacesBack(s, lo, j - 1);
      }
    }
  }

  /** Lower-casing a slice is slicing the lower-cased string. */
  lemma LowerSlice(s: string, lo: nat, hi: nat)
    requires lo <= hi <= |s|
    ensures Lower(s[lo..hi]) == Lower(s)[lo..hi]
  {
    var t := Lower(s);
    forall k | 0 <= k < hi - lo ensures Lower(s[lo..hi])[k] == t[lo..hi][k] {
      assert t[lo + k] == LowerChar(s[lo + k]);
    }
  }

  /** Lower-casing and stripping commute, since lower-casing maps whitespace
      to whitespace and nothing else to whitespace. */
  lemma LowerStripCommute(s: string)
    ensures Lower(Strip(s)) == Strip(Lower(s))
  {
    var lo := SkipSpaces(s, 0);
    var hi := SkipSpacesBack(s, lo, |s|);
    LowerSkipSpaces(s, 0);
    LowerSkipSpacesBack(s, lo, |s|);
    LowerSlice(s, lo, hi);
  }

  /** Rejoins pieces with the separator between each pair, the inverse of
      `Split`. */
  function Join(pieces: seq<string>, sep: char): string
    requires |pieces| >= 1
  {
    if |pieces| == 1 then pieces[0] else pieces[0] + [sep] + Join(pieces[1..], sep)
  }

  /** `s.split(sep)` for a one-character separator: the maximal pieces between
      separators, always at least one (the empty string splits into [""]).
      No piece contains the separator and joining the pieces gives `s` back. */
  function Split(s: string, sep: char): (r: seq<string>)
    ensures |r| >= 1
    ensures forall k :: 0 <= k < |r| ==> sep !in r[k]
    ensures Join(r, sep) == s
    decreases |s|
  {
    if |s| == 0 then [""]
    else
      var rest := Split(s[1..], sep);
      if s[0] == sep then
        assert [sep] + Join(rest, sep) == s;
        [""] + rest
      else
        var r := [[s[0]] + rest[0]] + rest[1..];
        assert r[1..] == rest[1..];
        assert Join(r, sep) == s by {
          if |rest| == 1 {
          } else {
            assert Join(rest, sep) == rest[0] + [sep] + Join(rest[1..], sep);
          }
        }
        r
  }

  /** The other half of the round trip: splitting a join of separator-free
      pieces gives the pieces back. */
  lemma {:induction false} SplitJoin(pieces: seq<string>, sep: char)
    requires |pieces| >= 1
    requires forall k :: 0 <= k < |pieces| ==> sep !in pieces[k]
    ensures Split(Join(pieces, sep), sep) == pieces
    decreases |pieces|, |pieces[0]|
  {
    var p := pieces[0];
    if |pieces| == 1 {
      if |p| > 0 {
        SplitJoin([p[1..]], sep);
        assert [p[0]] + p[1..] == p;
      }
    } else {
      var tail := Join(pieces[1..], sep);
      if |p| == 0 {
        assert Join(pieces, sep) == [sep] + tail;
        assert ([sep] + tail)[1..] == tail;
        SplitJoin(pieces[1..], sep);
        assert pieces == [""] + pieces[1..];
      } else {
        var shorter := [p[1..]] + pieces[1..];
        assert shorter[1..] == pieces[1..];
        assert Join(shorter, sep) == p[1..] + [sep] + tail;
        assert Join(pieces, sep) == [p[0]] + Join(shorter, sep);
        assert forall k :: 0 <= k < |shorter| ==> sep !in shorter[k] by {
          forall k | 0 <= k < |shorter| ensures sep !in shorter[k] {
            if k == 0 { assert sep !in p; } else { assert shorter[k] == pieces[k]; }
          }
        }
        SplitJoin(shorter, sep);
        assert [p[0]] + p[1..] == p;
        assert pieces == [p] + pieces[1..];
      }
    }
  }

  /** `t` occurs in `s` at index `i`. */
  predicate OccursAt(s: string, t: string, i: int) {
    0 <= i <= |s| - |t| && s[i..i + |t|] == t
  }

  /** `t in s` for strings: `t` occurs in `s` as a contiguous substring. */
  predicate Contains(s: string, t: string)
    ensures |t| == 0 ==> Contains(s, t)
    ensures Contains(s, t) ==> |t| <= |s|
    decreases |s|
  {
    (|t| <= |s| && s[..|t|] == t) || (|s| > 0 && Contains(s[1..], t))
  }

  /** `Contains` agrees with the definition by occurrence index, in both
      directions. */
  lemma {:induction false} ContainsIff(s: string, t: string)
    ensures Contains(s, t) <==> exists i :: OccursAt(s, t, i)
    decreases |s|
  {
    if |t| <= |s| && s[..|t|] == t {
      assert OccursAt(s, t, 0);
    }
    if |s| > 0 {
      ContainsIff(s[1..], t);
      if Contains(s[1..], t) {
        var i :| OccursAt(s[1..], t, i);
        assert OccursAt(s, t, i + 1);
      }
      if i :| OccursAt(s, t, i) {
        if i > 0 {
          assert OccursAt(s[1..], t, i - 1);
        }
      }
    } else {
      if i :| OccursAt(s, t, i) {
        assert s[..|t|] == t;
      }
    }
  }
}
