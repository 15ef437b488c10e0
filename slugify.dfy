/** slugify: the chain of string operations that turns a title into a URL
    slug. The input is the text after `normalize('NFD')`; the model starts
    with the removal of the combining marks U+0300..U+036F and keeps every
    later step: lower-casing, trim, whitespace runs to '-', removal of every
    character outside `[A-Za-z0-9_-]`, and '-' runs to one '-'. */
module Slugify {
  import opened Text

  /** A combining diacritical mark, U+0300..U+036F. */
  predicate IsMark(c: char) { '\U{0300}' <= c <= '\U{036F}' }

  /** What `trim` removes and `\s` matches: the ECMAScript WhiteSpace and
      LineTerminator characters. */
  predicate IsSpace(c: char) {
    || c in {' ', '\t', '\n', '\U{000B}', '\U{000C}', '\r', '\U{00A0}', '\U{1680}'}
    || '\U{2000}' <= c <= '\U{200A}'
    || c in {'\U{2028}', '\U{2029}', '\U{202F}', '\U{205F}', '\U{3000}', '\U{FEFF}'}
  }

  /** `\w`. */
  predicate IsWordChar(c: char) { IsDigit(c) || IsAsciiUpper(c) || IsAsciiLower(c) || c == '_' }

  /** `[\w\-]`. */
  predicate IsSlugChar(c: char) { IsWordChar(c) || c == '-' }

  predicate IsDash(c: char) { c == '-' }

  lemma SlugCharsAreNotSpaces()
    ensures forall c :: IsSlugChar(c) ==> !IsSpace(c)
  {
  }

  // ---------------------------------------------------------------- building blocks

  /** The suffix left after dropping every leading character that satisfies `p`. */
  function DropWhile(s: string, p: char -> bool): (r: string)
    ensures |r| <= |s| && r == s[|s| - |r|..]
    ensures r == [] || !p(r[0])
    ensures forall i :: 0 <= i < |s| - |r| ==> p(s[i])
  {
    if s != [] && p(s[0]) then DropWhile(s[1..], p) else s
  }

  /** `trimEnd`: drop trailing whitespace. */
  function TrimEnd(s: string): (r: string)
    ensures |r| <= |s| && r == s[..|r|]
    ensures r == [] || !IsSpace(r[|r| - 1])
    ensures forall i :: |r| <= i < |s| ==> IsSpace(s[i])
  {
    if s != [] && IsSpace(s[|s| - 1]) then TrimEnd(s[..|s| - 1]) else s
  }

  /** `trim`. */
  function Trim(s: string): (r: string)
    ensures r == [] || (!IsSpace(r[0]) && !IsSpace(r[|r| - 1]))
    ensures forall x :: x in r ==> x in s
  {
    var t := DropWhile(s, IsSpace);
    var r := TrimEnd(t);
    assert forall x :: x in r ==> x in t;
    r
  }

  /** `s.replace(/P+/g, c)` for a character class P: each maximal run of
      characters satisfying `p` becomes the single character `c`. */
  function CollapseRuns(s: string, p: char -> bool, c: char): (r: string)
    decreases |s|
    ensures |r| == 0 <==> |s| == 0
    ensures s != [] ==> r[0] == (if p(s[0]) then c else s[0])
  {
    if s == [] then []
    else if p(s[0]) then [c] + CollapseRuns(DropWhile(s[1..], p), p, c)
    else [s[0]] + CollapseRuns(s[1..], p, c)
  }

  /** Every character of the result is the replacement or an input character outside the class. */
  lemma {:induction false} CollapseKeeps(s: string, p: char -> bool, c: char)
    decreases |s|
    ensures forall i :: 0 <= i < |CollapseRuns(s, p, c)| ==>
              CollapseRuns(s, p, c)[i] == c || (CollapseRuns(s, p, c)[i] in s && !p(CollapseRuns(s, p, c)[i]))
  {
    if s != [] {
      var tail := s[1..];
      if p(s[0]) {
        tail := DropWhile(s[1..], p);
      }
      CollapseKeeps(tail, p, c);
      assert forall x :: x in tail ==> x in s;
    }
  }

  /** When the replacement belongs to the class, no two class characters end up adjacent. */
  lemma {:induction false} CollapseSeparates(s: string, p: char -> bool, c: char)
    requires p(c)
    decreases |s|
    ensures forall i :: 0 <= i < |CollapseRuns(s, p, c)| - 1 ==>
              !(p(CollapseRuns(s, p, c)[i]) && p(CollapseRuns(s, p, c)[i + 1]))
  {
    if s != [] {
      if p(s[0]) {
        CollapseSeparates(DropWhile(s[1..], p), p, c);
      } else {
        CollapseSeparates(s[1..], p, c);
      }
    }
  }

  /** `.replace(/[\u0300-\u036f]/g, '')`. */
  function StripMarks(s: string): (r: string)
    ensures forall x :: x in r <==> x in s && !IsMark(x)
  {
    Filter(s, (c: char) => !IsMark(c))
  }

  // ---------------------------------------------------------------- slugify

  /** slugify on the NFD form of its input. */
  function Slugify(s: string): (r: string)
    ensures forall c :: c in r ==> IsSlugChar(c) && !IsAsciiUpper(c) && !IsSpace(c)
    ensures forall i :: 0 <= i < |r| - 1 ==> !(r[i] == '-' && r[i + 1] == '-')
  {
    var lowered := ToLower(StripMarks(s));
    var trimmed := Trim(lowered);
    var dashed := CollapseRuns(trimmed, IsSpace, '-');
    var kept := Filter(dashed, IsSlugChar);
    KeptAreSlugChars(lowered);
    DashedSlugChars(kept);
    CollapseSeparates(kept, IsDash, '-');
    CollapseRuns(kept, IsDash, '-')
  }

  /** Trimming, collapsing whitespace and dropping the characters outside
      the class leave lower-case slug characters. */
  lemma KeptAreSlugChars(lowered: string)
    requires forall i :: 0 <= i < |lowered| ==> !IsAsciiUpper(lowered[i])
    ensures forall x :: x in Filter(CollapseRuns(Trim(lowered), IsSpace, '-'), IsSlugChar) ==> IsSlugChar(x) && !IsAsciiUpper(x)
  {
    assert forall x :: x in Trim(lowered) ==> !IsAsciiUpper(x);
    CollapseKeeps(Trim(lowered), IsSpace, '-');
  }

  /** Collapsing the dash runs of lower-case slug characters leaves
      lower-case slug characters, none of them whitespace. */
  lemma DashedSlugChars(kept: string)
    requires forall x :: x in kept ==> IsSlugChar(x) && !IsAsciiUpper(x)
    ensures forall c :: c in CollapseRuns(kept, IsDash, '-') ==> IsSlugChar(c) && !IsAsciiUpper(c) && !IsSpace(c)
  {
    CollapseKeeps(kept, IsDash, '-');
    SlugCharsAreNotSpaces();
  }

  lemma NoDashPair(r: string)
    requires forall i :: 0 <= i < |r| - 1 ==> !(r[i] == '-' && r[i + 1] == '-')
    ensures !Contains(r, "--")
  {
    forall i | 0 <= i <= |r| - 2
      ensures !OccursAt(r, "--", i)
    {
      assert r[i..i + 2][0] == r[i] && r[i..i + 2][1] == r[i + 1];
    }
  }

  /** The slug never contains "--". */
  lemma NoDoubleDash(s: string)
    ensures !Contains(Slugify(s), "--")
  {
    NoDashPair(Slugify(s));
  }

  // ---------------------------------------------------------------- trim invariance

  predicate AllSpace(s: string) { forall i :: 0 <= i < |s| ==> IsSpace(s[i]) }

  lemma {:induction false} DropSpacesPrefix(ws: string, s: string)
    requires AllSpace(ws)
    ensures DropWhile(ws + s, IsSpace) == DropWhile(s, IsSpace)
  {
    if ws != [] {
      assert (ws + s)[1..] == ws[1..] + s;
      DropSpacesPrefix(ws[1..], s);
    } else {
      assert ws + s == s;
    }
  }

  lemma {:induction false} TrimEndSpacesSuffix(s: string, ws: string)
    requires AllSpace(ws)
    ensures TrimEnd(s + ws) == TrimEnd(s)
  {
    if ws != [] {
      assert (s + ws)[..|s + ws| - 1] == s + ws[..|ws| - 1];
      TrimEndSpacesSuffix(s, ws[..|ws| - 1]);
    } else {
      assert s + ws == s;
    }
  }

  /** Trailing whitespace survives the leading drop unless all is whitespace. */
  lemma {:induction false} DropSpacesSuffix(s: string, ws: string)
    requires AllSpace(ws)
    ensures DropWhile(s + ws, IsSpace) == if DropWhile(s, IsSpace) == [] then [] else DropWhile(s, IsSpace) + ws
  {
    if s == [] {
      DropSpacesPrefix(ws, []);
      assert ws + [] == ws;
    } else if IsSpace(s[0]) {
      assert (s + ws)[1..] == s[1..] + ws;
      DropSpacesSuffix(s[1..], ws);
    }
  }

  lemma TrimIgnoresOuterSpaces(ws1: string, s: string, ws2: string)
    requires AllSpace(ws1) && AllSpace(ws2)
    ensures Trim(ws1 + s + ws2) == Trim(s)
  {
    DropSpacesPrefix(ws1, s + ws2);
    assert ws1 + s + ws2 == ws1 + (s + ws2);
    DropSpacesSuffix(s, ws2);
    var t := DropWhile(s, IsSpace);
    if t != [] {
      TrimEndSpacesSuffix(t, ws2);
    }
  }

  lemma {:induction false} ToLowerAppend(a: string, b: string)
    ensures ToLower(a + b) == ToLower(a) + ToLower(b)
  {
    if a == [] {
      assert a + b == b;
    } else {
      assert (a + b)[0] == a[0] && (a + b)[1..] == a[1..] + b;
      ToLowerAppend(a[1..], b);
    }
  }

  /** The layers around the trim step leave whitespace alone. */
  lemma SpacesPassThrough(ws: string)
    requires AllSpace(ws)
    ensures StripMarks(ws) == ws && ToLower(ws) == ws
  {
    FilterKeepsAll(ws, (c: char) => !IsMark(c));
    assert forall i :: 0 <= i < |ws| ==> !IsLatinUpper(ws[i]) by {
      forall i | 0 <= i < |ws| {
        SpaceIsNotUpper(ws[i]);
      }
    }
  }

  lemma SpaceIsNotUpper(c: char)
    requires IsSpace(c)
    ensures !IsLatinUpper(c)
  {
  }

  /** Leading and trailing whitespace does not change the slug. */
  lemma OuterSpacesIgnored(ws1: string, s: string, ws2: string)
    requires AllSpace(ws1) && AllSpace(ws2)
    ensures Slugify(ws1 + s + ws2) == Slugify(s)
  {
    var keep := (c: char) => !IsMark(c);
    FilterDistributes(ws1 + s, ws2, keep);
    FilterDistributes(ws1, s, keep);
    SpacesPassThrough(ws1);
    SpacesPassThrough(ws2);
    var m := StripMarks(s);
    assert StripMarks(ws1 + s + ws2) == ws1 + m + ws2;
    ToLowerAppend(ws1 + m, ws2);
    ToLowerAppend(ws1, m);
    assert ToLower(ws1 + m + ws2) == ws1 + ToLower(m) + ws2;
    TrimIgnoresOuterSpaces(ws1, ToLower(m), ws2);
  }

  // ---------------------------------------------------------------- idempotence

  /** Collapsing runs of a class that does not occur changes nothing. */
  lemma {:induction false} CollapseAbsent(s: string, p: char -> bool, c: char)
    requires forall i :: 0 <= i < |s| ==> !p(s[i])
    ensures CollapseRuns(s, p, c) == s
  {
    if s != [] {
      CollapseAbsent(s[1..], p, c);
      assert [s[0]] + s[1..] == s;
    }
  }

  /** Collapsing runs of `c` in a string without two `c` in a row changes nothing. */
  lemma {:induction false} CollapseSingles(s: string, p: char -> bool, c: char)
    requires forall i :: 0 <= i < |s| ==> (p(s[i]) ==> s[i] == c)
    requires forall i :: 0 <= i < |s| - 1 ==> !(p(s[i]) && p(s[i + 1]))
    ensures CollapseRuns(s, p, c) == s
  {
    if s != [] {
      CollapseSingles(s[1..], p, c);
      assert [s[0]] + s[1..] == s;
      if p(s[0]) {
        assert s[1..] == [] || !p(s[1..][0]);
        assert DropWhile(s[1..], p) == s[1..];
      }
    }
  }

  /** A string of lower-case slug characters without "--" is its own slug. */
  lemma {:induction false} SlugIsFixed(o: string)
    requires forall i :: 0 <= i < |o| ==> IsSlugChar(o[i]) && !IsAsciiUpper(o[i])
    requires forall i :: 0 <= i < |o| - 1 ==> !(o[i] == '-' && o[i + 1] == '-')
    ensures Slugify(o) == o
  {
    SlugCharsAreNotSpaces();
    assert StripMarks(o) == o by {
      FilterKeepsAll(o, (c: char) => !IsMark(c));
    }
    assert ToLower(o) == o;
    assert Trim(o) == o by {
      assert DropWhile(o, IsSpace) == o;
    }
    assert CollapseRuns(o, IsSpace, '-') == o by {
      CollapseAbsent(o, IsSpace, '-');
    }
    assert Filter(o, IsSlugChar) == o by {
      FilterKeepsAll(o, IsSlugChar);
    }
    CollapseSingles(o, IsDash, '-');
  }

  /** slugify(slugify(s)) = slugify(s). */
  lemma SlugifyIdempotent(s: string)
    ensures Slugify(Slugify(s)) == Slugify(s)
  {
    SlugIsFixed(Slugify(s));
  }
}
