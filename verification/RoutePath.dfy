/**
 Route slugs and route paths. Characters are ASCII here: lower-casing and stripping
 of other alphabets is not part of this model.
 */
module RoutePath {
  import opened Common
  import opened Text

  predicate IsWordChar(c: char) {
    'a' <= c <= 'z' || '0' <= c <= '9'
  }

  predicate IsSpace(c: char) {
    c == ' ' || '\t' <= c <= '\r'
  }

  predicate IsDash(c: char) {
    c == '-'
  }

  function Lower(s: string): string {
    seq(|s|, i requires 0 <= i < |s| => if 'A' <= s[i] <= 'Z' then s[i] + 32 as char else s[i])
  }

  function StripLeft(s: string, drop: char -> bool): string {
    if s != "" && drop(s[0]) then StripLeft(s[1..], drop) else s
  }

  function StripRight(s: string, drop: char -> bool): string {
    if s != "" && drop(s[|s| - 1]) then StripRight(s[..|s| - 1], drop) else s
  }

  /** `str.strip`: drop the given characters from both ends. */
  function Strip(s: string, drop: char -> bool): string {
    StripRight(StripLeft(s, drop), drop)
  }

  /** The first position at or after `i` that holds a word character, or the end. */
  function NextWord(s: string, i: nat): (j: nat)
    requires i <= |s|
    ensures i <= j <= |s| && (j < |s| ==> IsWordChar(s[j]))
    decreases |s| - i
  {
    if i < |s| && !IsWordChar(s[i]) then NextWord(s, i + 1) else i
  }

  /** The first position at or after `i` that does not, or the end. */
  function WordEnd(s: string, i: nat): (j: nat)
    requires i <= |s|
    ensures i <= j <= |s| && (j < |s| ==> !IsWordChar(s[j]))
    decreases |s| - i
  {
    if i < |s| && IsWordChar(s[i]) then WordEnd(s, i + 1) else i
  }

  /** `re.sub("[^a-z0-9]+", "-", s)` from position `i`. */
  function Collapse(s: string, i: nat): string
    requires i <= |s|
    decreases |s| - i
  {
    if i == |s| then ""
    else if IsWordChar(s[i]) then [s[i]] + Collapse(s, i + 1)
    else "-" + Collapse(s, NextWord(s, i))
  }

  /** The slug of a name, or nothing where the source raises `ValueError`. */
  function Slugify(name: string): Option<string> {
    var slug := Strip(Collapse(Lower(Strip(name, IsSpace)), 0), IsDash);
    if slug == "" then None else Some(slug)
  }

  /** `join_taxonomy_route_path`: empty segments are left out. */
  function JoinRoute(slugs: seq<string>): string {
    Join(NonEmpty(slugs), '/')
  }

  function NonEmpty(slugs: seq<string>): seq<string> {
    if slugs == [] then []
    else (if slugs[0] == "" then [] else [slugs[0]]) + NonEmpty(slugs[1..])
  }

  lemma {:induction false} WordIsWord(s: string, i: nat)
    requires i <= |s|
    ensures forall k :: i <= k < WordEnd(s, i) ==> IsWordChar(s[k])
    decreases |s| - i
  {
    if i < |s| && IsWordChar(s[i]) {
      WordIsWord(s, i + 1);
    }
  }

  /** Reference definition: the maximal runs of lower-case letters and digits from `i` on. */
  function Words(s: string, i: nat): (words: seq<string>)
    requires i <= |s|
    ensures forall k :: 0 <= k < |words| ==> words[k] != "" && forall c :: c in words[k] ==> IsWordChar(c)
    decreases |s| - i
  {
    var start := NextWord(s, i);
    WordIsWord(s, start);
    if start == |s| then [] else [s[start..WordEnd(s, start)]] + Words(s, WordEnd(s, start))
  }

  lemma {:induction false} CollapseWord(s: string, i: nat)
    requires i <= |s|
    ensures Collapse(s, i) == s[i..WordEnd(s, i)] + Collapse(s, WordEnd(s, i))
    decreases |s| - i
  {
    var stop := WordEnd(s, i);
    if i < |s| && IsWordChar(s[i]) {
      CollapseWord(s, i + 1);
      var head, tail := s[i + 1..stop], Collapse(s, stop);
      assert s[i..stop] == [s[i]] + head;
      assert [s[i]] + (head + tail) == [s[i]] + head + tail;
    } else {
      assert s[i..stop] == "";
    }
  }

  /** From a word on, collapsing writes the words joined by dashes, and at most one dash after them. */
  lemma {:induction false} CollapseIsJoin(s: string, i: nat)
    requires i < |s| && IsWordChar(s[i])
    ensures Words(s, i) != []
    ensures Collapse(s, i) == Join(Words(s, i), '-') || Collapse(s, i) == Join(Words(s, i), '-') + "-"
    decreases |s| - i
  {
    CollapseWord(s, i);
    var stop := WordEnd(s, i);
    var next := NextWord(s, stop);
    assert NextWord(s, i) == i;
    assert Words(s, i) == [s[i..stop]] + Words(s, stop);
    if stop == |s| {
      assert Words(s, stop) == [];
    } else if next == |s| {
      assert Words(s, stop) == [];
      assert Collapse(s, stop) == "-";
    } else {
      assert Words(s, stop) == Words(s, next);
      CollapseIsJoin(s, next);
      assert Words(s, i)[1..] == Words(s, next);
      assert Collapse(s, stop) == "-" + Collapse(s, next);
    }
  }

  lemma {:induction false} JoinEnds(words: seq<string>, sep: char)
    requires words != []
    requires forall k :: 0 <= k < |words| ==> words[k] != "" && forall c :: c in words[k] ==> IsWordChar(c)
    ensures var j := Join(words, sep); j != "" && IsWordChar(j[0]) && IsWordChar(j[|j| - 1])
    ensures forall c :: c in Join(words, sep) ==> IsWordChar(c) || c == sep
  {
    assert words[0][0] in words[0];
    if |words| == 1 {
      assert words[0][|words[0]| - 1] in words[0];
    } else {
      JoinEnds(words[1..], sep);
    }
  }

  lemma StripDashes(body: string, lead: bool, trail: bool)
    requires body != "" && body[0] != '-' && body[|body| - 1] != '-'
    ensures Strip((if lead then "-" else "") + body + (if trail then "-" else ""), IsDash) == body
  {
    var s := (if lead then "-" else "") + body + (if trail then "-" else "");
    var right := body + (if trail then "-" else "");
    if lead {
      assert s[1..] == right;
    } else {
      assert s == right;
    }
    assert StripLeft(s, IsDash) == right;
    assert StripRight(body, IsDash) == body;
    if trail {
      assert right[..|right| - 1] == body;
      assert right[|right| - 1] == '-';
      assert StripRight(right, IsDash) == StripRight(body, IsDash);
    } else {
      assert right == body;
    }
  }

  lemma NothingButDash()
    ensures Strip("", IsDash) == "" && Strip("-", IsDash) == ""
  {
    assert "-"[1..] == "";
    assert StripLeft("-", IsDash) == "";
  }

  /** Everything before the first word collapses to at most one dash. */
  lemma BeforeFirstWord(s: string, first: nat)
    requires first == NextWord(s, 0) < |s|
    ensures Words(s, 0) == Words(s, first)
    ensures Collapse(s, 0) == (if first != 0 then "-" else "") + Collapse(s, first)
  {
    assert NextWord(s, first) == first;
    assert Collapse(s, 0) == if first != 0 then "-" + Collapse(s, first) else Collapse(s, first);
  }

  lemma StripsToBody(whole: string, lead: bool, tail: string, body: string)
    requires whole == (if lead then "-" else "") + tail && (tail == body || tail == body + "-")
    requires body != "" && body[0] != '-' && body[|body| - 1] != '-'
    ensures Strip(whole, IsDash) == body
  {
    StripDashes(body, lead, tail != body);
    assert whole == (if lead then "-" else "") + body + (if tail != body then "-" else "");
  }

  lemma StrippedIsJoin(s: string, first: nat)
    requires first == NextWord(s, 0) < |s|
    ensures var words := Words(s, 0); words != [] && Strip(Collapse(s, 0), IsDash) == Join(words, '-') != ""
  {
    var words := Words(s, first);
    BeforeFirstWord(s, first);
    CollapseIsJoin(s, first);
    JoinEnds(words, '-');
    StripsToBody(Collapse(s, 0), first != 0, Collapse(s, first), Join(words, '-'));
  }

  /**
   A slug is the words of the name, lower-cased and joined by single dashes; there is no slug
   exactly when the name has no word at all.
   */
  lemma SlugIsWordsJoined(name: string)
    ensures var words := Words(Lower(Strip(name, IsSpace)), 0);
            Slugify(name) == if words == [] then None else Some(Join(words, '-'))
  {
    var s := Lower(Strip(name, IsSpace));
    var words := Words(s, 0);
    var first := NextWord(s, 0);
    if first == |s| {
      assert Collapse(s, 0) == if s == "" then "" else "-";
      NothingButDash();
    } else {
      StrippedIsJoin(s, first);
    }
  }

  ghost predicate IsSlug(s: string) {
    s != "" && '/' !in s
  }

  /** What the tree needs of a slug: it is a non-empty path segment. */
  lemma SlugIsSegment(name: string)
    ensures Slugify(name).Some? ==> IsSlug(Slugify(name).value)
  {
    SlugIsWordsJoined(name);
    var words := Words(Lower(Strip(name, IsSpace)), 0);
    if words != [] {
      JoinEnds(words, '-');
    }
  }

  // ----- slugs and case -----

  lemma {:induction false} LowerThenStripLeft(s: string)
    ensures StripLeft(Lower(s), IsSpace) == Lower(StripLeft(s, IsSpace))
  {
    if s != "" && IsSpace(s[0]) {
      assert Lower(s)[1..] == Lower(s[1..]);
      LowerThenStripLeft(s[1..]);
    }
  }

  lemma {:induction false} LowerThenStripRight(s: string)
    ensures StripRight(Lower(s), IsSpace) == Lower(StripRight(s, IsSpace))
  {
    if s != "" && IsSpace(s[|s| - 1]) {
      assert Lower(s)[..|s| - 1] == Lower(s[..|s| - 1]);
      LowerThenStripRight(s[..|s| - 1]);
    }
  }

  /** Names that differ in case alone have one slug. */
  lemma SlugIgnoresCase(a: string, b: string)
    requires Lower(a) == Lower(b)
    ensures Slugify(a) == Slugify(b)
  {
    LowerThenStripLeft(a);
    LowerThenStripRight(StripLeft(a, IsSpace));
    LowerThenStripLeft(b);
    LowerThenStripRight(StripLeft(b, IsSpace));
  }
}
