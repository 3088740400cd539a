/** The slug derived from a recipe title when a recipe is created:
    lowercase the title, replace every run of characters outside
    `a-z`, `0-9` and the Hangul-syllable block U+AC00..U+D7A3 by one `-`,
    then drop one leading and one trailing `-`. */
module Slug {

  /** The characters the slug keeps as they are. */
  predicate Allowed(c: char) {
    ('a' <= c <= 'z') || ('0' <= c <= '9') || ('\U{AC00}' <= c <= '\U{D7A3}')
  }

  /** The characters a slug may contain. */
  predicate SlugChar(c: char) {
    Allowed(c) || c == '-'
  }

  /** Lowercasing, on ASCII letters only: `A`..`Z` move down by 32 code
      points onto `a`..`z`. */
  function LowerChar(c: char): (r: char)
    ensures 'A' <= c <= 'Z' ==> 'a' <= r <= 'z' && r as int == c as int + 32
    ensures !('A' <= c <= 'Z') ==> r == c
  {
    if 'A' <= c <= 'Z' then (c as int + 32) as char else c
  }

  /** `toLowerCase()`, character by character. */
  function Lower(s: string): (r: string)
    ensures |r| == |s|
    ensures forall i :: 0 <= i < |s| ==> r[i] == LowerChar(s[i])
  {
    if s == [] then [] else [LowerChar(s[0])] + Lower(s[1..])
  }

  /** Drops the run of characters outside the allowed set at the front of `s`. */
  function SkipRun(s: string): (r: string)
    ensures |r| <= |s|
    ensures r == [] || Allowed(r[0])
  {
    if s != [] && !Allowed(s[0]) then SkipRun(s[1..]) else s
  }

  /** Only slug characters, and never two `-` in a row. */
  predicate Collapsed(s: string) {
    && (forall i :: 0 <= i < |s| ==> SlugChar(s[i]))
    && (forall i :: 0 <= i < |s| - 1 ==> !(s[i] == '-' && s[i + 1] == '-'))
  }

  /** Putting a slug character in front of a collapsed string keeps it
      collapsed unless that makes two `-` in a row. */
  lemma ConsCollapsed(h: char, c: string)
    requires SlugChar(h) && Collapsed(c)
    requires h == '-' ==> c == [] || c[0] != '-'
    ensures Collapsed([h] + c)
  {
    var r := [h] + c;
    forall i | 0 <= i < |r| - 1
      ensures !(r[i] == '-' && r[i + 1] == '-')
    {
      if i > 0 {
        assert r[i] == c[i - 1] && r[i + 1] == c[i];
      }
    }
  }

  /** `replace(/[^a-z0-9가-힣]+/g, '-')`: each maximal run of characters
      outside the allowed set becomes a single `-`. The result holds only
      slug characters, never two `-` in a row, is empty only for the empty
      input, and starts with `-` exactly when the input starts with a run. */
  function Collapse(s: string): (r: string)
    ensures Collapsed(r)
    ensures r == [] <==> s == []
    ensures s != [] && Allowed(s[0]) ==> r[0] == s[0]
    ensures s != [] && !Allowed(s[0]) ==> r[0] == '-'
    decreases |s|
  {
    if s == [] then []
    else if Allowed(s[0]) then
      var c := Collapse(s[1..]);
      ConsCollapsed(s[0], c);
      [s[0]] + c
    else
      var t := SkipRun(s[1..]);
      var c := Collapse(t);
      ConsCollapsed('-', c);
      ['-'] + c
  }

  /** The `^-` half of `replace(/(^-|-$)/g, '')`. On a collapsed string the
      result is collapsed and does not start with `-`. */
  function DropLeadingDash(s: string): (r: string)
    ensures s == r || s == ['-'] + r
    ensures |r| <= |s|
    ensures Collapsed(s) ==> Collapsed(r) && (r != [] ==> r[0] != '-')
    ensures RemoveDashes(r) == RemoveDashes(s)
  {
    if s != [] && s[0] == '-' then
      var r := s[1..];
      assert s == ['-'] + r;
      assert forall i :: 0 <= i < |r| ==> r[i] == s[i + 1];
      r
    else s
  }

  /** The `-$` half of `replace(/(^-|-$)/g, '')`. On a collapsed string that
      does not start with `-` the result is a well-formed slug. */
  function DropTrailingDash(s: string): (r: string)
    ensures s == r || s == r + ['-']
    ensures |r| <= |s|
    ensures Collapsed(s) && (s != [] ==> s[0] != '-') ==> WellFormed(r)
    ensures RemoveDashes(r) == RemoveDashes(s)
  {
    if s != [] && s[|s| - 1] == '-' then
      var r := s[..|s| - 1];
      RemoveDashesAppend(r, ['-']);
      assert r + ['-'] == s;
      assert forall i :: 0 <= i < |r| ==> r[i] == s[i];
      r
    else s
  }

  /** `replace(/(^-|-$)/g, '')`: one leading `-` and one trailing `-` go.
      Stripping a collapsed string leaves a well-formed slug with the same
      characters apart from dashes. */
  function Strip(s: string): (r: string)
    ensures s == r || s == ['-'] + r || s == r + ['-'] || s == ['-'] + r + ['-']
    ensures |r| <= |s|
    ensures Collapsed(s) ==> WellFormed(r)
    ensures RemoveDashes(r) == RemoveDashes(s)
  {
    DropTrailingDash(DropLeadingDash(s))
  }

  /** The slug of a recipe title. It is well formed: only allowed characters
      and `-`, no leading or trailing `-`, and no two `-` in a row; and
      deleting every `-` from it leaves exactly the allowed characters of the
      lowercased title, in their original order. */
  function Slugify(title: string): (r: string)
    ensures WellFormed(r)
    ensures RemoveDashes(r) == KeepAllowed(Lower(title))
    ensures var c := Collapse(Lower(title));
      c == r || c == ['-'] + r || c == r + ['-'] || c == ['-'] + r + ['-']
  {
    CollapseKeepsAllowed(Lower(title));
    Strip(Collapse(Lower(title)))
  }

  /** The shape every slug has. */
  predicate WellFormed(s: string) {
    && Collapsed(s)
    && (s != [] ==> s[0] != '-' && s[|s| - 1] != '-')
  }

  /** `s` with every `-` deleted. */
  function RemoveDashes(s: string): (r: string)
  {
    if s == [] then [] else (if s[0] == '-' then [] else [s[0]]) + RemoveDashes(s[1..])
  }

  /** The allowed characters of `s`, in order. */
  function KeepAllowed(s: string): (r: string)
  {
    if s == [] then [] else (if Allowed(s[0]) then [s[0]] else []) + KeepAllowed(s[1..])
  }

  lemma {:induction false} RemoveDashesAppend(s: string, t: string)
    ensures RemoveDashes(s + t) == RemoveDashes(s) + RemoveDashes(t)
  {
    if s == [] {
      assert s + t == t;
    } else {
      assert (s + t)[0] == s[0];
      assert (s + t)[1..] == s[1..] + t;
      RemoveDashesAppend(s[1..], t);
    }
  }

  lemma {:induction false} KeepAllowedSkipRun(s: string)
    ensures KeepAllowed(SkipRun(s)) == KeepAllowed(s)
    decreases |s|
  {
    if s != [] && !Allowed(s[0]) {
      KeepAllowedSkipRun(s[1..]);
    }
  }

  /** Collapsing runs only ever deletes or inserts `-` around the allowed
      characters: with the dashes deleted, the allowed characters remain. */
  lemma {:induction false} CollapseKeepsAllowed(s: string)
    ensures RemoveDashes(Collapse(s)) == KeepAllowed(s)
    decreases |s|
  {
    if s == [] {
    } else if Allowed(s[0]) {
      CollapseKeepsAllowed(s[1..]);
      RemoveDashesAppend([s[0]], Collapse(s[1..]));
    } else {
      var t := SkipRun(s[1..]);
      CollapseKeepsAllowed(t);
      KeepAllowedSkipRun(s[1..]);
      RemoveDashesAppend(['-'], Collapse(t));
    }
  }

  lemma {:induction false} WellFormedWithoutDashesIsEmpty(s: string)
    requires WellFormed(s)
    ensures RemoveDashes(s) == [] <==> s == []
  {
    if s != [] {
      assert Allowed(s[0]);
      RemoveDashesAppend([s[0]], s[1..]);
      assert [s[0]] + s[1..] == s;
    }
  }

  /** A title without any allowed character gives the empty slug, and any
      other title a non-empty one. */
  lemma SlugifyEmpty(title: string)
    ensures Slugify(title) == [] <==> KeepAllowed(Lower(title)) == []
  {
    WellFormedWithoutDashesIsEmpty(Slugify(title));
  }

  lemma {:induction false} LowerOfSlugChars(s: string)
    requires forall i :: 0 <= i < |s| ==> SlugChar(s[i])
    ensures Lower(s) == s
  {
    if s != [] {
      LowerOfSlugChars(s[1..]);
    }
  }

  lemma {:induction false} CollapseOfWellFormed(s: string)
    requires Collapsed(s)
    ensures Collapse(s) == s
    decreases |s|
  {
    if s != [] {
      CollapseOfWellFormed(s[1..]);
      if !Allowed(s[0]) {
        assert s[1..] == [] || Allowed(s[1]);
        assert SkipRun(s[1..]) == s[1..];
      }
    }
  }

  /** A slug is its own slug, so deriving the slug twice changes nothing. */
  lemma SlugifyIdempotent(title: string)
    ensures Slugify(Slugify(title)) == Slugify(title)
  {
    var s := Slugify(title);
    LowerOfSlugChars(s);
    CollapseOfWellFormed(s);
  }

  lemma {:induction false} CollapseAllowedPrefix(p: string, t: string)
    requires forall i :: 0 <= i < |p| ==> Allowed(p[i])
    ensures Collapse(p + t) == p + Collapse(t)
  {
    if p != [] {
      var pt := p + t;
      assert pt[0] == p[0] && Allowed(pt[0]);
      assert pt[1..] == p[1..] + t;
      assert Collapse(pt) == [p[0]] + Collapse(pt[1..]);
      CollapseAllowedPrefix(p[1..], t);
      assert [p[0]] + (p[1..] + Collapse(t)) == p + Collapse(t);
    } else {
      assert p + t == t;
    }
  }

  lemma {:induction false} SkipRunPrefix(q: string, t: string)
    requires forall i :: 0 <= i < |q| ==> !Allowed(q[i])
    requires t == [] || Allowed(t[0])
    ensures SkipRun(q + t) == t
  {
    if q != [] {
      assert (q + t)[1..] == q[1..] + t;
      SkipRunPrefix(q[1..], t);
    } else {
      assert q + t == t;
    }
  }

  lemma CollapseRun(q: string, t: string)
    requires q != [] && forall i :: 0 <= i < |q| ==> !Allowed(q[i])
    requires t == [] || Allowed(t[0])
    ensures Collapse(q + t) == ['-'] + Collapse(t)
  {
    assert (q + t)[1..] == q[1..] + t;
    SkipRunPrefix(q[1..], t);
  }

  lemma StripWithoutEnds(s: string)
    requires s != [] ==> s[0] != '-' && s[|s| - 1] != '-'
    ensures Strip(s) == s
  {
  }

  lemma {:induction false} CollapseTwoWords(w1: string, sep: string, w2: string)
    requires forall i :: 0 <= i < |w1| ==> Allowed(w1[i])
    requires forall i :: 0 <= i < |w2| ==> Allowed(w2[i])
    requires sep != [] && forall i :: 0 <= i < |sep| ==> !Allowed(sep[i])
    requires w2 != []
    ensures Collapse(w1 + sep + w2) == w1 + ['-'] + w2
  {
    CollapseAllowedPrefix(w2, []);
    assert w2 + [] == w2;
    CollapseRun(sep, w2);
    CollapseAllowedPrefix(w1, sep + w2);
    assert w1 + (sep + w2) == w1 + sep + w2;
    assert w1 + (['-'] + w2) == w1 + ['-'] + w2;
  }

  /** The slug of a title that lowercases to two words of allowed characters
      separated by a run of other characters is the two words joined by one `-`. */
  lemma SlugifyTwoWords(title: string, w1: string, sep: string, w2: string)
    requires w1 != [] && forall i :: 0 <= i < |w1| ==> Allowed(w1[i])
    requires w2 != [] && forall i :: 0 <= i < |w2| ==> Allowed(w2[i])
    requires sep != [] && forall i :: 0 <= i < |sep| ==> !Allowed(sep[i])
    requires Lower(title) == w1 + sep + w2
    ensures Slugify(title) == w1 + ['-'] + w2
  {
    CollapseTwoWords(w1, sep, w2);
    var r := w1 + ['-'] + w2;
    assert r[0] == w1[0] && r[|r| - 1] == w2[|w2| - 1];
    StripWithoutEnds(r);
  }

  lemma LowerLatinExample(title: string)
    requires title == "Spicy!! Soup"
    ensures Lower(title) == "spicy!! soup"
  {
    assert |Lower(title)| == 12;
  }

  /** A title in Latin letters with punctuation. */
  lemma SlugifyLatinExample(title: string)
    requires title == "Spicy!! Soup"
    ensures Slugify(title) == "spicy-soup"
  {
    LowerLatinExample(title);
    assert "spicy!! soup" == "spicy" + "!! " + "soup";
    var sep := "!! ";
    assert forall i :: 0 <= i < |sep| ==> !Allowed(sep[i]) by {
      assert !Allowed(sep[0]) && !Allowed(sep[1]) && !Allowed(sep[2]);
    }
    SlugifyTwoWords(title, "spicy", sep, "soup");
  }

  /** A title in Hangul. */
  lemma SlugifyHangulExample(title: string)
    requires title == "김치찌개 끓이기"
    ensures Slugify(title) == "김치찌개-끓이기"
  {
    assert Lower(title) == title;
    assert "김치찌개 끓이기" == "김치찌개" + " " + "끓이기";
    SlugifyTwoWords(title, "김치찌개", " ", "끓이기");
  }
}
