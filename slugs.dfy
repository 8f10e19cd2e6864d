/** The slug pipeline that the category edit form and the product create and
    edit forms run on every name change:
      name.toLowerCase()
          .replace(/[^a-z0-9 -]/g, '')
          .replace(/\s+/g, '-')
          .replace(/-+/g, '-')
          .trim('-')
    `String.prototype.trim` takes no argument, so the last step trims whitespace,
    of which none is left: hyphens at either end stay. */
module Slugs {
  import opened Common
  import opened Strings

  /** Characters the first replace keeps: a-z, 0-9, space and hyphen. */
  predicate IsSlugSourceChar(c: char)
  {
    'a' <= c <= 'z' || '0' <= c <= '9' || c == ' ' || c == '-'
  }

  /** Characters a finished slug is made of. */
  predicate IsSlugChar(c: char)
  {
    'a' <= c <= 'z' || '0' <= c <= '9' || c == '-'
  }

  predicate IsHyphen(c: char)
  {
    c == '-'
  }

  /** s without its leading characters that satisfy p. */
  function DropWhile(s: string, p: char -> bool): (r: string)
    ensures |r| <= |s|
    ensures r == [] || !p(r[0])
    ensures s != [] && p(s[0]) ==> |r| < |s|
    decreases |s|
  {
    if s != [] && p(s[0]) then DropWhile(s[1..], p) else s
  }

  /** `s.replace(/X+/g, sep)` where X is the character class p: every maximal
      run of characters satisfying p becomes one `sep`. */
  function ReplaceRuns(s: string, p: char -> bool, sep: char): string
    decreases |s|
  {
    if s == [] then []
    else if p(s[0]) then [sep] + ReplaceRuns(DropWhile(s, p), p, sep)
    else [s[0]] + ReplaceRuns(s[1..], p, sep)
  }

  /** No character of s is followed by the same character c. */
  predicate NoDoubled(s: string, c: char)
  {
    forall i :: 0 <= i < |s| - 1 ==> !(s[i] == c && s[i + 1] == c)
  }

  /** The slug derived from a name on every name change. */
  function Slug(name: string): string
  {
    var kept := Filter(Lower(name), IsSlugSourceChar);
    var spaced := ReplaceRuns(kept, IsSpace, '-');
    var collapsed := ReplaceRuns(spaced, IsHyphen, '-');
    Trim(collapsed)
  }

  // Facts about the run replacement.

  /** Every character of the output is either `sep` or an input character outside p. */
  lemma {:induction false} ReplaceRunsChars(s: string, p: char -> bool, sep: char, ok: char -> bool)
    requires forall i :: 0 <= i < |s| ==> ok(s[i])
    requires ok(sep)
    ensures forall i :: 0 <= i < |ReplaceRuns(s, p, sep)| ==>
              ok(ReplaceRuns(s, p, sep)[i]) && (ReplaceRuns(s, p, sep)[i] == sep || !p(ReplaceRuns(s, p, sep)[i]))
    decreases |s|
  {
    if s != [] {
      if p(s[0]) {
        var d := DropWhile(s, p);
        DropWhileSuffix(s, p);
        ReplaceRunsChars(d, p, sep, ok);
      } else {
        ReplaceRunsChars(s[1..], p, sep, ok);
      }
    }
  }

  lemma {:induction false} DropWhileSuffix(s: string, p: char -> bool)
    ensures exists k :: 0 <= k <= |s| && DropWhile(s, p) == s[k..]
    decreases |s|
  {
    if s != [] && p(s[0]) {
      DropWhileSuffix(s[1..], p);
      var k :| 0 <= k <= |s[1..]| && DropWhile(s[1..], p) == s[1..][k..];
      assert DropWhile(s, p) == s[k + 1..];
    } else {
      assert DropWhile(s, p) == s[0..];
    }
  }

  /** Replacing runs of a class that no character belongs to changes nothing. */
  lemma {:induction false} ReplaceRunsNone(s: string, p: char -> bool, sep: char)
    requires forall i :: 0 <= i < |s| ==> !p(s[i])
    ensures ReplaceRuns(s, p, sep) == s
    decreases |s|
  {
    if s != [] {
      ReplaceRunsNone(s[1..], p, sep);
      assert [s[0]] + s[1..] == s;
    }
  }

  /** When every character equal to sep belongs to the class p, replacing the
      runs of p by sep leaves no sep next to another sep; the output is empty
      exactly when the input is, and starts with sep exactly when the input
      starts with a character of p. */
  lemma {:induction false} ReplaceRunsNoDoubled(s: string, p: char -> bool, sep: char)
    requires forall i :: 0 <= i < |s| ==> s[i] != sep || p(s[i])
    ensures NoDoubled(ReplaceRuns(s, p, sep), sep)
    ensures ReplaceRuns(s, p, sep) != [] <==> s != []
    ensures s != [] ==> (ReplaceRuns(s, p, sep)[0] == sep <==> p(s[0]))
    decreases |s|
  {
    if s != [] {
      var r := ReplaceRuns(s, p, sep);
      if p(s[0]) {
        var d := DropWhile(s, p);
        DropWhileSuffix(s, p);
        ReplaceRunsNoDoubled(d, p, sep);
        assert r == [sep] + ReplaceRuns(d, p, sep);
      } else {
        ReplaceRunsNoDoubled(s[1..], p, sep);
        assert r == [s[0]] + ReplaceRuns(s[1..], p, sep);
      }
    }
  }

  /** Collapsing hyphen runs leaves a string without doubled hyphens unchanged. */
  lemma {:induction false} CollapseFixesNoDoubled(s: string)
    requires NoDoubled(s, '-')
    ensures ReplaceRuns(s, IsHyphen, '-') == s
    decreases |s|
  {
    if s != [] {
      assert NoDoubled(s[1..], '-');
      CollapseFixesNoDoubled(s[1..]);
      if s[0] == '-' {
        assert DropWhile(s, IsHyphen) == s[1..];
      }
      assert [s[0]] + s[1..] == s;
    }
  }

  lemma {:induction false} TrimStartNoSpace(s: string)
    requires forall i :: 0 <= i < |s| ==> !IsSpace(s[i])
    ensures TrimStart(s) == s
  {
  }

  lemma {:induction false} TrimEndNoSpace(s: string)
    requires forall i :: 0 <= i < |s| ==> !IsSpace(s[i])
    ensures TrimEnd(s) == s
  {
  }

  /** `trim()` leaves a string without whitespace unchanged. */
  lemma TrimNoSpace(s: string)
    requires forall i :: 0 <= i < |s| ==> !IsSpace(s[i])
    ensures Trim(s) == s
  {
    TrimStartNoSpace(s);
    TrimEndNoSpace(s);
  }

  /** The derived slug is made of a-z, 0-9 and '-' only, and has no "--". */
  lemma SlugShape(name: string)
    ensures forall i :: 0 <= i < |Slug(name)| ==> IsSlugChar(Slug(name)[i])
    ensures NoDoubled(Slug(name), '-')
  {
    var kept := Filter(Lower(name), IsSlugSourceChar);
    var spaced := ReplaceRuns(kept, IsSpace, '-');
    var collapsed := ReplaceRuns(spaced, IsHyphen, '-');
    ReplaceRunsChars(kept, IsSpace, '-', IsSlugSourceChar);
    assert forall i :: 0 <= i < |spaced| ==> IsSlugChar(spaced[i]);
    ReplaceRunsChars(spaced, IsHyphen, '-', IsSlugChar);
    ReplaceRunsNoDoubled(spaced, IsHyphen, '-');
    TrimNoSpace(collapsed);
  }

  /** Deriving a slug from a slug returns it unchanged. */
  lemma SlugIdempotent(name: string)
    ensures Slug(Slug(name)) == Slug(name)
  {
    var t := Slug(name);
    SlugShape(name);
    assert Lower(t) == t;
    FilterKeepsAll(t, IsSlugSourceChar);
    ReplaceRunsNone(t, IsSpace, '-');
    CollapseFixesNoDoubled(t);
    TrimNoSpace(t);
  }

  /** A name that begins with a space (or a hyphen) gives a slug that begins
      with a hyphen: the final trim does not remove it. */
  lemma SlugKeepsLeadingHyphen(name: string)
    requires name != [] && (name[0] == ' ' || name[0] == '-')
    ensures Slug(name) != [] && Slug(name)[0] == '-'
  {
    var kept := Filter(Lower(name), IsSlugSourceChar);
    assert kept == [name[0]] + Filter(Lower(name)[1..], IsSlugSourceChar);
    var spaced := ReplaceRuns(kept, IsSpace, '-');
    assert spaced[0] == '-';
    var collapsed := ReplaceRuns(spaced, IsHyphen, '-');
    ReplaceRunsNoDoubled(spaced, IsHyphen, '-');
    SlugShape(name);
    ReplaceRunsChars(kept, IsSpace, '-', IsSlugSourceChar);
    ReplaceRunsChars(spaced, IsHyphen, '-', IsSlugChar);
    TrimNoSpace(collapsed);
  }
}
