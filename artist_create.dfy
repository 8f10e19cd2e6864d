/** The artist creation form: its starting data and the username it derives
    from the full name on every change:
      name.toLowerCase()
          .replace(/[^a-z0-9 ]/g, '')
          .replace(/\s+/g, '_')
          .substring(0, 20) */
module ArtistCreate {
  import opened Common
  import opened Strings
  import opened Js
  import opened Forms
  import Slugs

  /** Longest username the form derives. */
  const MaxUsernameLength: nat := 20

  /** Characters the first replace keeps: a-z, 0-9 and space. */
  predicate IsUsernameSourceChar(c: char)
  {
    'a' <= c <= 'z' || '0' <= c <= '9' || c == ' '
  }

  /** Characters a derived username is made of. */
  predicate IsUsernameChar(c: char)
  {
    'a' <= c <= 'z' || '0' <= c <= '9' || c == '_'
  }

  /** `s.substring(0, n)` for n >= 0. */
  function Take(s: string, n: nat): (r: string)
    ensures |r| <= n && r <= s
    ensures |s| <= n ==> r == s
    ensures |s| > n ==> r == s[..n]
  {
    if |s| <= n then s else s[..n]
  }

  /** The username derived from a full name. */
  function Username(name: string): string
  {
    var kept := Filter(Lower(name), IsUsernameSourceChar);
    var joined := Slugs.ReplaceRuns(kept, IsSpace, '_');
    Take(joined, MaxUsernameLength)
  }

  /** The data a new artist form starts from. */
  function InitialArtistData(): FormData
  {
    map[
      "full_name" := Raw(Str("")), "email" := Raw(Str("")), "phone" := Raw(Str("")),
      "username" := Raw(Str("")), "country" := Raw(Str("")), "address" := Raw(Str("")),
      "profile_image" := Raw(Str("")), "bio" := Raw(Str("")), "social_links" := Raw(Str("")),
      "is_active" := Raw(Bool(true))
    ]
  }

  /** A new artist is active by default, and its username starts empty. */
  lemma InitialArtistActive()
    ensures InitialArtistData()["is_active"] == Raw(Bool(true))
    ensures Truthy(InitialArtistData()["is_active"].v)
    ensures InitialArtistData()["username"] == Raw(Str(""))
  {
  }

  /** A prefix of a string without doubled c has no doubled c. */
  lemma PrefixNoDoubled(s: string, n: nat, c: char)
    requires Slugs.NoDoubled(s, c)
    ensures Slugs.NoDoubled(Take(s, n), c)
  {
  }

  /** The username has at most 20 characters, all from a-z, 0-9 and '_',
      and no "__". */
  lemma UsernameShape(name: string)
    ensures |Username(name)| <= MaxUsernameLength
    ensures forall i :: 0 <= i < |Username(name)| ==> IsUsernameChar(Username(name)[i])
    ensures Slugs.NoDoubled(Username(name), '_')
  {
    var kept := Filter(Lower(name), IsUsernameSourceChar);
    var joined := Slugs.ReplaceRuns(kept, IsSpace, '_');
    Slugs.ReplaceRunsChars(kept, IsSpace, '_', c => IsUsernameSourceChar(c) || c == '_');
    Slugs.ReplaceRunsNoDoubled(kept, IsSpace, '_');
    PrefixNoDoubled(joined, MaxUsernameLength, '_');
  }

  /** A name without spaces gives a username without underscores (the name
      then has no character from the `\s` class that survives the first step). */
  lemma NoSpaceNoUnderscore(name: string)
    requires forall i :: 0 <= i < |name| ==> name[i] != ' '
    ensures forall i :: 0 <= i < |Username(name)| ==> Username(name)[i] != '_'
  {
    var lowered := Lower(name);
    var kept := Filter(lowered, IsUsernameSourceChar);
    assert forall i :: 0 <= i < |kept| ==> !IsSpace(kept[i]) by {
      forall i | 0 <= i < |kept| ensures !IsSpace(kept[i]) {
        var j :| 0 <= j < |lowered| && lowered[j] == kept[i];
        assert lowered[j] == LowerChar(name[j]);
      }
    }
    Slugs.ReplaceRunsNone(kept, IsSpace, '_');
  }

  /** The state of the artist creation page's form. */
  class ArtistForm {
    var form: FormState

    constructor ()
      ensures fresh(form) && form.data == InitialArtistData()
    {
      form := new FormState(InitialArtistData());
    }

    /** handleNameChange: stores the typed name and overwrites the username
        with the one derived from it. */
    method HandleNameChange(name: string)
      modifies form
      ensures form.data == old(form.data)["full_name" := Raw(Str(name))]["username" := Raw(Str(Username(name)))]
      ensures form.data["username"] == Raw(Str(Username(name)))
    {
      form.SetData("full_name", Raw(Str(name)));
      form.SetData("username", Raw(Str(Username(name))));
    }
  }
}
