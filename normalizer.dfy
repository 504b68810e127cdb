/** The formatters that turn an iTunes album title and artist name into the slugs
    rateyourmusic.com uses in its release URLs. Both Go files carry the same two
    formatters; the regular expression `[^-_/a-zA-Z0-9]+` they share is applied with
    an empty replacement. */
module Normalizer {
  import opened GoStrings

  /** Characters the regular expression `[^-_/a-zA-Z0-9]+` does not match. */
  predicate RegexKeeps(c: char)
  {
    c == '-' || c == '_' || c == '/' || 'a' <= c <= 'z' || 'A' <= c <= 'Z' || '0' <= c <= '9'
  }

  /** Characters a formatted slug is made of. */
  predicate SlugChar(c: char)
  {
    c == '-' || c == '_' || 'a' <= c <= 'z' || '0' <= c <= '9'
  }

  /** regex.ReplaceAllString(s, "") for `[^-_/a-zA-Z0-9]+`: each maximal run of
      unmatched-by-the-class characters is deleted, which deletes every such
      character and keeps the others in order. */
  function DeleteDisallowed(s: string): (r: string)
    ensures |r| <= |s|
    decreases |s|
  {
    if s == [] then []
    else
      var rest := DeleteDisallowed(s[1..]);
      if RegexKeeps(s[0]) then [s[0]] + rest else rest
  }

  /** The filter keeps exactly the characters of its input that the class does not
      match: everything it returns comes from the input and is allowed, and every
      allowed character of the input survives. */
  lemma {:induction false} DeleteDisallowedKeepsExactlyAllowed(s: string)
    ensures forall c :: c in DeleteDisallowed(s) ==> c in s && RegexKeeps(c)
    ensures forall c :: c in s && RegexKeeps(c) ==> c in DeleteDisallowed(s)
    decreases |s|
  {
    if s != [] {
      DeleteDisallowedKeepsExactlyAllowed(s[1..]);
      assert forall c :: c in s ==> c == s[0] || c in s[1..];
    }
  }

  /** Every character of `s` is one the class does not match. */
  predicate AllKept(s: string)
  {
    forall k :: 0 <= k < |s| ==> RegexKeeps(s[k])
  }

  /** Every character of `s` is one the class matches. */
  predicate NoneKept(s: string)
  {
    forall k :: 0 <= k < |s| ==> !RegexKeeps(s[k])
  }

  /** Text made only of kept characters passes through the filter unchanged. */
  lemma {:induction false} DeleteDisallowedKeepsCleanText(s: string)
    requires AllKept(s)
    ensures DeleteDisallowed(s) == s
    decreases |s|
  {
    if s != [] {
      DeleteDisallowedKeepsCleanText(s[1..]);
    }
  }

  /** The filter works character by character, so it distributes over concatenation. */
  lemma {:induction false} DeleteDisallowedAppend(u: string, v: string)
    ensures DeleteDisallowed(u + v) == DeleteDisallowed(u) + DeleteDisallowed(v)
    decreases |u|
  {
    if u == [] {
      assert u + v == v;
    } else {
      var w := u + v;
      assert w[0] == u[0];
      assert w[1..] == u[1..] + v;
      DeleteDisallowedAppend(u[1..], v);
    }
  }

  /** Characters the class matches vanish from between two pieces of text. */
  lemma DeleteDisallowedDropsJunk(u: string, junk: string, v: string)
    requires NoneKept(junk)
    ensures DeleteDisallowed(u + junk + v) == DeleteDisallowed(u) + DeleteDisallowed(v)
  {
    var left := DeleteDisallowed(u + junk);
    assert DeleteDisallowed(u + junk + v) == left + DeleteDisallowed(v) by {
      DeleteDisallowedAppend(u + junk, v);
    }
    assert left == DeleteDisallowed(u) by {
      DeleteDisallowedAppend(u, junk);
      DeleteDisallowedDropsAll(junk);
      assert DeleteDisallowed(u) + [] == DeleteDisallowed(u);
    }
  }

  /** Two runs of matched characters between three clean pieces of text vanish,
      and the pieces are kept as they are. */
  lemma DeleteDisallowedDropsTwo(u: string, junk1: string, v: string, junk2: string, w: string)
    requires AllKept(u) && AllKept(v) && AllKept(w) && NoneKept(junk1) && NoneKept(junk2)
    ensures DeleteDisallowed(u + junk1 + v + junk2 + w) == u + v + w
  {
    var tail := v + junk2 + w;
    assert DeleteDisallowed(tail) == v + w by {
      DeleteDisallowedDropsJunk(v, junk2, w);
      DeleteDisallowedKeepsCleanText(v);
      DeleteDisallowedKeepsCleanText(w);
    }
    assert DeleteDisallowed(u + junk1 + tail) == u + (v + w) by {
      DeleteDisallowedDropsJunk(u, junk1, tail);
      DeleteDisallowedKeepsCleanText(u);
    }
    assert u + junk1 + v + junk2 + w == u + junk1 + tail;
  }

  /** Text made only of matched characters is deleted entirely. */
  lemma {:induction false} DeleteDisallowedDropsAll(junk: string)
    requires NoneKept(junk)
    ensures DeleteDisallowed(junk) == []
    decreases |junk|
  {
    if junk != [] {
      DeleteDisallowedDropsAll(junk[1..]);
    }
  }

  const HYPHEN: set<char> := {'-'}

  predicate NoUpper(s: string)
  {
    forall c :: c in s ==> !IsUpper(c)
  }

  lemma LowerTrimmedHasNoUpper(s: string)
    ensures NoUpper(TrimSpace(ToLower(s)))
  {
  }

  lemma ReplaceAllKeepsNoUpper(s: string, pat: string, repl: string)
    requires pat != [] && NoUpper(s) && NoUpper(repl)
    ensures NoUpper(ReplaceAll(s, pat, repl))
  {
    ReplaceAllIntroducesNothing(s, pat, repl);
  }

  /** Deleting the matched characters and trimming hyphens from text with no
      upper-case letter and no slash leaves a slug. */
  lemma FinishedSlug(s: string)
    requires NoUpper(s) && '/' !in s
    ensures var slug := Trim(DeleteDisallowed(s), HYPHEN);
      (forall c :: c in slug ==> SlugChar(c))
      && (slug == [] || (slug[0] != '-' && slug[|slug| - 1] != '-'))
  {
    DeleteDisallowedKeepsExactlyAllowed(s);
  }

  /** formatAlbumName: lower-case and trim, drop the substrings " ep", "deluxe",
      "single", "remastered", "edition", "expanded" and "version" (each removed
      everywhere, in that order), turn "38" into "and", spaces into hyphens and
      slashes into underscores, delete the characters the regular expression
      matches, and trim hyphens from both ends. */
  function FormatAlbumName(albumName: string): (slug: string)
    ensures forall c :: c in slug ==> SlugChar(c)
    ensures slug == [] || (slug[0] != '-' && slug[|slug| - 1] != '-')
  {
    var s0 := TrimSpace(ToLower(albumName));
    var s1 := ReplaceAll(s0, " ep", "");
    var s2 := ReplaceAll(s1, "deluxe", "");
    var s3 := ReplaceAll(s2, "single", "");
    var s4 := ReplaceAll(s3, "remastered", "");
    var s5 := ReplaceAll(s4, "edition", "");
    var s6 := ReplaceAll(s5, "expanded", "");
    var s7 := ReplaceAll(s6, "version", "");
    var s8 := ReplaceAll(s7, "38", "and");
    var s9 := ReplaceAll(s8, " ", "-");
    var s10 := ReplaceAll(s9, "/", "_");
    LowerTrimmedHasNoUpper(albumName);
    ReplaceAllKeepsNoUpper(s0, " ep", "");
    ReplaceAllKeepsNoUpper(s1, "deluxe", "");
    ReplaceAllKeepsNoUpper(s2, "single", "");
    ReplaceAllKeepsNoUpper(s3, "remastered", "");
    ReplaceAllKeepsNoUpper(s4, "edition", "");
    ReplaceAllKeepsNoUpper(s5, "expanded", "");
    ReplaceAllKeepsNoUpper(s6, "version", "");
    ReplaceAllKeepsNoUpper(s7, "38", "and");
    ReplaceAllKeepsNoUpper(s8, " ", "-");
    ReplaceAllKeepsNoUpper(s9, "/", "_");
    ReplaceAllRemovesChar(s9, '/', "_");
    FinishedSlug(s10);
    Trim(DeleteDisallowed(s10), HYPHEN)
  }

  /** formatArtistName: lower-case and trim, spaces into hyphens, slashes into
      underscores, "38" into "and", delete the characters the regular expression
      matches, and trim hyphens from both ends. No qualifier is removed. */
  function FormatArtistName(artistName: string): (slug: string)
    ensures forall c :: c in slug ==> SlugChar(c)
    ensures slug == [] || (slug[0] != '-' && slug[|slug| - 1] != '-')
  {
    var s0 := TrimSpace(ToLower(artistName));
    var s1 := ReplaceAll(s0, " ", "-");
    var s2 := ReplaceAll(s1, "/", "_");
    var s3 := ReplaceAll(s2, "38", "and");
    LowerTrimmedHasNoUpper(artistName);
    ReplaceAllKeepsNoUpper(s0, " ", "-");
    ReplaceAllKeepsNoUpper(s1, "/", "_");
    ReplaceAllKeepsNoUpper(s2, "38", "and");
    ReplaceAllRemovesChar(s1, '/', "_");
    ReplaceAllIntroducesNothing(s2, "38", "and");
    FinishedSlug(s3);
    Trim(DeleteDisallowed(s3), HYPHEN)
  }
}
