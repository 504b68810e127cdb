/** The handful of operations of Go's `strings` package that the scraper and the
    library importer use, on ASCII text: Index, Contains, Split, ReplaceAll, Trim,
    TrimSpace and ToLower. Patterns given to Index, Split and ReplaceAll are always
    non-empty constants in the program. */
module GoStrings {

  /** `pat` occurs in `s` starting at position `i`. */
  predicate OccursAt(s: string, pat: string, i: int)
  {
    0 <= i && i + |pat| <= |s| && s[i..i + |pat|] == pat
  }

  /** The first occurrence of `pat` in `s` at or after `from`, or -1. */
  function IndexFrom(s: string, pat: string, from: nat): (r: int)
    requires from <= |s|
    ensures -1 <= r <= |s|
    ensures r >= 0 ==> from <= r && OccursAt(s, pat, r)
    ensures r >= 0 ==> forall j :: from <= j < r ==> !OccursAt(s, pat, j)
    ensures r < 0 ==> forall j :: from <= j ==> !OccursAt(s, pat, j)
    decreases |s| - from
  {
    if from + |pat| > |s| then -1
    else if OccursAt(s, pat, from) then from
    else if from == |s| then -1
    else IndexFrom(s, pat, from + 1)
  }

  /** strings.Index: the position of the first occurrence of `pat` in `s`, or -1. */
  function Index(s: string, pat: string): (r: int)
    ensures -1 <= r <= |s|
    ensures r >= 0 ==> OccursAt(s, pat, r)
    ensures r >= 0 ==> forall j :: 0 <= j < r ==> !OccursAt(s, pat, j)
    ensures r < 0 ==> forall j :: !OccursAt(s, pat, j)
  {
    IndexFrom(s, pat, 0)
  }

  /** strings.Contains. */
  predicate Contains(s: string, pat: string)
  {
    Index(s, pat) >= 0
  }

  /** A pattern absent from `s` is absent from every slice of `s`. */
  lemma NoOccurrenceInSlice(s: string, pat: string, lo: int, hi: int)
    requires 0 <= lo <= hi <= |s|
    requires !Contains(s, pat)
    ensures !Contains(s[lo..hi], pat)
  {
    var t := s[lo..hi];
    if Contains(t, pat) {
      OccurrenceInSlice(s, pat, lo, hi, Index(t, pat));
      assert false;
    }
  }

  /** A pattern absent from `s` is absent from its suffix `t` from `k`. */
  lemma NoOccurrenceInSuffix(s: string, k: int, pat: string, t: string)
    requires 0 <= k <= |s| && !Contains(s, pat) && t == s[k..]
    ensures !Contains(t, pat)
  {
    NoOccurrenceInSlice(s, pat, k, |s|);
    assert s[k..|s|] == t;
  }

  /** A pattern absent from `s` is absent from its prefix `t` of length `k`. */
  lemma NoOccurrenceInPrefix(s: string, k: int, pat: string, t: string)
    requires 0 <= k <= |s| && !Contains(s, pat) && t == s[..k]
    ensures !Contains(t, pat)
  {
    NoOccurrenceInSlice(s, pat, 0, k);
    assert s[0..k] == t;
  }

  /** A pattern absent from `s` is absent from its part `t` starting at `lo`. */
  lemma NoOccurrenceInPart(s: string, lo: int, pat: string, t: string)
    requires 0 <= lo && lo + |t| <= |s| && t == s[lo..lo + |t|] && !Contains(s, pat)
    ensures !Contains(t, pat)
  {
    NoOccurrenceInSlice(s, pat, lo, lo + |t|);
  }

  /** An occurrence inside the part `t` of `s` starting at `lo` is an occurrence
      in `s`. */
  lemma OccurrenceInPart(s: string, lo: int, t: string, pat: string, j: int)
    requires 0 <= lo && lo + |t| <= |s| && t == s[lo..lo + |t|] && OccursAt(t, pat, j)
    ensures OccursAt(s, pat, lo + j)
  {
    OccurrenceInSlice(s, pat, lo, lo + |t|, j);
  }

  /** A slice `p` of a slice `t` of `s` is a slice of `s`. */
  lemma SliceOfSlice(s: string, lo: int, t: string, k: int, p: string)
    requires 0 <= lo && lo + |t| <= |s| && t == s[lo..lo + |t|]
    requires 0 <= k && k + |p| <= |t| && p == t[k..k + |p|]
    ensures lo + k + |p| <= |s| && p == s[lo + k..lo + k + |p|]
  {
    forall i | 0 <= i < |p| ensures p[i] == s[lo + k + i] {
      assert p[i] == t[k + i];
    }
  }

  /** An occurrence inside a slice is an occurrence in the whole text. */
  lemma OccurrenceInSlice(s: string, pat: string, lo: int, hi: int, j: int)
    requires 0 <= lo <= hi <= |s|
    requires OccursAt(s[lo..hi], pat, j)
    ensures OccursAt(s, pat, lo + j)
  {
    var inner := s[lo..hi][j..j + |pat|];
    var outer := s[lo + j..lo + j + |pat|];
    forall k | 0 <= k < |pat| ensures inner[k] == outer[k] {
      assert inner[k] == s[lo + j + k];
    }
    assert inner == outer;
  }

  /** The text before the first occurrence of `sep` does not contain `sep`. */
  lemma NothingBeforeFirstOccurrence(s: string, sep: string)
    requires sep != [] && Contains(s, sep)
    ensures !Contains(s[..Index(s, sep)], sep)
  {
    var i := Index(s, sep);
    var t := s[..i];
    if Contains(t, sep) {
      var j := Index(t, sep);
      assert t[j..j + |sep|] == s[j..j + |sep|];
      assert OccursAt(s, sep, j);
      assert false;
    }
  }

  /** strings.Split for a non-empty separator: the pieces of `s` between the
      non-overlapping occurrences of `sep`, scanning left to right. */
  function Split(s: string, sep: string): (parts: seq<string>)
    requires sep != []
    ensures |parts| >= 1
    ensures |parts| >= 2 <==> Contains(s, sep)
    ensures |parts[0]| <= |s| && parts[0] == s[..|parts[0]|]
    ensures forall k :: 0 <= k < |parts| ==> !Contains(parts[k], sep)
    decreases |s|
  {
    var i := Index(s, sep);
    if i < 0 then [s]
    else
      NothingBeforeFirstOccurrence(s, sep);
      [s[..i]] + Split(s[i + |sep|..], sep)
  }

  /** The first piece of a split is the text before the first separator, or all
      of `s` when there is none. */
  lemma FirstPieceIsPrefix(s: string, sep: string)
    requires sep != []
    ensures Split(s, sep)[0] == if Contains(s, sep) then s[..Index(s, sep)] else s
  {
  }

  /** The first piece of a split is a prefix free of the separator that ends where
      the separator first occurs or at the end of `s`. */
  lemma FirstPieceEnds(s: string, sep: string)
    requires sep != []
    ensures var p := Split(s, sep)[0];
      |p| <= |s| && p == s[..|p|] && !Contains(p, sep) && (|p| == |s| || OccursAt(s, sep, |p|))
  {
    FirstPieceIsPrefix(s, sep);
  }

  /** The second piece of a split is the first piece of what follows the first
      separator. */
  lemma SecondPieceFollowsSeparator(s: string, sep: string)
    requires sep != [] && Contains(s, sep)
    ensures Split(s, sep)[1] == Split(s[Index(s, sep) + |sep|..], sep)[0]
  {
  }

  /** A piece taken from the front of `s[a..]` that ends at an occurrence of `sep`
      there, or at the end, is the slice of `s` from `a` that ends at an occurrence
      of `sep` in `s`, or at the end. */
  lemma PieceOfSuffix(s: string, a: int, p: string, sep: string)
    requires 0 <= a <= |s| && |p| <= |s| - a && p == s[a..][..|p|]
    requires |p| == |s| - a || OccursAt(s[a..], sep, |p|)
    ensures a + |p| <= |s| && p == s[a..a + |p|]
    ensures a + |p| == |s| || OccursAt(s, sep, a + |p|)
  {
    assert s[a..][..|p|] == s[a..a + |p|];
    if |p| < |s| - a {
      assert s[a..|s|] == s[a..];
      OccurrenceInSlice(s, sep, a, |s|, |p|);
    }
  }

  /** The second piece `p` of a split starts at `a`, right after the first
      separator, and ends at the next separator or at the end of `s`. */
  lemma SecondPieceLocated(s: string, sep: string, a: int, p: string)
    requires sep != [] && Contains(s, sep)
    requires a == Index(s, sep) + |sep| && p == Split(s, sep)[1]
    ensures a + |p| <= |s| && p == s[a..a + |p|]
    ensures a + |p| == |s| || OccursAt(s, sep, a + |p|)
  {
    SecondPieceFollowsSeparator(s, sep);
    FirstPieceOfSuffixLocated(s, sep, a, p);
  }

  /** The first piece `p` of the split of `s[a..]` is a slice of `s` from `a` that
      ends at an occurrence of `sep` or at the end of `s`. */
  lemma FirstPieceOfSuffixLocated(s: string, sep: string, a: int, p: string)
    requires sep != [] && 0 <= a <= |s| && p == Split(s[a..], sep)[0]
    ensures a + |p| <= |s| && p == s[a..a + |p|]
    ensures a + |p| == |s| || OccursAt(s, sep, a + |p|)
  {
    FirstPieceEnds(s[a..], sep);
    PieceOfSuffix(s, a, p, sep);
  }

  /** `strings.Split(strings.Split(text, open)[1], close)[0]`: the field that follows
      the first `open` marker. */
  function Field(text: string, open: string, close: string): string
    requires open != [] && close != [] && Contains(text, open)
  {
    Split(Split(text, open)[1], close)[0]
  }

  /** A prefix `f` of a slice `piece` of `text` that starts at `a`, where `piece`
      ends at an `open` marker or at the end of `text` and `f` ends at a `close`
      marker or at the end of `piece`, is itself a slice of `text` that ends at
      one of the two markers or at the end. */
  lemma NestedPieceLocated(text: string, open: string, close: string, a: int, piece: string, f: string)
    requires 0 <= a && a + |piece| <= |text| && piece == text[a..a + |piece|] && !Contains(piece, open)
    requires a + |piece| == |text| || OccursAt(text, open, a + |piece|)
    requires |f| <= |piece| && f == piece[..|f|]
    requires |f| == |piece| || OccursAt(piece, close, |f|)
    ensures f == text[a..a + |f|] && !Contains(f, open)
    ensures a + |f| == |text| || OccursAt(text, close, a + |f|) || OccursAt(text, open, a + |f|)
  {
    assert piece[0..|f|] == f;
    NoOccurrenceInSlice(piece, open, 0, |f|);
    if |f| < |piece| {
      OccurrenceInSlice(text, close, a, a + |piece|, |f|);
    }
  }

  /** A field `f` is the text right after the first `open` marker of `text`, which
      ends at position `a`, up to the next `close` marker, the next `open` marker or
      the end of `text`, whichever comes first; it contains neither marker. */
  lemma FieldLocated(text: string, open: string, close: string, a: int, f: string)
    requires open != [] && close != [] && Contains(text, open)
    requires a == Index(text, open) + |open| && f == Field(text, open, close)
    ensures a + |f| <= |text| && f == text[a..a + |f|]
    ensures !Contains(f, close) && !Contains(f, open)
    ensures a + |f| == |text| || OccursAt(text, close, a + |f|) || OccursAt(text, open, a + |f|)
  {
    var piece := Split(text, open)[1];
    SecondPieceLocated(text, open, a, piece);
    FirstPieceEnds(piece, close);
    NestedPieceLocated(text, open, close, a, piece, f);
  }

  /** strings.Join. */
  function Join(parts: seq<string>, sep: string): string
    decreases |parts|
  {
    if parts == [] then []
    else if |parts| == 1 then parts[0]
    else parts[0] + sep + Join(parts[1..], sep)
  }

  /** Joining the pieces of a split with the separator gives back the original text. */
  lemma {:induction false} SplitJoinRoundTrip(s: string, sep: string)
    requires sep != []
    ensures Join(Split(s, sep), sep) == s
    decreases |s|
  {
    var i := Index(s, sep);
    if i >= 0 {
      var rest := s[i + |sep|..];
      SplitJoinRoundTrip(rest, sep);
      var parts := Split(s, sep);
      assert parts == [s[..i]] + Split(rest, sep);
      assert parts[1..] == Split(rest, sep);
      assert Join(parts, sep) == s[..i] + sep + rest;
      assert s == s[..i] + s[i..i + |sep|] + rest;
    }
  }

  /** strings.ReplaceAll for a non-empty `pat`: every non-overlapping occurrence of
      `pat`, found left to right by Index, is replaced by `repl`. */
  function ReplaceAll(s: string, pat: string, repl: string): string
    requires pat != []
    decreases |s|
  {
    var i := Index(s, pat);
    if i < 0 then s else s[..i] + repl + ReplaceAll(s[i + |pat|..], pat, repl)
  }

  /** Every character of a slice is a character of the whole. */
  lemma SliceMembers(s: string, lo: int, hi: int)
    requires 0 <= lo <= hi <= |s|
    ensures forall c :: c in s[lo..hi] ==> c in s
    ensures lo == 0 ==> s[lo..hi] == s[..hi]
    ensures hi == |s| ==> s[lo..hi] == s[lo..]
  {
    forall c | c in s[lo..hi] ensures c in s {
      var k :| lo <= k < hi && s[k] == c;
    }
  }

  /** ReplaceAll introduces no character that is neither in the text nor in the
      replacement. */
  lemma {:induction false} ReplaceAllIntroducesNothing(s: string, pat: string, repl: string)
    requires pat != []
    ensures forall c :: c in ReplaceAll(s, pat, repl) ==> c in s || c in repl
    decreases |s|
  {
    if Index(s, pat) >= 0 {
      var i := Index(s, pat);
      ReplaceAllAt(s, pat, repl);
      ReplaceAllIntroducesNothing(s[i + |pat|..], pat, repl);
      SliceMembers(s, 0, i);
      SliceMembers(s, i + |pat|, |s|);
    }
  }

  /** ReplaceAll is Split followed by Join with the replacement. */
  lemma {:induction false} ReplaceAllIsSplitJoin(s: string, pat: string, repl: string)
    requires pat != []
    ensures ReplaceAll(s, pat, repl) == Join(Split(s, pat), repl)
    decreases |s|
  {
    var i := Index(s, pat);
    if i >= 0 {
      var rest := s[i + |pat|..];
      ReplaceAllIsSplitJoin(rest, pat, repl);
      var parts := Split(s, pat);
      assert parts[1..] == Split(rest, pat);
    }
  }

  /** Replacing a single character by text without it removes that character. */
  lemma {:induction false} ReplaceAllRemovesChar(s: string, c: char, repl: string)
    requires c !in repl
    ensures c !in ReplaceAll(s, [c], repl)
    decreases |s|
  {
    var i := Index(s, [c]);
    if i < 0 {
      forall k | 0 <= k < |s| ensures s[k] != c {
        SingleCharOccurs(s, c, k);
      }
    } else {
      ReplaceAllAt(s, [c], repl);
      ReplaceAllRemovesChar(s[i + 1..], c, repl);
      forall k | 0 <= k < i ensures s[..i][k] != c {
        SingleCharOccurs(s, c, k);
      }
    }
  }

  /** Text without any occurrence of `pat` is left unchanged. */
  lemma ReplaceAllWithoutOccurrence(s: string, pat: string, repl: string)
    requires pat != [] && !Contains(s, pat)
    ensures ReplaceAll(s, pat, repl) == s
  {
  }

  /** Inside an occurrence the text agrees with the pattern character by character. */
  lemma OccurrenceCharAt(s: string, pat: string, i: int, k: int)
    requires OccursAt(s, pat, i) && 0 <= k < |pat|
    ensures s[i + k] == pat[k]
  {
    assert s[i..i + |pat|][k] == s[i + k];
  }

  /** A pattern with a character the text lacks does not occur in it. */
  lemma AbsentWhenCharMissing(s: string, pat: string, c: char)
    requires c in pat && c !in s
    ensures !Contains(s, pat)
  {
    var k :| 0 <= k < |pat| && pat[k] == c;
    if Contains(s, pat) {
      OccurrenceCharAt(s, pat, Index(s, pat), k);
      assert false;
    }
  }

  /** A pattern whose first two characters never stand side by side in the text
      does not occur in it. */
  lemma AbsentWhenPairMissing(s: string, pat: string)
    requires |pat| >= 2
    requires forall k :: 0 <= k < |s| - 1 ==> !(s[k] == pat[0] && s[k + 1] == pat[1])
    ensures !Contains(s, pat)
  {
    if Contains(s, pat) {
      var i := Index(s, pat);
      OccurrenceCharAt(s, pat, i, 0);
      OccurrenceCharAt(s, pat, i, 1);
      assert false;
    }
  }

  /** ReplaceAll leaves text alone when a character of the pattern is missing from it. */
  lemma ReplaceAllAbsentChar(s: string, pat: string, repl: string, c: char)
    requires c in pat && c !in s
    ensures ReplaceAll(s, pat, repl) == s
  {
    AbsentWhenCharMissing(s, pat, c);
  }

  /** ReplaceAll at the first occurrence: the text before it, the replacement, and the
      rest replaced in turn. */
  lemma ReplaceAllAt(s: string, pat: string, repl: string)
    requires pat != [] && Index(s, pat) >= 0
    ensures var i := Index(s, pat);
      ReplaceAll(s, pat, repl) == s[..i] + repl + ReplaceAll(s[i + |pat|..], pat, repl)
  {
  }

  /** ReplaceAll on text with a single occurrence of the pattern. */
  lemma ReplaceAllOnce(s: string, pat: string, repl: string)
    requires pat != [] && Index(s, pat) >= 0 && !Contains(s[Index(s, pat) + |pat|..], pat)
    ensures var i := Index(s, pat);
      ReplaceAll(s, pat, repl) == s[..i] + repl + s[i + |pat|..]
  {
    ReplaceAllWithoutOccurrence(s[Index(s, pat) + |pat|..], pat, repl);
  }

  /** A position where text and pattern differ rules out an occurrence there. */
  lemma MismatchAt(s: string, pat: string, j: int, k: int)
    requires 0 <= j && 0 <= k < |pat| && j + k < |s| && s[j + k] != pat[k]
    ensures !OccursAt(s, pat, j)
  {
    if j + |pat| <= |s| {
      assert s[j..j + |pat|][k] == s[j + k];
    }
  }

  /** An occurrence with none before it is the one Index finds. */
  lemma IndexAt(s: string, pat: string, i: int)
    requires OccursAt(s, pat, i)
    requires forall j :: 0 <= j < i ==> !OccursAt(s, pat, j)
    ensures Index(s, pat) == i
  {
  }

  /** An occurrence whose first character appears nowhere before it is the one
      Index finds. */
  lemma IndexAtFirstChar(s: string, pat: string, i: int)
    requires pat != [] && OccursAt(s, pat, i) && pat[0] !in s[..i]
    ensures Index(s, pat) == i
  {
    forall j | 0 <= j < i ensures !OccursAt(s, pat, j) {
      assert s[..i][j] == s[j];
      MismatchAt(s, pat, j, 0);
    }
  }

  /** An occurrence such that the text before its last character lacks the pattern
      is the one Index finds. */
  lemma IndexAtNoEarlier(s: string, pat: string, i: int)
    requires pat != [] && OccursAt(s, pat, i) && !Contains(s[..i + |pat| - 1], pat)
    ensures Index(s, pat) == i
  {
    var t := s[..i + |pat| - 1];
    forall j | 0 <= j < i ensures !OccursAt(s, pat, j) {
      assert t[j..j + |pat|] == s[j..j + |pat|];
      assert !OccursAt(t, pat, j);
    }
  }

  /** A one-character pattern occurs exactly where that character stands. */
  lemma SingleCharOccurs(s: string, a: char, k: int)
    requires 0 <= k < |s|
    ensures OccursAt(s, [a], k) <==> s[k] == a
  {
    assert s[k..k + 1] == [s[k]];
  }

  /** Replacing one character by another is a character-wise substitution. */
  lemma {:induction false} ReplaceCharIsSubstitution(s: string, a: char, b: char)
    ensures |ReplaceAll(s, [a], [b])| == |s|
    ensures forall k :: 0 <= k < |s| ==> ReplaceAll(s, [a], [b])[k] == if s[k] == a then b else s[k]
    decreases |s|
  {
    var i := Index(s, [a]);
    var r := ReplaceAll(s, [a], [b]);
    if i < 0 {
      forall k | 0 <= k < |s| ensures s[k] != a {
        SingleCharOccurs(s, a, k);
      }
    } else {
      var rest := s[i + 1..];
      var tail := ReplaceAll(rest, [a], [b]);
      ReplaceCharIsSubstitution(rest, a, b);
      assert r == s[..i] + [b] + tail;
      SingleCharOccurs(s, a, i);
      forall k | 0 <= k < |s| ensures r[k] == if s[k] == a then b else s[k] {
        if k < i {
          SingleCharOccurs(s, a, k);
        } else if k > i {
          assert r[k] == tail[k - i - 1] && s[k] == rest[k - i - 1];
        }
      }
    }
  }

  /** `t` is `s` with every `a` turned into `b` and every other character kept. */
  predicate Substitutes(s: string, a: char, b: char, t: string)
  {
    |t| == |s| && forall k :: 0 <= k < |s| ==> t[k] == if s[k] == a then b else s[k]
  }

  /** Replacing a single character yields exactly its character-wise substitution. */
  lemma ReplaceCharMatches(s: string, a: char, b: char, t: string)
    requires Substitutes(s, a, b, t)
    ensures ReplaceAll(s, [a], [b]) == t
  {
    ReplaceCharIsSubstitution(s, a, b);
  }

  /** strings.TrimLeft with a cut set. */
  function TrimLeft(s: string, cutset: set<char>): (r: string)
    ensures |r| <= |s| && r == s[|s| - |r|..]
    ensures r == [] || r[0] !in cutset
    ensures forall k :: 0 <= k < |s| - |r| ==> s[k] in cutset
    decreases |s|
  {
    if s != [] && s[0] in cutset then
      var r := TrimLeft(s[1..], cutset);
      assert forall k :: 1 <= k < |s| - |r| ==> s[k] == s[1..][k - 1];
      r
    else s
  }

  /** strings.TrimRight with a cut set. */
  function TrimRight(s: string, cutset: set<char>): (r: string)
    ensures |r| <= |s| && r == s[..|r|]
    ensures r == [] || r[|r| - 1] !in cutset
    ensures forall k :: |r| <= k < |s| ==> s[k] in cutset
    decreases |s|
  {
    if s != [] && s[|s| - 1] in cutset then
      var r := TrimRight(s[..|s| - 1], cutset);
      assert forall k :: |r| <= k < |s| - 1 ==> s[k] == s[..|s| - 1][k];
      r
    else s
  }

  /** strings.Trim: drops every leading and trailing character of the cut set. What
      remains is a slice of `s` whose ends lie outside the cut set, and everything
      cut off on either side lies in it. */
  function Trim(s: string, cutset: set<char>): (r: string)
    ensures r == [] || (r[0] !in cutset && r[|r| - 1] !in cutset)
    ensures forall c :: c in r ==> c in s
    ensures CutFrom(s, cutset, |s| - |TrimLeft(s, cutset)|, r)
  {
    var l := TrimLeft(s, cutset);
    var r := TrimRight(l, cutset);
    assert forall c :: c in l ==> c in s;
    TrimLeftThenRightCuts(s, cutset, l, r);
    r
  }

  /** `r` is the slice of `s` from `i`, and the characters of `s` before and after
      it all lie in the cut set. */
  predicate CutFrom(s: string, cutset: set<char>, i: int, r: string)
  {
    0 <= i && i + |r| <= |s| && r == s[i..i + |r|]
    && (forall k :: 0 <= k < i ==> s[k] in cutset)
    && (forall k :: i + |r| <= k < |s| ==> s[k] in cutset)
  }

  /** Trimming the left end and then the right end cuts `s` down to a slice. */
  lemma TrimLeftThenRightCuts(s: string, cutset: set<char>, l: string, r: string)
    requires l == TrimLeft(s, cutset) && r == TrimRight(l, cutset)
    ensures CutFrom(s, cutset, |s| - |l|, r)
  {
    SliceCut(s, cutset, |s| - |l|, l, r);
  }

  /** A prefix `r` of the suffix `l` of `s` from `i` is cut from `s` when the
      characters before `l` and after `r` lie in the cut set. */
  lemma SliceCut(s: string, cutset: set<char>, i: int, l: string, r: string)
    requires 0 <= i <= |s| && l == s[i..] && |r| <= |l| && r == l[..|r|]
    requires forall k :: 0 <= k < i ==> s[k] in cutset
    requires forall k :: |r| <= k < |l| ==> l[k] in cutset
    ensures CutFrom(s, cutset, i, r)
  {
    assert s[i..i + |r|] == r;
    assert forall k :: i + |r| <= k < |s| ==> s[k] == l[k - i];
  }

  /** Text whose ends lie outside the cut set is its own trim. */
  lemma TrimKeepsCleanEnds(s: string, cutset: set<char>)
    requires s == [] || (s[0] !in cutset && s[|s| - 1] !in cutset)
    ensures Trim(s, cutset) == s
  {
    assert TrimLeft(s, cutset) == s;
  }

  /** Cut-set characters after a text whose ends are clean are trimmed away. */
  lemma TrimDropsTail(core: string, tail: string, cutset: set<char>)
    requires core != [] && core[0] !in cutset && core[|core| - 1] !in cutset
    requires forall k :: 0 <= k < |tail| ==> tail[k] in cutset
    ensures Trim(core + tail, cutset) == core
  {
    var s := core + tail;
    assert TrimLeft(s, cutset) == s;
    TrimRightDropsTail(core, tail, cutset);
  }

  lemma {:induction false} TrimRightDropsTail(core: string, tail: string, cutset: set<char>)
    requires core != [] && core[|core| - 1] !in cutset
    requires forall k :: 0 <= k < |tail| ==> tail[k] in cutset
    ensures TrimRight(core + tail, cutset) == core
    decreases |tail|
  {
    if tail == [] {
      assert core + tail == core;
    } else {
      var init := tail[..|tail| - 1];
      assert (core + tail)[..|core + tail| - 1] == core + init;
      TrimRightDropsTail(core, init, cutset);
    }
  }

  /** Trimming white space cannot create an occurrence of a pattern. */
  lemma TrimSpaceKeepsAbsence(t: string, pat: string, r: string)
    requires !Contains(t, pat) && r == TrimSpace(t)
    ensures !Contains(r, pat)
  {
    var l := TrimLeft(t, ASCII_SPACE);
    NoOccurrenceInSuffix(t, |t| - |l|, pat, l);
    assert r == TrimRight(l, ASCII_SPACE);
    NoOccurrenceInPrefix(l, |r|, pat, r);
  }

  /** The white-space characters of ASCII that TrimSpace removes. */
  const ASCII_SPACE: set<char> := {' ', '\t', '\n', '\r', '\U{0B}', '\U{0C}'}

  /** strings.TrimSpace on ASCII text. */
  function TrimSpace(s: string): string
  {
    Trim(s, ASCII_SPACE)
  }

  /** unicode.ToLower restricted to ASCII: only A to Z change. */
  function LowerChar(c: char): char
  {
    if 'A' <= c <= 'Z' then (c as int + 32) as char else c
  }

  predicate IsUpper(c: char)
  {
    'A' <= c <= 'Z'
  }

  /** strings.ToLower on ASCII text: same length, letters lowered one by one, and no
      upper-case letter left. */
  function ToLower(s: string): (r: string)
    ensures |r| == |s|
    ensures forall k :: 0 <= k < |s| ==> (IsUpper(s[k]) ==> r[k] as int == s[k] as int + 32)
    ensures forall k :: 0 <= k < |s| ==> (!IsUpper(s[k]) ==> r[k] == s[k])
    ensures forall c :: c in r ==> !IsUpper(c)
  {
    seq(|s|, k requires 0 <= k < |s| => LowerChar(s[k]))
  }
}
