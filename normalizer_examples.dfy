/** Worked examples of the two formatters on concrete titles and names. Each
    example is split into one lemma per string operation of the formatter, so that
    the verifier evaluates one operation at a time. */
module NormalizerExamples {
  import opened GoStrings
  import opened Normalizer

  // "Jessie Ware": lower-cased, the space becomes a hyphen.

  lemma JessieWareLowered()
    ensures TrimSpace(ToLower("Jessie Ware")) == "jessie ware"
  {
    assert ToLower("Jessie Ware") == "jessie ware";
    TrimKeepsCleanEnds("jessie ware", ASCII_SPACE);
  }

  lemma JessieWareSpaces()
    ensures Substitutes("jessie ware", ' ', '-', "jessie-ware")
  {
  }

  lemma JessieWareHyphenated()
    ensures ReplaceAll("jessie ware", " ", "-") == "jessie-ware"
  {
    JessieWareSpaces();
    ReplaceCharMatches("jessie ware", ' ', '-', "jessie-ware");
  }

  lemma JessieWareUntouched()
    ensures ReplaceAll("jessie-ware", "/", "_") == "jessie-ware"
    ensures ReplaceAll("jessie-ware", "38", "and") == "jessie-ware"
  {
    ReplaceAllAbsentChar("jessie-ware", "/", "_", '/');
    ReplaceAllAbsentChar("jessie-ware", "38", "and", '3');
  }

  lemma JessieWareFiltered(s: string)
    requires s == "jessie-ware"
    ensures DeleteDisallowed(s) == s
  {
    DeleteDisallowedKeepsCleanText(s);
  }

  lemma JessieWareTrimmed()
    ensures Trim("jessie-ware", HYPHEN) == "jessie-ware"
  {
    TrimKeepsCleanEnds("jessie-ware", HYPHEN);
  }

  lemma JessieWareSlug()
    ensures FormatArtistName("Jessie Ware") == "jessie-ware"
  {
    JessieWareLowered();
    JessieWareHyphenated();
    JessieWareUntouched();
    JessieWareFiltered("jessie-ware");
    JessieWareTrimmed();
  }

  // "AC/DC": the slash becomes an underscore.

  lemma AcDcLowered()
    ensures TrimSpace(ToLower("AC/DC")) == "ac/dc"
  {
    assert ToLower("AC/DC") == "ac/dc";
    TrimKeepsCleanEnds("ac/dc", ASCII_SPACE);
  }

  lemma AcDcHasNoSpace(s: string)
    requires s == "ac/dc"
    ensures ReplaceAll(s, " ", "-") == s
  {
    ReplaceAllAbsentChar(s, " ", "-", ' ');
  }

  lemma AcDcSlash()
    ensures Substitutes("ac/dc", '/', '_', "ac_dc")
  {
  }

  lemma AcDcUnderscored()
    ensures ReplaceAll("ac/dc", "/", "_") == "ac_dc"
  {
    AcDcSlash();
    ReplaceCharMatches("ac/dc", '/', '_', "ac_dc");
  }

  lemma AcDcUntouched()
    ensures ReplaceAll("ac_dc", "38", "and") == "ac_dc"
  {
    ReplaceAllAbsentChar("ac_dc", "38", "and", '3');
  }

  lemma AcDcFiltered()
    ensures DeleteDisallowed("ac_dc") == "ac_dc"
  {
    DeleteDisallowedKeepsCleanText("ac_dc");
  }

  lemma AcDcTrimmed()
    ensures Trim("ac_dc", HYPHEN) == "ac_dc"
  {
    TrimKeepsCleanEnds("ac_dc", HYPHEN);
  }

  lemma AcDcSlug()
    ensures FormatArtistName("AC/DC") == "ac_dc"
  {
    AcDcLowered();
    AcDcHasNoSpace("ac/dc");
    AcDcUnderscored();
    AcDcUntouched();
    AcDcFiltered();
    AcDcTrimmed();
  }

  // "Whats Your Pleasure" by "Jessie Ware", the example in the scrape loop's own
  // comment: no qualifier applies and the spaces become hyphens.

  lemma PleasureLowered()
    ensures TrimSpace(ToLower("Whats Your Pleasure")) == "whats your pleasure"
  {
    assert ToLower("Whats Your Pleasure") == "whats your pleasure";
    TrimKeepsCleanEnds("whats your pleasure", ASCII_SPACE);
  }

  lemma PleasureHasNoEpSuffix()
    ensures ReplaceAll("whats your pleasure", " ep", "") == "whats your pleasure"
  {
    AbsentWhenPairMissing("whats your pleasure", " ep");
    ReplaceAllWithoutOccurrence("whats your pleasure", " ep", "");
  }

  lemma PleasureHasNoDeluxe(s: string)
    requires s == "whats your pleasure"
    ensures ReplaceAll(s, "deluxe", "") == s
  {
    ReplaceAllAbsentChar(s, "deluxe", "", 'd');
  }

  lemma PleasureHasNoSingle(s: string)
    requires s == "whats your pleasure"
    ensures ReplaceAll(s, "single", "") == s
  {
    ReplaceAllAbsentChar(s, "single", "", 'i');
  }

  lemma PleasureHasNoRemastered(s: string)
    requires s == "whats your pleasure"
    ensures ReplaceAll(s, "remastered", "") == s
  {
    ReplaceAllAbsentChar(s, "remastered", "", 'm');
  }

  lemma PleasureHasNoEdition(s: string)
    requires s == "whats your pleasure"
    ensures ReplaceAll(s, "edition", "") == s
  {
    ReplaceAllAbsentChar(s, "edition", "", 'd');
  }

  lemma PleasureHasNoExpanded(s: string)
    requires s == "whats your pleasure"
    ensures ReplaceAll(s, "expanded", "") == s
  {
    ReplaceAllAbsentChar(s, "expanded", "", 'x');
  }

  lemma PleasureHasNoVersion(s: string)
    requires s == "whats your pleasure"
    ensures ReplaceAll(s, "version", "") == s
  {
    ReplaceAllAbsentChar(s, "version", "", 'v');
  }

  lemma PleasureHasNoCode(s: string)
    requires s == "whats your pleasure"
    ensures ReplaceAll(s, "38", "and") == s
  {
    ReplaceAllAbsentChar(s, "38", "and", '3');
  }

  lemma PleasureSpaces()
    ensures Substitutes("whats your pleasure", ' ', '-', "whats-your-pleasure")
  {
  }

  lemma PleasureHyphenated()
    ensures ReplaceAll("whats your pleasure", " ", "-") == "whats-your-pleasure"
  {
    PleasureSpaces();
    ReplaceCharMatches("whats your pleasure", ' ', '-', "whats-your-pleasure");
  }

  lemma PleasureClean()
    ensures '/' !in "whats-your-pleasure" && AllKept("whats-your-pleasure")
  {
  }

  lemma PleasureFinished()
    ensures ReplaceAll("whats-your-pleasure", "/", "_") == "whats-your-pleasure"
    ensures DeleteDisallowed("whats-your-pleasure") == "whats-your-pleasure"
  {
    PleasureClean();
    ReplaceAllAbsentChar("whats-your-pleasure", "/", "_", '/');
    DeleteDisallowedKeepsCleanText("whats-your-pleasure");
  }

  lemma PleasureTrimmed()
    ensures Trim("whats-your-pleasure", HYPHEN) == "whats-your-pleasure"
  {
    TrimKeepsCleanEnds("whats-your-pleasure", HYPHEN);
  }

  lemma WhatsYourPleasureSlug()
    ensures FormatAlbumName("Whats Your Pleasure") == "whats-your-pleasure"
  {
    PleasureLowered();
    PleasureHasNoEpSuffix();
    PleasureHasNoDeluxe("whats your pleasure");
    PleasureHasNoSingle("whats your pleasure");
    PleasureHasNoRemastered("whats your pleasure");
    PleasureHasNoEdition("whats your pleasure");
    PleasureHasNoExpanded("whats your pleasure");
    PleasureHasNoVersion("whats your pleasure");
    PleasureHasNoCode("whats your pleasure");
    PleasureHyphenated();
    PleasureFinished();
    PleasureTrimmed();
  }

  // "Blue Deluxe Edition": both qualifiers go, leaving two spaces that become
  // hyphens and are trimmed.

  lemma BlueDeluxeLowered()
    ensures TrimSpace(ToLower("Blue Deluxe Edition")) == "blue deluxe edition"
  {
    assert ToLower("Blue Deluxe Edition") == "blue deluxe edition";
    TrimKeepsCleanEnds("blue deluxe edition", ASCII_SPACE);
  }

  lemma BlueDeluxeHasNoEpSuffix()
    ensures ReplaceAll("blue deluxe edition", " ep", "") == "blue deluxe edition"
  {
    ReplaceAllAbsentChar("blue deluxe edition", " ep", "", 'p');
  }

  lemma BlueDeluxeFindsDeluxe(s: string)
    requires s == "blue deluxe edition"
    ensures Index(s, "deluxe") == 5
  {
    IndexAtFirstChar(s, "deluxe", 5);
  }

  lemma BlueDeluxeHasOneDeluxe(s: string)
    requires s == "blue deluxe edition"
    ensures !Contains(s[11..], "deluxe")
  {
    AbsentWhenCharMissing(s[11..], "deluxe", 'l');
  }

  lemma BlueDeluxeSlices()
    ensures "blue deluxe edition"[..5] + "" + "blue deluxe edition"[11..] == "blue  edition"
  {
  }

  lemma BlueDeluxeDropsDeluxe(s: string, t: string)
    requires s == "blue deluxe edition" && t == "blue  edition"
    ensures ReplaceAll(s, "deluxe", "") == t
  {
    BlueDeluxeFindsDeluxe(s);
    BlueDeluxeHasOneDeluxe(s);
    BlueDeluxeSlices();
    ReplaceAllOnce(s, "deluxe", "");
  }

  lemma BlueEditionUntouched()
    ensures ReplaceAll("blue  edition", "single", "") == "blue  edition"
    ensures ReplaceAll("blue  edition", "remastered", "") == "blue  edition"
  {
    ReplaceAllAbsentChar("blue  edition", "single", "", 's');
    ReplaceAllAbsentChar("blue  edition", "remastered", "", 'r');
  }

  lemma BlueEditionFindsEdition(s: string)
    requires s == "blue  edition"
    ensures Index(s, "edition") == 6
    ensures !Contains(s[13..], "edition")
  {
    AbsentWhenCharMissing(s[..12], "edition", 'n');
    IndexAtNoEarlier(s, "edition", 6);
  }

  lemma BlueEditionDropsEdition(s: string, t: string)
    requires s == "blue  edition" && t == "blue  "
    ensures ReplaceAll(s, "edition", "") == t
  {
    BlueEditionFindsEdition(s);
    ReplaceAllOnce(s, "edition", "");
    assert s[..6] == t;
  }

  lemma BlueSpacesUntouched()
    ensures ReplaceAll("blue  ", "expanded", "") == "blue  "
    ensures ReplaceAll("blue  ", "version", "") == "blue  "
    ensures ReplaceAll("blue  ", "38", "and") == "blue  "
  {
    ReplaceAllAbsentChar("blue  ", "expanded", "", 'x');
    ReplaceAllAbsentChar("blue  ", "version", "", 'v');
    ReplaceAllAbsentChar("blue  ", "38", "and", '3');
  }

  lemma BlueSpaces()
    ensures Substitutes("blue  ", ' ', '-', "blue--")
  {
  }

  lemma BlueSpacesHyphenated()
    ensures ReplaceAll("blue  ", " ", "-") == "blue--"
    ensures ReplaceAll("blue--", "/", "_") == "blue--"
  {
    BlueSpaces();
    ReplaceCharMatches("blue  ", ' ', '-', "blue--");
    ReplaceAllAbsentChar("blue--", "/", "_", '/');
  }

  lemma BlueHyphensFiltered()
    ensures DeleteDisallowed("blue--") == "blue--"
  {
    DeleteDisallowedKeepsCleanText("blue--");
  }

  lemma BlueHyphensTrimmed(s: string)
    requires s == "blue--"
    ensures Trim(s, HYPHEN) == "blue"
  {
    TrimDropsTail("blue", "--", HYPHEN);
    assert "blue" + "--" == s;
  }

  lemma BlueDeluxeEditionSlug()
    ensures FormatAlbumName("Blue Deluxe Edition") == "blue"
  {
    var s0 := TrimSpace(ToLower("Blue Deluxe Edition"));
    assert s0 == "blue deluxe edition" by { BlueDeluxeLowered(); }
    var s1 := ReplaceAll(s0, " ep", "");
    assert s1 == "blue deluxe edition" by { BlueDeluxeHasNoEpSuffix(); }
    var s2 := ReplaceAll(s1, "deluxe", "");
    assert s2 == "blue  edition" by { BlueDeluxeDropsDeluxe(s1, "blue  edition"); }
    var s4 := ReplaceAll(ReplaceAll(s2, "single", ""), "remastered", "");
    assert s4 == "blue  edition" by { BlueEditionUntouched(); }
    var s5 := ReplaceAll(s4, "edition", "");
    assert s5 == "blue  " by { BlueEditionDropsEdition(s4, "blue  "); }
    var s8 := ReplaceAll(ReplaceAll(ReplaceAll(s5, "expanded", ""), "version", ""), "38", "and");
    assert s8 == "blue  " by { BlueSpacesUntouched(); }
    var s10 := ReplaceAll(ReplaceAll(s8, " ", "-"), "/", "_");
    assert s10 == "blue--" by { BlueSpacesHyphenated(); }
    assert DeleteDisallowed(s10) == "blue--" by { BlueHyphensFiltered(); }
    BlueHyphensTrimmed(DeleteDisallowed(s10));
  }

  // "Blue EP": the " ep" qualifier is dropped.

  lemma BlueEpLowered()
    ensures TrimSpace(ToLower("Blue EP")) == "blue ep"
  {
    assert ToLower("Blue EP") == "blue ep";
    TrimKeepsCleanEnds("blue ep", ASCII_SPACE);
  }

  lemma BlueEpQualifierDropped()
    ensures ReplaceAll("blue ep", " ep", "") == "blue"
  {
    IndexAtFirstChar("blue ep", " ep", 4);
    ReplaceAllAbsentChar("", " ep", "", 'e');
    ReplaceAllAt("blue ep", " ep", "");
  }

  lemma BlueHasNoDeluxe(s: string)
    requires s == "blue"
    ensures ReplaceAll(s, "deluxe", "") == s
  {
    ReplaceAllAbsentChar(s, "deluxe", "", 'd');
  }

  lemma BlueHasNoSingle(s: string)
    requires s == "blue"
    ensures ReplaceAll(s, "single", "") == s
  {
    ReplaceAllAbsentChar(s, "single", "", 's');
  }

  lemma BlueHasNoRemastered(s: string)
    requires s == "blue"
    ensures ReplaceAll(s, "remastered", "") == s
  {
    ReplaceAllAbsentChar(s, "remastered", "", 'r');
  }

  lemma BlueHasNoEdition(s: string)
    requires s == "blue"
    ensures ReplaceAll(s, "edition", "") == s
  {
    ReplaceAllAbsentChar(s, "edition", "", 'd');
  }

  lemma BlueHasNoExpanded(s: string)
    requires s == "blue"
    ensures ReplaceAll(s, "expanded", "") == s
  {
    ReplaceAllAbsentChar(s, "expanded", "", 'x');
  }

  lemma BlueHasNoVersion(s: string)
    requires s == "blue"
    ensures ReplaceAll(s, "version", "") == s
  {
    ReplaceAllAbsentChar(s, "version", "", 'v');
  }

  lemma BlueHasNoCode(s: string)
    requires s == "blue"
    ensures ReplaceAll(s, "38", "and") == s
  {
    ReplaceAllAbsentChar(s, "38", "and", '3');
  }

  lemma BlueHasNoSpace(s: string)
    requires s == "blue"
    ensures ReplaceAll(s, " ", "-") == s
  {
    ReplaceAllAbsentChar(s, " ", "-", ' ');
  }

  lemma BlueHasNoSlash(s: string)
    requires s == "blue"
    ensures ReplaceAll(s, "/", "_") == s
  {
    ReplaceAllAbsentChar(s, "/", "_", '/');
  }

  lemma BlueFiltered()
    ensures DeleteDisallowed("blue") == "blue"
  {
    DeleteDisallowedKeepsCleanText("blue");
  }

  lemma BlueTrimmed()
    ensures Trim("blue", HYPHEN) == "blue"
  {
    TrimKeepsCleanEnds("blue", HYPHEN);
  }

  lemma BlueEpSlug()
    ensures FormatAlbumName("Blue EP") == "blue"
  {
    BlueEpLowered();
    BlueEpQualifierDropped();
    BlueHasNoDeluxe("blue");
    BlueHasNoSingle("blue");
    BlueHasNoRemastered("blue");
    BlueHasNoEdition("blue");
    BlueHasNoExpanded("blue");
    BlueHasNoVersion("blue");
    BlueHasNoCode("blue");
    BlueHasNoSpace("blue");
    BlueHasNoSlash("blue");
    BlueFiltered();
    BlueTrimmed();
  }

  // "Rock &#38; Roll", as the iTunes library escapes the ampersand: the character
  // code "38" becomes "and" and the leftover "&#" and ";" are deleted.

  lemma RockLowered()
    ensures TrimSpace(ToLower("Rock &#38; Roll")) == "rock &#38; roll"
  {
    assert ToLower("Rock &#38; Roll") == "rock &#38; roll";
    TrimKeepsCleanEnds("rock &#38; roll", ASCII_SPACE);
  }

  lemma RockHasNoEpSuffix(s: string)
    requires s == "rock &#38; roll"
    ensures ReplaceAll(s, " ep", "") == s
  {
    ReplaceAllAbsentChar(s, " ep", "", 'p');
  }

  lemma RockHasNoDeluxe(s: string)
    requires s == "rock &#38; roll"
    ensures ReplaceAll(s, "deluxe", "") == s
  {
    ReplaceAllAbsentChar(s, "deluxe", "", 'd');
  }

  lemma RockHasNoSingle(s: string)
    requires s == "rock &#38; roll"
    ensures ReplaceAll(s, "single", "") == s
  {
    ReplaceAllAbsentChar(s, "single", "", 's');
  }

  lemma RockHasNoRemastered(s: string)
    requires s == "rock &#38; roll"
    ensures ReplaceAll(s, "remastered", "") == s
  {
    ReplaceAllAbsentChar(s, "remastered", "", 'm');
  }

  lemma RockHasNoEdition(s: string)
    requires s == "rock &#38; roll"
    ensures ReplaceAll(s, "edition", "") == s
  {
    ReplaceAllAbsentChar(s, "edition", "", 'd');
  }

  lemma RockHasNoExpanded(s: string)
    requires s == "rock &#38; roll"
    ensures ReplaceAll(s, "expanded", "") == s
  {
    ReplaceAllAbsentChar(s, "expanded", "", 'x');
  }

  lemma RockHasNoVersion(s: string)
    requires s == "rock &#38; roll"
    ensures ReplaceAll(s, "version", "") == s
  {
    ReplaceAllAbsentChar(s, "version", "", 'v');
  }

  lemma RockCodeFound()
    ensures Index("rock &#38; roll", "38") == 7
    ensures !Contains("rock &#38; roll"[9..], "38")
  {
    IndexAtFirstChar("rock &#38; roll", "38", 7);
    AbsentWhenCharMissing("rock &#38; roll"[9..], "38", '3');
  }

  lemma RockCodeSlices()
    ensures "rock &#38; roll"[..7] + "and" + "rock &#38; roll"[9..] == "rock &#and; roll"
  {
  }

  lemma RockCodeReplaced()
    ensures ReplaceAll("rock &#38; roll", "38", "and") == "rock &#and; roll"
  {
    RockCodeFound();
    ReplaceAllOnce("rock &#38; roll", "38", "and");
    RockCodeSlices();
  }

  lemma RockSpaces()
    ensures Substitutes("rock &#and; roll", ' ', '-', "rock-&#and;-roll")
  {
  }

  lemma RockHyphenated()
    ensures ReplaceAll("rock &#and; roll", " ", "-") == "rock-&#and;-roll"
  {
    RockSpaces();
    ReplaceCharMatches("rock &#and; roll", ' ', '-', "rock-&#and;-roll");
  }

  lemma RockUntouched()
    ensures ReplaceAll("rock-&#and;-roll", "/", "_") == "rock-&#and;-roll"
  {
    ReplaceAllAbsentChar("rock-&#and;-roll", "/", "_", '/');
  }

  lemma RockPieces()
    ensures "rock-&#and;-roll" == "rock-" + "&#" + "and" + ";" + "-roll"
    ensures "rock-and-roll" == "rock-" + "and" + "-roll"
    ensures NoneKept("&#") && NoneKept(";")
    ensures AllKept("rock-") && AllKept("and") && AllKept("-roll")
  {
  }

  lemma RockFiltered()
    ensures DeleteDisallowed("rock-&#and;-roll") == "rock-and-roll"
  {
    RockPieces();
    DeleteDisallowedDropsTwo("rock-", "&#", "and", ";", "-roll");
  }

  lemma RockTrimmed()
    ensures Trim("rock-and-roll", HYPHEN) == "rock-and-roll"
  {
    TrimKeepsCleanEnds("rock-and-roll", HYPHEN);
  }

  lemma RockAndRollSlug()
    ensures FormatAlbumName("Rock &#38; Roll") == "rock-and-roll"
  {
    RockLowered();
    RockHasNoEpSuffix("rock &#38; roll");
    RockHasNoDeluxe("rock &#38; roll");
    RockHasNoSingle("rock &#38; roll");
    RockHasNoRemastered("rock &#38; roll");
    RockHasNoEdition("rock &#38; roll");
    RockHasNoExpanded("rock &#38; roll");
    RockHasNoVersion("rock &#38; roll");
    RockCodeReplaced();
    RockHyphenated();
    RockUntouched();
    RockFiltered();
    RockTrimmed();
  }

  // "3.8" formats to "38", which formats again to "and": applying the artist
  // formatter twice can change a slug.

  lemma ThreeDotEightLowered()
    ensures TrimSpace(ToLower("3.8")) == "3.8"
  {
    assert ToLower("3.8") == "3.8";
    TrimKeepsCleanEnds("3.8", ASCII_SPACE);
  }

  lemma ThreeDotEightUntouched()
    ensures ReplaceAll("3.8", " ", "-") == "3.8"
    ensures ReplaceAll("3.8", "/", "_") == "3.8"
  {
    ReplaceAllAbsentChar("3.8", " ", "-", ' ');
    ReplaceAllAbsentChar("3.8", "/", "_", '/');
  }

  lemma ThreeDotEightKeepsDigits()
    ensures ReplaceAll("3.8", "38", "and") == "3.8"
  {
    AbsentWhenPairMissing("3.8", "38");
    ReplaceAllWithoutOccurrence("3.8", "38", "and");
  }

  lemma ThreeDotEightFiltered()
    ensures DeleteDisallowed("3.8") == "38"
  {
  }

  lemma ThirtyEightLowered()
    ensures TrimSpace(ToLower("38")) == "38"
  {
    assert ToLower("38") == "38";
    TrimKeepsCleanEnds("38", ASCII_SPACE);
  }

  lemma ThirtyEightUntouched()
    ensures ReplaceAll("38", " ", "-") == "38"
    ensures ReplaceAll("38", "/", "_") == "38"
  {
    ReplaceAllAbsentChar("38", " ", "-", ' ');
    ReplaceAllAbsentChar("38", "/", "_", '/');
  }

  lemma ThirtyEightTrimmed()
    ensures Trim("38", HYPHEN) == "38"
  {
    TrimKeepsCleanEnds("38", HYPHEN);
  }

  lemma ThirtyEightReplaced()
    ensures ReplaceAll("38", "38", "and") == "and"
  {
    IndexAt("38", "38", 0);
    ReplaceAllAbsentChar("", "38", "and", '3');
    ReplaceAllAt("38", "38", "and");
  }

  lemma AndFiltered()
    ensures DeleteDisallowed("and") == "and"
  {
    DeleteDisallowedKeepsCleanText("and");
  }

  lemma AndTrimmed()
    ensures Trim("and", HYPHEN) == "and"
  {
    TrimKeepsCleanEnds("and", HYPHEN);
  }

  lemma ThreeDotEightSlug()
    ensures FormatArtistName("3.8") == "38"
  {
    ThreeDotEightLowered();
    ThreeDotEightUntouched();
    ThreeDotEightKeepsDigits();
    ThreeDotEightFiltered();
    ThirtyEightTrimmed();
  }

  lemma ThirtyEightSlug()
    ensures FormatArtistName("38") == "and"
  {
    ThirtyEightLowered();
    ThirtyEightUntouched();
    ThirtyEightReplaced();
    AndFiltered();
    AndTrimmed();
  }

  lemma ArtistFormattingNotIdempotent()
    ensures FormatArtistName(FormatArtistName("3.8")) != FormatArtistName("3.8")
  {
    ThreeDotEightSlug();
    ThirtyEightSlug();
  }
}
