/**
 Relevance told character by character: which texts count as the same, where a
 term occurs, and which terms of the configuration are reported.
 */
module RelevanceLaws {
  import opened Domain
  import opened Relevance

  // ----- characters -----

  predicate SpaceCharacter(c: char) {
    c == ' ' || c == '\t' || c == '\n' || c == '\r' || c == '\U{000B}' || c == '\U{000C}'
  }

  /** The same character, or the two cases of one ASCII letter. */
  predicate SameLetter(c: char, d: char) {
    || c == d
    || ('A' <= c <= 'Z' && d as int == c as int + 32)
    || ('A' <= d <= 'Z' && c as int == d as int + 32)
  }

  predicate SameButCase(a: string, b: string) {
    |a| == |b| && forall i :: 0 <= i < |a| ==> SameLetter(a[i], b[i])
  }

  lemma SpaceIff(c: char)
    ensures IsSpace(c) <==> SpaceCharacter(c)
  {
  }

  lemma LowerIff(c: char, d: char)
    ensures LowerChar(c) == LowerChar(d) <==> SameLetter(c, d)
  {
  }

  lemma SameButCaseIff(a: string, b: string)
    ensures ToLower(a) == ToLower(b) <==> SameButCase(a, b)
  {
    forall i | 0 <= i < |a| && i < |b| ensures ToLower(a)[i] == ToLower(b)[i] <==> SameLetter(a[i], b[i]) {
      LowerIff(a[i], b[i]);
    }
    assert |ToLower(a)| == |a| && |ToLower(b)| == |b|;
  }

  // ----- occurrences -----

  /** `part` stands in `text` from position `i` on, whatever the case of its letters. */
  predicate StandsAt(text: string, part: string, i: nat) {
    i + |part| <= |text| && SameButCase(text[i..i + |part|], part)
  }

  lemma StandsAtIff(text: string, part: string, i: nat)
    ensures OccursAt(ToLower(text), ToLower(part), i) <==> StandsAt(text, part, i)
  {
    if i + |part| <= |text| {
      SameButCaseIff(text[i..i + |part|], part);
      assert ToLower(text)[i..i + |part|] == ToLower(text[i..i + |part|]);
    }
  }

  lemma ContainsIff(text: string, part: string)
    ensures Contains(ToLower(text), ToLower(part)) <==> exists i: nat :: StandsAt(text, part, i)
  {
    forall i: nat ensures OccursAt(ToLower(text), ToLower(part), i) <==> StandsAt(text, part, i) {
      StandsAtIff(text, part, i);
    }
    if i: nat :| StandsAt(text, part, i) {
      assert OccursAt(ToLower(text), ToLower(part), i);
    }
  }

  // ----- fields -----

  /** A text that is searched: the name, the mission's name or description, the name of
      the pad; not if it is empty. */
  predicate Searched(launch: Launch, field: string) {
    && field != ""
    && (field == launch.name || launch.missionName == Some(field) || launch.missionDescription == Some(field)
        || launch.padName == Some(field))
  }

  lemma SearchedIff(launch: Launch, field: string)
    ensures field in SearchableFields(launch) <==> Searched(launch, field)
  {
  }

  ghost predicate Mentions(launch: Launch, term: string) {
    exists field: string, i: nat :: Searched(launch, field) && StandsAt(field, term, i)
  }

  lemma MentionsIff(launch: Launch, term: string)
    ensures TermMatches(launch, term) <==> Mentions(launch, term)
  {
    forall field: string ensures field in SearchableFields(launch) <==> Searched(launch, field) {
      SearchedIff(launch, field);
    }
    forall field: string
      ensures Contains(ToLower(field), ToLower(term)) <==> exists i: nat :: StandsAt(field, term, i)
    {
      ContainsIff(field, term);
    }
  }

  // ----- the provider -----

  /** What is left of `text` without the white space around it. */
  ghost predicate IsCore(text: string, core: string) {
    exists i: nat, j: nat :: CoreAt(text, i, j) && core == text[i..j]
  }

  ghost predicate CoreAt(text: string, i: nat, j: nat) {
    && i <= j <= |text|
    && (forall k :: 0 <= k < i || j <= k < |text| ==> SpaceCharacter(text[k]))
    && (i < j ==> !SpaceCharacter(text[i]) && !SpaceCharacter(text[j - 1]))
  }

  lemma CoreIff(text: string, core: string)
    ensures Trim(text) == core <==> IsCore(text, core)
  {
    var i, j := TrimDropsOuterSpace(text);
    forall k | 0 <= k < |text| ensures IsSpace(text[k]) <==> SpaceCharacter(text[k]) {
      SpaceIff(text[k]);
    }
    assert CoreAt(text, i, j);
    forall x: nat, y: nat | CoreAt(text, x, y) ensures text[x..y] == text[i..j] {
      OneCore(text, i, j, x, y);
    }
  }

  lemma OneCore(text: string, i: nat, j: nat, x: nat, y: nat)
    requires CoreAt(text, i, j) && CoreAt(text, x, y)
    ensures text[i..j] == text[x..y]
  {
    if i < j {
      assert !SpaceCharacter(text[i]) && !SpaceCharacter(text[j - 1]);
    }
    if x < y {
      assert !SpaceCharacter(text[x]) && !SpaceCharacter(text[y - 1]);
    }
  }

  /** The same provider, up to the case of its letters and white space around it. */
  ghost predicate SameProvider(a: string, b: string) {
    exists x, y :: IsCore(a, x) && IsCore(b, y) && SameButCase(x, y)
  }

  lemma SameProviderIff(launch: Launch, launchProvider: string)
    ensures ProviderMatches(launch, launchProvider) <==> SameProvider(launch.provider, launchProvider)
  {
    var a, b := Trim(launch.provider), Trim(launchProvider);
    forall x ensures IsCore(launch.provider, x) <==> x == a {
      CoreIff(launch.provider, x);
    }
    forall y ensures IsCore(launchProvider, y) <==> y == b {
      CoreIff(launchProvider, y);
    }
    SameButCaseIff(a, b);
    if SameButCase(a, b) {
      assert IsCore(launch.provider, a) && IsCore(launchProvider, b);
    }
  }

  // ----- the matched terms -----

  /** A term is reported if and only if the provider is the configured one, the term is
      configured, and the launch mentions it. */
  lemma ReportedIff(launch: Launch, launchProvider: string, terms: seq<string>, term: string)
    ensures term in RelevantTerms(launch, launchProvider, terms)
      <==> (SameProvider(launch.provider, launchProvider) && term in terms && Mentions(launch, term))
  {
    SameProviderIff(launch, launchProvider);
    MatchingTermsAreTheMatches(launch, terms, term);
    MentionsIff(launch, term);
  }

  /** Terms are reported in the order of the configuration, as often as they stand in it:
      what is reported for two lists one after the other is what is reported for each. */
  lemma {:induction false} ReportedInOrder(launch: Launch, launchProvider: string, a: seq<string>, b: seq<string>)
    ensures RelevantTerms(launch, launchProvider, a + b)
      == RelevantTerms(launch, launchProvider, a) + RelevantTerms(launch, launchProvider, b)
  {
    if b == [] {
      assert a + b == a;
    } else {
      ReportedInOrder(launch, launchProvider, a, b[..|b| - 1]);
      assert (a + b)[..|a + b| - 1] == a + b[..|b| - 1];
    }
  }

  lemma ReportedAlone(launch: Launch, launchProvider: string, term: string)
    ensures RelevantTerms(launch, launchProvider, [term])
      == if SameProvider(launch.provider, launchProvider) && Mentions(launch, term) then [term] else []
  {
    SameProviderIff(launch, launchProvider);
    MentionsIff(launch, term);
    assert MatchingTerms(launch, [term][..0]) == [];
    assert [] + [term] == [term];
  }
}
