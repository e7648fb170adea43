/**
 Relevance: which launches of the feed are considered at all.
 */
module Relevance {
  import opened Domain

  function LowerChar(c: char): char {
    if 'A' <= c <= 'Z' then (c as int + 32) as char else c
  }

  function ToLower(text: string): string {
    seq(|text|, i requires 0 <= i < |text| => LowerChar(text[i]))
  }

  predicate IsSpace(c: char) {
    c == ' ' || '\t' <= c <= '\r'
  }

  function TrimStart(text: string): string {
    if text != [] && IsSpace(text[0]) then TrimStart(text[1..]) else text
  }

  function TrimEnd(text: string): string {
    if text != [] && IsSpace(text[|text| - 1]) then TrimEnd(text[..|text| - 1]) else text
  }

  function Trim(text: string): string {
    TrimEnd(TrimStart(text))
  }

  lemma {:induction false} TrimStartDrops(text: string) returns (i: nat)
    ensures i <= |text| && TrimStart(text) == text[i..]
    ensures forall k :: 0 <= k < i ==> IsSpace(text[k])
    ensures i < |text| ==> !IsSpace(text[i])
  {
    i := 0;
    if text != [] && IsSpace(text[0]) {
      var rest := TrimStartDrops(text[1..]);
      i := rest + 1;
    }
  }

  lemma {:induction false} TrimEndDrops(text: string) returns (j: nat)
    ensures j <= |text| && TrimEnd(text) == text[..j]
    ensures forall k :: j <= k < |text| ==> IsSpace(text[k])
    ensures j > 0 ==> !IsSpace(text[j - 1])
  {
    j := |text|;
    if text != [] && IsSpace(text[|text| - 1]) {
      j := TrimEndDrops(text[..|text| - 1]);
    }
  }

  /** Trimming drops exactly the white space at both ends. */
  lemma TrimDropsOuterSpace(text: string) returns (i: nat, j: nat)
    ensures i <= j <= |text| && Trim(text) == text[i..j]
    ensures forall k :: 0 <= k < i || j <= k < |text| ==> IsSpace(text[k])
    ensures i < j ==> !IsSpace(text[i]) && !IsSpace(text[j - 1])
  {
    i := TrimStartDrops(text);
    var rest := text[i..];
    var n := TrimEndDrops(rest);
    j := i + n;
    forall k | j <= k < |text| ensures IsSpace(text[k]) {
      assert text[k] == rest[k - i];
    }
    assert n > 0 ==> rest[0] == text[i] && rest[n - 1] == text[j - 1];
  }

  predicate OccursAt(text: string, part: string, i: nat) {
    i + |part| <= |text| && text[i..i + |part|] == part
  }

  predicate Contains(text: string, part: string) {
    exists i: nat | i <= |text| :: OccursAt(text, part, i)
  }

  function Present(field: Option<string>): seq<string> {
    if field.Some? && field.value != "" then [field.value] else []
  }

  function SearchableFields(launch: Launch): seq<string> {
    Present(Some(launch.name)) + Present(launch.missionName) + Present(launch.missionDescription)
      + Present(launch.padName)
  }

  predicate ProviderMatches(launch: Launch, launchProvider: string) {
    ToLower(Trim(launch.provider)) == ToLower(Trim(launchProvider))
  }

  predicate TermMatches(launch: Launch, term: string) {
    exists field <- SearchableFields(launch) :: Contains(ToLower(field), ToLower(term))
  }

  /** The terms that match, in configuration order. */
  function MatchingTerms(launch: Launch, terms: seq<string>): seq<string> {
    if terms == [] then [] else
      var matched := MatchingTerms(launch, terms[..|terms| - 1]);
      var term := terms[|terms| - 1];
      if TermMatches(launch, term) then matched + [term] else matched
  }

  /** The matched terms of a relevant launch; empty for an irrelevant one. */
  function RelevantTerms(launch: Launch, launchProvider: string, terms: seq<string>): seq<string> {
    if ProviderMatches(launch, launchProvider) then MatchingTerms(launch, terms) else []
  }

  lemma {:induction false} MatchingTermsAreTheMatches(launch: Launch, terms: seq<string>, term: string)
    ensures term in MatchingTerms(launch, terms) <==> term in terms && TermMatches(launch, term)
  {
    if terms != [] {
      assert terms == terms[..|terms| - 1] + [terms[|terms| - 1]];
      MatchingTermsAreTheMatches(launch, terms[..|terms| - 1], term);
    }
  }

  /** A launch is relevant exactly when its provider matches and some include
      term occurs, case-insensitively, in some searchable field. */
  lemma RelevantIff(launch: Launch, launchProvider: string, terms: seq<string>)
    ensures RelevantTerms(launch, launchProvider, terms) != [] <==>
      ProviderMatches(launch, launchProvider) && exists term <- terms :: TermMatches(launch, term)
  {
    var matched := MatchingTerms(launch, terms);
    if matched != [] {
      MatchingTermsAreTheMatches(launch, terms, matched[0]);
    }
    forall term | term in terms && TermMatches(launch, term) ensures matched != [] {
      MatchingTermsAreTheMatches(launch, terms, term);
    }
  }

  datatype RelevanceResult = RelevanceResult(relevant: bool, matchedTerms: seq<string>)

  method CollectSearchableFields(launch: Launch) returns (fields: seq<string>)
    ensures fields == SearchableFields(launch)
  {
    fields := [];
    if launch.name != "" {
      fields := fields + [launch.name];
    }
    var optionals := [launch.missionName, launch.missionDescription, launch.padName];
    for i := 0 to |optionals|
      invariant fields == Present(Some(launch.name))
        + (if i > 0 then Present(optionals[0]) else [])
        + (if i > 1 then Present(optionals[1]) else [])
        + (if i > 2 then Present(optionals[2]) else [])
    {
      if optionals[i].Some? && optionals[i].value != "" {
        fields := fields + [optionals[i].value];
      }
    }
  }

  /** `None` is the exception raised for an empty list of include terms. */
  method EvaluateRelevance(launch: Launch, launchProvider: string, includeTerms: seq<string>)
    returns (r: Option<RelevanceResult>)
    ensures r.None? <==> includeTerms == []
    ensures r.Some? ==> r.value.matchedTerms == RelevantTerms(launch, launchProvider, includeTerms)
    ensures r.Some? ==> (r.value.relevant <==> r.value.matchedTerms != [])
  {
    if includeTerms == [] {
      return None;
    }
    if ToLower(Trim(launch.provider)) != ToLower(Trim(launchProvider)) {
      return Some(RelevanceResult(false, []));
    }
    var fields := CollectSearchableFields(launch);
    var fieldsLower: seq<string> := [];
    for i := 0 to |fields|
      invariant |fieldsLower| == i
      invariant forall j :: 0 <= j < i ==> fieldsLower[j] == ToLower(fields[j])
    {
      fieldsLower := fieldsLower + [ToLower(fields[i])];
    }
    var matched: seq<string> := [];
    for i := 0 to |includeTerms|
      invariant matched == MatchingTerms(launch, includeTerms[..i])
    {
      var termLower := ToLower(includeTerms[i]);
      var found := exists field <- fieldsLower :: Contains(field, termLower);
      assert found <==> TermMatches(launch, includeTerms[i]) by {
        assert forall j :: 0 <= j < |fields| ==> fields[j] in fields && fieldsLower[j] in fieldsLower;
        assert fields == SearchableFields(launch);
      }
      if found {
        matched := matched + [includeTerms[i]];
      }
      assert includeTerms[..i + 1][..i] == includeTerms[..i];
    }
    assert includeTerms[..|includeTerms|] == includeTerms;
    if matched == [] {
      return Some(RelevanceResult(false, []));
    }
    return Some(RelevanceResult(true, matched));
  }
}
