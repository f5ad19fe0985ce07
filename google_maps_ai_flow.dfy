/** The regex side of `google_maps_ai_flow.py`, the earlier AI scraper: the
    same coordinates and record as `lead_hunter_ai.py`, with a simpler regex
    path used when the AI answer did not parse. */
module GoogleMapsAiFlow {
  import opened Wrappers
  import opened Text
  import opened Patterns
  import opened ExportUtils
  import LeadHunter
  import LeadHunterAi

  /** The phone patterns of the simpler fallback, in order. */
  const FallbackPatterns: seq<Pattern> := [IndianPhone, PlusNinetyOnePhone, LandlinePhone]

  /** `extract_phone_fallback(text)`: the leftmost match of the first pattern
      that matches anywhere, as matched (not stripped); None if none does. */
  method ExtractPhoneFallback(text: string) returns (phone: Option<string>)
    ensures phone == FirstMatched(FallbackPatterns, text)
  {
    for i := 0 to |FallbackPatterns|
      invariant i <= FirstMatching(FallbackPatterns, text)
    {
      var found := Search(FallbackPatterns[i], text);
      if found.Some? {
        FirstMatchedAt(FallbackPatterns, text, i);
        return Some(Matched(text, found.value));
      }
    }
    return None;
  }

  /** The rating of the regex path: the first "d.d" of the page text, with no
      range check, or "N/A". */
  function RegexRating(pageText: string): (r: string)
    ensures r == "N/A" || (IsDigitDotDigit(r) && Contains(pageText, r))
    ensures r == "N/A" <==> Search(DigitDotDigit, pageText).None?
    ensures Search(DigitDotDigit, pageText).Some? ==>
      var h := Search(DigitDotDigit, pageText).value;
      r == h.group1 && r == pageText[h.start..h.end]
      && forall i :: 0 <= i < h.start ==> MatchAt(DigitDotDigit, pageText, i).None?
  {
    match Search(DigitDotDigit, pageText)
    case Some(h) =>
      DigitDotDigitFound(pageText);
      assert OccursAt(pageText, h.group1, h.start);
      h.group1
    case None => "N/A"
  }

  /** The review count of the regex path: the first "(n)" of the page text,
      commas removed, or "N/A". */
  function RegexReviews(pageText: string): (r: string)
    ensures r == "N/A" || (r != [] && AllDigits(r))
    ensures r == "N/A" <==> Search(ParenCount, pageText).None?
    ensures Search(ParenCount, pageText).Some? ==>
      var h := Search(ParenCount, pageText).value;
      r == RemoveChar(h.group1, ',') && pageText[h.start..h.end] == "(" + h.group1 + ")"
      && forall i :: 0 <= i < h.start ==> MatchAt(ParenCount, pageText, i).None?
  {
    match Search(ParenCount, pageText)
    case Some(h) =>
      ParenCountFound(pageText);
      LeadHunter.CountDigits(h.group1);
      var count := RemoveChar(h.group1, ',');
      assert IsDigit(count[0]);
      count
    case None => "N/A"
  }

  /** One store: the AI answer when it parsed, else the regex path on the
      page text; then the plus code and the coordinates. `heading` is the text
      of the first `h1` element, None when the page has none. */
  method ProcessStore(index: nat, url: string, pageText: string, ai: Option<Dict>, heading: Option<string>)
    returns (lead: LeadHunterAi.AiLead)
    ensures LeadHunterAi.CommonFields(lead, index, url, pageText, ai)
    ensures LeadHunterAi.AiParsed(ai) ==> LeadHunterAi.FromAi(lead, ai.value)
    ensures !LeadHunterAi.AiParsed(ai) ==>
      lead.storeName == (if heading.Some? then heading.value else "Unknown")
      && lead.rating == RegexRating(pageText)
      && lead.reviewsCount == RegexReviews(pageText)
      && lead.phoneNumber == LeadHunter.OrElse(FirstMatched(FallbackPatterns, pageText), "Not found")
      && lead.address == "Not found" && lead.openingHours == "Not found" && lead.website == "Not found"
  {
    var coords := LeadHunterAi.ExtractCoordsFromUrl(url);
    var storeName, rating, reviews, phone, address, hours, website;
    if LeadHunterAi.AiParsed(ai) {
      var aiData := ai.value;
      storeName := Get(aiData, "store_name", "Unknown");
      rating := Get(aiData, "rating", "N/A");
      reviews := Get(aiData, "reviews_count", "N/A");
      phone := Get(aiData, "phone", "Not found");
      address := Get(aiData, "address", "Not found");
      hours := Get(aiData, "hours", "Not found");
      website := Get(aiData, "website", "Not found");
    } else {
      storeName := if heading.Some? then heading.value else "Unknown";
      var ratingMatch := Search(DigitDotDigit, pageText);
      rating := if ratingMatch.Some? then ratingMatch.value.group1 else "N/A";
      var reviewMatch := Search(ParenCount, pageText);
      reviews := if reviewMatch.Some? then RemoveChar(reviewMatch.value.group1, ',') else "N/A";
      var found := ExtractPhoneFallback(pageText);
      phone := LeadHunter.OrElse(found, "Not found");
      address, hours, website := "Not found", "Not found", "Not found";
    }
    var plusCode := LeadHunter.ExtractPlusCode(pageText);
    lead := LeadHunterAi.AiLead(index + 1, storeName, rating, reviews, phone, address, hours, website,
      LeadHunter.OrElse(plusCode, "Not found"),
      if coords.Some? then coords.value.0 else "Not found",
      if coords.Some? then coords.value.1 else "Not found",
      url,
      if LeadHunterAi.AiParsed(ai) then "AI" else "Regex");
  }

  /** On the regex path the phone is "Not found" or a non-empty match of the
      earliest fallback pattern that matches, found in the page text. */
  lemma RegexPhoneMeaning(pageText: string)
    ensures var phone := LeadHunter.OrElse(FirstMatched(FallbackPatterns, pageText), "Not found");
      phone == "Not found" || (phone != [] && Contains(pageText, phone))
    ensures FirstMatched(FallbackPatterns, pageText).None? <==>
      forall j :: 0 <= j < |FallbackPatterns| ==> Search(FallbackPatterns[j], pageText).None?
  {
  }
}
