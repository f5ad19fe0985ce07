# LeadHunter AI Agent — a Dafny model of its extraction and export core

LeadHunter scrapes Google Maps listings for local stores and turns each listing into a lead
record: store name, rating, review count, phone number, address, opening hours, website,
plus code, coordinates and a place id. The leads are then de-duplicated and turned into
rows for a telecalling sheet. This project models, in Dafny, the parts of that pipeline
that decide what ends up in a lead and in the exported sheet, and proves what those
parts guarantee.

The model has nine modules:

- `Wrappers` holds the `Option` type used for every value that can be missing.
- `Text` holds the Python string operations the code relies on: `strip`, `lower`, `find`,
  `split('\n')`, `replace` and slicing. Whitespace and letter case are ASCII.
- `Patterns` holds one hand-written matcher per regular expression the code uses. It also
  defines leftmost search (`re.search`), the list of non-overlapping matches (`re.findall`)
  and "the first pattern of a list that matches". For each pattern, a lemma states what a
  match found by the search looks like.
- `ExportUtils` holds the keys used by de-duplication (`normalize_phone`, `normalize_name`)
  and the comparison of ratings. A rating text stands for the decimal number it denotes,
  held exactly as a numerator over a power of ten; Python's rounding to a double is not
  modelled (see "Left out").
- `Dedup` holds `deduplicate_records`: one loop step as a function over the loop state,
  the whole loop as a fold, and the imperative loop proved equal to the fold. It also holds
  the invariant the loop keeps, with the consequence that the `remove` call never raises,
  and the outcome for two records in each branch of the loop.
- `Telecalling` holds `prepare_telecalling_data`: placeholder cleaning, the row built for a
  record, and the loop that builds every row.
- `LeadHunter` holds the per-field extraction of `lead_hunter.py` (the original scraper)
  and the assembled lead.
- `LeadHunterAi` holds the regex path of `lead_hunter_ai.py`:
  coordinates from the URL, the three-method phone fallback, name, rating and review
  fallbacks, and the record built around an AI answer or its absence.
- `GoogleMapsAiFlow` holds the simpler fallback of `google_maps_ai_flow.py`.

Browser lookups (`query_selector`, `inner_text`, `get_attribute`, the page URL) are
inputs: an element that is absent is `None`, and an element that is present is its text.
The answer of the local language model is an input of type `Option<Dict>`. `None` stands
for any failure of the model call or of its JSON parse.

Behaviour of the code that may look unintended, modelled as written:

- When a better-rated duplicate replaces an earlier record, it is appended at the end of
  the output list, not put in the earlier record's place.
- A record that replaces another by name is appended twice: once in the name branch and
  again by the final append.
- `normalize_name` strips a single company suffix, and only at the very end of the name.
- The de-duplicated list can therefore be longer than the input, up to twice as long.
- The keyword search of phone Method 2 can return a match that failed its length and
  toll-free filter, when no pattern in the window passes the filter.

## Model

| member | source | states |
|---|---|---|
| Text.Strip | lead_hunter.py:47 | the result is the input with leading and trailing whitespace removed: the removed prefix and suffix are whitespace, and the result starts and ends with non-whitespace or is empty |
| Text.Lower | lead_hunter_ai.py:158 | same length, no upper-case letter, each character lowered one for one |
| Text.Find | lead_hunter_ai.py:158 | `str.find`: the first index where the word occurs, and None exactly when it does not occur |
| Text.Lines | lead_hunter.py:224 | `split('\n')`: at least one line, no line holds a newline |
| Text.LinesRoundTrip | lead_hunter.py:224 | joining the lines with newlines gives back the text |
| Text.Take | lead_hunter.py:252 | slicing `[:n]`: a prefix of length at most n, the whole text when it is short enough |
| Text.RemoveChar | lead_hunter.py:174 | `replace(',', '')`: every occurrence of the character is gone and every other character is kept, counted with multiplicity; a text without it is unchanged |
| Text.RemoveCharAppend | lead_hunter.py:174 | removing a character from two texts one after the other is removing it from each, in order, so the order of the kept characters is that of the input |
| Text.RemoveAllAbsent | lead_hunter.py:47 | `replace(p, '')` leaves a text without p unchanged |
| Patterns.Search | lead_hunter.py:53 | `re.search`: the leftmost position where the pattern matches, and None exactly when it matches nowhere |
| Patterns.SearchAt | lead_hunter.py:277 | a match at i with none before i is the search result |
| Patterns.SearchFindsBy | lead_hunter.py:53 | a pattern that matches at i makes the search succeed, at i or earlier |
| Patterns.FindAll | lead_hunter.py:211 | `re.findall`: empty exactly when the search fails, and the first element is the text of the leftmost match |
| Patterns.FindAllHits | lead_hunter.py:211 | the matches `re.findall` reports lie inside the text, in order, without overlapping |
| Patterns.FindAllTexts | lead_hunter.py:211 | `re.findall` gives, one for one, the matched text of each of those matches |
| Patterns.FindAllSearches | lead_hunter.py:211 | the first match is the leftmost one, each later match is the leftmost one from the end of the previous, and nothing matches after the last |
| Patterns.FindAllInText | lead_hunter.py:211 | every element of `re.findall` occurs in the text |
| Patterns.FirstMatched | google_maps_ai_flow.py:121-124 | the text of the first pattern in the list that matches; None exactly when none matches; a result is non-empty and occurs in the text |
| Patterns.FirstMatchedAt | google_maps_ai_flow.py:121-124 | when pattern k is the first that matches, the result is its match |
| Patterns.IndianPhoneAt | lead_hunter.py:204 | `\d{5}\s?\d{5}`: ten digits, or five digits, a space and five digits |
| Patterns.IndianPhoneExact | lead_hunter.py:204 | the matcher succeeds exactly when ten digits, or five digits, one whitespace character and five digits, start at i |
| Patterns.GeneralPhoneAt | lead_hunter.py:205 | `\d{3,4}[\s-]?\d{3,4}[\s-]?\d{4}`: 10 to 14 characters of digits and separators, starting and ending with a digit |
| Patterns.GeneralPhoneComplete | lead_hunter.py:205 | three or four digits, an optional separator, three or four digits, an optional separator and four digits starting at i always make a match |
| Patterns.PlusNinetyOneAt | lead_hunter.py:206 | `\+91[\s-]?\d{10}`: starts with "+91" and ends with ten digits |
| Patterns.PlusNinetyOneExact | lead_hunter.py:206 | the matcher succeeds exactly when "+91", an optional separator and ten digits start at i |
| Patterns.LandlinePhoneAt | lead_hunter.py:207 | `0\d{2,4}[\s-]?\d{6,8}`: starts with '0', 9 to 14 characters of digits and separators |
| Patterns.LandlinePhoneComplete | lead_hunter.py:207 | '0', two to four digits, an optional separator and six digits starting at i always make a match |
| Patterns.PhoneRunFound | lead_hunter_ai.py:135 | `[\d\s\+\-\(\)]{10,}`: a maximal run of at least ten phone characters |
| Patterns.LoosePhoneFound | lead_hunter.py:50 | `\+?\d[\d\s-]{8,}`: opens with a digit or '+', then only digits and separators, and the match stops only where the text ends or no digit or separator follows |
| Patterns.PhoneMatchOpens | lead_hunter_ai.py:166-171 | every phone pattern's match opens with a digit or '+' |
| Patterns.AtCoordsFound | lead_hunter.py:277 | `@(-?\d+\.\d+),(-?\d+\.\d+)`: both groups are signed decimals, and "@lat,lng" occurs in the URL |
| Patterns.BangCoordsFound | lead_hunter.py:283 | `!3d(…)!4d(…)`: both groups are signed decimals, and "!3dlat!4dlng" occurs in the URL |
| Patterns.AtCoordsComplete | lead_hunter.py:277 | completeness of `@(-?\d+\.\d+),(-?\d+\.\d+)` at any position: "@", a signed decimal, ",", a signed decimal and then no digit give a match there whose groups are exactly the two decimals |
| Patterns.BangCoordsComplete | lead_hunter.py:283 | completeness of `!3d(-?\d+\.\d+)!4d(-?\d+\.\d+)` at any position: "!3d", a signed decimal, "!4d", a signed decimal and then no digit give a match there whose groups are exactly the two decimals |
| Patterns.RatingWithCountFound | lead_hunter.py:171 | group 1 is digit-dot-digit at the match start, and group 2 is a count with an optional thousands comma |
| Patterns.RatingWithStarsFound | lead_hunter.py:179 | group 1 is digit-dot-digit |
| Patterns.CountWithWordFound | lead_hunter.py:185 | group 1 is a count with an optional thousands comma |
| Patterns.ParenCountFound | google_maps_ai_flow.py:287 | the match is the parenthesised group, and that group is a count with an optional thousands comma |
| Patterns.DigitDotDigitFound | google_maps_ai_flow.py:284 | the match is digit-dot-digit and equals group 1 |
| Patterns.PlusCodeFound | lead_hunter.py:266 | four upper-case letters or digits, '+', at least nine characters in all, and no word character right after the match |
| Patterns.OpenHoursFound | lead_hunter.py:250 | the match starts with "Open" or "Closed" |
| Patterns.WebAddressFound | lead_hunter.py:240 | the match holds no whitespace, starts with "http" or "www.", and ends at whitespace or the end of the text |
| Patterns.PlacePathFound | lead_hunter.py:297 | the group is non-empty and holds no '/' or '@'; "/place/" and the group occur at the match start, and the match ends at '/', '@' or the end of the URL |
| ExportUtils.KeepDigitsPlus | export_utils.py:18 | only digits and '+' remain; a text of only those is kept whole; a single character is kept exactly when it is a digit or '+' |
| ExportUtils.KeepDigitsPlusAppend | export_utils.py:18 | filtering two texts one after the other is filtering each, in order |
| ExportUtils.DropTrunkPrefix | export_utils.py:20-26 | "+91" is dropped; otherwise, above ten characters, a leading "91" or else a leading "0" is dropped; otherwise the text is kept |
| ExportUtils.NormalizePhone | export_utils.py:12-28 | sentinels ("", "Not found", "N/A") give ""; otherwise the digits-and-plus filter with its trunk prefix dropped, so the filter is one of "", "+91", "91", "0" followed by the key |
| ExportUtils.TrunkPrefixDropped | export_utils.py:20-26 | what the prefix rule drops is always "", "+91", "91" or "0" |
| ExportUtils.PhoneKeyIgnoresFormatting | export_utils.py:18 | spaces, dashes and brackets do not change a phone key |
| ExportUtils.IndianFormsShareKey | export_utils.py:20-26 | ten digits alone, or after "+91", "91" or "0", all have those ten digits as key |
| ExportUtils.PhoneKeyIsStripped | export_utils.py:28 | the final `strip` never changes the key |
| ExportUtils.NormalizeName | export_utils.py:31-42 | sentinels give ""; otherwise the lower-cased, space-collapsed name, less its last word exactly when that word is a company suffix (with or without a dot) |
| ExportUtils.SuffixAtLastSpace | export_utils.py:40 | a suffix can be split off at one place only: the last space |
| ExportUtils.OneSuffixStripped | export_utils.py:40 | a name ending in two suffix words loses only the last one |
| ExportUtils.NameKeyIsStripped | export_utils.py:42 | the final `strip` never changes the key |
| ExportUtils.ParseRatingText | export_utils.py:78-79 | `float("d.d")` is the decimal number the text d.d denotes, in tenths |
| ExportUtils.ParseNeedsDigit | export_utils.py:120-121 | a text with no digit makes `float` fail |
| ExportUtils.RatingValue | export_utils.py:78-79 | "N/A" counts as 0; any other text is parsed as a float |
| ExportUtils.GreaterIsValueOrder | export_utils.py:81 | the exact comparison of decimals agrees with comparing their real values |
| Dedup.RemoveFirst | export_utils.py:110 | `list.remove`: fails exactly when the record is absent; otherwise the first copy is taken out and the rest keep their order |
| Dedup.FirstIndex | export_utils.py:110 | the position of the first copy of a record in the list |
| Dedup.FoldKeepsInv | export_utils.py:57-137 | the loop never raises; it keeps its invariant (phone keys have at least ten characters and belong to their records, name keys belong to their records, a phoneless record kept under a name is in the output, the output holds only input records); the output has at most twice as many records as the input |
| Dedup.OutputFromInput | export_utils.py:45-139 | every output record comes from the input, and there are at most twice as many |
| Dedup.StepKeepsInv | export_utils.py:57-137 | one iteration keeps the invariant and adds at most two records |
| Dedup.FirstRecordKept | export_utils.py:91-93 | the first record is kept and registered under its phone key and its name key |
| Dedup.UnkeyedRecordAppended | export_utils.py:136-137 | a record with neither key is appended unchanged |
| Dedup.SamePhoneKeepsBetterRated | export_utils.py:70-93 | of two records with one phone key, only the better rated is kept; the first wins ties |
| Dedup.SameNameDifferentPhonesAppendsTwice | export_utils.py:103-105 | two records with one name and different phones give [first, second, second] |
| Dedup.PhonelessAfterPhonedDropped | export_utils.py:113-115 | a phoneless record whose name matches an earlier record with a phone is dropped |
| Dedup.PhoneReplacesPhonelessTwice | export_utils.py:108-112 | a record with a phone replaces a phoneless one of the same name and appears twice |
| Dedup.SameNameRatingDecides | export_utils.py:117-130 | of two phoneless records with one name, the better rated replaces the first (appearing twice), or the second is dropped |
| Dedup.CheckPhone | export_utils.py:70-93 | the phone check, as a method, computes the phone stage of the loop step |
| Dedup.CheckName | export_utils.py:96-133 | the name check, as a method, computes the name stage of the loop step |
| Dedup.ProcessRecord | export_utils.py:57-137 | one iteration computes the loop step |
| Dedup.Deduplicate | export_utils.py:45-139 | the imperative loop returns exactly the output of the fold |
| Telecalling.Clean | export_utils.py:158-165 | a placeholder becomes "" and anything else is kept, in both directions |
| Telecalling.CleanRating | export_utils.py:164-165 | "N/A" becomes "" and anything else is kept |
| Telecalling.Row | export_utils.py:167-173 | the row has exactly the five sheet columns, each taken from its field with its default and cleaned |
| Telecalling.RowHasNoPlaceholders | export_utils.py:158-173 | no cleaned column holds a placeholder, and real values pass through unchanged |
| Telecalling.PrepareTelecallingData | export_utils.py:142-175 | one row per record, in order, each the row of its record |
| LeadHunter.CleanPhone | lead_hunter.py:44-56 | with labels removed, the leftmost loose phone match, extended as far as it goes, gives its stripped text, which looks like a phone and occurs in the text; otherwise the text itself when longer than five characters, else None |
| LeadHunter.LooseMatchStripped | lead_hunter.py:53-55 | the stripped match opens with a digit or '+', holds only digits and separators, and occurs in the text |
| LeadHunter.StoreName | lead_hunter.py:157-163 | the heading when at most 200 characters, its first 200 characters otherwise, or "Unknown Store" when there is none |
| LeadHunter.ExtractRating | lead_hunter.py:165-199 | rating-with-count wins and gives both fields; otherwise rating-with-stars, then the aria label, give the rating, and a count-with-word gives the reviews; the rating is digit-dot-digit, the reviews are digits with the comma removed, and the total equals the reviews |
| LeadHunter.CountDigits | lead_hunter.py:174 | removing the comma from a matched count leaves a non-empty run of digits |
| LeadHunter.ExtractPhone | lead_hunter.py:201-214 | the stripped match of the first phone pattern that matches, or None exactly when none matches |
| LeadHunter.FirstPatternMatch | lead_hunter.py:209-214 | the loop over patterns returns the stripped first match |
| LeadHunter.FirstLine | lead_hunter.py:224-228 | the stripped first line that passes the test, or None exactly when no line passes |
| LeadHunter.FirstLineOf | lead_hunter.py:224-228 | the first line that passes the test, stripped; None exactly when no line passes |
| LeadHunter.ExtractAddress | lead_hunter.py:216-230 | the address button's text when present; otherwise the stripped first line that mentions Lucknow and has 11 to 249 characters, or None when there is none |
| LeadHunter.AddressLineStripped | lead_hunter.py:226-227 | the stripped line still mentions Lucknow, is shorter than 250 characters and has no newline |
| LeadHunter.ExtractHours | lead_hunter.py:246-260 | the leftmost hours match cut to 100 characters, starting with Open or Closed; without one, the stripped first line that mentions Open or Closed and is shorter than 100 characters, or None when no line does |
| LeadHunter.ExtractWebsite | lead_hunter.py:232-244 | the website link when present; otherwise the leftmost web address of the page, taken up to the next whitespace, with no whitespace and starting with http or www.; None exactly when neither exists |
| LeadHunter.ExtractPlusCode | lead_hunter.py:262-270 | the text of the leftmost plus-code match, ended where no word character follows; None exactly when the pattern matches nowhere |
| LeadHunter.ExtractCoords | lead_hunter.py:272-288 | the two groups of the leftmost "@lat,lng" match; without one, the two groups of the leftmost "!3dlat!4dlng"; None exactly when neither form occurs; both are signed decimals taken from the URL |
| LeadHunter.BangCoordsRoundTrip | lead_hunter.py:283-286 | the coordinates written as "!3dlat!4dlng" are read back unchanged |
| LeadHunter.ExtractCid | lead_hunter.py:290-306 | the group of the leftmost "/place/" match, taken up to the next '/' or '@'; without one, the data-cid attribute |
| LeadHunter.PlaceMarkerChecked | lead_hunter.py:295-297 | a "/place/" match implies that the URL contains "/place/", so the outer check never changes the result |
| LeadHunter.OrElse | lead_hunter.py:308-323 | a found value is kept and a missing one becomes the default |
| LeadHunter.Assemble | lead_hunter.py:308-323 | the lead numbers from 1 and fills every missing field with "N/A" or "Not found" |
| LeadHunter.ProcessPlace | lead_hunter.py:150-323 | one listing, field by field: the name, rating and reviews, phone, address, hours, website, plus code, coordinates and cid each as the per-field extraction gives it, and the lead assembled from them |
| LeadHunter.ScanFields | lead_hunter.py:201-260 | the page-text fields of one listing: the phone is the stripped first match of the first phone pattern that matches, None exactly when none does; the address is the address button's text, else the first address line; the hours are the leftmost hours match cut to 100 characters, else the first hours line (the website, read in between, is ExtractWebsite's) |
| LeadHunter.UrlFields | lead_hunter.py:272-306 | the URL fields of one listing: latitude and longitude are the two halves of the extracted coordinate pair, both None when no coordinate pattern matches; the cid is the place-path segment, else the data-cid attribute |
| LeadHunter.AssembledFieldsFilled | lead_hunter.py:308-323 | every field of an assembled lead other than the store name and the URL is non-empty: it holds a found text or its sentinel (the store name is "" when the heading's text is empty) |
| LeadHunter.MissingPhoneHasNoKey | export_utils.py:14-15 | a lead whose phone was not found gets the empty phone key, so de-duplication never matches on it |
| LeadHunterAi.ExtractCoordsFromUrl | lead_hunter_ai.py:109-114 | the two groups of the leftmost "@lat,lng" match, None exactly when the pattern fails; both values are signed decimals and occur in the URL as "@lat,lng" |
| LeadHunterAi.AtCoordsRoundTrip | lead_hunter_ai.py:109-114 | a URL holding "@lat,lng" after a part without '@', followed by a non-digit or the end, gives back exactly lat and lng |
| LeadHunterAi.AtRoundTrip | lead_hunter.py:277-280 | the same "@lat,lng" round trip holds for the coordinates of the original scraper |
| LeadHunterAi.ElementPhoneMeaning | lead_hunter_ai.py:129-146 | an element gives a phone exactly when its text holds a phone run or its link is a "tel:" link |
| LeadHunterAi.ElementTextPhone | lead_hunter_ai.py:135-138 | the phone from an element's text is a stripped run of phone characters taken from that text |
| LeadHunterAi.TelLinkPhone | lead_hunter_ai.py:141-144 | without a phone run in the text, a "tel:" link gives its stripped number |
| LeadHunterAi.ButtonScanChoice | lead_hunter_ai.py:120-146 | Method 1 gives the phone of the first element, in selector order, that yields one; None exactly when none does |
| LeadHunterAi.ButtonPhone | lead_hunter_ai.py:120-146 | the selector loop computes Method 1 |
| LeadHunterAi.ElementLookup | lead_hunter_ai.py:131-144 | the per-element checks compute the element's phone |
| LeadHunterAi.Window | lead_hunter_ai.py:160-163 | the slice from 50 characters before the keyword to 150 after, clipped to the text, at most 200 characters |
| LeadHunterAi.WindowHoldsKeyword | lead_hunter_ai.py:158-163 | the window still holds the keyword |
| LeadHunterAi.ScanFirstAccepted | lead_hunter_ai.py:174-180 | the window scan stops at the first stripped match of at least ten characters that does not start with 1800 |
| LeadHunterAi.ScanLastMatch | lead_hunter_ai.py:174-183 | when no match passes that filter, the scan keeps the last match found, which fails it |
| LeadHunterAi.ScanNone | lead_hunter_ai.py:174-183 | the window scan finds nothing exactly when no pattern matches |
| LeadHunterAi.PatternLoop | lead_hunter_ai.py:174-180 | the loop over window patterns computes the window scan |
| LeadHunterAi.KeywordScan | lead_hunter_ai.py:148-183 | Method 2 gives the window phone of the first keyword that occurs in the lower-cased panel and yields a phone; None exactly when none does |
| LeadHunterAi.KeywordScanNonEmpty | lead_hunter_ai.py:174-177 | a phone found by Method 2 is never empty |
| LeadHunterAi.KeywordPhone | lead_hunter_ai.py:155-183 | the keyword loop computes Method 2 |
| LeadHunterAi.AllMatchesInText | lead_hunter_ai.py:195-198 | every gathered match occurs in the page text |
| LeadHunterAi.FirstKept | lead_hunter_ai.py:201-214 | the cleaned form of the first candidate that passes the filter; None exactly when none passes |
| LeadHunterAi.FirstKeptAt | lead_hunter_ai.py:201-214 | the position of the first candidate that passes the filter once cleaned, or the length when none does |
| LeadHunterAi.FirstKeptAppend | lead_hunter_ai.py:196-198 | filtering the matches of several patterns is filtering each in order |
| LeadHunterAi.PageScanMeaning | lead_hunter_ai.py:185-214 | Method 3 gives a stripped match of at least ten characters, not starting with 1800 or 1-800 and not mentioning google, that occurs in the page; None exactly when no match passes |
| LeadHunterAi.PageScanPrefersFirstPattern | lead_hunter_ai.py:195-214 | a plausible match of the first pattern wins over every other pattern |
| LeadHunterAi.PagePhone | lead_hunter_ai.py:185-214 | the gather-and-filter loops compute Method 3 |
| LeadHunterAi.FirstKeptLoop | lead_hunter_ai.py:201-214 | the filter loop returns the first kept candidate |
| LeadHunterAi.PhoneFallbackChoice | lead_hunter_ai.py:116-218 | Method 1 when it finds a phone, else Method 2, else Method 3, else the result of Method 1 |
| LeadHunterAi.ExtractPhoneFallback | lead_hunter_ai.py:116-218 | the three methods run in order compute the fallback phone |
| LeadHunterAi.NameFallback | lead_hunter_ai.py:400-418 | the first stripped heading, in selector order, that is longer than three characters and not "Directions", "Save" or "Share", cut to 200 characters; "Unknown" when there is none |
| LeadHunterAi.StoreNameFallback | lead_hunter_ai.py:409-418 | the selector loop computes the fallback name |
| LeadHunterAi.RatingInRangeDigits | lead_hunter_ai.py:427 | a digit-dot-digit rating lies in 1.0 to 5.0 exactly when its first digit is 1 to 4, or it is 5.0 |
| LeadHunterAi.SimpleRating | lead_hunter_ai.py:432-442 | the leftmost digit-dot-digit of the text when it lies in 1.0 to 5.0; "N/A" when there is none or it is out of range |
| LeadHunterAi.RegexRating | lead_hunter_ai.py:420-442 | "N/A" for an empty panel; otherwise the rating of the leftmost "d.d (n)" in the first 500 characters when in range, else the simpler search there; a rating found is in range and occurs in those 500 characters |
| LeadHunterAi.RegexReviews | lead_hunter_ai.py:444-450 | "N/A" exactly when the panel is empty, there is no rating, or no parenthesised count occurs in the first 500 characters; otherwise the leftmost one with its comma removed, a non-empty run of digits |
| LeadHunterAi.RegexFieldsMeaning | lead_hunter_ai.py:444-446 | without a rating the reviews are always "N/A" |
| LeadHunterAi.RegexRatingReviews | lead_hunter_ai.py:420-450 | the rating and review steps compute the regex rating and reviews |
| LeadHunterAi.RatingSearch | lead_hunter_ai.py:420-442 | the rating steps compute the regex rating |
| LeadHunterAi.SimpleRatingSearch | lead_hunter_ai.py:432-436 | the simpler search computes the simple rating |
| LeadHunterAi.ReviewsSearch | lead_hunter_ai.py:444-450 | the review steps compute the regex reviews |
| LeadHunterAi.ProcessStore | lead_hunter_ai.py:365-481 | with an AI answer, the fields come from it; without one, the name, rating, reviews and phone fallbacks fill them and address, hours and website are "Not found"; plus code, coordinates, URL and extraction method as in the record |
| LeadHunterAi.ProcessedLeadMeaning | lead_hunter_ai.py:460-481 | the method is "AI" exactly when an answer was parsed; a plus code is shaped like one; coordinates are signed decimals taken from the URL |
| GoogleMapsAiFlow.ExtractPhoneFallback | google_maps_ai_flow.py:114-125 | the first of the three phone patterns that matches gives its match text, unstripped |
| GoogleMapsAiFlow.RegexRating | google_maps_ai_flow.py:284-285 | "N/A" exactly when no digit-dot-digit occurs; otherwise the leftmost one, with no range check |
| GoogleMapsAiFlow.RegexReviews | google_maps_ai_flow.py:287-288 | "N/A" exactly when no parenthesised count occurs; otherwise the leftmost one's group with its comma removed, a non-empty run of digits |
| GoogleMapsAiFlow.ProcessStore | google_maps_ai_flow.py:267-319 | with an AI answer, the fields come from it; without one, the heading (or "Unknown"), the regex rating, reviews and phone fill them, and address, hours and website are "Not found" |
| GoogleMapsAiFlow.RegexPhoneMeaning | google_maps_ai_flow.py:290-292 | the phone is "Not found" or a non-empty text from the page |

## Left out

- `setup.py` and `verify_setup.py` install packages and check the environment; they are not part of this model.
- The browser: searching, scrolling, clicking, waits and `inner_text` are not modelled. What the code reads from a page (texts, attributes, the URL) is an input, and an element that is absent is `None`.
- The language model call (`extract_all_fields_with_ai`) and its JSON parsing are an input `Option<Dict>`. Values in the answer are strings here; in Python they can be any JSON value.
- The Streamlit interface and progress messages are not modelled, and neither is the debug warning when the URL did not change.
- `export_to_excel` and `get_export_summary` write files and sort with pandas; they are not modelled.
- ExportUtils.Greater: ratings are compared as the exact decimals their texts denote, not as IEEE-754 doubles. The two differ only where distinct decimals round to the same double, or overflow to `inf`. For example, Python reads "4.00000000000000001" and "4.0" as the same double 4.0, so `>` is False and export_utils.py:78-86 keeps the first record, while the model finds the second greater and keeps it. Digit strings beyond the double range are all `inf` in Python and compare equal. Ratings of the form d.d, which the scrapers produce, are distinct doubles in the same order as the decimals, so there the two agree.
- GreaterIsValueOrder: states that `Greater` agrees with the order of the exact decimal values, not with the order of the doubles Python compares; the gap is the one described for ExportUtils.Greater.
- Python `float` parsing is modelled for decimal texts: optional sign, digits, one point, surrounding whitespace. Exponents, `inf`, `nan` and underscores are not modelled; there such a text parses as None, where Python would accept it.
- `\s`, `\w`, `\d` and `lower()` are modelled for ASCII; Unicode digits, letters and spaces are not, apart from the no-break space of the rating patterns.
- Exceptions from the browser are not modelled, so each `try`/`except` is taken down its normal path. The `remove` failure of `deduplicate_records` and failed `float` calls are modelled.
- The assignment of `reviews` at lead_hunter_ai.py:429 is not modelled, because line 445 always overwrites it.
- Patterns.MatchAt: each matcher is proved sound (a match it reports has the shape of its regular expression). Completeness (every text of that shape is matched) is proved for the four phone patterns of `lead_hunter.py` (IndianPhoneExact, GeneralPhoneComplete, PlusNinetyOneExact, LandlinePhoneComplete) and, at any position, for the two coordinate patterns (AtCoordsComplete, BangCoordsComplete). It is not proved for the loose phone, phone-run, rating, count, plus-code, hours, web-address and place-path patterns.
