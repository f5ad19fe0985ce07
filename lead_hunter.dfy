/** The field extraction of `lead_hunter.py`: what one place page yields once
    its visible text, its URL and the few elements looked up on it are in
    hand. An element lookup is an optional input: None when the page has no
    such element. */
module LeadHunter {
  import opened Wrappers
  import opened Text
  import opened Patterns
  import opened ExportUtils

  // ---------------------------------------------------------------- clean_phone

  /** The text `clean_phone` searches: labels removed, then stripped. */
  function Unlabelled(text: string): string {
    Strip(RemoveAll(RemoveAll(text, "Phone:"), "Tel:"))
  }

  /** A phone as the loose pattern leaves it once stripped: a digit or `+`,
      then digits, spaces and dashes, ending in a non-space. */
  predicate PhoneLike(t: string) {
    t != [] && (IsDigit(t[0]) || t[0] == '+')
    && (forall j :: 0 < j < |t| ==> IsDigit(t[j]) || IsSep(t[j]))
    && !IsSpace(t[|t| - 1])
  }

  /** Stripping a text that opens with a non-space only drops trailing
      whitespace, and keeps at least that first character. */
  lemma StripKeepsHead(m: string)
    requires m != [] && !IsSpace(m[0])
    ensures Strip(m) != [] && Strip(m) == m[..|Strip(m)|]
  {
    assert LStrip(m) == m;
  }

  /** A digit or `+` followed by digits, spaces and dashes looks like a phone
      once stripped. */
  lemma StrippedPhoneLike(m: string)
    requires m != [] && (IsDigit(m[0]) || m[0] == '+')
    requires forall x :: 0 < x < |m| ==> IsDigit(m[x]) || IsSep(m[x])
    ensures PhoneLike(Strip(m)) && Strip(m) == m[..|Strip(m)|]
  {
    StripKeepsHead(m);
  }

  /** The stripped leftmost loose match of `t` looks like a phone and is found in `t`. */
  lemma LooseMatchStripped(t: string)
    requires Search(LoosePhone, t).Some?
    ensures var r := Strip(Matched(t, Search(LoosePhone, t).value)); PhoneLike(r) && Contains(t, r)
  {
    var h := Search(LoosePhone, t).value;
    LoosePhoneFound(t);
    LooseTextStripped(t, h.start, h.end);
  }

  /** A digit or `+` at `a` followed by digits, spaces and dashes up to `e`,
      once stripped, looks like a phone and is found in `t`. */
  lemma LooseTextStripped(t: string, a: nat, e: nat)
    requires a < e <= |t| && (IsDigit(t[a]) || t[a] == '+')
    requires forall x :: a < x < e ==> IsDigit(t[x]) || IsSep(t[x])
    ensures PhoneLike(Strip(t[a..e])) && Contains(t, Strip(t[a..e]))
  {
    var m := t[a..e];
    assert m[0] == t[a];
    forall x | 0 < x < |m| ensures IsDigit(m[x]) || IsSep(m[x]) {
      assert m[x] == t[a + x];
    }
    StrippedPhoneLike(m);
    var r := Strip(m);
    assert r == t[a..a + |r|];
    assert OccursAt(t, r, a);
  }

  /** `clean_phone(text)`: the stripped leftmost loose phone match of the
      unlabelled text (the match runs to the end of its digits, spaces and
      dashes); failing one, that text itself when longer than five
      characters; otherwise None. */
  function CleanPhone(text: string): (r: Option<string>)
    ensures Search(LoosePhone, Unlabelled(text)).Some? ==>
      r.Some? && PhoneLike(r.value) && Contains(Unlabelled(text), r.value)
    ensures Search(LoosePhone, Unlabelled(text)).Some? ==>
      var t, h := Unlabelled(text), Search(LoosePhone, Unlabelled(text)).value;
      r == Some(Strip(t[h.start..h.end]))
      && (forall j :: 0 <= j < h.start ==> MatchAt(LoosePhone, t, j).None?)
      && (h.end == |t| || !(IsDigit(t[h.end]) || IsSep(t[h.end])))
    ensures Search(LoosePhone, Unlabelled(text)).None? ==>
      r == (if |Unlabelled(text)| > 5 then Some(Unlabelled(text)) else None)
  {
    var t := Unlabelled(text);
    match Search(LoosePhone, t)
    case Some(h) =>
      LooseMatchStripped(t);
      LoosePhoneFound(t);
      Some(Strip(Matched(t, h)))
    case None => if |t| > 5 then Some(t) else None
  }

  // ---------------------------------------------------------------- rating and reviews

  /** Group 1 of the leftmost match of `p` in `s`. */
  function FirstGroup(p: Pattern, s: string): (r: Option<string>)
    ensures r.Some? <==> Search(p, s).Some?
  {
    match Search(p, s)
    case Some(h) => Some(h.group1)
    case None => None
  }

  /** A count with its thousands comma removed is a non-empty run of digits. */
  lemma CountDigits(t: string)
    requires CountText(t)
    ensures var d := RemoveChar(t, ','); d != [] && AllDigits(d)
  {
    if t != [] && AllDigits(t) {
      DigitsHaveNoComma(t);
    } else {
      var k :| 0 < k < |t| && SplitAt(t, k, ',');
      GroupedCountDigits(t, k);
    }
  }

  /** "d…d,d…d" loses its comma and keeps both runs of digits. */
  lemma GroupedCountDigits(t: string, k: nat)
    requires 0 < k < |t| && SplitAt(t, k, ',')
    ensures RemoveChar(t, ',') == t[..k] + t[k + 1..]
  {
    var a, b := t[..k], t[k + 1..];
    assert t == a + ([','] + b);
    DigitsHaveNoComma(a);
    DigitsHaveNoComma(b);
    RemoveCharAppend(a, [','] + b, ',');
    RemoveCharAppend([','], b, ',');
    assert RemoveChar([','], ',') == [];
  }

  lemma DigitsHaveNoComma(d: string)
    requires AllDigits(d)
    ensures RemoveChar(d, ',') == d
  {
    assert ',' !in d;
  }

  /** The rating block: a "d.d (n)" match gives the rating and the review
      count, and the total always equals the review count; otherwise a
      "d.d stars" match gives the rating and an "n reviews" match the count;
      the `aria-label` of a stars element is searched last for a rating.
      There is no range check on the rating. */
  method ExtractRating(pageText: string, ariaLabel: Option<string>)
    returns (rating: Option<string>, reviewsCount: Option<string>, totalRatings: Option<string>)
    ensures totalRatings == reviewsCount
    ensures rating.Some? ==> IsDigitDotDigit(rating.value)
    ensures reviewsCount.Some? ==> reviewsCount.value != [] && AllDigits(reviewsCount.value)
    ensures Search(RatingWithCount, pageText).Some? ==>
      rating == FirstGroup(RatingWithCount, pageText)
      && reviewsCount == Some(RemoveChar(Search(RatingWithCount, pageText).value.group2, ','))
    ensures Search(RatingWithCount, pageText).None? ==>
      rating == (if Search(RatingWithStars, pageText).Some? then FirstGroup(RatingWithStars, pageText)
                 else if ariaLabel.Some? then FirstGroup(DigitDotDigit, ariaLabel.value)
                 else None)
      && reviewsCount == (match Search(CountWithWord, pageText)
                          case Some(h) => Some(RemoveChar(h.group1, ','))
                          case None => None)
  {
    rating, reviewsCount, totalRatings := None, None, None;
    var ratingMatch := Search(RatingWithCount, pageText);
    if ratingMatch.Some? {
      RatingWithCountFound(pageText);
      rating := Some(ratingMatch.value.group1);
      CountDigits(ratingMatch.value.group2);
      reviewsCount := Some(RemoveChar(ratingMatch.value.group2, ','));
      totalRatings := reviewsCount;
    }
    if rating.None? {
      ratingMatch := Search(RatingWithStars, pageText);
      if ratingMatch.Some? {
        RatingWithStarsFound(pageText);
        rating := Some(ratingMatch.value.group1);
      }
    }
    if reviewsCount.None? {
      var reviewMatch := Search(CountWithWord, pageText);
      if reviewMatch.Some? {
        CountWithWordFound(pageText);
        CountDigits(reviewMatch.value.group1);
        reviewsCount := Some(RemoveChar(reviewMatch.value.group1, ','));
        totalRatings := reviewsCount;
      }
    }
    if rating.None? && ariaLabel.Some? {
      var ratingText := Search(DigitDotDigit, ariaLabel.value);
      if ratingText.Some? {
        DigitDotDigitFound(ariaLabel.value);
        rating := Some(ratingText.value.group1);
      }
    }
  }

  // ---------------------------------------------------------------- phone

  /** The phone patterns in the order they are tried. */
  const PhonePatterns: seq<Pattern> := [IndianPhone, GeneralPhone, PlusNinetyOnePhone, LandlinePhone]

  /** The patterns of `pats` are tried in order and the first one that
      matches anywhere in `text` gives its leftmost match, stripped: a later
      pattern matching further left does not win. (`re.findall(p, text)[0]`
      is the leftmost match, as the contract of `FindAll` states.) */
  method FirstPatternMatch(pats: seq<Pattern>, text: string) returns (r: Option<string>)
    ensures r.None? <==> FirstMatched(pats, text).None?
    ensures r.Some? ==> r.value == Strip(FirstMatched(pats, text).value)
  {
    var i := 0;
    while i < |pats|
      invariant 0 <= i <= FirstMatching(pats, text)
    {
      var found := Search(pats[i], text);
      if found.Some? {
        assert FirstMatching(pats, text) == i;
        return Some(Strip(Matched(text, found.value)));
      }
      i := i + 1;
    }
    return None;
  }

  /** The phone: the first phone pattern that matches gives its leftmost
      match, stripped. No length or toll-free check is made. */
  method ExtractPhone(pageText: string) returns (phone: Option<string>)
    ensures phone.None? <==> FirstMatched(PhonePatterns, pageText).None?
    ensures phone.Some? ==> phone.value == Strip(FirstMatched(PhonePatterns, pageText).value)
  {
    phone := FirstPatternMatch(PhonePatterns, pageText);
  }

  // ---------------------------------------------------------------- address and hours

  /** The stripped first line of `text` that `accept` takes, or None. */
  function FirstLineOf(text: string, accept: string -> bool): (r: Option<string>)
    ensures r.None? <==> forall j :: 0 <= j < |Lines(text)| ==> !accept(Lines(text)[j])
    ensures r.Some? ==> exists j :: (0 <= j < |Lines(text)| && accept(Lines(text)[j])
      && (forall k :: 0 <= k < j ==> !accept(Lines(text)[k])) && r.value == Strip(Lines(text)[j]))
  {
    var ls := Lines(text);
    var k := FirstWhere(ls, accept);
    if k < |ls| then
      assert 0 <= k < |Lines(text)| && accept(Lines(text)[k]);
      Some(Strip(ls[k]))
    else None
  }

  /** The loop over the lines that finds `FirstLineOf`. */
  method FirstLine(text: string, accept: string -> bool) returns (r: Option<string>)
    ensures r == FirstLineOf(text, accept)
    ensures r.None? <==> forall j :: 0 <= j < |Lines(text)| ==> !accept(Lines(text)[j])
    ensures r.Some? ==> exists j :: (0 <= j < |Lines(text)| && accept(Lines(text)[j])
      && (forall k :: 0 <= k < j ==> !accept(Lines(text)[k])) && r.value == Strip(Lines(text)[j]))
  {
    var lines := Lines(text);
    var i := 0;
    while i < |lines|
      invariant 0 <= i <= |lines|
      invariant forall k :: 0 <= k < i ==> !accept(lines[k])
    {
      if accept(lines[i]) {
        r := Some(Strip(lines[i]));
        assert FirstWhere(lines, accept) == i;
        assert accept(Lines(text)[i]) && r.value == Strip(Lines(text)[i]);
        return;
      }
      i := i + 1;
    }
    assert FirstWhere(lines, accept) == |lines|;
    return None;
  }

  /** A slice that only drops whitespace from both ends keeps an occurrence of
      a word that neither opens nor ends with whitespace. */
  lemma TrimKeepsWord(s: string, r: string, a: nat, w: string, i: nat)
    requires a + |r| <= |s| && r == s[a..a + |r|]
    requires forall x :: 0 <= x < a ==> IsSpace(s[x])
    requires forall x :: a + |r| <= x < |s| ==> IsSpace(s[x])
    requires OccursAt(s, w, i) && w != [] && !IsSpace(w[0]) && !IsSpace(w[|w| - 1])
    ensures Contains(r, w)
  {
    assert s[i] == w[0] && s[i + |w| - 1] == w[|w| - 1];
    assert a <= i && i + |w| <= a + |r|;
    var p := i - a;
    forall y | 0 <= y < |w|
      ensures r[p + y] == w[y]
    {
      assert s[i..i + |w|][y] == w[y];
      assert r[p + y] == s[a + (p + y)];
    }
    assert r[p..p + |w|] == w;
    assert OccursAt(r, w, p);
  }

  /** Stripping keeps an occurrence of a word that neither opens nor ends with whitespace. */
  lemma StripKeepsWord(s: string, w: string)
    requires Contains(s, w) && w != [] && !IsSpace(w[0]) && !IsSpace(w[|w| - 1])
    ensures Contains(Strip(s), w)
  {
    var i :| 0 <= i <= |s| && OccursAt(s, w, i);
    TrimKeepsWord(s, Strip(s), |s| - |LStrip(s)|, w, i);
  }

  /** A line the address scan accepts. */
  predicate AddressLine(line: string) { Contains(line, "Lucknow") && 10 < |line| < 250 }

  /** What the address scan returns from an accepted line. */
  lemma AddressLineStripped(ls: seq<string>, j: nat)
    requires j < |ls| && AddressLine(ls[j]) && '\n' !in ls[j]
    ensures var a := Strip(ls[j]); Contains(a, "Lucknow") && |a| < 250 && '\n' !in a
  {
    StripKeepsWord(ls[j], "Lucknow");
    var a := Strip(ls[j]);
    assert forall x :: 0 <= x < |a| ==> a[x] in ls[j];
  }

  /** A line the hours scan accepts. */
  predicate HoursLine(line: string) { (Contains(line, "Open") || Contains(line, "Closed")) && |line| < 100 }

  /** The address: the address element's text when there is one; otherwise the
      stripped first line naming Lucknow whose unstripped length is strictly
      between 10 and 250. */
  method ExtractAddress(pageText: string, addressButton: Option<string>) returns (address: Option<string>)
    ensures addressButton.Some? ==> address == addressButton
    ensures addressButton.None? ==> address == FirstLineOf(pageText, AddressLine)
    ensures addressButton.None? && address.Some? ==>
      Contains(address.value, "Lucknow") && |address.value| < 250 && '\n' !in address.value
    ensures addressButton.None? ==> (address.None? <==> forall j :: 0 <= j < |Lines(pageText)| ==> !AddressLine(Lines(pageText)[j]))
    ensures addressButton.None? && address.Some? ==> exists j :: (0 <= j < |Lines(pageText)| && AddressLine(Lines(pageText)[j])
      && (forall k :: 0 <= k < j ==> !AddressLine(Lines(pageText)[k])) && address.value == Strip(Lines(pageText)[j]))
  {
    if addressButton.Some? {
      return addressButton;
    }
    address := None;
    if Contains(pageText, "Lucknow") {
      address := FirstLine(pageText, AddressLine);
    } else {
      forall j | 0 <= j < |Lines(pageText)| ensures !AddressLine(Lines(pageText)[j]) {
        LineInText(pageText, j, "Lucknow");
      }
    }
    if address.Some? {
      var j :| 0 <= j < |Lines(pageText)| && AddressLine(Lines(pageText)[j]) && address.value == Strip(Lines(pageText)[j]);
      AddressLineStripped(Lines(pageText), j);
    }
  }

  /** Opening hours: the "Open/Closed … time" match cut to 100 characters;
      otherwise the stripped first line shorter than 100 characters that
      mentions Open or Closed. */
  method ExtractHours(pageText: string) returns (hours: Option<string>)
    ensures hours.Some? ==> |hours.value| <= 100
    ensures Search(OpenHours, pageText).Some? ==>
      hours == Some(Take(Matched(pageText, Search(OpenHours, pageText).value), 100))
      && (StartsWith(hours.value, "Open") || StartsWith(hours.value, "Closed"))
    ensures Search(OpenHours, pageText).None? ==>
      (hours.None? <==> forall j :: 0 <= j < |Lines(pageText)| ==> !HoursLine(Lines(pageText)[j]))
    ensures Search(OpenHours, pageText).None? ==> hours == FirstLineOf(pageText, HoursLine)
  {
    var hoursMatch := Search(OpenHours, pageText);
    if hoursMatch.Some? {
      var m := Matched(pageText, hoursMatch.value);
      HoursMatchKept(pageText);
      return Some(Take(m, 100));
    }
    hours := None;
    if Contains(pageText, "Open") || Contains(pageText, "Closed") {
      hours := FirstLine(pageText, HoursLine);
      if hours.Some? {
        var j :| 0 <= j < |Lines(pageText)| && HoursLine(Lines(pageText)[j]) && hours.value == Strip(Lines(pageText)[j]);
      }
    } else {
      NoHoursLine(pageText);
    }
  }

  /** The first 100 characters of an hours match still open with "Open" or "Closed". */
  lemma HoursMatchKept(s: string)
    requires Search(OpenHours, s).Some?
    ensures var m := Matched(s, Search(OpenHours, s).value);
      StartsWith(Take(m, 100), "Open") || StartsWith(Take(m, 100), "Closed")
  {
    OpenHoursFound(s);
    TakeKeepsOpening(Matched(s, Search(OpenHours, s).value));
  }

  lemma TakeKeepsOpening(m: string)
    requires StartsWith(m, "Open") || StartsWith(m, "Closed")
    ensures StartsWith(Take(m, 100), "Open") || StartsWith(Take(m, 100), "Closed")
  {
    if StartsWith(m, "Open") {
      assert Take(m, 100)[..4] == m[..4];
    } else {
      assert Take(m, 100)[..6] == m[..6];
    }
  }

  /** A text without "Open" and "Closed" has no hours line. */
  lemma NoHoursLine(s: string)
    requires !Contains(s, "Open") && !Contains(s, "Closed")
    ensures forall j :: 0 <= j < |Lines(s)| ==> !HoursLine(Lines(s)[j])
  {
    forall j | 0 <= j < |Lines(s)| ensures !HoursLine(Lines(s)[j]) {
      LineInText(s, j, "Open");
      LineInText(s, j, "Closed");
    }
  }

  /** A word found in one line of a text is found in the text. */
  lemma LineInText(s: string, j: nat, w: string)
    requires j < |Lines(s)|
    ensures Contains(Lines(s)[j], w) ==> Contains(s, w)
  {
    LinesRoundTrip(s);
    if Contains(Lines(s)[j], w) {
      var ls := Lines(s);
      var i :| 0 <= i <= |ls[j]| && OccursAt(ls[j], w, i);
      var off := LineOffset(ls, j);
      OccursInside(s, off, ls[j], w, i);
    }
  }

  /** What occurs in a piece of `s` occurs in `s`. */
  lemma OccursInside(s: string, a: nat, piece: string, w: string, i: nat)
    requires a + |piece| <= |s| && s[a..a + |piece|] == piece && OccursAt(piece, w, i)
    ensures OccursAt(s, w, a + i)
  {
    forall y | 0 <= y < |w| ensures s[a + i + y] == w[y] {
      assert s[a..a + |piece|][i + y] == piece[i + y];
      assert piece[i..i + |w|][y] == w[y];
    }
    assert s[a + i..a + i + |w|] == w;
  }

  /** Where line `j` of `ls` begins in `JoinLines(ls)`. */
  lemma {:induction false} LineOffset(ls: seq<string>, j: nat) returns (off: nat)
    requires j < |ls|
    ensures off + |ls[j]| <= |JoinLines(ls)| && JoinLines(ls)[off..off + |ls[j]|] == ls[j]
  {
    if j == 0 {
      off := 0;
      if |ls| > 1 {
        assert JoinLines(ls) == ls[0] + ("\n" + JoinLines(ls[1..]));
      }
    } else {
      var rest := LineOffset(ls[1..], j - 1);
      off := |ls[0]| + 1 + rest;
      assert ls[1..][j - 1] == ls[j];
      assert JoinLines(ls) == (ls[0] + "\n") + JoinLines(ls[1..]);
      SliceAfterPrefix(ls[0] + "\n", JoinLines(ls[1..]), rest, |ls[j]|);
    }
  }

  /** A slice of the part after a prefix, seen in the whole. */
  lemma SliceAfterPrefix(p: string, q: string, x: nat, n: nat)
    requires x + n <= |q|
    ensures (p + q)[|p| + x..|p| + x + n] == q[x..x + n]
  {
  }

  // ---------------------------------------------------------------- website, plus code, coordinates, place id

  /** The website: the website element's text when there is one, otherwise the
      first web address in the page text. */
  function ExtractWebsite(pageText: string, websiteButton: Option<string>): (r: Option<string>)
    ensures websiteButton.Some? ==> r == websiteButton
    ensures websiteButton.None? ==> (r.Some? <==> Search(WebAddress, pageText).Some?)
    ensures websiteButton.None? && r.Some? ==> NoSpace(r.value) && (StartsWith(r.value, "http") || StartsWith(r.value, "www."))
    ensures websiteButton.None? && r.Some? ==> var h := Search(WebAddress, pageText).value;
      r.value == pageText[h.start..h.end] && (h.end == |pageText| || IsSpace(pageText[h.end]))
  {
    if websiteButton.Some? then websiteButton
    else match Search(WebAddress, pageText)
      case None => None
      case Some(h) =>
        WebAddressFound(pageText);
        Some(Matched(pageText, h))
  }

  /** The plus code: the first `XXXX+XX(X) word` in the page text. */
  function ExtractPlusCode(pageText: string): (r: Option<string>)
    ensures r.Some? <==> Search(PlusCode, pageText).Some?
    ensures r.Some? ==> (|r.value| >= 9 && r.value[4] == '+'
      && forall j :: 0 <= j < 4 ==> IsUpper(r.value[j]) || IsDigit(r.value[j]))
    ensures r.Some? ==> var h := Search(PlusCode, pageText).value;
      r.value == pageText[h.start..h.end] && (h.end == |pageText| || !IsWordChar(pageText[h.end]))
  {
    match Search(PlusCode, pageText)
    case None => None
    case Some(h) =>
      PlusCodeFound(pageText);
      Some(PlusCodeText(pageText, h.start, h.end))
  }

  /** Latitude and longitude from the URL: the `@lat,lng` form first, and the
      `!3dlat!4dlng` form only when the first is absent. */
  function ExtractCoords(url: string): (r: Option<(string, string)>)
    ensures r.Some? ==> SignedDecimal(r.value.0) && SignedDecimal(r.value.1)
    ensures r.None? <==> Search(AtCoords, url).None? && Search(BangCoords, url).None?
    ensures Search(AtCoords, url).Some? ==> r.Some? && Contains(url, "@" + r.value.0 + "," + r.value.1)
    ensures Search(AtCoords, url).None? && r.Some? ==> Contains(url, "!3d" + r.value.0 + "!4d" + r.value.1)
    ensures Search(AtCoords, url).Some? ==>
      var h := Search(AtCoords, url).value; r == Some((h.group1, h.group2))
    ensures Search(AtCoords, url).None? && Search(BangCoords, url).Some? ==>
      var h := Search(BangCoords, url).value; r == Some((h.group1, h.group2))
  {
    match Search(AtCoords, url)
    case Some(h) =>
      AtCoordsFound(url);
      Some((h.group1, h.group2))
    case None =>
      match Search(BangCoords, url)
      case Some(h) =>
        BangCoordsFound(url);
        Some((h.group1, h.group2))
      case None => None
  }

  /** Coordinates written in the `!3d…!4d…` form are read back exactly. */
  lemma BangCoordsRoundTrip(lat: string, lng: string)
    requires SignedDecimal(lat) && SignedDecimal(lng)
    ensures ExtractCoords("!3d" + lat + "!4d" + lng) == Some((lat, lng))
  {
    var s := "!3d" + lat + "!4d" + lng;
    BangFormAtStart(s, lat, lng);
    NoAtChar(s, lat, lng);
    NoAtMatch(s);
    assert MatchAt(BangCoords, s, 0).Some?;
  }

  lemma BangFormAtStart(s: string, lat: string, lng: string)
    requires SignedDecimal(lat) && SignedDecimal(lng) && s == "!3d" + lat + "!4d" + lng
    ensures BangCoordsAt(s, 0) == Some(Hit(0, |s|, lat, lng))
  {
    BangPieces(s, lat, lng);
    MarkOccurs(s, 0, "!3d", '3');
    MarkOccurs(s, 3 + |lat|, "!4d", '4');
    BangCoordsComplete(s, 0, lat, lng, |s|);
  }

  /** Where the markers and the two groups sit in `!3d<lat>!4d<lng>`. */
  lemma BangPieces(s: string, lat: string, lng: string)
    requires s == "!3d" + lat + "!4d" + lng
    ensures |s| == 6 + |lat| + |lng|
    ensures OccursAt(s, "!3d", 0) && OccursAt(s, lat, 3)
    ensures OccursAt(s, "!4d", 3 + |lat|) && OccursAt(s, lng, 6 + |lat|)
  {
    var e1 := 3 + |lat|;
    assert s[..3] == "!3d";
    assert s[3..e1] == lat;
    assert s[e1..e1 + 3] == "!4d";
    assert s[e1 + 3..] == lng;
  }

  /** The marker `!cd` found at `i` is a marker there. */
  lemma MarkOccurs(s: string, i: nat, m: string, c: char)
    requires m == ['!', c, 'd'] && OccursAt(s, m, i)
    ensures MarkAt(s, i, c)
  {
    assert s[i..i + 3][0] == s[i] && s[i..i + 3][1] == s[i + 1] && s[i..i + 3][2] == s[i + 2];
  }

  /** The `!3d…!4d…` URL has no `@`. */
  lemma NoAtChar(s: string, lat: string, lng: string)
    requires SignedDecimal(lat) && SignedDecimal(lng) && s == "!3d" + lat + "!4d" + lng
    ensures forall j :: 0 <= j < |s| ==> s[j] != '@'
  {
    DecimalChars(lat);
    DecimalChars(lng);
    forall j | 0 <= j < |s| ensures s[j] != '@' {
      if 3 <= j < 3 + |lat| {
        assert s[j] == lat[j - 3];
      } else if j >= 6 + |lat| {
        assert s[j] == lng[j - 6 - |lat|];
      }
    }
  }

  /** A URL without `@` has no `@lat,lng` match. */
  lemma NoAtMatch(s: string)
    requires forall j :: 0 <= j < |s| ==> s[j] != '@'
    ensures Search(AtCoords, s).None?
  {
    forall j | 0 <= j <= |s| ensures MatchAt(AtCoords, s, j).None? {
      assert !CharAt(s, j, '@');
    }
  }

  /** The place identifier: the text after the first usable `/place/` up to the
      next `/` or `@`; failing that, the element's `data-cid` attribute. */
  function ExtractCid(url: string, dataCid: Option<string>): (r: Option<string>)
    ensures (Contains(url, "/place/") && Search(PlacePath, url).Some?) ==>
      (r.Some? && r.value != [] && '/' !in r.value && '@' !in r.value && Contains(url, "/place/" + r.value))
    ensures !(Contains(url, "/place/") && Search(PlacePath, url).Some?) ==> r == dataCid
    ensures Search(PlacePath, url).Some? ==> var h := Search(PlacePath, url).value;
      r == Some(h.group1) && OccursAt(url, "/place/" + h.group1, h.start)
      && (h.end == |url| || url[h.end] == '/' || url[h.end] == '@')
  {
    PlaceMarkerChecked(url);
    var fromUrl :=
      if Contains(url, "/place/") then
        match Search(PlacePath, url)
        case Some(h) =>
          PlacePathFound(url);
          Some(h.group1)
        case None => None
      else None;
    if fromUrl.None? then dataCid else fromUrl
  }

  /** A `/place/` match means the URL holds `/place/`, so the `in` test
      before the search never hides a match. */
  lemma PlaceMarkerChecked(url: string)
    ensures Search(PlacePath, url).Some? ==> Contains(url, "/place/")
  {
    if Search(PlacePath, url).Some? {
      var h := Search(PlacePath, url).value;
      assert PlacePathAt(url, h.start) == Some(h);
    }
  }

  // ---------------------------------------------------------------- the record

  /** The record of one place. */
  datatype Lead = Lead(number: nat, storeName: string, rating: string, totalRatings: string, reviewsCount: string,
    address: string, phoneNumber: string, openingHours: string, website: string, plusCode: string,
    latitude: string, longitude: string, googleMapsUrl: string, cid: string)

  /** What the extraction found for one page; None (or an empty text) where it found nothing. */
  datatype Extracted = Extracted(
    name: string, rating: Option<string>, totalRatings: Option<string>, reviewsCount: Option<string>,
    address: Option<string>, phone: Option<string>, openingHours: Option<string>, website: Option<string>,
    plusCode: Option<string>, lat: Option<string>, lng: Option<string>, cid: Option<string>)

  /** Python truthiness of an optional text: present and not empty. */
  predicate Found(v: Option<string>) { v.Some? && v.value != "" }

  /** `v if v else default`: the value found, or the sentinel. */
  function OrElse(v: Option<string>, default: string): (r: string)
    ensures Found(v) ==> r == v.value
    ensures !Found(v) ==> r == default
  {
    if Found(v) then v.value else default
  }

  /** The store name: the heading's text cut to 200 characters, or "Unknown Store". */
  function StoreName(heading: Option<string>): (r: string)
    ensures heading.Some? ==> |r| <= 200 && |r| <= |heading.value| && r == heading.value[..|r|]
    ensures heading.Some? && |heading.value| <= 200 ==> r == heading.value
    ensures heading.Some? && |heading.value| > 200 ==> r == heading.value[..200]
    ensures heading.None? ==> r == "Unknown Store"
  {
    match heading
    case Some(t) => Take(t, 200)
    case None => "Unknown Store"
  }

  /** The record of the `index`-th place (counted from 0): numbered from 1, the
      URL kept as is, a missing rating or count written 'N/A' and any other
      missing field 'Not found'. */
  function Assemble(index: nat, url: string, e: Extracted): (r: Lead)
    ensures r.number == index + 1 && r.googleMapsUrl == url && r.storeName == e.name
    ensures r.rating == OrElse(e.rating, "N/A") && r.totalRatings == OrElse(e.totalRatings, "N/A")
      && r.reviewsCount == OrElse(e.reviewsCount, "N/A")
    ensures r.address == OrElse(e.address, "Not found") && r.phoneNumber == OrElse(e.phone, "Not found")
      && r.openingHours == OrElse(e.openingHours, "Not found") && r.website == OrElse(e.website, "Not found")
      && r.plusCode == OrElse(e.plusCode, "Not found") && r.latitude == OrElse(e.lat, "Not found")
      && r.longitude == OrElse(e.lng, "Not found") && r.cid == OrElse(e.cid, "Not found")
  {
    Lead(index + 1, e.name, OrElse(e.rating, "N/A"), OrElse(e.totalRatings, "N/A"), OrElse(e.reviewsCount, "N/A"),
      OrElse(e.address, "Not found"), OrElse(e.phone, "Not found"), OrElse(e.openingHours, "Not found"),
      OrElse(e.website, "Not found"), OrElse(e.plusCode, "Not found"), OrElse(e.lat, "Not found"),
      OrElse(e.lng, "Not found"), url, OrElse(e.cid, "Not found"))
  }

  /** What the scraper reads from one place page: its URL, its visible text,
      and the texts of the heading, the stars element's `aria-label`, the
      address and website elements and the `data-cid` attribute (None when
      the page has no such element). */
  datatype Page = Page(url: string, text: string, heading: Option<string>, starsLabel: Option<string>,
    addressButton: Option<string>, websiteButton: Option<string>, dataCid: Option<string>)

  /** The body of the loop over the places: every field extracted from the
      page, then the record assembled. */
  method ProcessPlace(index: nat, page: Page) returns (lead: Lead, found: Extracted)
    ensures lead == Assemble(index, page.url, found)
    ensures found.name == StoreName(page.heading)
    ensures found.totalRatings == found.reviewsCount
    ensures found.rating.Some? ==> IsDigitDotDigit(found.rating.value)
    ensures Search(RatingWithCount, page.text).Some? ==>
      found.rating == FirstGroup(RatingWithCount, page.text)
      && found.reviewsCount == Some(RemoveChar(Search(RatingWithCount, page.text).value.group2, ','))
    ensures Search(RatingWithCount, page.text).None? ==>
      found.rating == (if Search(RatingWithStars, page.text).Some? then FirstGroup(RatingWithStars, page.text)
                       else if page.starsLabel.Some? then FirstGroup(DigitDotDigit, page.starsLabel.value)
                       else None)
      && found.reviewsCount == (match Search(CountWithWord, page.text)
                                case Some(h) => Some(RemoveChar(h.group1, ','))
                                case None => None)
    ensures found.phone.None? <==> FirstMatched(PhonePatterns, page.text).None?
    ensures found.phone.Some? ==> found.phone.value == Strip(FirstMatched(PhonePatterns, page.text).value)
    ensures found.address == if page.addressButton.Some? then page.addressButton else FirstLineOf(page.text, AddressLine)
    ensures found.openingHours == match Search(OpenHours, page.text)
      case Some(h) => Some(Take(Matched(page.text, h), 100))
      case None => FirstLineOf(page.text, HoursLine)
    ensures found.website == ExtractWebsite(page.text, page.websiteButton)
    ensures found.plusCode == ExtractPlusCode(page.text)
    ensures found.lat == (match ExtractCoords(page.url) case Some(c) => Some(c.0) case None => None)
    ensures found.lng == (match ExtractCoords(page.url) case Some(c) => Some(c.1) case None => None)
    ensures found.cid == ExtractCid(page.url, page.dataCid)
  {
    var name := StoreName(page.heading);
    var rating, reviewsCount, totalRatings := ExtractRating(page.text, page.starsLabel);
    var phone, address, openingHours := ScanFields(page);
    var website := ExtractWebsite(page.text, page.websiteButton);
    var plusCode := ExtractPlusCode(page.text);
    var lat, lng, cid := UrlFields(page);
    found := Extracted(name, rating, totalRatings, reviewsCount, address, phone, openingHours, website,
      plusCode, lat, lng, cid);
    lead := Assemble(index, page.url, found);
  }

  /** The fields found by scanning the page text, in the order of the source:
      the phone, the address and the opening hours. */
  method ScanFields(page: Page) returns (phone: Option<string>, address: Option<string>, openingHours: Option<string>)
    ensures phone.None? <==> FirstMatched(PhonePatterns, page.text).None?
    ensures phone.Some? ==> phone.value == Strip(FirstMatched(PhonePatterns, page.text).value)
    ensures address == if page.addressButton.Some? then page.addressButton else FirstLineOf(page.text, AddressLine)
    ensures openingHours == match Search(OpenHours, page.text)
      case Some(h) => Some(Take(Matched(page.text, h), 100))
      case None => FirstLineOf(page.text, HoursLine)
  {
    phone := ExtractPhone(page.text);
    address := ExtractAddress(page.text, page.addressButton);
    openingHours := ExtractHours(page.text);
  }

  /** The fields read off the page URL: the coordinates and the place id. */
  method UrlFields(page: Page) returns (lat: Option<string>, lng: Option<string>, cid: Option<string>)
    ensures lat == (match ExtractCoords(page.url) case Some(c) => Some(c.0) case None => None)
    ensures lng == (match ExtractCoords(page.url) case Some(c) => Some(c.1) case None => None)
    ensures cid == ExtractCid(page.url, page.dataCid)
  {
    lat, lng := None, None;
    var coords := ExtractCoords(page.url);
    if coords.Some? {
      lat, lng := Some(coords.value.0), Some(coords.value.1);
    }
    cid := ExtractCid(page.url, page.dataCid);
  }

  /** Every field of an assembled record other than the name and the URL is
      filled: with what was found, or with its sentinel. */
  lemma AssembledFieldsFilled(index: nat, url: string, e: Extracted)
    ensures var r := Assemble(index, url, e);
      r.rating != "" && r.totalRatings != "" && r.reviewsCount != "" && r.address != ""
      && r.phoneNumber != "" && r.openingHours != "" && r.website != "" && r.plusCode != ""
      && r.latitude != "" && r.longitude != "" && r.cid != ""
  {
  }

  /** The dictionary handed to the exporter (the integer `number` aside). */
  function AsDict(l: Lead): (d: Dict)
    ensures Get(d, "store_name", "") == l.storeName && Get(d, "phone_number", "") == l.phoneNumber
    ensures Get(d, "rating", "N/A") == l.rating && Get(d, "address", "") == l.address && Get(d, "website", "") == l.website
  {
    map["store_name" := l.storeName, "rating" := l.rating, "total_ratings" := l.totalRatings,
        "reviews_count" := l.reviewsCount, "address" := l.address, "phone_number" := l.phoneNumber,
        "opening_hours" := l.openingHours, "website" := l.website, "plus_code" := l.plusCode,
        "latitude" := l.latitude, "longitude" := l.longitude, "google_maps_url" := l.googleMapsUrl, "cid" := l.cid]
  }

  /** A lead whose phone was not found gets no phone key when the leads are
      deduplicated, so only its name can join it with another lead. */
  lemma MissingPhoneHasNoKey(index: nat, url: string, e: Extracted)
    requires !Found(e.phone)
    ensures PhoneKey(AsDict(Assemble(index, url, e))) == ""
  {
  }
}
