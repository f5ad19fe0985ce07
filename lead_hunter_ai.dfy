/** The regex side of `lead_hunter_ai.py`: coordinates from the URL, the text
    part of `extract_phone_fallback`, and the fields the regex path fills in
    when the AI answer did not parse. Element lookups are optional inputs. */
module LeadHunterAi {
  import opened Wrappers
  import opened Text
  import opened Patterns
  import opened ExportUtils
  import LeadHunter

  // ---------------------------------------------------------------- coordinates

  /** `extract_coords_from_url(url)`: the two groups of the leftmost `@lat,lng`
      match; None stands for `(None, None)`. */
  function ExtractCoordsFromUrl(url: string): (r: Option<(string, string)>)
    ensures r.None? <==> Search(AtCoords, url).None?
    ensures r.Some? ==> (SignedDecimal(r.value.0) && SignedDecimal(r.value.1)
      && Contains(url, "@" + r.value.0 + "," + r.value.1))
    ensures Search(AtCoords, url).Some? ==>
      var h := Search(AtCoords, url).value; r == Some((h.group1, h.group2))
  {
    match Search(AtCoords, url)
    case Some(h) =>
      AtCoordsFound(url);
      Some((h.group1, h.group2))
    case None => None
  }

  /** The `@lat,lng` round trip for the coordinates of `lead_hunter.py`, which
      try `@` before `!3d…!4d`. */
  lemma AtRoundTrip(prefix: string, lat: string, lng: string, rest: string)
    requires SignedDecimal(lat) && SignedDecimal(lng)
    requires '@' !in prefix
    requires rest == [] || !IsDigit(rest[0])
    ensures LeadHunter.ExtractCoords(prefix + "@" + lat + "," + lng + rest) == Some((lat, lng))
  {
    AtCoordsRoundTrip(prefix, lat, lng, rest);
  }

  /** A URL whose first `@` opens `@lat,lng`, followed by anything that does
      not continue the second number, yields exactly those two numbers. */
  lemma AtCoordsRoundTrip(prefix: string, lat: string, lng: string, rest: string)
    requires SignedDecimal(lat) && SignedDecimal(lng)
    requires '@' !in prefix
    requires rest == [] || !IsDigit(rest[0])
    ensures ExtractCoordsFromUrl(prefix + "@" + lat + "," + lng + rest) == Some((lat, lng))
  {
    var s := prefix + "@" + lat + "," + lng + rest;
    AtPieces(s, prefix, lat, lng, rest);
    AtUrl(s, |prefix|, lat, lng);
  }

  /** The pieces in place after an `@`-free stretch make the URL's coordinates. */
  lemma AtUrl(s: string, p: nat, lat: string, lng: string)
    requires SignedDecimal(lat) && SignedDecimal(lng) && p + 2 + |lat| + |lng| <= |s|
    requires s[p] == '@' && s[p + 1 + |lat|] == ','
    requires forall j :: 0 <= j < p ==> s[j] != '@'
    requires OccursAt(s, lat, p + 1) && OccursAt(s, lng, p + 2 + |lat|)
    requires p + 2 + |lat| + |lng| == |s| || !IsDigit(s[p + 2 + |lat| + |lng|])
    ensures ExtractCoordsFromUrl(s) == Some((lat, lng))
  {
    var h := Hit(p, p + 2 + |lat| + |lng|, lat, lng);
    AtCoordsComplete(s, p, lat, lng, h.end);
    FirstAtSearched(s, p, h);
  }

  /** With no `@` before `p`, an `@lat,lng` match at `p` is the one the search finds. */
  lemma FirstAtSearched(s: string, p: nat, h: Hit)
    requires p <= |s| && forall j :: 0 <= j < p ==> s[j] != '@'
    requires AtCoordsAt(s, p) == Some(h)
    ensures Search(AtCoords, s) == Some(h)
  {
    forall j | 0 <= j < p
      ensures MatchAt(AtCoords, s, j).None?
    {
      assert !CharAt(s, j, '@');
    }
    SearchAt(AtCoords, s, p);
  }

  /** Where the marker, the comma and the two groups sit in `<prefix>@<lat>,<lng><rest>`. */
  lemma AtPieces(s: string, prefix: string, lat: string, lng: string, rest: string)
    requires s == prefix + "@" + lat + "," + lng + rest && '@' !in prefix
    ensures |s| == |prefix| + 2 + |lat| + |lng| + |rest|
    ensures s[|prefix|] == '@' && s[|prefix| + 1 + |lat|] == ','
    ensures forall j :: 0 <= j < |prefix| ==> s[j] != '@'
    ensures OccursAt(s, lat, |prefix| + 1) && OccursAt(s, lng, |prefix| + 2 + |lat|)
    ensures rest != [] ==> s[|prefix| + 2 + |lat| + |lng|] == rest[0]
  {
    var p := |prefix|;
    var e1 := p + 1 + |lat|;
    assert s[p + 1..e1] == lat;
    assert s[e1 + 1..e1 + 1 + |lng|] == lng;
    forall j | 0 <= j < p
      ensures s[j] != '@'
    {
      assert s[j] == prefix[j];
    }
  }


  // ---------------------------------------------------------------- phone, Method 1: the phone element

  /** An element one of the phone selectors found: its visible text and its
      `href` attribute, None when it has none. */
  datatype Element = Element(text: string, href: Option<string>)

  /** An `href` that is a `tel:` link. */
  predicate TelLink(href: Option<string>) { href.Some? && StartsWith(href.value, "tel:") }

  /** What one element gives: the stripped first run of ten or more phone
      characters in its text; failing that, its `tel:` link with `tel:`
      removed and stripped; otherwise nothing, and the next selector is tried. */
  function ElementPhone(e: Element): Option<string>
  {
    match Search(PhoneRun, e.text)
    case Some(h) => Some(Strip(Matched(e.text, h)))
    case None => if TelLink(e.href) then Some(Strip(RemoveAll(e.href.value, "tel:"))) else None
  }

  /** An element gives a phone exactly when its text holds a phone run or its
      link is a `tel:` link. */
  lemma ElementPhoneMeaning(e: Element)
    ensures ElementPhone(e).Some? <==> Search(PhoneRun, e.text).Some? || TelLink(e.href)
  {
  }

  /** A phone taken from an element's text is made of phone characters only,
      has no space at either end and is found in that text. */
  lemma ElementTextPhone(e: Element)
    requires Search(PhoneRun, e.text).Some?
    ensures var r := ElementPhone(e).value;
      Contains(e.text, r) && (forall j :: 0 <= j < |r| ==> InClass(PhoneChars, r[j]))
      && (r == [] || (!IsSpace(r[0]) && !IsSpace(r[|r| - 1])))
  {
    var h := Search(PhoneRun, e.text).value;
    PhoneRunFound(e.text);
    var m := Matched(e.text, h);
    forall x | 0 <= x < |m| ensures InClass(PhoneChars, m[x]) {
      assert m[x] == e.text[h.start + x];
    }
    StrippedInClass(e.text, m, h.start, PhoneChars);
  }

  /** An occurrence all of class `k`, stripped, is still of class `k` and
      found in the text. */
  lemma StrippedInClass(t: string, m: string, a: nat, k: Class)
    requires OccursAt(t, m, a) && forall x :: 0 <= x < |m| ==> InClass(k, m[x])
    ensures var r := Strip(m);
      Contains(t, r) && forall j :: 0 <= j < |r| ==> InClass(k, r[j])
  {
    var b := StripWithin(t, m, a);
    var off := StripAt(m);
    SliceInClass(m, off, Strip(m), k);
  }

  /** A slice of a text whose characters are all in class `k` has only such characters. */
  lemma SliceInClass(m: string, off: nat, r: string, k: Class)
    requires OccursAt(m, r, off) && forall x :: 0 <= x < |m| ==> InClass(k, m[x])
    ensures forall j :: 0 <= j < |r| ==> InClass(k, r[j])
  {
    forall j | 0 <= j < |r| ensures InClass(k, r[j]) {
      assert r[j] == m[off + j];
    }
  }

  /** An element whose text holds no phone run and whose link is `tel:` followed
      by a number without `tel:` in it gives that number, stripped. */
  lemma TelLinkPhone(text: string, number: string)
    requires Search(PhoneRun, text).None? && !Contains(number, "tel:")
    ensures ElementPhone(Element(text, Some("tel:" + number))) == Some(Strip(number))
  {
    var href := "tel:" + number;
    assert href[..4] == "tel:" && href[4..] == number;
    assert TelLink(Some(href));
    RemoveAllAbsent(number, "tel:");
  }

  /** What each selector's element gives, in selector order; None where the
      selector found no element. */
  function ElementPhones(elements: seq<Option<Element>>): (ps: seq<Option<string>>)
    ensures |ps| == |elements|
    ensures forall j :: 0 <= j < |elements| ==>
      ps[j] == if elements[j].Some? then ElementPhone(elements[j].value) else None
  {
    seq(|elements|, j requires 0 <= j < |elements| =>
      if elements[j].Some? then ElementPhone(elements[j].value) else None)
  }

  /** The position of the first of `ws` that holds a phone; `|ws|` if none does. */
  function FirstFound(ws: seq<Option<string>>): (k: nat)
    ensures k <= |ws|
    ensures forall j :: 0 <= j < k ==> ws[j].None?
    ensures k < |ws| ==> ws[k].Some?
  {
    FirstWhere(ws, (w: Option<string>) => w.Some?)
  }

  /** Method 1's result, from the elements the selectors found, in selector
      order: the phone of the first element that gives one; None when none does. */
  function ButtonScan(elements: seq<Option<Element>>): (r: Option<string>)
  {
    var ps := ElementPhones(elements);
    var k := FirstFound(ps);
    if k < |ps| then ps[k] else None
  }

  /** Method 1 gives a phone exactly when some element does, and then it is the
      phone of the first such element. */
  lemma ButtonScanChoice(elements: seq<Option<Element>>)
    ensures ButtonScan(elements).None? <==>
      forall j :: 0 <= j < |elements| ==> elements[j].None? || ElementPhone(elements[j].value).None?
    ensures ButtonScan(elements).Some? ==> (exists k :: (0 <= k < |elements| && elements[k].Some?
      && ButtonScan(elements) == ElementPhone(elements[k].value)
      && forall j :: 0 <= j < k ==> elements[j].None? || ElementPhone(elements[j].value).None?))
  {
    var ps := ElementPhones(elements);
    var k := FirstFound(ps);
    if k < |ps| {
      assert ps[k] == ElementPhone(elements[k].value);
    }
  }

  /** One element: its text searched for a phone run, then its link for `tel:`. */
  method ElementLookup(element: Element) returns (phone: Option<string>)
    ensures phone == ElementPhone(element)
  {
    var phoneMatch := Search(PhoneRun, element.text);
    if phoneMatch.Some? {
      return Some(Strip(Matched(element.text, phoneMatch.value)));
    }
    var href := element.href;
    if href.Some? && StartsWith(href.value, "tel:") {
      return Some(Strip(RemoveAll(href.value, "tel:")));
    }
    return None;
  }

  /** Method 1: selector by selector, the element found (if any) is looked up;
      the first phone found ends it. */
  method ButtonPhone(elements: seq<Option<Element>>) returns (phone: Option<string>)
    ensures phone == ButtonScan(elements)
  {
    for i := 0 to |elements|
      invariant i <= FirstFound(ElementPhones(elements))
    {
      var found := SelectorLookup(elements, i);
      FirstFoundStep(ElementPhones(elements), i);
      if found.Some? {
        return found;
      }
    }
    return None;
  }

  /** One selector's step: its element, if it found one, looked up. */
  method SelectorLookup(elements: seq<Option<Element>>, i: nat) returns (found: Option<string>)
    requires i < |elements|
    ensures found == ElementPhones(elements)[i]
  {
    found := None;
    if elements[i].Some? {
      found := ElementLookup(elements[i].value);
    }
  }

  /** Walking `ws` before its first phone: a phone at `i` is the first one,
      and none there moves the first one further on. */
  lemma FirstFoundStep(ws: seq<Option<string>>, i: nat)
    requires i < |ws| && i <= FirstFound(ws)
    ensures ws[i].Some? ==> FirstFound(ws) == i
    ensures ws[i].None? ==> i + 1 <= FirstFound(ws)
  {
  }

  // ---------------------------------------------------------------- phone, Method 2: near a keyword

  /** The patterns tried in a keyword's window, in order. */
  const WindowPatterns: seq<Pattern> := [IndianPhone, GeneralPhone, PlusNinetyOnePhone, LandlinePhone, InternationalPhone]

  /** The keywords looked for in the lower-cased panel text, in order. */
  const PhoneKeywords: seq<string> := ["phone", "call", "tel", "contact"]

  /** The check that ends the pattern loop: ten characters or more and not toll-free. */
  predicate Accepted(p: string) { |p| >= 10 && !StartsWith(p, "1800") }

  /** `re.search(p, ctx).group(0).strip()`, or None. */
  function Candidate(p: Pattern, ctx: string): Option<string>
  {
    match Search(p, ctx)
    case None => None
    case Some(h) => Some(Strip(Matched(ctx, h)))
  }

  /** A pattern gives a candidate exactly when it matches, and a phone
      pattern's candidate is never empty. */
  lemma CandidateMeaning(p: Pattern, ctx: string)
    ensures Candidate(p, ctx).Some? <==> Search(p, ctx).Some?
    ensures PhonePattern(p) && Candidate(p, ctx).Some? ==> Candidate(p, ctx).value != []
  {
    if Search(p, ctx).Some? {
      PhoneMatchStripped(p, ctx);
    }
  }

  /** A phone match keeps at least its first character once stripped. */
  lemma PhoneMatchStripped(p: Pattern, ctx: string)
    requires Search(p, ctx).Some?
    ensures PhonePattern(p) ==> Strip(Matched(ctx, Search(p, ctx).value)) != []
  {
    if PhonePattern(p) {
      PhoneMatchOpens(p, ctx);
      HitStripped(ctx, Search(p, ctx).value);
    }
  }

  /** A hit opening with a digit or `+` keeps that character once stripped. */
  lemma HitStripped(s: string, h: Hit)
    requires h.start < h.end <= |s| && (IsDigit(s[h.start]) || s[h.start] == '+')
    ensures Strip(Matched(s, h)) != []
  {
    OpensWithNonSpace(s, h.start, h.end);
  }

  /** A match opening with a non-space keeps at least that character once stripped. */
  lemma OpensWithNonSpace(s: string, a: nat, e: nat)
    requires a < e <= |s| && !IsSpace(s[a])
    ensures Strip(s[a..e]) != []
  {
    assert s[a..e][0] == s[a];
    LeadHunter.StripKeepsHead(s[a..e]);
  }

  /** The candidates of the patterns `ps`, in order. */
  function Candidates(ps: seq<Pattern>, ctx: string): (cs: seq<Option<string>>)
    ensures |cs| == |ps| && forall j :: 0 <= j < |ps| ==> cs[j] == Candidate(ps[j], ctx)
  {
    seq(|ps|, j requires 0 <= j < |ps| => Candidate(ps[j], ctx))
  }

  /** Where the pattern loop leaves the phone after the candidates `cs`: each
      match overwrites it, and an accepted one ends the loop. None if nothing
      matched. */
  function Scan(cs: seq<Option<string>>): Option<string>
    decreases |cs|
  {
    if cs == [] then None
    else
      var prev := Scan(cs[..|cs| - 1]);
      if prev.Some? && Accepted(prev.value) then prev
      else if cs[|cs| - 1].Some? then cs[|cs| - 1]
      else prev
  }

  /** The loop finds nothing exactly when no pattern matches. */
  lemma {:induction false} ScanNone(cs: seq<Option<string>>)
    ensures Scan(cs).None? <==> forall j :: 0 <= j < |cs| ==> cs[j].None?
    decreases |cs|
  {
    if cs != [] {
      var init := cs[..|cs| - 1];
      ScanNone(init);
      assert forall j :: 0 <= j < |init| ==> init[j] == cs[j];
    }
  }

  /** The loop's result is one of the candidates. */
  lemma {:induction false} ScanSource(cs: seq<Option<string>>) returns (j: nat)
    requires Scan(cs).Some?
    ensures j < |cs| && Scan(cs) == cs[j]
    decreases |cs|
  {
    var init := cs[..|cs| - 1];
    var prev := Scan(init);
    if (prev.Some? && Accepted(prev.value)) || cs[|cs| - 1].None? {
      j := ScanSource(init);
      assert init[j] == cs[j];
    } else {
      j := |cs| - 1;
    }
  }

  /** Non-empty candidates leave a non-empty phone. */
  lemma ScanNonEmpty(cs: seq<Option<string>>)
    requires forall j :: 0 <= j < |cs| && cs[j].Some? ==> cs[j].value != []
    ensures Scan(cs).Some? ==> Scan(cs).value != []
  {
    if Scan(cs).Some? {
      var j := ScanSource(cs);
    }
  }

  /** Once the loop has accepted a phone, the later candidates change nothing. */
  lemma {:induction false} ScanStaysAccepted(cs: seq<Option<string>>, i: nat)
    requires i <= |cs|
    requires Scan(cs[..i]).Some? && Accepted(Scan(cs[..i]).value)
    ensures Scan(cs) == Scan(cs[..i])
    decreases |cs| - i
  {
    if i < |cs| {
      assert cs[..i + 1][..i] == cs[..i];
      ScanStaysAccepted(cs, i + 1);
    } else {
      assert cs[..i] == cs;
    }
  }

  /** The first accepted candidate is the phone. */
  lemma {:induction false} ScanFirstAccepted(cs: seq<Option<string>>, k: nat)
    requires k < |cs| && cs[k].Some? && Accepted(cs[k].value)
    requires forall j :: 0 <= j < k ==> cs[j].None? || !Accepted(cs[j].value)
    ensures Scan(cs) == cs[k]
    decreases |cs|
  {
    var init := cs[..|cs| - 1];
    if k < |cs| - 1 {
      assert init[k] == cs[k];
      assert forall j :: 0 <= j < k ==> init[j] == cs[j];
      ScanFirstAccepted(init, k);
    } else if Scan(init).Some? {
      var j := ScanSource(init);
      assert init[j] == cs[j];
    }
  }

  /** When no candidate is accepted, the phone is the last candidate there is,
      and it fails the check. */
  lemma {:induction false} ScanLastMatch(cs: seq<Option<string>>) returns (j: nat)
    requires forall x :: 0 <= x < |cs| ==> cs[x].None? || !Accepted(cs[x].value)
    requires Scan(cs).Some?
    ensures j < |cs| && Scan(cs) == cs[j] && !Accepted(Scan(cs).value)
    ensures forall x :: j < x < |cs| ==> cs[x].None?
    decreases |cs|
  {
    var init := cs[..|cs| - 1];
    assert forall x :: 0 <= x < |init| ==> init[x] == cs[x];
    if Scan(init).Some? {
      var k := ScanSource(init);
      assert init[k] == cs[k];
    }
    if cs[|cs| - 1].Some? {
      j := |cs| - 1;
    } else {
      assert Scan(cs) == Scan(init);
      j := ScanLastMatch(init);
      assert init[j] == cs[j];
    }
  }

  /** The window searched around position `k`: from fifty characters before
      it to a hundred and fifty after it, clipped to the text. */
  function Window(text: string, k: nat): (w: string)
    requires k <= |text|
    ensures |w| <= 200
    ensures OccursAt(text, w, if k >= 50 then k - 50 else 0)
    ensures |w| == (if k + 150 <= |text| then k + 150 else |text|) - (if k >= 50 then k - 50 else 0)
  {
    var start := if k >= 50 then k - 50 else 0;
    var end := if k + 150 <= |text| then k + 150 else |text|;
    text[start..end]
  }

  /** The window around a keyword found in the lower-cased text holds that keyword. */
  lemma WindowHoldsKeyword(text: string, kw: string, k: nat)
    requires OccursAt(Lower(text), kw, k) && |kw| <= 150
    ensures Contains(Lower(Window(text, k)), kw)
  {
    var start := if k >= 50 then k - 50 else 0;
    var w := Window(text, k);
    var lw := Lower(w);
    var p := k - start;
    forall y | 0 <= y < |kw| ensures lw[p + y] == kw[y] {
      assert w[p + y] == text[start..start + |w|][p + y] == text[k + y];
      assert Lower(text)[k..k + |kw|][y] == kw[y];
    }
    assert lw[p..p + |kw|] == kw;
    assert OccursAt(lw, kw, p);
  }

  /** The pattern loop over the patterns `ps`, run on `context`. */
  method PatternLoop(ps: seq<Pattern>, context: string) returns (phone: Option<string>)
    ensures phone == Scan(Candidates(ps, context))
  {
    phone := None;
    var i := 0;
    while i < |ps|
      invariant 0 <= i <= |ps|
      invariant phone == Scan(Candidates(ps, context)[..i])
      invariant phone.Some? ==> !Accepted(phone.value)
    {
      ScanStep(Candidates(ps, context), i);
      var c := CandidateLookup(ps[i], context);
      if c.Some? {
        phone := c;
        if Accepted(c.value) {
          ScanStaysAccepted(Candidates(ps, context), i + 1);
          return;
        }
      }
      i := i + 1;
    }
    assert Candidates(ps, context)[..i] == Candidates(ps, context);
  }

  /** One more candidate: an accepted phone stays, otherwise a match replaces it. */
  lemma ScanStep(cs: seq<Option<string>>, i: nat)
    requires i < |cs|
    ensures Scan(cs[..i + 1]) == (
      var prev := Scan(cs[..i]);
      if prev.Some? && Accepted(prev.value) then prev
      else if cs[i].Some? then cs[i]
      else prev)
  {
    assert cs[..i + 1][..i] == cs[..i];
  }

  /** One pattern's step of the loop: search, and strip what it found. */
  method CandidateLookup(p: Pattern, context: string) returns (c: Option<string>)
    ensures c == Candidate(p, context)
  {
    var found := Search(p, context);
    if found.Some? {
      c := Some(Strip(Matched(context, found.value)));
    } else {
      c := None;
    }
  }

  /** The pattern loop's result on a window; never an empty phone. */
  function WindowScan(context: string): (r: Option<string>)
  {
    Scan(Candidates(WindowPatterns, context))
  }

  /** Every window pattern is a phone pattern, so the window's phone is never empty. */
  lemma WindowScanNonEmpty(context: string)
    ensures WindowScan(context).Some? ==> WindowScan(context).value != []
  {
    WindowPatternsArePhone();
    PhoneCandidates(WindowPatterns, context);
    ScanNonEmpty(Candidates(WindowPatterns, context));
  }

  /** The window patterns are all phone patterns. */
  lemma WindowPatternsArePhone()
    ensures forall j :: 0 <= j < |WindowPatterns| ==> PhonePattern(WindowPatterns[j])
  {
  }

  /** Phone patterns give non-empty candidates. */
  lemma PhoneCandidates(ps: seq<Pattern>, ctx: string)
    requires forall j :: 0 <= j < |ps| ==> PhonePattern(ps[j])
    ensures forall j :: 0 <= j < |ps| && Candidates(ps, ctx)[j].Some? ==> Candidates(ps, ctx)[j].value != []
  {
    forall j | 0 <= j < |ps| {
      CandidateMeaning(ps[j], ctx);
    }
  }

  /** What the pattern loop finds in the window of keyword `kw`, or None when
      the keyword is absent. */
  function KeywordWindow(kw: string, text: string): (r: Option<string>)
    ensures r.Some? ==> Find(Lower(text), kw).Some?
  {
    match Find(Lower(text), kw)
    case Some(k) => WindowScan(Window(text, k))
    case None => None
  }

  /** The window of a keyword found at `k` in the lower-cased text. */
  lemma KeywordWindowAt(kw: string, text: string, k: Option<nat>)
    requires k == Find(Lower(text), kw)
    ensures KeywordWindow(kw, text) == if k.Some? then WindowScan(Window(text, k.value)) else None
  {
  }

  /** The windows of the keywords `kws`, in order. */
  function KeywordWindows(kws: seq<string>, text: string): (ws: seq<Option<string>>)
    ensures |ws| == |kws| && forall j :: 0 <= j < |kws| ==> ws[j] == KeywordWindow(kws[j], text)
  {
    seq(|kws|, j requires 0 <= j < |kws| => KeywordWindow(kws[j], text))
  }

  /** Method 2's result: the phone of the first keyword, in list order, that
      occurs in the lower-cased text and whose window yields a match. */
  function KeywordScan(text: string): (r: Option<string>)
    ensures r.None? <==> forall j :: 0 <= j < |PhoneKeywords| ==> KeywordWindow(PhoneKeywords[j], text).None?
    ensures r.Some? ==> (exists j :: (0 <= j < |PhoneKeywords|
      && Find(Lower(text), PhoneKeywords[j]).Some? && r == KeywordWindow(PhoneKeywords[j], text)
      && forall x :: 0 <= x < j ==> KeywordWindow(PhoneKeywords[x], text).None?))
  {
    var ws := KeywordWindows(PhoneKeywords, text);
    var k := FirstFound(ws);
    if k < |ws| then ws[k] else None
  }

  /** The phone Method 2 finds is never empty. */
  lemma KeywordScanNonEmpty(text: string)
    ensures KeywordScan(text).Some? ==> KeywordScan(text).value != []
  {
    var ws := KeywordWindows(PhoneKeywords, text);
    var k := FirstFound(ws);
    if k < |ws| {
      var found := Find(Lower(text), PhoneKeywords[k]);
      WindowScanNonEmpty(Window(text, found.value));
    }
  }

  /** Method 2 on the details panel's text: keyword by keyword, the pattern
      loop on the window of each keyword found, until one yields a phone. */
  method KeywordPhone(panelText: string) returns (phone: Option<string>)
    ensures phone == KeywordScan(panelText)
  {
    phone := None;
    var lowered := Lower(panelText);
    var i := 0;
    while i < |PhoneKeywords|
      invariant 0 <= i <= FirstFound(KeywordWindows(PhoneKeywords, panelText))
      invariant phone.None?
    {
      var near := KeywordLookup(PhoneKeywords, i, panelText, lowered);
      FirstFoundStep(KeywordWindows(PhoneKeywords, panelText), i);
      if LeadHunter.Found(near) {
        return near;
      }
      i := i + 1;
    }
  }

  /** One keyword's step: found in the lowered text, its window goes
      through the pattern loop. */
  method KeywordLookup(kws: seq<string>, i: nat, panelText: string, lowered: string)
    returns (phone: Option<string>)
    requires i < |kws| && lowered == Lower(panelText)
    ensures phone == KeywordWindows(kws, panelText)[i]
    ensures phone.Some? ==> phone.value != []
  {
    phone := None;
    var keywordPos := Find(lowered, kws[i]);
    KeywordWindowAt(kws[i], panelText, keywordPos);
    if keywordPos.Some? {
      var context := Window(panelText, keywordPos.value);
      phone := PatternLoop(WindowPatterns, context);
      WindowScanNonEmpty(context);
    }
  }

  // ---------------------------------------------------------------- phone, Method 3: the whole page

  /** The patterns whose matches are gathered over the whole page, in order. */
  const PagePatterns: seq<Pattern> := [IndianPhone, GeneralPhone, PlusNinetyOnePhone, LandlinePhone]

  /** The filter of Method 3, on a stripped match: ten characters or more, not
      toll-free and not mentioning Google. */
  predicate Plausible(p: string) {
    |p| >= 10 && !(StartsWith(p, "1800") || StartsWith(p, "1-800") || Contains(Lower(p), "google"))
  }

  /** Each pattern's matches, left to right, one list per pattern. */
  function Gathered(ps: seq<Pattern>, text: string): (gs: seq<seq<string>>)
    ensures |gs| == |ps| && forall j :: 0 <= j < |ps| ==> gs[j] == FindAll(ps[j], text)
  {
    seq(|ps|, j requires 0 <= j < |ps| => FindAll(ps[j], text))
  }

  /** The lists `gs` one after the other. */
  function Flatten(gs: seq<seq<string>>): seq<string>
    decreases |gs|
  {
    if gs == [] then [] else Flatten(gs[..|gs| - 1]) + gs[|gs| - 1]
  }

  /** One more list is appended at the back. */
  lemma FlattenStep(gs: seq<seq<string>>, i: nat)
    requires i < |gs|
    ensures Flatten(gs[..i + 1]) == Flatten(gs[..i]) + gs[i]
  {
    assert gs[..i + 1][..i] == gs[..i];
  }

  /** The first list comes first, then the rest. */
  lemma {:induction false} FlattenFront(gs: seq<seq<string>>)
    requires gs != []
    ensures Flatten(gs) == gs[0] + Flatten(gs[1..])
    decreases |gs|
  {
    if |gs| > 1 {
      var init, tail, last := gs[..|gs| - 1], gs[1..], gs[|gs| - 1];
      FlattenFront(init);
      assert init[0] == gs[0];
      assert tail[..|tail| - 1] == init[1..] && tail[|tail| - 1] == last;
      calc {
        Flatten(gs);
        Flatten(init) + last;
        gs[0] + Flatten(init[1..]) + last;
        { assert Flatten(tail) == Flatten(init[1..]) + last; }
        gs[0] + Flatten(tail);
      }
    } else {
      assert gs[1..] == [];
    }
  }

  /** Lists whose elements are all found in `t` flatten to such a list. */
  lemma {:induction false} FlattenInText(gs: seq<seq<string>>, t: string)
    requires forall i, j :: 0 <= i < |gs| && 0 <= j < |gs[i]| ==> Contains(t, gs[i][j])
    ensures forall j :: 0 <= j < |Flatten(gs)| ==> Contains(t, Flatten(gs)[j])
    decreases |gs|
  {
    if gs != [] {
      var init := gs[..|gs| - 1];
      assert forall i :: 0 <= i < |init| ==> init[i] == gs[i];
      FlattenInText(init, t);
      var f := Flatten(init);
      var last := gs[|gs| - 1];
      forall j | 0 <= j < |Flatten(gs)| ensures Contains(t, Flatten(gs)[j]) {
        if j < |f| {
          assert Flatten(gs)[j] == f[j];
        } else {
          assert Flatten(gs)[j] == last[j - |f|];
        }
      }
    }
  }

  /** `all_phones`: every pattern's matches, pattern after pattern. */
  function AllMatches(ps: seq<Pattern>, text: string): seq<string>
  {
    Flatten(Gathered(ps, text))
  }

  /** The first pattern's matches come first, then those of the rest. */
  lemma AllMatchesFront(ps: seq<Pattern>, text: string)
    requires ps != []
    ensures AllMatches(ps, text) == FindAll(ps[0], text) + AllMatches(ps[1..], text)
  {
    var gs := Gathered(ps, text);
    FlattenFront(gs);
    GatheredTail(ps, text);
  }

  /** Gathering over the patterns after the first is gathering's own tail. */
  lemma GatheredTail(ps: seq<Pattern>, text: string)
    requires ps != []
    ensures Gathered(ps, text)[1..] == Gathered(ps[1..], text)
  {
    var gs, hs := Gathered(ps, text), Gathered(ps[1..], text);
    forall j | 0 <= j < |hs| ensures gs[1..][j] == hs[j] {
      assert ps[1..][j] == ps[j + 1];
    }
  }

  /** Every gathered match is found in the text. */
  lemma AllMatchesInText(ps: seq<Pattern>, text: string)
    ensures forall j :: 0 <= j < |AllMatches(ps, text)| ==> Contains(text, AllMatches(ps, text)[j])
  {
    var gs := Gathered(ps, text);
    forall i | 0 <= i < |gs| {
      FindAllInText(ps[i], text);
    }
    FlattenInText(gs, text);
  }

  /** The position of the first of `xs` that `keep` accepts once cleaned by
      `clean`; `|xs|` when there is none. */
  function FirstKeptAt<T>(xs: seq<T>, clean: T -> string, keep: string -> bool): (k: nat)
    ensures k <= |xs|
    ensures forall j :: 0 <= j < k ==> !keep(clean(xs[j]))
    ensures k < |xs| ==> keep(clean(xs[k]))
  {
    FirstWhere(xs, (x: T) => keep(clean(x)))
  }

  /** The first of `xs` that `keep` accepts once cleaned, cleaned. */
  function FirstKept<T>(xs: seq<T>, clean: T -> string, keep: string -> bool): (r: Option<string>)
    ensures r.None? <==> forall j :: 0 <= j < |xs| ==> !keep(clean(xs[j]))
    ensures r.Some? ==> keep(r.value)
    ensures r.Some? ==> r.value == clean(xs[FirstKeptAt(xs, clean, keep)])
  {
    var k := FirstKeptAt(xs, clean, keep);
    if k < |xs| then Some(clean(xs[k])) else None
  }

  /** Over two lists one after the other, the first list decides when it
      holds an accepted element. */
  lemma FirstKeptAppend(a: seq<string>, b: seq<string>, clean: string -> string, keep: string -> bool)
    ensures FirstKept(a + b, clean, keep) ==
      if FirstKept(a, clean, keep).Some? then FirstKept(a, clean, keep) else FirstKept(b, clean, keep)
  {
    var ka := FirstKeptAt(a, clean, keep);
    var kb := FirstKeptAt(b, clean, keep);
    if ka < |a| {
      forall j | 0 <= j < ka ensures !keep(clean((a + b)[j])) {
        assert (a + b)[j] == a[j];
      }
      assert (a + b)[ka] == a[ka];
      FirstKeptAtIs(a + b, clean, keep, ka);
    } else {
      forall j | 0 <= j < |a| + kb ensures !keep(clean((a + b)[j])) {
        if j < |a| {
          assert (a + b)[j] == a[j];
        } else {
          assert (a + b)[j] == b[j - |a|];
        }
      }
      if kb < |b| {
        assert (a + b)[|a| + kb] == b[kb];
      }
      FirstKeptAtIs(a + b, clean, keep, |a| + kb);
    }
  }

  /** A position before which nothing is accepted, and which is accepted (or
      the end), is the first accepted position. */
  lemma FirstKeptAtIs<T>(xs: seq<T>, clean: T -> string, keep: string -> bool, k: nat)
    requires k <= |xs| && forall j :: 0 <= j < k ==> !keep(clean(xs[j]))
    requires k < |xs| ==> keep(clean(xs[k]))
    ensures FirstKeptAt(xs, clean, keep) == k
  {
  }

  /** Pattern order comes before text position: when the first pattern has a
      match that passes the filter, Method 3 takes the first such match of that
      pattern, wherever the other patterns match. */
  lemma PageScanPrefersFirstPattern(pageText: string)
    ensures var first := FirstKept(FindAll(PagePatterns[0], pageText), Strip, Plausible);
      first.Some? ==> PageScan(pageText) == first
  {
    AllMatchesFront(PagePatterns, pageText);
    FirstKeptAppend(FindAll(PagePatterns[0], pageText), AllMatches(PagePatterns[1..], pageText), Strip, Plausible);
  }

  /** Method 3's result: the first gathered match, over the patterns in order,
      that passes the filter once stripped, stripped. */
  function PageScan(pageText: string): (r: Option<string>)
  {
    FirstKept(AllMatches(PagePatterns, pageText), Strip, Plausible)
  }

  /** The page's phone passes the filter and is found on the page; there is
      none only when no gathered match passes once stripped. */
  lemma PageScanMeaning(pageText: string)
    ensures var all := AllMatches(PagePatterns, pageText);
      PageScan(pageText).None? <==> forall j :: 0 <= j < |all| ==> !Plausible(Strip(all[j]))
    ensures PageScan(pageText).Some? ==>
      Plausible(PageScan(pageText).value) && Contains(pageText, PageScan(pageText).value)
  {
    var all := AllMatches(PagePatterns, pageText);
    var k := FirstKeptAt(all, Strip, Plausible);
    if k < |all| {
      AllMatchesInText(PagePatterns, pageText);
      StripInside(pageText, all[k]);
    }
  }

  /** Stripping something found in a text leaves something found in it. */
  lemma StripInside(t: string, x: string)
    requires Contains(t, x)
    ensures Contains(t, Strip(x))
  {
    var i :| 0 <= i <= |t| && OccursAt(t, x, i);
    var b := StripWithin(t, x, i);
  }

  /** Method 3 on the page text: gather every pattern's matches, keep the
      stripped ones that pass the filter, take the first. */
  method PagePhone(pageText: string) returns (phone: Option<string>)
    ensures phone == PageScan(pageText)
  {
    ghost var gs := Gathered(PagePatterns, pageText);
    var allPhones: seq<string> := [];
    for i := 0 to |PagePatterns|
      invariant allPhones == Flatten(gs[..i])
    {
      var matches := FindAll(PagePatterns[i], pageText);
      FlattenStep(gs, i);
      allPhones := allPhones + matches;
    }
    assert gs[..|PagePatterns|] == gs;
    phone := FirstKeptLoop(allPhones, Strip, Plausible);
  }

  /** The filter loop of Method 3 over the gathered matches: each one is
      cleaned (stripped) and kept when it passes the filter; the first one
      kept is the phone. */
  method FirstKeptLoop(allPhones: seq<string>, clean: string -> string, keep: string -> bool)
    returns (phone: Option<string>)
    ensures phone == FirstKept(allPhones, clean, keep)
  {
    var filtered: seq<string> := [];
    for j := 0 to |allPhones|
      invariant filtered == [] ==> j <= FirstKeptAt(allPhones, clean, keep)
      invariant filtered != [] ==> (FirstKeptAt(allPhones, clean, keep) < j
        && filtered[0] == clean(allPhones[FirstKeptAt(allPhones, clean, keep)]))
    {
      var pClean := clean(allPhones[j]);
      if keep(pClean) {
        filtered := filtered + [pClean];
      }
    }
    if filtered != [] {
      phone := Some(filtered[0]);
    } else {
      phone := None;
    }
  }

  // ---------------------------------------------------------------- extract_phone_fallback

  /** `extract_phone_fallback`: Method 1 on the phone elements; when it gave no
      phone (or an empty one), Method 2 on the details panel's text, if there
      is a panel; when there is still no phone, Method 3 on the page text.
      A method that finds nothing leaves the phone as it was. */
  function PhoneFallback(elements: seq<Option<Element>>, panelText: Option<string>, pageText: string): (r: Option<string>)
  {
    var p1 := ButtonScan(elements);
    var p2 := if !LeadHunter.Found(p1) && panelText.Some? && KeywordScan(panelText.value).Some?
      then KeywordScan(panelText.value) else p1;
    if !LeadHunter.Found(p2) && PageScan(pageText).Some? then PageScan(pageText) else p2
  }

  /** Which method the fallback's phone comes from: a non-empty phone of
      Method 1 wins; otherwise Method 2's, when the panel yields one; otherwise
      Method 3's, which passes the filter; otherwise what Method 1 left. */
  lemma PhoneFallbackChoice(elements: seq<Option<Element>>, panelText: Option<string>, pageText: string)
    ensures var r := PhoneFallback(elements, panelText, pageText);
      var p1 := ButtonScan(elements);
      if LeadHunter.Found(p1) then r == p1
      else if panelText.Some? && KeywordScan(panelText.value).Some? then r == KeywordScan(panelText.value)
      else if PageScan(pageText).Some? then r == PageScan(pageText) && Plausible(r.value)
      else r == p1
  {
    if panelText.Some? {
      KeywordScanNonEmpty(panelText.value);
    }
    PageScanMeaning(pageText);
  }

  /** The fallback, step by step. */
  method ExtractPhoneFallback(elements: seq<Option<Element>>, panelText: Option<string>, pageText: string)
    returns (phone: Option<string>)
    ensures phone == PhoneFallback(elements, panelText, pageText)
  {
    phone := ButtonPhone(elements);
    if !LeadHunter.Found(phone) && panelText.Some? {
      var near := KeywordPhone(panelText.value);
      if near.Some? {
        phone := near;
      }
    }
    if !LeadHunter.Found(phone) {
      var onPage := PagePhone(pageText);
      if onPage.Some? {
        phone := onPage;
      }
    }
  }

  // ---------------------------------------------------------------- store name, rating and reviews (regex path)

  /** A heading text accepted as the store name: longer than three characters
      and not one of the button labels. */
  predicate UsableName(t: string) {
    |t| > 3 && t != "Directions" && t != "Save" && t != "Share"
  }

  /** The stripped text of a name element; the empty text when the selector
      found none, which is never usable. */
  function NameText(n: Option<string>): string {
    if n.Some? then Strip(n.value) else ""
  }

  /** The store name from the name elements, in selector order: the first
      usable stripped heading, cut to 200 characters, or "Unknown". */
  function NameFallback(names: seq<Option<string>>): (r: string)
    ensures r == "Unknown" || (|r| <= 200 && |r| > 3)
    ensures (forall j :: 0 <= j < |names| ==> !UsableName(NameText(names[j]))) ==> r == "Unknown"
    ensures var k := FirstKeptAt(names, NameText, UsableName);
      k < |names| ==> r == Take(NameText(names[k]), 200)
  {
    match FirstKept(names, NameText, UsableName)
    case Some(t) => Take(t, 200)
    case None => "Unknown"
  }

  /** The name loop: selector by selector, the first usable heading wins. */
  method StoreNameFallback(names: seq<Option<string>>) returns (storeName: string)
    ensures storeName == NameFallback(names)
  {
    storeName := "Unknown";
    for i := 0 to |names|
      invariant i <= FirstKeptAt(names, NameText, UsableName)
    {
      if names[i].Some? {
        var nameText := Strip(names[i].value);
        if |nameText| > 3 && nameText !in ["Directions", "Save", "Share"] {
          assert UsableName(NameText(names[i]));
          assert FirstKeptAt(names, NameText, UsableName) == i;
          storeName := Take(nameText, 200);
          return;
        }
      }
      assert !UsableName(NameText(names[i]));
    }
    assert FirstKeptAt(names, NameText, UsableName) == |names|;
  }

  /** `1.0 <= float(t) <= 5.0` for a parsed number. */
  predicate InStarRange(d: Decimal) { Pow10(d.scale) <= d.mantissa <= 5 * Pow10(d.scale) }

  /** The range check on a "d.d" text, as the page code makes it: the text
      parsed as a float lies between 1.0 and 5.0. */
  predicate RatingInRange(t: string) {
    var d := ParseFloat(t); d.Some? && InStarRange(d.value)
  }

  /** A "d.d" text is in range exactly when it is 1.0 to 4.9, or 5.0. */
  lemma RatingInRangeDigits(t: string)
    requires IsDigitDotDigit(t)
    ensures RatingInRange(t) <==> ('1' <= t[0] <= '4' || (t[0] == '5' && t[2] == '0'))
  {
    ParseRatingText(t);
    assert Pow10(1) == 10;
    var a, b := DigitValue(t[0]), DigitValue(t[2]);
    assert ('1' <= t[0] <= '4') == (1 <= a <= 4) && (t[0] == '5') == (a == 5) && (t[2] == '0') == (b == 0);
    TenthsInRange(a, b);
  }

  /** `a.b` lies between 1.0 and 5.0 exactly when `a` is 1 to 4, or `a.b` is 5.0. */
  lemma TenthsInRange(a: nat, b: nat)
    requires a <= 9 && b <= 9
    ensures 10 <= 10 * a + b <= 50 <==> (1 <= a <= 4 || (a == 5 && b == 0))
  {
  }

  /** The first 500 characters of the panel, where the rating appears. */
  function Top(panelText: string): string { Take(panelText, 500) }

  /** The simpler rating search: the first "d.d" of the text, if in range. */
  function SimpleRating(top: string): (r: string)
    ensures r == "N/A" || (IsDigitDotDigit(r) && RatingInRange(r) && Contains(top, r))
    ensures r != "N/A" <==> Search(DigitDotDigit, top).Some? && RatingInRange(Search(DigitDotDigit, top).value.group1)
    ensures r != "N/A" ==> r == Search(DigitDotDigit, top).value.group1
  {
    match Search(DigitDotDigit, top)
    case Some(h) =>
      DigitDotDigitFound(top);
      assert OccursAt(top, h.group1, h.start);
      if RatingInRange(h.group1) then h.group1 else "N/A"
    case None => "N/A"
  }

  /** The rating on the regex path: a "d.d (n)" match in the top of the panel
      gives its rating when in range; otherwise the simpler search decides;
      "N/A" for an empty panel. */
  function RegexRating(panelText: string): (r: string)
    ensures r == "N/A" || (IsDigitDotDigit(r) && RatingInRange(r) && Contains(Top(panelText), r))
    ensures panelText == [] ==> r == "N/A"
    ensures panelText != [] ==>
      var m := Search(RatingWithCount, Top(panelText));
      r == (if m.Some? && RatingInRange(m.value.group1) then m.value.group1 else SimpleRating(Top(panelText)))
  {
    if panelText == [] then "N/A"
    else
      var top := Top(panelText);
      match Search(RatingWithCount, top)
      case Some(h) =>
        RatingWithCountFound(top);
        if RatingInRange(h.group1) then h.group1 else SimpleRating(top)
      case None => SimpleRating(top)
  }

  /** The review count on the regex path: only when a rating was found, the
      first "(n)" of the top of the panel, commas removed; "N/A" otherwise. */
  function RegexReviews(panelText: string, rating: string): (r: string)
    ensures r == "N/A" || (r != [] && AllDigits(r))
    ensures r == "N/A" <==> panelText == [] || rating == "N/A" || Search(ParenCount, Top(panelText)).None?
    ensures r != "N/A" ==>
      var h := Search(ParenCount, Top(panelText)).value;
      r == RemoveChar(h.group1, ',') && Top(panelText)[h.start..h.end] == "(" + h.group1 + ")"
  {
    if panelText != [] && rating != "N/A" then
      var top := Top(panelText);
      match Search(ParenCount, top)
      case Some(h) =>
        ParenCountFound(top);
        LeadHunter.CountDigits(h.group1);
        RemoveChar(h.group1, ',')
      case None => "N/A"
    else "N/A"
  }

  /** A rating is never found out of range, and the count follows the rating:
      no rating, no count. */
  lemma RegexFieldsMeaning(panelText: string)
    ensures var rating := RegexRating(panelText);
      (rating == "N/A" || ('1' <= rating[0] <= '4' || (rating[0] == '5' && rating[2] == '0')))
      && (rating == "N/A" ==> RegexReviews(panelText, rating) == "N/A")
  {
    var rating := RegexRating(panelText);
    if rating != "N/A" {
      RatingInRangeDigits(rating);
    }
  }

  /** The rating and review-count block of the regex path, step by step. */
  method RegexRatingReviews(panelText: string) returns (rating: string, reviews: string)
    ensures rating == RegexRating(panelText)
    ensures reviews == RegexReviews(panelText, rating)
  {
    rating := RatingSearch(panelText);
    reviews := ReviewsSearch(panelText, rating);
  }

  /** The rating search of the regex path. */
  method RatingSearch(panelText: string) returns (rating: string)
    ensures rating == RegexRating(panelText)
  {
    rating := "N/A";
    if panelText != [] {
      var topText := Take(panelText, 500);
      var ratingMatch := Search(RatingWithCount, topText);
      if ratingMatch.Some? {
        var ratingVal := ParseFloat(ratingMatch.value.group1);
        if ratingVal.Some? && InStarRange(ratingVal.value) {
          rating := ratingMatch.value.group1;
        } else {
          rating := SimpleRatingSearch(topText);
        }
        assert rating == (if RatingInRange(ratingMatch.value.group1) then ratingMatch.value.group1 else SimpleRating(topText));
      } else {
        rating := SimpleRatingSearch(topText);
      }
    }
  }

  /** The review-count search of the regex path, made only once a rating is found. */
  method ReviewsSearch(panelText: string, rating: string) returns (reviews: string)
    ensures reviews == RegexReviews(panelText, rating)
  {
    reviews := "N/A";
    if panelText != [] && rating != "N/A" {
      var topText := Take(panelText, 500);
      var reviewMatch := Search(ParenCount, topText);
      if reviewMatch.Some? {
        reviews := RemoveChar(reviewMatch.value.group1, ',');
      }
    }
  }

  /** The simpler rating search, step by step. */
  method SimpleRatingSearch(topText: string) returns (rating: string)
    ensures rating == SimpleRating(topText)
  {
    rating := "N/A";
    var ratingMatch := Search(DigitDotDigit, topText);
    if ratingMatch.Some? {
      var ratingVal := ParseFloat(ratingMatch.value.group1);
      if ratingVal.Some? && InStarRange(ratingVal.value) {
        rating := ratingMatch.value.group1;
      }
      assert rating == (if RatingInRange(ratingMatch.value.group1) then ratingMatch.value.group1 else "N/A");
    }
  }

  // ---------------------------------------------------------------- one store

  /** The record kept for one store. */
  datatype AiLead = AiLead(
    number: nat,
    storeName: string,
    rating: string,
    reviewsCount: string,
    phoneNumber: string,
    address: string,
    openingHours: string,
    website: string,
    plusCode: string,
    latitude: string,
    longitude: string,
    googleMapsUrl: string,
    extractionMethod: string)

  /** The AI answer is used when it parsed to a non-empty object. */
  predicate AiParsed(ai: Option<Dict>) { ai.Some? && |ai.value| > 0 }

  /** The fields the AI answer gives, each with its default when absent. */
  predicate FromAi(lead: AiLead, d: Dict) {
    lead.storeName == Get(d, "store_name", "Unknown")
    && lead.rating == Get(d, "rating", "N/A")
    && lead.reviewsCount == Get(d, "reviews_count", "N/A")
    && lead.phoneNumber == Get(d, "phone", "Not found")
    && lead.address == Get(d, "address", "Not found")
    && lead.openingHours == Get(d, "hours", "Not found")
    && lead.website == Get(d, "website", "Not found")
  }

  /** The fields shared by both paths: plus code, coordinates, number, URL
      and which path was taken. */
  predicate CommonFields(lead: AiLead, index: nat, url: string, pageText: string, ai: Option<Dict>) {
    var coords := ExtractCoordsFromUrl(url);
    lead.number == index + 1
    && lead.googleMapsUrl == url
    && lead.plusCode == LeadHunter.OrElse(LeadHunter.ExtractPlusCode(pageText), "Not found")
    && lead.latitude == (if coords.Some? then coords.value.0 else "Not found")
    && lead.longitude == (if coords.Some? then coords.value.1 else "Not found")
    && lead.extractionMethod == (if AiParsed(ai) then "AI" else "Regex")
  }

  /** One store: the AI answer when it parsed, else the regex path on the
      details panel's text; then the plus code and the coordinates. The page
      lookups are inputs: `names` are the texts of the name elements in
      selector order, `elements` the phone elements, `detailsPanel` the text of
      the panel Method 2 reads. */
  method ProcessStore(index: nat, url: string, panelText: string, ai: Option<Dict>,
                      names: seq<Option<string>>, elements: seq<Option<Element>>, detailsPanel: Option<string>)
    returns (lead: AiLead)
    ensures CommonFields(lead, index, url, panelText, ai)
    ensures AiParsed(ai) ==> FromAi(lead, ai.value)
    ensures !AiParsed(ai) ==>
      lead.storeName == NameFallback(names)
      && lead.rating == RegexRating(panelText)
      && lead.reviewsCount == RegexReviews(panelText, lead.rating)
      && lead.phoneNumber == LeadHunter.OrElse(PhoneFallback(elements, detailsPanel, panelText), "Not found")
      && lead.address == "Not found" && lead.openingHours == "Not found" && lead.website == "Not found"
  {
    var pageText := panelText;
    var coords := ExtractCoordsFromUrl(url);
    var storeName, rating, reviews, phone, address, hours, website;
    if AiParsed(ai) {
      var aiData := ai.value;
      storeName := Get(aiData, "store_name", "Unknown");
      rating := Get(aiData, "rating", "N/A");
      reviews := Get(aiData, "reviews_count", "N/A");
      phone := Get(aiData, "phone", "Not found");
      address := Get(aiData, "address", "Not found");
      hours := Get(aiData, "hours", "Not found");
      website := Get(aiData, "website", "Not found");
    } else {
      storeName := StoreNameFallback(names);
      rating, reviews := RegexRatingReviews(panelText);
      var found := ExtractPhoneFallback(elements, detailsPanel, pageText);
      phone := LeadHunter.OrElse(found, "Not found");
      address, hours, website := "Not found", "Not found", "Not found";
    }
    var plusCode := LeadHunter.ExtractPlusCode(pageText);
    lead := AiLead(index + 1, storeName, rating, reviews, phone, address, hours, website,
      LeadHunter.OrElse(plusCode, "Not found"),
      if coords.Some? then coords.value.0 else "Not found",
      if coords.Some? then coords.value.1 else "Not found",
      url,
      if AiParsed(ai) then "AI" else "Regex");
  }

  /** What the shared fields promise: the path is named after how the fields
      were found; the plus code and the coordinates are the sentinel or what
      the page and the URL hold. */
  lemma ProcessedLeadMeaning(lead: AiLead, index: nat, url: string, pageText: string, ai: Option<Dict>)
    requires CommonFields(lead, index, url, pageText, ai)
    ensures lead.extractionMethod == "AI" <==> AiParsed(ai)
    ensures lead.plusCode == "Not found" || (|lead.plusCode| >= 9 && lead.plusCode[4] == '+')
    ensures lead.latitude == "Not found" || (SignedDecimal(lead.latitude) && SignedDecimal(lead.longitude)
      && Contains(url, "@" + lead.latitude + "," + lead.longitude))
  {
  }
}
