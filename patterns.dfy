/** Hand-written scanners for the regular expressions the scrapers use, with
    Python `re` semantics: a matcher tries the pattern at one position (greedy
    quantifiers, backtracking written out), `Search` is `re.search` (leftmost
    position wins) and `FindAll` is `re.findall` (successive non-overlapping
    matches). Character classes are ASCII. */
module Patterns {
  import opened Wrappers
  import opened Text

  /** The expressions, each named after what it recognises. */
  datatype Pattern =
    | AtCoords           // @(-?\d+\.\d+),(-?\d+\.\d+)
    | BangCoords         // !3d(-?\d+\.\d+)!4d(-?\d+\.\d+)
    | IndianPhone        // \d{5}\s?\d{5}
    | GeneralPhone       // \d{3,4}[\s-]?\d{3,4}[\s-]?\d{4}
    | PlusNinetyOnePhone // \+91[\s-]?\d{10}
    | LandlinePhone      // 0\d{2,4}[\s-]?\d{6,8}
    | InternationalPhone // \+?\d[\d\s\-\(\)]{9,}
    | LoosePhone         // \+?\d[\d\s-]{8,}
    | PhoneRun           // [\d\s\+\-\(\)]{10,}
    | RatingWithCount    // (\d\.\d)[\s\xa0]*\((\d+(?:,\d+)?)\)
    | RatingWithStars    // (\d\.\d)[\s\xa0]*(?:stars?|★), case-insensitive
    | CountWithWord      // (\d+(?:,\d+)?)\s*(?:reviews?|ratings?), case-insensitive
    | ParenCount         // \((\d+(?:,\d+)?)\)
    | DigitDotDigit      // (\d\.\d)
    | PlusCode           // [A-Z0-9]{4}\+[A-Z0-9]{2,3}\s+\w+
    | OpenHours          // (Open|Closed).*?(\d{1,2}(?::\d{2})?\s*(?:AM|PM|am|pm))
    | WebAddress         // https?://[^\s]+|www\.[^\s]+
    | PlacePath          // /place/([^/@]+)

  /** A match `s[start..end]` with its capture groups ("" where the pattern has none). */
  datatype Hit = Hit(start: nat, end: nat, group1: string, group2: string)

  /** The character classes the expressions use. */
  datatype Class =
    | Digits | Spaces | SpacesOrNbsp | UpperAlnum | WordChars | NonSpace | NotSlashOrAt
    | DigitSpaceDash | DigitSpaceDashParen | PhoneChars

  predicate IsSep(c: char) { IsSpace(c) || c == '-' }

  predicate InClass(k: Class, c: char) {
    match k
    case Digits => IsDigit(c)
    case Spaces => IsSpace(c)
    case SpacesOrNbsp => IsSpace(c) || c == '\U{A0}'
    case UpperAlnum => IsUpper(c) || IsDigit(c)
    case WordChars => IsWordChar(c)
    case NonSpace => !IsSpace(c)
    case NotSlashOrAt => c != '/' && c != '@'
    case DigitSpaceDash => IsDigit(c) || IsSep(c)
    case DigitSpaceDashParen => IsDigit(c) || IsSep(c) || c == '(' || c == ')'
    case PhoneChars => IsDigit(c) || IsSep(c) || c == '+' || c == '(' || c == ')'
  }

  /** Length of the longest run of class `k` starting at `i` (what a greedy `k*` takes). */
  function Run(k: Class, s: string, i: nat): (n: nat)
    ensures n == 0 || i + n <= |s|
    ensures i + n < |s| ==> !InClass(k, s[i + n])
    decreases |s| - i
  {
    if i < |s| && InClass(k, s[i]) then 1 + Run(k, s, i + 1) else 0
  }

  /** Every character of the run is in the class. */
  lemma {:induction false} RunClass(k: Class, s: string, i: nat)
    ensures forall j :: i <= j < i + Run(k, s, i) ==> InClass(k, s[j])
    decreases |s| - i
  {
    if i < |s| && InClass(k, s[i]) {
      RunClass(k, s, i + 1);
    }
  }

  predicate CharAt(s: string, i: nat, c: char) { i < |s| && s[i] == c }

  /** `lit` (lower case) occurs at `i`, ignoring ASCII case. */
  predicate OccursAtCi(s: string, lit: string, i: nat) {
    i + |lit| <= |s| && forall j :: 0 <= j < |lit| ==> LowerChar(s[i + j]) == lit[j]
  }

  predicate DigitsBetween(s: string, a: nat, b: nat) {
    a <= b <= |s| && forall j :: a <= j < b ==> IsDigit(s[j])
  }

  predicate DigitsOrSepsBetween(s: string, a: nat, b: nat) {
    a <= b <= |s| && forall j :: a <= j < b ==> IsDigit(s[j]) || IsSep(s[j])
  }

  /** `t` is digits, the separator `sep` at index `k`, then digits, both runs non-empty. */
  predicate SplitAt(t: string, k: int, sep: char) {
    0 < k < |t| - 1 && t[k] == sep && AllDigits(t[..k]) && AllDigits(t[k + 1..])
  }

  /** `-?\d+\.\d+` with its point at index `k`: an optional minus, digits, the
      point, digits, both runs non-empty. */
  predicate DecimalSplit(t: string, k: int) {
    var j := if t != [] && t[0] == '-' then 1 else 0;
    j < k < |t| - 1 && t[k] == '.'
    && (forall x :: j <= x < k ==> IsDigit(t[x]))
    && (forall x :: k < x < |t| ==> IsDigit(t[x]))
  }

  /** `-?\d+\.\d+` */
  predicate SignedDecimal(t: string) {
    exists k :: 0 < k < |t| && DecimalSplit(t, k)
  }

  /** `\d+(?:,\d+)?` */
  predicate CountText(t: string) {
    (t != [] && AllDigits(t))
    || exists k :: 0 < k < |t| && SplitAt(t, k, ',')
  }

  /** `\d\.\d` */
  predicate IsDigitDotDigit(t: string) {
    |t| == 3 && IsDigit(t[0]) && t[1] == '.' && IsDigit(t[2])
  }

  /** A matcher's result starts at `i` and ends, non-empty, inside `s`. */
  predicate Bounded(r: Option<Hit>, s: string, i: nat) {
    r.Some? ==> r.value.start == i && i < r.value.end <= |s|
  }

  // ---------------------------------------------------------------- coordinates

  /** End of `-?\d+\.\d+` at `i`. */
  function DecimalEnd(s: string, i: nat): (r: Option<nat>)
    ensures r.Some? ==> i < r.value <= |s|
  {
    var j := if CharAt(s, i, '-') then i + 1 else i;
    var a := Run(Digits, s, j);
    if a == 0 || !CharAt(s, j + a, '.') then None
    else
      var b := Run(Digits, s, j + a + 1);
      if b == 0 then None
      else Some(j + a + 1 + b)
  }

  /** What `DecimalEnd` takes is a signed decimal. */
  lemma DecimalEndIsDecimal(s: string, i: nat, e: nat)
    requires DecimalEnd(s, i) == Some(e)
    ensures SignedDecimal(s[i..e])
  {
    var j := if CharAt(s, i, '-') then i + 1 else i;
    var a := Run(Digits, s, j);
    var b := Run(Digits, s, j + a + 1);
    assert e == j + a + 1 + b && a > 0 && b > 0 && s[j + a] == '.';
    RunClass(Digits, s, j);
    RunClass(Digits, s, j + a + 1);
    DecimalText(s, i, j - i, j - i + a, e);
  }

  /** Text whose sign, digits and point sit where `-?\d+\.\d+` wants them is a signed decimal. */
  lemma DecimalText(s: string, i: nat, j: nat, k: nat, e: nat)
    requires i + j < i + k < e - 1 && e <= |s| && s[i + k] == '.'
    requires j == (if s[i] == '-' then 1 else 0)
    requires forall x :: i + j <= x < i + k ==> IsDigit(s[x])
    requires forall x :: i + k < x < e ==> IsDigit(s[x])
    ensures SignedDecimal(s[i..e])
  {
    var t := s[i..e];
    assert forall x :: 0 <= x < |t| ==> t[x] == s[i + x];
    assert DecimalSplit(t, k);
  }

  /** A run of `n` digits ended by a non-digit (or the end) is what `\d+` takes. */
  lemma {:induction false} RunOfDigits(s: string, x: nat, n: nat)
    requires DigitsBetween(s, x, x + n) && (x + n == |s| || !IsDigit(s[x + n]))
    ensures Run(Digits, s, x) == n
    decreases n
  {
    if n > 0 {
      RunOfDigits(s, x + 1, n - 1);
    }
  }

  /** The runs `-?\d+\.\d+` reads over a decimal `d` found at `i` with its point at `k`. */
  lemma DecimalRuns(s: string, i: nat, d: string, k: nat)
    requires OccursAt(s, d, i) && DecimalSplit(d, k)
    requires i + |d| == |s| || !IsDigit(s[i + |d|])
    ensures var j := if d[0] == '-' then 1 else 0;
      (CharAt(s, i, '-') <==> j == 1) && Run(Digits, s, i + j) == k - j
      && CharAt(s, i + k, '.') && Run(Digits, s, i + k + 1) == |d| - k - 1
  {
    var j := if d[0] == '-' then 1 else 0;
    forall y | i <= y < i + |d| ensures s[y] == d[y - i] {
      assert s[i..i + |d|][y - i] == d[y - i];
    }
    RunOfDigits(s, i + j, k - j);
    RunOfDigits(s, i + k + 1, |d| - k - 1);
  }

  /** A signed decimal `d` found at `i`, with no digit right after it, is what
      `-?\d+\.\d+` takes there. */
  lemma DecimalEndOf(s: string, i: nat, d: string)
    requires OccursAt(s, d, i) && SignedDecimal(d)
    requires i + |d| == |s| || !IsDigit(s[i + |d|])
    ensures DecimalEnd(s, i) == Some(i + |d|)
  {
    var k :| 0 < k < |d| && DecimalSplit(d, k);
    DecimalRuns(s, i, d, k);
  }

  /** A signed decimal is made of digits, one point and perhaps a leading minus. */
  lemma DecimalChars(d: string)
    requires SignedDecimal(d)
    ensures forall x :: 0 <= x < |d| ==> IsDigit(d[x]) || d[x] == '.' || d[x] == '-'
  {
  }

  lemma SplitAround(s: string, i: nat, n: nat, e1: nat, m: nat, e2: nat)
    requires i + n <= e1 && e1 + m <= e2 <= |s|
    ensures s[i..e2] == s[i..i + n] + s[i + n..e1] + s[e1..e1 + m] + s[e1 + m..e2]
  {
    SliceSplit(s, i, i + n, e2);
    SliceSplit(s, i + n, e1, e2);
    SliceSplit(s, e1, e1 + m, e2);
  }

  /** `@(-?\d+\.\d+),(-?\d+\.\d+)` at `i`. */
  function AtCoordsAt(s: string, i: nat): (r: Option<Hit>)
    ensures Bounded(r, s, i)
  {
    if !CharAt(s, i, '@') then None
    else match DecimalEnd(s, i + 1)
      case None => None
      case Some(e1) =>
        if !CharAt(s, e1, ',') then None
        else match DecimalEnd(s, e1 + 1)
          case None => None
          case Some(e) => Some(Hit(i, e, s[i + 1..e1], s[e1 + 1..e]))
  }

  /** An `@lat,lng` match is exactly `@`, the first group, a comma and the second group. */
  lemma AtCoordsText(s: string, i: nat)
    requires AtCoordsAt(s, i).Some?
    ensures var h := AtCoordsAt(s, i).value; s[i..h.end] == "@" + h.group1 + "," + h.group2
  {
    var h := AtCoordsAt(s, i).value;
    var e1 := DecimalEnd(s, i + 1).value;
    AtTextFromParts(s, i, e1, h.end, h.group1, h.group2);
  }

  lemma AtTextFromParts(s: string, i: nat, e1: nat, e: nat, g1: string, g2: string)
    requires i + 1 <= e1 < e <= |s| && s[i] == '@' && s[e1] == ','
    requires g1 == s[i + 1..e1] && g2 == s[e1 + 1..e]
    ensures s[i..e] == "@" + g1 + "," + g2
  {
    SplitAround(s, i, 1, e1, 1, e);
    assert s[i..i + 1] == "@" && s[e1..e1 + 1] == ",";
  }

  /** The marker `!` `c` `d` at `i`. */
  predicate MarkAt(s: string, i: nat, c: char) {
    i + 3 <= |s| && s[i] == '!' && s[i + 1] == c && s[i + 2] == 'd'
  }

  /** `!3d(-?\d+\.\d+)!4d(-?\d+\.\d+)` at `i`. */
  function BangCoordsAt(s: string, i: nat): (r: Option<Hit>)
    ensures Bounded(r, s, i)
  {
    if !MarkAt(s, i, '3') then None
    else match DecimalEnd(s, i + 3)
      case None => None
      case Some(e1) =>
        if !MarkAt(s, e1, '4') then None
        else match DecimalEnd(s, e1 + 3)
          case None => None
          case Some(e) => Some(Hit(i, e, s[i + 3..e1], s[e1 + 3..e]))
  }

  /** A `!3d…!4d…` match is exactly the two markers each followed by its group. */
  lemma BangCoordsText(s: string, i: nat)
    requires BangCoordsAt(s, i).Some?
    ensures var h := BangCoordsAt(s, i).value; s[i..h.end] == "!3d" + h.group1 + "!4d" + h.group2
  {
    var e1, e := BangCoordsParts(s, i);
    BangTextFromParts(s, i, e1, e, s[i + 3..e1], s[e1 + 3..e]);
  }

  lemma BangTextFromParts(s: string, i: nat, e1: nat, e: nat, g1: string, g2: string)
    requires i + 3 <= e1 && e1 + 3 <= e <= |s| && MarkAt(s, i, '3') && MarkAt(s, e1, '4')
    requires g1 == s[i + 3..e1] && g2 == s[e1 + 3..e]
    ensures s[i..e] == "!3d" + g1 + "!4d" + g2
  {
    SplitAround(s, i, 3, e1, 3, e);
    assert s[i..i + 3] == "!3d" && s[e1..e1 + 3] == "!4d";
  }

  // ---------------------------------------------------------------- phones

  /** Position after an optional `[\s-]` at `j`. */
  function SkipSep(s: string, j: nat): (k: nat)
    ensures k == j || (k == j + 1 && j < |s| && IsSep(s[j]))
  {
    if j < |s| && IsSep(s[j]) then j + 1 else j
  }

  /** `\d{5}\s?\d{5}` at `i`. */
  function IndianPhoneAt(s: string, i: nat): (r: Option<Hit>)
    ensures Bounded(r, s, i)
    ensures r.Some? ==> (
      (r.value.end == i + 10 && DigitsBetween(s, i, i + 10))
      || (r.value.end == i + 11 && DigitsBetween(s, i, i + 5) && IsSpace(s[i + 5]) && DigitsBetween(s, i + 6, i + 11)))
  {
    RunClass(Digits, s, i);
    RunClass(Digits, s, i + 5);
    RunClass(Digits, s, i + 6);
    if Run(Digits, s, i) < 5 then None
    else if i + 5 < |s| && IsSpace(s[i + 5]) && Run(Digits, s, i + 6) >= 5 then Some(Hit(i, i + 11, "", ""))
    else if Run(Digits, s, i + 5) >= 5 then Some(Hit(i, i + 10, "", ""))
    else None
  }

  /** `[\s-]?\d{4}` at `j`. */
  function GeneralTail(s: string, j: nat): (r: Option<nat>)
    ensures r.Some? ==> j + 4 <= r.value <= j + 5 && DigitsOrSepsBetween(s, j, r.value)
    ensures r.Some? ==> IsDigit(s[r.value - 1])
  {
    var k := SkipSep(s, j);
    RunClass(Digits, s, k);
    if Run(Digits, s, k) >= 4 then Some(k + 4) else None
  }

  /** `\d{m}[\s-]?\d{4}` at `k`: its end. */
  function TailFrom(s: string, k: nat, m: nat): (r: Option<nat>)
    requires m > 0
    ensures r.Some? ==> k + m + 4 <= r.value <= k + m + 5 && DigitsOrSepsBetween(s, k, r.value)
    ensures r.Some? ==> IsDigit(s[r.value - 1])
  {
    if Run(Digits, s, k) < m then None
    else match GeneralTail(s, k + m)
      case None => None
      case Some(e) =>
        DigitsThenSeps(s, k, k + m, e);
        Some(e)
  }

  /** `[\s-]?\d{3,4}[\s-]?\d{4}` at `j`, four digits tried before three. */
  function GeneralMiddle(s: string, j: nat): (r: Option<nat>)
    ensures r.Some? ==> j + 7 <= r.value <= j + 10 && DigitsOrSepsBetween(s, j, r.value)
    ensures r.Some? ==> IsDigit(s[r.value - 1])
  {
    var k := SkipSep(s, j);
    if TailFrom(s, k, 4).Some? then TailFrom(s, k, 4) else TailFrom(s, k, 3)
  }

  /** `\d{k}` then `[\s-]?\d{3,4}[\s-]?\d{4}` at `i`: its end. */
  function GeneralFrom(s: string, i: nat, k: nat): (r: Option<nat>)
    requires k > 0
    ensures r.Some? ==> i + k + 7 <= r.value <= i + k + 10 && DigitsOrSepsBetween(s, i, r.value)
    ensures r.Some? ==> IsDigit(s[i]) && IsDigit(s[r.value - 1])
  {
    if Run(Digits, s, i) < k then None
    else match GeneralMiddle(s, i + k)
      case None => None
      case Some(e) =>
        DigitsThenSeps(s, i, i + k, e);
        Some(e)
  }

  /** `n` digits from `j`, then an optional `[\s-]`, ending at `e`. */
  predicate DigitsThenSep(s: string, j: nat, n: nat, e: nat) {
    DigitsBetween(s, j, j + n) && (e == j + n || (e == j + n + 1 && e <= |s| && IsSep(s[j + n])))
  }

  /** `n` digits in a row are what `\d{n}` needs: the run is at least that long. */
  lemma {:induction false} DigitsRunAtLeast(s: string, a: nat, n: nat)
    requires DigitsBetween(s, a, a + n)
    ensures Run(Digits, s, a) >= n
    decreases n
  {
    if n > 0 {
      DigitsRunAtLeast(s, a + 1, n - 1);
    }
  }

  /** An optional separator followed by a digit is skipped exactly. */
  lemma SkipSepTo(s: string, j: nat, e: nat)
    requires e == j || (e == j + 1 && j < |s| && IsSep(s[j]))
    requires e < |s| && IsDigit(s[e])
    ensures SkipSep(s, j) == e
  {
  }

  /** `\d{5}\s?\d{5}` matches at `i` exactly when ten digits, or five digits,
      a whitespace character and five digits, start there. */
  lemma IndianPhoneExact(s: string, i: nat)
    ensures IndianPhoneAt(s, i).Some? <==>
      DigitsBetween(s, i, i + 10)
      || (DigitsBetween(s, i, i + 5) && i + 5 < |s| && IsSpace(s[i + 5]) && DigitsBetween(s, i + 6, i + 11))
  {
    if DigitsBetween(s, i, i + 10) {
      DigitsRunAtLeast(s, i, 5);
      DigitsRunAtLeast(s, i + 5, 5);
    } else if DigitsBetween(s, i, i + 5) && i + 5 < |s| && IsSpace(s[i + 5]) && DigitsBetween(s, i + 6, i + 11) {
      DigitsRunAtLeast(s, i, 5);
      DigitsRunAtLeast(s, i + 6, 5);
    }
  }

  /** `\d{3,4}[\s-]?\d{3,4}[\s-]?\d{4}` at `i`, four leading digits tried before three. */
  function GeneralPhoneAt(s: string, i: nat): (r: Option<Hit>)
    ensures Bounded(r, s, i)
    ensures r.Some? ==> i + 10 <= r.value.end <= i + 14 && DigitsOrSepsBetween(s, i, r.value.end)
    ensures r.Some? ==> IsDigit(s[i]) && IsDigit(s[r.value.end - 1])
  {
    var e := if GeneralFrom(s, i, 4).Some? then GeneralFrom(s, i, 4) else GeneralFrom(s, i, 3);
    if e.None? then None else Some(Hit(i, e.value, "", ""))
  }

  /** A run of digits from `a` to `b` followed by digits and separators up to `c`. */
  lemma DigitsThenSeps(s: string, a: nat, b: nat, c: nat)
    requires a < b && Run(Digits, s, a) >= b - a && DigitsOrSepsBetween(s, b, c)
    ensures DigitsOrSepsBetween(s, a, c) && IsDigit(s[a])
  {
    RunClass(Digits, s, a);
  }

  /** `\+91[\s-]?\d{10}` at `i`. */
  function PlusNinetyOneAt(s: string, i: nat): (r: Option<Hit>)
    ensures Bounded(r, s, i)
    ensures r.Some? ==> OccursAt(s, "+91", i) && i + 13 <= r.value.end <= i + 14
    ensures r.Some? ==> DigitsBetween(s, r.value.end - 10, r.value.end)
  {
    if !OccursAt(s, "+91", i) then None
    else
      var k := SkipSep(s, i + 3);
      RunClass(Digits, s, k);
      if Run(Digits, s, k) >= 10 then Some(Hit(i, k + 10, "", "")) else None
  }

  /** Whenever the text at `i` has the shape of `\d{3,4}[\s-]?\d{3,4}[\s-]?\d{4}`
      (groups of `a` and `b` digits, each perhaps followed by a separator,
      then four digits), the matcher finds a match there: the backtracking
      over three and four digits misses none. */
  lemma GeneralPhoneComplete(s: string, i: nat, a: nat, e1: nat, b: nat, e2: nat)
    requires 3 <= a <= 4 && 3 <= b <= 4
    requires DigitsThenSep(s, i, a, e1) && DigitsThenSep(s, e1, b, e2) && DigitsBetween(s, e2, e2 + 4)
    ensures GeneralPhoneAt(s, i).Some?
  {
    GeneralLeadComplete(s, i, a, e1, b);
    GeneralMiddleComplete(s, i + a, e1, b, e2);
    GeneralFromSome(s, i, a);
    GeneralFromComplete(s, i, a);
  }

  /** The leading group in place: its digits are there, and the optional
      separator after it is skipped up to the next group. */
  lemma GeneralLeadComplete(s: string, i: nat, a: nat, e1: nat, b: nat)
    requires 3 <= a <= 4 && 3 <= b
    requires DigitsThenSep(s, i, a, e1) && DigitsBetween(s, e1, e1 + b)
    ensures Run(Digits, s, i) >= a && SkipSep(s, i + a) == e1
  {
    DigitsRunAtLeast(s, i, a);
    assert e1 < |s| && IsDigit(s[e1]);
    SkipSepTo(s, i + a, e1);
  }

  /** A leading group of three or four digits with the rest matching makes
      the whole pattern match, whichever length the matcher tries first. */
  lemma GeneralFromComplete(s: string, i: nat, a: nat)
    requires 3 <= a <= 4 && GeneralFrom(s, i, a).Some?
    ensures GeneralPhoneAt(s, i).Some?
  {
  }

  /** Leading digits followed by a matching middle: `GeneralFrom` succeeds. */
  lemma GeneralFromSome(s: string, i: nat, a: nat)
    requires 3 <= a <= 4 && Run(Digits, s, i) >= a && GeneralMiddle(s, i + a).Some?
    ensures GeneralFrom(s, i, a).Some?
  {
  }

  /** The middle group and the last four digits in place make `GeneralMiddle` succeed. */
  lemma GeneralMiddleComplete(s: string, j: nat, e1: nat, b: nat, e2: nat)
    requires 3 <= b <= 4 && SkipSep(s, j) == e1
    requires DigitsThenSep(s, e1, b, e2) && DigitsBetween(s, e2, e2 + 4)
    ensures GeneralMiddle(s, j).Some?
  {
    DigitsRunAtLeast(s, e1, b);
    assert e2 < |s| && IsDigit(s[e2]);
    SkipSepTo(s, e1 + b, e2);
    DigitsRunAtLeast(s, e2, 4);
    GeneralTailSome(s, e1 + b, e2);
    TailFromSome(s, e1, b);
    MiddleFromTail(s, j, e1, b);
  }

  /** A skipped separator followed by four digits: `GeneralTail` succeeds. */
  lemma GeneralTailSome(s: string, j: nat, e: nat)
    requires SkipSep(s, j) == e && Run(Digits, s, e) >= 4
    ensures GeneralTail(s, j).Some?
  {
  }

  /** `m` digits followed by a matching tail: `TailFrom` succeeds. */
  lemma TailFromSome(s: string, k: nat, m: nat)
    requires 3 <= m <= 4 && Run(Digits, s, k) >= m && GeneralTail(s, k + m).Some?
    ensures TailFrom(s, k, m).Some?
  {
  }

  /** A middle group of three or four digits with its tail: `GeneralMiddle`
      succeeds, whichever length it tries first. */
  lemma MiddleFromTail(s: string, j: nat, k: nat, m: nat)
    requires 3 <= m <= 4 && SkipSep(s, j) == k && TailFrom(s, k, m).Some?
    ensures GeneralMiddle(s, j).Some?
  {
  }

  /** `\+91[\s-]?\d{10}` matches at `i` exactly when "+91" starts there,
      followed by ten digits, perhaps after one separator. */
  lemma PlusNinetyOneExact(s: string, i: nat)
    ensures PlusNinetyOneAt(s, i).Some? <==>
      OccursAt(s, "+91", i)
      && (DigitsBetween(s, i + 3, i + 13) || (i + 3 < |s| && IsSep(s[i + 3]) && DigitsBetween(s, i + 4, i + 14)))
  {
    if OccursAt(s, "+91", i) {
      if DigitsBetween(s, i + 3, i + 13) {
        SkipSepTo(s, i + 3, i + 3);
        DigitsRunAtLeast(s, i + 3, 10);
      } else if i + 3 < |s| && IsSep(s[i + 3]) && DigitsBetween(s, i + 4, i + 14) {
        SkipSepTo(s, i + 3, i + 4);
        DigitsRunAtLeast(s, i + 4, 10);
      }
    }
    if PlusNinetyOneAt(s, i).Some? {
      var k := SkipSep(s, i + 3);
      RunClass(Digits, s, k);
    }
  }

  /** `[\s-]?\d{6,8}` at `j`, as many digits as possible up to eight. */
  function LandlineTail(s: string, j: nat): (r: Option<nat>)
    ensures r.Some? ==> j + 6 <= r.value <= j + 9 && DigitsOrSepsBetween(s, j, r.value)
  {
    var k := SkipSep(s, j);
    var n := Run(Digits, s, k);
    RunClass(Digits, s, k);
    if n >= 6 then Some(k + (if n >= 8 then 8 else n)) else None
  }

  /** `0\d{2,4}[\s-]?\d{6,8}` at `i`, four area digits tried before three and two. */
  function LandlinePhoneAt(s: string, i: nat): (r: Option<Hit>)
    ensures Bounded(r, s, i)
    ensures r.Some? ==> s[i] == '0' && i + 9 <= r.value.end <= i + 14
    ensures r.Some? ==> DigitsOrSepsBetween(s, i, r.value.end)
  {
    if !CharAt(s, i, '0') then None
    else
      var e := if LandlineArea(s, i + 1, 4).Some? then LandlineArea(s, i + 1, 4)
        else if LandlineArea(s, i + 1, 3).Some? then LandlineArea(s, i + 1, 3)
        else LandlineArea(s, i + 1, 2);
      if e.None? then None else Some(Hit(i, e.value, "", ""))
  }

  /** `\d{a}[\s-]?\d{6,8}` at `j`: its end. */
  function LandlineArea(s: string, j: nat, a: nat): (r: Option<nat>)
    requires a > 0
    ensures r.Some? ==> j + a + 6 <= r.value <= j + a + 9 && DigitsOrSepsBetween(s, j, r.value)
  {
    if Run(Digits, s, j) < a then None
    else match LandlineTail(s, j + a)
      case None => None
      case Some(e) =>
        DigitsThenSeps(s, j, j + a, e);
        Some(e)
  }

  /** Whenever the text at `i` has the shape of `0\d{2,4}[\s-]?\d{6,8}` (a
      '0', `a` area digits perhaps followed by a separator, then six digits),
      the matcher finds a match there. */
  lemma LandlinePhoneComplete(s: string, i: nat, a: nat, e1: nat)
    requires 2 <= a <= 4 && CharAt(s, i, '0')
    requires DigitsThenSep(s, i + 1, a, e1) && DigitsBetween(s, e1, e1 + 6)
    ensures LandlinePhoneAt(s, i).Some?
  {
    DigitsRunAtLeast(s, i + 1, a);
    assert e1 < |s| && IsDigit(s[e1]);
    SkipSepTo(s, i + 1 + a, e1);
    DigitsRunAtLeast(s, e1, 6);
    LandlineTailSome(s, i + 1 + a, e1);
    LandlineAreaSome(s, i + 1, a);
    LandlineFromTail(s, i, a);
  }

  /** `a` digits followed by a matching tail: `LandlineArea` succeeds. */
  lemma LandlineAreaSome(s: string, j: nat, a: nat)
    requires 2 <= a <= 4 && Run(Digits, s, j) >= a && LandlineTail(s, j + a).Some?
    ensures LandlineArea(s, j, a).Some?
  {
  }

  /** A skipped separator followed by six digits: `LandlineTail` succeeds. */
  lemma LandlineTailSome(s: string, j: nat, e: nat)
    requires SkipSep(s, j) == e && Run(Digits, s, e) >= 6
    ensures LandlineTail(s, j).Some?
  {
  }

  /** A '0', `a` area digits and a matching tail: the landline matcher
      succeeds, whichever area length it tries first. */
  lemma LandlineFromTail(s: string, i: nat, a: nat)
    requires 2 <= a <= 4 && CharAt(s, i, '0') && LandlineArea(s, i + 1, a).Some?
    ensures LandlinePhoneAt(s, i).Some?
  {
  }

  /** `\+?\d` followed by at least `least` characters of class `k`, greedily. */
  function SignedDigitRunAt(s: string, i: nat, k: Class, least: nat): (r: Option<Hit>)
    ensures Bounded(r, s, i)
    ensures r.Some? ==> r.value.end >= i + 1 + least
    ensures r.Some? ==> IsDigit(s[i]) || s[i] == '+'
  {
    var j := if CharAt(s, i, '+') then i + 1 else i;
    if j < |s| && IsDigit(s[j]) then
      var n := Run(k, s, j + 1);
      if n >= least then Some(Hit(i, j + 1 + n, "", "")) else None
    else None
  }

  /** `[\d\s\+\-\(\)]{10,}` at `i`: the whole run of phone characters,
      when it is ten characters long or more. */
  function PhoneRunAt(s: string, i: nat): (r: Option<Hit>)
    ensures Bounded(r, s, i)
    ensures r.Some? ==> r.value.end >= i + 10
  {
    var n := Run(PhoneChars, s, i);
    if n >= 10 then Some(Hit(i, i + n, "", "")) else None
  }

  // ---------------------------------------------------------------- ratings and counts

  /** `\d+,\d+` at `k`: its end. */
  function GroupedEnd(s: string, k: nat): (r: Option<nat>)
    ensures r.Some? ==> k < r.value <= |s| && CountText(s[k..r.value])
  {
    var a := Run(Digits, s, k);
    var b := Run(Digits, s, k + a + 1);
    if a > 0 && CharAt(s, k + a, ',') && b > 0 then
      RunClass(Digits, s, k);
      RunClass(Digits, s, k + a + 1);
      assert SplitAt(s[k..k + a + 1 + b], a, ',');
      Some(k + a + 1 + b)
    else None
  }

  /** The first `n` characters of a run of digits. */
  lemma DigitsText(s: string, k: nat, n: nat)
    requires 0 < n <= Run(Digits, s, k)
    ensures k + n <= |s| && CountText(s[k..k + n])
  {
    RunClass(Digits, s, k);
    assert AllDigits(s[k..k + n]);
  }

  /** Index of the `)` closing `\d+(?:,\d+)?` that starts at `k`, the
      thousands group tried first. */
  function CountClose(s: string, k: nat): (r: Option<nat>)
    ensures r.Some? ==> k < r.value < |s| && s[r.value] == ')' && CountText(s[k..r.value])
  {
    var a := Run(Digits, s, k);
    var g := GroupedEnd(s, k);
    if g.Some? && CharAt(s, g.value, ')') then g
    else if a > 0 && CharAt(s, k + a, ')') then
      DigitsText(s, k, a);
      Some(k + a)
    else None
  }

  predicate DigitDotDigitAt(s: string, i: nat) {
    i + 3 <= |s| && IsDigitDotDigit(s[i..i + 3])
  }

  /** `(\d\.\d)[\s\xa0]*\((\d+(?:,\d+)?)\)` at `i`. */
  function RatingWithCountAt(s: string, i: nat): (r: Option<Hit>)
    ensures Bounded(r, s, i)
    ensures r.Some? ==> IsDigitDotDigit(r.value.group1) && i + 3 <= |s| && r.value.group1 == s[i..i + 3]
    ensures r.Some? ==> CountText(r.value.group2)
  {
    if !DigitDotDigitAt(s, i) then None
    else
      var j := i + 3 + Run(SpacesOrNbsp, s, i + 3);
      if !CharAt(s, j, '(') then None
      else match CountClose(s, j + 1)
        case None => None
        case Some(c) => Some(Hit(i, c + 1, s[i..i + 3], s[j + 1..c]))
  }

  /** `(\d\.\d)[\s\xa0]*(?:stars?|★)` at `i`, case-insensitive. */
  function RatingWithStarsAt(s: string, i: nat): (r: Option<Hit>)
    ensures Bounded(r, s, i)
    ensures r.Some? ==> IsDigitDotDigit(r.value.group1) && i + 3 <= |s| && r.value.group1 == s[i..i + 3]
  {
    if !DigitDotDigitAt(s, i) then None
    else
      var j := i + 3 + Run(SpacesOrNbsp, s, i + 3);
      if OccursAtCi(s, "star", j) then
        Some(Hit(i, j + 4 + (if j + 4 < |s| && LowerChar(s[j + 4]) == 's' then 1 else 0), s[i..i + 3], ""))
      else if CharAt(s, j, '\U{2605}') then Some(Hit(i, j + 1, s[i..i + 3], ""))
      else None
  }

  /** `\s*(?:reviews?|ratings?)` at `k`, case-insensitive: its end. */
  function CountWordEnd(s: string, k: nat): (r: Option<nat>)
    ensures r.Some? ==> k < r.value <= |s|
  {
    var j := k + Run(Spaces, s, k);
    if OccursAtCi(s, "review", j) || OccursAtCi(s, "rating", j) then
      Some(j + 6 + (if j + 6 < |s| && LowerChar(s[j + 6]) == 's' then 1 else 0))
    else None
  }

  /** `(\d+(?:,\d+)?)\s*(?:reviews?|ratings?)` at `i`: the thousands group is
      tried first and dropped when the words do not follow it. */
  function CountWithWordAt(s: string, i: nat): (r: Option<Hit>)
    ensures Bounded(r, s, i)
    ensures r.Some? ==> CountText(r.value.group1)
  {
    var a := Run(Digits, s, i);
    var g := GroupedEnd(s, i);
    var grouped := if g.Some? then CountWordEnd(s, g.value) else None;
    if grouped.Some? then Some(Hit(i, grouped.value, s[i..g.value], ""))
    else if a == 0 then None
    else match CountWordEnd(s, i + a)
      case None => None
      case Some(w) =>
        DigitsText(s, i, a);
        Some(Hit(i, w, s[i..i + a], ""))
  }

  /** `\((\d+(?:,\d+)?)\)` at `i`. */
  function ParenCountAt(s: string, i: nat): (r: Option<Hit>)
    ensures Bounded(r, s, i)
    ensures r.Some? ==> CountText(r.value.group1) && s[i..r.value.end] == "(" + r.value.group1 + ")"
  {
    if !CharAt(s, i, '(') then None
    else match CountClose(s, i + 1)
      case None => None
      case Some(c) =>
        Bracketed(s, i, c);
        Some(Hit(i, c + 1, s[i + 1..c], ""))
  }

  /** The text from an opening '(' to a closing ')' is the part between them, bracketed. */
  lemma Bracketed(s: string, i: nat, c: nat)
    requires i < c < |s| && s[i] == '(' && s[c] == ')'
    ensures s[i..c + 1] == "(" + s[i + 1..c] + ")"
  {
    assert s[i..c + 1] == s[i..i + 1] + s[i + 1..c] + s[c..c + 1];
  }

  // ---------------------------------------------------------------- plus code, hours, web, place

  /** `[A-Z0-9]{4}\+[A-Z0-9]{2,3}\s+\w+` at `i`. */
  function PlusCodeAt(s: string, i: nat): (r: Option<Hit>)
    ensures Bounded(r, s, i)
    ensures r.Some? ==> i + 9 <= r.value.end && s[i + 4] == '+'
    ensures r.Some? ==> forall j :: i <= j < i + 4 ==> IsUpper(s[j]) || IsDigit(s[j])
    ensures r.Some? ==> r.value.end == |s| || !IsWordChar(s[r.value.end])
  {
    RunClass(UpperAlnum, s, i);
    if Run(UpperAlnum, s, i) < 4 || !CharAt(s, i + 4, '+') then None
    else
      var a := Run(UpperAlnum, s, i + 5);
      var a' := if a >= 3 then 3 else a;
      if a' < 2 then None
      else
        var w := Run(Spaces, s, i + 5 + a');
        if w == 0 then None
        else
          var x := Run(WordChars, s, i + 5 + a' + w);
          if x == 0 then None else Some(Hit(i, i + 5 + a' + w + x, "", ""))
  }

  /** `\s*(?:AM|PM|am|pm)` at `j`: its end. */
  function MeridiemEnd(s: string, j: nat): (r: Option<nat>)
    ensures r.Some? ==> j < r.value <= |s|
  {
    var e := j + Run(Spaces, s, j);
    if OccursAt(s, "AM", e) || OccursAt(s, "PM", e) || OccursAt(s, "am", e) || OccursAt(s, "pm", e)
    then Some(e + 2) else None
  }

  /** `(?::\d{2})?\s*(?:AM|PM|am|pm)` at `j`, the minutes tried first. */
  function AfterHourEnd(s: string, j: nat): (r: Option<nat>)
    ensures r.Some? ==> j < r.value <= |s|
  {
    var withMinutes := if CharAt(s, j, ':') && Run(Digits, s, j + 1) >= 2 then MeridiemEnd(s, j + 3) else None;
    if withMinutes.Some? then withMinutes else MeridiemEnd(s, j)
  }

  /** `\d{1,2}(?::\d{2})?\s*(?:AM|PM|am|pm)` at `k`, two hour digits tried first. */
  function TimeEnd(s: string, k: nat): (r: Option<nat>)
    ensures r.Some? ==> k < r.value <= |s|
  {
    var n := Run(Digits, s, k);
    if n >= 2 && AfterHourEnd(s, k + 2).Some? then AfterHourEnd(s, k + 2)
    else if n >= 1 then AfterHourEnd(s, k + 1)
    else None
  }

  /** `.*?` then a time: the nearest start on the same line where a time matches. */
  function LazyTimeEnd(s: string, k: nat): (r: Option<nat>)
    requires k <= |s|
    ensures r.Some? ==> k < r.value <= |s|
    decreases |s| - k
  {
    if TimeEnd(s, k).Some? then TimeEnd(s, k)
    else if k < |s| && s[k] != '\n' then LazyTimeEnd(s, k + 1)
    else None
  }

  /** `(Open|Closed).*?(\d{1,2}(?::\d{2})?\s*(?:AM|PM|am|pm))` at `i`. */
  function OpenHoursAt(s: string, i: nat): (r: Option<Hit>)
    ensures Bounded(r, s, i)
    ensures r.Some? ==> (OccursAt(s, "Open", i) && i + 4 < r.value.end) || (OccursAt(s, "Closed", i) && i + 6 < r.value.end)
  {
    var k := if OccursAt(s, "Open", i) then i + 4 else if OccursAt(s, "Closed", i) then i + 6 else 0;
    if k == 0 then None
    else match LazyTimeEnd(s, k)
      case None => None
      case Some(e) => Some(Hit(i, e, "", ""))
  }

  /** A literal without whitespace, found at `i`, puts no whitespace in `s[i..i + |lit|]`. */
  lemma LiteralNoSpace(s: string, lit: string, i: nat)
    requires OccursAt(s, lit, i) && NoSpace(lit)
    ensures forall x :: i <= x < i + |lit| ==> !IsSpace(s[x])
  {
    forall x | i <= x < i + |lit| ensures !IsSpace(s[x]) {
      assert s[x] == s[i..i + |lit|][x - i];
    }
  }

  /** A non-empty run of non-space characters from `j` after a literal
      without whitespace found at `i`: the address ends at the next
      whitespace. */
  predicate AddressSpan(s: string, i: nat, e: nat) {
    i < e <= |s| && (forall x :: i <= x < e ==> !IsSpace(s[x])) && (e == |s| || IsSpace(s[e]))
  }

  /** `lit` at `i`, then `[^\s]+` from `j`: its end. */
  function AddressEnd(s: string, i: nat, lit: string, j: nat): (r: Option<nat>)
    requires OccursAt(s, lit, i) && NoSpace(lit) && j == i + |lit|
    ensures r.Some? ==> AddressSpan(s, i, r.value) && j < r.value
  {
    var n := Run(NonSpace, s, j);
    if n == 0 then None
    else
      LiteralNoSpace(s, lit, i);
      RunClass(NonSpace, s, j);
      Some(j + n)
  }

  /** `https?://[^\s]+` at `i`: its end. */
  function HttpEnd(s: string, i: nat): (r: Option<nat>)
    ensures r.Some? ==> OccursAt(s, "http", i) && AddressSpan(s, i, r.value) && i + 4 < r.value
  {
    if !OccursAt(s, "http", i) then None
    else
      var j := if CharAt(s, i + 4, 's') then i + 5 else i + 4;
      if !OccursAt(s, "://", j) then None
      else match AddressEnd(s, j, "://", j + 3)
        case None => None
        case Some(e) =>
          LiteralNoSpace(s, "http", i);
          assert CharAt(s, i + 4, 's') ==> !IsSpace(s[i + 4]);
          Some(e)
  }

  /** `https?://[^\s]+|www\.[^\s]+` at `i`: the address runs up to the next whitespace. */
  function WebAddressAt(s: string, i: nat): (r: Option<Hit>)
    ensures Bounded(r, s, i)
    ensures r.Some? ==> (OccursAt(s, "http", i) || OccursAt(s, "www.", i)) && i + 4 < r.value.end
    ensures r.Some? ==> forall x :: i <= x < r.value.end ==> !IsSpace(s[x])
    ensures r.Some? ==> r.value.end == |s| || IsSpace(s[r.value.end])
  {
    var e := if OccursAt(s, "http", i) then HttpEnd(s, i)
      else if OccursAt(s, "www.", i) then AddressEnd(s, i, "www.", i + 4)
      else None;
    if e.None? then None else Some(Hit(i, e.value, "", ""))
  }

  /** `/place/([^/@]+)` at `i`. */
  function PlacePathAt(s: string, i: nat): (r: Option<Hit>)
    ensures Bounded(r, s, i)
    ensures r.Some? ==> OccursAt(s, "/place/", i) && i + 7 < r.value.end && r.value.group1 == s[i + 7..r.value.end]
    ensures r.Some? ==> r.value.group1 != [] && '/' !in r.value.group1 && '@' !in r.value.group1
    ensures r.Some? ==> r.value.end == |s| || s[r.value.end] == '/' || s[r.value.end] == '@'
  {
    var n := Run(NotSlashOrAt, s, i + 7);
    RunClass(NotSlashOrAt, s, i + 7);
    if OccursAt(s, "/place/", i) && n > 0 then
      Some(Hit(i, i + 7 + n, s[i + 7..i + 7 + n], ""))
    else None
  }

  // ---------------------------------------------------------------- search

  /** The pattern `p` tried at position `i` of `s`. */
  function MatchAt(p: Pattern, s: string, i: nat): (r: Option<Hit>)
    ensures Bounded(r, s, i)
  {
    match p
    case AtCoords => AtCoordsAt(s, i)
    case BangCoords => BangCoordsAt(s, i)
    case IndianPhone => IndianPhoneAt(s, i)
    case GeneralPhone => GeneralPhoneAt(s, i)
    case PlusNinetyOnePhone => PlusNinetyOneAt(s, i)
    case LandlinePhone => LandlinePhoneAt(s, i)
    case InternationalPhone => SignedDigitRunAt(s, i, DigitSpaceDashParen, 9)
    case LoosePhone => SignedDigitRunAt(s, i, DigitSpaceDash, 8)
    case PhoneRun => PhoneRunAt(s, i)
    case RatingWithCount => RatingWithCountAt(s, i)
    case RatingWithStars => RatingWithStarsAt(s, i)
    case CountWithWord => CountWithWordAt(s, i)
    case ParenCount => ParenCountAt(s, i)
    case DigitDotDigit =>
      if DigitDotDigitAt(s, i) then Some(Hit(i, i + 3, s[i..i + 3], "")) else None
    case PlusCode => PlusCodeAt(s, i)
    case OpenHours => OpenHoursAt(s, i)
    case WebAddress => WebAddressAt(s, i)
    case PlacePath => PlacePathAt(s, i)
  }

  /** A matcher: tries a pattern at one position of a text. */
  type Matcher = (string, nat) -> Option<Hit>

  /** The matcher of pattern `p`. */
  function MatcherOf(p: Pattern): (m: Matcher)
    ensures forall s, i :: m(s, i) == MatchAt(p, s, i)
  {
    (s: string, i: nat) => MatchAt(p, s, i)
  }

  /** Every match found by `m` starts where it was tried and ends, non-empty, inside the text. */
  ghost predicate WellBehaved(m: Matcher) {
    forall s, i :: Bounded(m(s, i), s, i)
  }

  lemma MatchersWellBehaved(p: Pattern)
    ensures WellBehaved(MatcherOf(p))
  {
  }

  /** `re.search` from position `k` on: the match at the leftmost position that has one. */
  function SearchFrom(m: Matcher, s: string, k: nat): (r: Option<Hit>)
    requires WellBehaved(m) && k <= |s|
    ensures r.Some? ==> k <= r.value.start <= |s| && m(s, r.value.start) == r
    ensures r.Some? ==> forall j :: k <= j < r.value.start ==> m(s, j).None?
    ensures r.None? ==> forall j :: k <= j <= |s| ==> m(s, j).None?
    decreases |s| - k
  {
    var h := m(s, k);
    if h.Some? then
      assert Bounded(h, s, k);
      h
    else if k == |s| then None
    else SearchFrom(m, s, k + 1)
  }

  /** `re.search(p, s)`. */
  function Search(p: Pattern, s: string): (r: Option<Hit>)
    ensures r.Some? ==> r.value.start < r.value.end <= |s|
    ensures r.Some? ==> MatchAt(p, s, r.value.start) == r
    ensures r.Some? ==> forall j :: 0 <= j < r.value.start ==> MatchAt(p, s, j).None?
    ensures r.None? <==> forall j :: 0 <= j <= |s| ==> MatchAt(p, s, j).None?
  {
    MatchersWellBehaved(p);
    SearchFrom(MatcherOf(p), s, 0)
  }

  /** A match anywhere means the search succeeds, at that position or further left. */
  lemma SearchFindsBy(p: Pattern, s: string, i: nat)
    requires i <= |s| && MatchAt(p, s, i).Some?
    ensures Search(p, s).Some? && Search(p, s).value.start <= i
  {
  }

  /** A match at `i` with none before it is the one the search finds. */
  lemma SearchAt(p: Pattern, s: string, i: nat)
    requires i <= |s| && MatchAt(p, s, i).Some?
    requires forall j :: 0 <= j < i ==> MatchAt(p, s, j).None?
    ensures Search(p, s) == MatchAt(p, s, i)
  {
    MatchersWellBehaved(p);
    SearchFromAt(MatcherOf(p), s, 0, i);
  }

  /** A match at `i` with none between `k` and it is the one the search from `k` finds. */
  lemma SearchFromAt(m: Matcher, s: string, k: nat, i: nat)
    requires WellBehaved(m) && k <= i <= |s| && m(s, i).Some?
    requires forall j :: k <= j < i ==> m(s, j).None?
    ensures SearchFrom(m, s, k) == m(s, i)
  {
    var r := SearchFrom(m, s, k);
    assert r.Some?;
    assert r.value.start == i;
  }

  /** The text of a match, `m.group(0)`. */
  function Matched(s: string, h: Hit): string
    requires h.start <= h.end <= |s|
  {
    s[h.start..h.end]
  }

  predicate WithinText(s: string, hs: seq<Hit>) {
    forall j :: 0 <= j < |hs| ==> hs[j].start < hs[j].end <= |s|
  }

  /** `re.findall` from position `k` on: successive non-overlapping matches, left to right. */
  function FindAllFrom(m: Matcher, s: string, k: nat): (r: seq<Hit>)
    requires WellBehaved(m) && k <= |s|
    ensures WithinText(s, r)
    ensures forall j :: 0 <= j < |r| ==> k <= r[j].start && m(s, r[j].start) == Some(r[j])
    ensures forall j :: 0 < j < |r| ==> r[j - 1].end <= r[j].start
    ensures r == [] <==> SearchFrom(m, s, k).None?
    ensures r != [] ==> r[0] == SearchFrom(m, s, k).value
    decreases |s| - k
  {
    match SearchFrom(m, s, k)
    case None => []
    case Some(h) =>
      assert Bounded(m(s, h.start), s, h.start);
      [h] + FindAllFrom(m, s, h.end)
  }

  /** A non-empty list of matches is its first match, then the matches from
      where that one ended. */
  lemma FindAllUnfold(m: Matcher, s: string, k: nat)
    requires WellBehaved(m) && k <= |s| && FindAllFrom(m, s, k) != []
    ensures var hs := FindAllFrom(m, s, k); hs == [hs[0]] + FindAllFrom(m, s, hs[0].end)
  {
  }

  /** Each match after the first is the search from where the previous one ended. */
  lemma {:induction false} FindAllNextSearch(m: Matcher, s: string, k: nat)
    requires WellBehaved(m) && k <= |s|
    ensures var hs := FindAllFrom(m, s, k);
      forall j :: 0 <= j < |hs| - 1 ==> hs[j].end <= |s| && Some(hs[j + 1]) == SearchFrom(m, s, hs[j].end)
    decreases |s| - k
  {
    var hs := FindAllFrom(m, s, k);
    if hs != [] {
      FindAllUnfold(m, s, k);
      var rest := FindAllFrom(m, s, hs[0].end);
      FindAllNextSearch(m, s, hs[0].end);
      forall j | 0 <= j < |hs| - 1 ensures hs[j].end <= |s| && Some(hs[j + 1]) == SearchFrom(m, s, hs[j].end) {
        if j > 0 {
          assert hs[j] == rest[j - 1] && hs[j + 1] == rest[j];
        }
      }
    }
  }

  /** The search from where the last match ended finds nothing. */
  lemma {:induction false} FindAllLastSearch(m: Matcher, s: string, k: nat)
    requires WellBehaved(m) && k <= |s|
    ensures var hs := FindAllFrom(m, s, k);
      hs != [] ==> hs[|hs| - 1].end <= |s| && SearchFrom(m, s, hs[|hs| - 1].end).None?
    decreases |s| - k
  {
    var hs := FindAllFrom(m, s, k);
    if hs != [] {
      FindAllUnfold(m, s, k);
      var rest := FindAllFrom(m, s, hs[0].end);
      FindAllLastSearch(m, s, hs[0].end);
      if rest != [] {
        assert hs[|hs| - 1] == rest[|rest| - 1];
      }
    }
  }

  /** The matches `re.findall(p, s)` takes the texts of, with their places. */
  function FindAllHits(p: Pattern, s: string): (hs: seq<Hit>)
    ensures WithinText(s, hs)
  {
    MatchersWellBehaved(p);
    FindAllFrom(MatcherOf(p), s, 0)
  }

  /** `re.findall(p, s)` is the texts of its matches, one for one. */
  lemma FindAllTexts(p: Pattern, s: string)
    ensures |FindAll(p, s)| == |FindAllHits(p, s)|
    ensures forall j :: 0 <= j < |FindAll(p, s)| ==> FindAll(p, s)[j] == Matched(s, FindAllHits(p, s)[j])
  {
  }

  /** The matches of `re.findall(p, s)` are successive searches: the first
      from the start, each next one from where the previous match ended,
      until a search (`SearchFrom` with the matcher of `p`) finds nothing. */
  lemma FindAllSearches(p: Pattern, s: string)
    ensures WellBehaved(MatcherOf(p))
    ensures var hs := FindAllHits(p, s); hs != [] ==> Some(hs[0]) == Search(p, s)
    ensures var hs := FindAllHits(p, s);
      forall j :: 0 <= j < |hs| - 1 ==> Some(hs[j + 1]) == SearchFrom(MatcherOf(p), s, hs[j].end)
    ensures var hs := FindAllHits(p, s); hs != [] ==> SearchFrom(MatcherOf(p), s, hs[|hs| - 1].end).None?
  {
    MatchersWellBehaved(p);
    var m := MatcherOf(p);
    assert FindAllHits(p, s) == FindAllFrom(m, s, 0);
    FindAllFirstSearch(p, s);
    FindAllNextSearch(m, s, 0);
    FindAllLastSearch(m, s, 0);
  }

  /** The first match `re.findall` reports is the one `re.search` finds. */
  lemma FindAllFirstSearch(p: Pattern, s: string)
    ensures var hs := FindAllHits(p, s); hs != [] ==> Some(hs[0]) == Search(p, s)
  {
    MatchersWellBehaved(p);
    assert Search(p, s) == SearchFrom(MatcherOf(p), s, 0);
  }

  /** The texts of the matches `hs`, in order. */
  function Texts(s: string, hs: seq<Hit>): (r: seq<string>)
    requires WithinText(s, hs)
    ensures |r| == |hs| && forall j :: 0 <= j < |hs| ==> r[j] == Matched(s, hs[j])
  {
    seq(|hs|, j requires 0 <= j < |hs| => Matched(s, hs[j]))
  }

  /** Every match text is found in the text. */
  lemma TextsInText(s: string, hs: seq<Hit>)
    requires WithinText(s, hs)
    ensures forall j :: 0 <= j < |hs| ==> Contains(s, Texts(s, hs)[j])
  {
    forall j | 0 <= j < |hs| ensures Contains(s, Texts(s, hs)[j]) {
      assert OccursAt(s, Matched(s, hs[j]), hs[j].start);
    }
  }

  /** `re.findall(p, s)` for a pattern without groups: the matched texts. */
  function FindAll(p: Pattern, s: string): (r: seq<string>)
    ensures r == [] <==> Search(p, s).None?
    ensures r != [] ==> r[0] == Matched(s, Search(p, s).value)
  {
    Texts(s, FindAllHits(p, s))
  }

  /** Every match `re.findall` returns is found in the text. */
  lemma FindAllInText(p: Pattern, s: string)
    ensures forall j :: 0 <= j < |FindAll(p, s)| ==> Contains(s, FindAll(p, s)[j])
  {
    TextsInText(s, FindAllHits(p, s));
  }

  /** The position in `xs` of the first element `ok` accepts; `|xs|` when none does. */
  function FirstWhere<T>(xs: seq<T>, ok: T -> bool): (k: nat)
    ensures k <= |xs|
    ensures forall j :: 0 <= j < k ==> !ok(xs[j])
    ensures k < |xs| ==> ok(xs[k])
  {
    if xs == [] || ok(xs[0]) then 0
    else
      var k' := FirstWhere(xs[1..], ok);
      assert forall j :: 0 < j <= k' ==> xs[1..][j - 1] == xs[j];
      k' + 1
  }

  /** The position in `pats` of the first pattern, in list order, that
      matches anywhere in `s`; `|pats|` when none does. */
  function FirstMatching(pats: seq<Pattern>, s: string): (k: nat)
    ensures k <= |pats|
    ensures forall j :: 0 <= j < k ==> Search(pats[j], s).None?
    ensures k < |pats| ==> Search(pats[k], s).Some?
  {
    FirstWhere(pats, p => Search(p, s).Some?)
  }

  /** The text of the leftmost match of the first pattern of `pats` that
      matches anywhere in `s`: a later pattern matching further left does not
      win. */
  function FirstMatched(pats: seq<Pattern>, s: string): (r: Option<string>)
    ensures r.None? <==> forall j :: 0 <= j < |pats| ==> Search(pats[j], s).None?
    ensures r.Some? ==> r.value != [] && Contains(s, r.value)
  {
    var k := FirstMatching(pats, s);
    if k < |pats| then MatchedText(s, Search(pats[k], s).value) else None
  }

  /** A pattern that matches, all of whose predecessors fail, is the one
      whose match `FirstMatched` gives. */
  lemma FirstMatchedAt(pats: seq<Pattern>, s: string, k: nat)
    requires k < |pats| && Search(pats[k], s).Some?
    requires forall j :: 0 <= j < k ==> Search(pats[j], s).None?
    ensures FirstMatched(pats, s) == Some(Matched(s, Search(pats[k], s).value))
  {
    assert FirstMatching(pats, s) == k;
  }

  /** The text of a non-empty match, as found in `s`. */
  function MatchedText(s: string, h: Hit): (r: Option<string>)
    requires h.start < h.end <= |s|
    ensures r.Some? && r.value != [] && OccursAt(s, r.value, h.start)
  {
    Some(Matched(s, h))
  }

  // ---------------------------------------------------------------- what a leftmost match looks like

  /** The leftmost match of `p`, if any, is a match of `p` at its own start. */
  lemma Found(p: Pattern, s: string)
    requires Search(p, s).Some?
    ensures var h := Search(p, s).value; h.start < h.end <= |s| && MatchAt(p, s, h.start) == Some(h)
  {
  }

  lemma AtCoordsOccurs(s: string, i: nat)
    requires AtCoordsAt(s, i).Some?
    ensures var h := AtCoordsAt(s, i).value; OccursAt(s, "@" + h.group1 + "," + h.group2, i)
  {
    AtCoordsText(s, i);
  }

  lemma AtCoordsFound(s: string)
    requires Search(AtCoords, s).Some?
    ensures var h := Search(AtCoords, s).value;
      SignedDecimal(h.group1) && SignedDecimal(h.group2) && Contains(s, "@" + h.group1 + "," + h.group2)
  {
    var h := Search(AtCoords, s).value;
    assert AtCoordsAt(s, h.start) == Some(h);
    AtCoordsOccurs(s, h.start);
    AtCoordsDecimals(s, h.start);
  }

  lemma AtCoordsDecimals(s: string, i: nat)
    requires AtCoordsAt(s, i).Some?
    ensures var h := AtCoordsAt(s, i).value; SignedDecimal(h.group1) && SignedDecimal(h.group2)
  {
    var e1, e := AtCoordsParts(s, i);
    DecimalEndIsDecimal(s, i + 1, e1);
    DecimalEndIsDecimal(s, e1 + 1, e);
  }

  /** Where the two groups of an `@lat,lng` match end. */
  lemma AtCoordsParts(s: string, i: nat) returns (e1: nat, e: nat)
    requires AtCoordsAt(s, i).Some?
    ensures DecimalEnd(s, i + 1) == Some(e1) && DecimalEnd(s, e1 + 1) == Some(e)
    ensures i + 1 < e1 < e <= |s| && AtCoordsAt(s, i).value == Hit(i, e, s[i + 1..e1], s[e1 + 1..e])
  {
    e1 := DecimalEnd(s, i + 1).value;
    e := DecimalEnd(s, e1 + 1).value;
  }


  lemma BangCoordsOccurs(s: string, i: nat)
    requires BangCoordsAt(s, i).Some?
    ensures var h := BangCoordsAt(s, i).value; OccursAt(s, "!3d" + h.group1 + "!4d" + h.group2, i)
  {
    BangCoordsText(s, i);
  }

  lemma BangCoordsFound(s: string)
    requires Search(BangCoords, s).Some?
    ensures var h := Search(BangCoords, s).value;
      SignedDecimal(h.group1) && SignedDecimal(h.group2) && Contains(s, "!3d" + h.group1 + "!4d" + h.group2)
  {
    var h := Search(BangCoords, s).value;
    assert BangCoordsAt(s, h.start) == Some(h);
    BangCoordsOccurs(s, h.start);
    BangCoordsDecimals(s, h.start);
  }

  lemma BangCoordsDecimals(s: string, i: nat)
    requires BangCoordsAt(s, i).Some?
    ensures var h := BangCoordsAt(s, i).value; SignedDecimal(h.group1) && SignedDecimal(h.group2)
  {
    var e1, e := BangCoordsParts(s, i);
    DecimalEndIsDecimal(s, i + 3, e1);
    DecimalEndIsDecimal(s, e1 + 3, e);
  }

  /** Where the two groups of a `!3d…!4d…` match end. */
  lemma BangCoordsParts(s: string, i: nat) returns (e1: nat, e: nat)
    requires BangCoordsAt(s, i).Some?
    ensures DecimalEnd(s, i + 3) == Some(e1) && DecimalEnd(s, e1 + 3) == Some(e)
    ensures i + 3 < e1 && e1 + 3 < e <= |s| && BangCoordsAt(s, i).value == Hit(i, e, s[i + 3..e1], s[e1 + 3..e])
    ensures MarkAt(s, i, '3') && MarkAt(s, e1, '4')
  {
    e1 := DecimalEnd(s, i + 3).value;
    e := DecimalEnd(s, e1 + 3).value;
  }


  /** A loose phone match opens with a digit or `+` and continues with digits,
      spaces and dashes only. */
  lemma LoosePhoneFound(s: string)
    requires Search(LoosePhone, s).Some?
    ensures var h := Search(LoosePhone, s).value;
      h.start < h.end <= |s| && (IsDigit(s[h.start]) || s[h.start] == '+') && forall x :: h.start < x < h.end ==> IsDigit(s[x]) || IsSep(s[x])
    ensures var h := Search(LoosePhone, s).value; h.end == |s| || !(IsDigit(s[h.end]) || IsSep(s[h.end]))
  {
    var h := Search(LoosePhone, s).value;
    var i := h.start;
    assert SignedDigitRunAt(s, i, DigitSpaceDash, 8) == Some(h);
    SignedRunShape(s, i, DigitSpaceDash, 8);
    var j := if CharAt(s, i, '+') then i + 1 else i;
    forall x | i < x < h.end ensures IsDigit(s[x]) || IsSep(s[x]) {
      if x > j { assert InClass(DigitSpaceDash, s[x]); }
    }
    if h.end < |s| {
      assert !InClass(DigitSpaceDash, s[h.end]);
    }
  }

  /** A signed digit run: an optional '+', a digit, then the whole run of class `k`. */
  lemma SignedRunShape(s: string, i: nat, k: Class, least: nat)
    requires SignedDigitRunAt(s, i, k, least).Some?
    ensures var h := SignedDigitRunAt(s, i, k, least).value; var j := if CharAt(s, i, '+') then i + 1 else i;
      j < h.end && IsDigit(s[j]) && (forall x :: j < x < h.end ==> InClass(k, s[x]))
      && (h.end == |s| || !InClass(k, s[h.end]))
  {
    var j := if CharAt(s, i, '+') then i + 1 else i;
    RunClass(k, s, j + 1);
  }

  /** A phone-character match is ten or more digits, spaces, dashes, `+` and
      parentheses, and the run ends there. */
  lemma PhoneRunFound(s: string)
    requires Search(PhoneRun, s).Some?
    ensures var h := Search(PhoneRun, s).value;
      h.end - h.start >= 10 && (forall x :: h.start <= x < h.end ==> InClass(PhoneChars, s[x]))
      && (h.end == |s| || !InClass(PhoneChars, s[h.end]))
  {
    var h := Search(PhoneRun, s).value;
    assert PhoneRunAt(s, h.start) == Some(h);
    RunClass(PhoneChars, s, h.start);
  }

  lemma RatingWithCountFound(s: string)
    requires Search(RatingWithCount, s).Some?
    ensures var h := Search(RatingWithCount, s).value; IsDigitDotDigit(h.group1) && CountText(h.group2)
    ensures var h := Search(RatingWithCount, s).value; OccursAt(s, h.group1, h.start)
  {
    var h := Search(RatingWithCount, s).value;
    assert RatingWithCountAt(s, h.start) == Some(h);
  }

  lemma RatingWithStarsFound(s: string)
    requires Search(RatingWithStars, s).Some?
    ensures IsDigitDotDigit(Search(RatingWithStars, s).value.group1)
  {
    var h := Search(RatingWithStars, s).value;
    assert RatingWithStarsAt(s, h.start) == Some(h);
  }

  lemma CountWithWordFound(s: string)
    requires Search(CountWithWord, s).Some?
    ensures CountText(Search(CountWithWord, s).value.group1)
  {
    var h := Search(CountWithWord, s).value;
    assert CountWithWordAt(s, h.start) == Some(h);
  }

  lemma ParenCountFound(s: string)
    requires Search(ParenCount, s).Some?
    ensures CountText(Search(ParenCount, s).value.group1)
    ensures var h := Search(ParenCount, s).value; s[h.start..h.end] == "(" + h.group1 + ")"
  {
    var h := Search(ParenCount, s).value;
    assert ParenCountAt(s, h.start) == Some(h);
  }

  lemma DigitDotDigitFound(s: string)
    requires Search(DigitDotDigit, s).Some?
    ensures var h := Search(DigitDotDigit, s).value; IsDigitDotDigit(h.group1) && h.group1 == s[h.start..h.end]
  {
  }

  /** The expressions a phone is looked for with. */
  predicate PhonePattern(p: Pattern) {
    p == IndianPhone || p == GeneralPhone || p == PlusNinetyOnePhone || p == LandlinePhone || p == InternationalPhone
  }

  /** A phone match opens with a digit or `+`. */
  lemma PhoneMatchOpens(p: Pattern, s: string)
    requires PhonePattern(p) && Search(p, s).Some?
    ensures var h := Search(p, s).value; IsDigit(s[h.start]) || s[h.start] == '+'
  {
    var h := Search(p, s).value;
    var i := h.start;
    assert MatchAt(p, s, i) == Some(h);
    if p == PlusNinetyOnePhone {
      assert s[i] == s[i..i + 3][0];
    }
  }

  lemma PlusCodeFound(s: string)
    requires Search(PlusCode, s).Some?
    ensures var h := Search(PlusCode, s).value;
      h.start + 9 <= h.end <= |s| && s[h.start + 4] == '+'
      && forall j :: h.start <= j < h.start + 4 ==> IsUpper(s[j]) || IsDigit(s[j])
    ensures var h := Search(PlusCode, s).value; h.end == |s| || !IsWordChar(s[h.end])
  {
    var h := Search(PlusCode, s).value;
    assert PlusCodeAt(s, h.start) == Some(h);
  }

  /** The text of a plus-code match: four code characters, a `+`, and more. */
  function PlusCodeText(s: string, i: nat, e: nat): (m: string)
    requires i + 9 <= e <= |s| && s[i + 4] == '+'
    requires forall j :: i <= j < i + 4 ==> IsUpper(s[j]) || IsDigit(s[j])
    ensures |m| >= 9 && m[4] == '+' && forall j :: 0 <= j < 4 ==> IsUpper(m[j]) || IsDigit(m[j])
  {
    var m := s[i..e];
    assert forall j :: 0 <= j < 4 ==> m[j] == s[i + j];
    m
  }

  lemma OpenHoursFound(s: string)
    requires Search(OpenHours, s).Some?
    ensures var h := Search(OpenHours, s).value; var m := s[h.start..h.end];
      StartsWith(m, "Open") || StartsWith(m, "Closed")
  {
    var h := Search(OpenHours, s).value;
    assert OpenHoursAt(s, h.start) == Some(h);
    if OccursAt(s, "Open", h.start) {
      PrefixedText(s, h.start, h.end, "Open");
    } else {
      PrefixedText(s, h.start, h.end, "Closed");
    }
  }

  /** Text taken from where a literal occurs starts with that literal. */
  lemma PrefixedText(s: string, i: nat, e: nat, lit: string)
    requires i + |lit| <= e <= |s| && OccursAt(s, lit, i)
    ensures StartsWith(s[i..e], lit)
  {
    assert s[i..e][..|lit|] == s[i..i + |lit|];
  }

  /** Text taken from a stretch without whitespace has none. */
  lemma SpanText(s: string, i: nat, e: nat)
    requires i <= e <= |s| && forall x :: i <= x < e ==> !IsSpace(s[x])
    ensures NoSpace(s[i..e])
  {
    var m := s[i..e];
    assert forall x :: 0 <= x < |m| ==> m[x] == s[i + x];
  }

  lemma WebAddressFound(s: string)
    requires Search(WebAddress, s).Some?
    ensures var h := Search(WebAddress, s).value; var m := s[h.start..h.end];
      NoSpace(m) && (StartsWith(m, "http") || StartsWith(m, "www."))
    ensures var h := Search(WebAddress, s).value; h.end == |s| || IsSpace(s[h.end])
  {
    var h := Search(WebAddress, s).value;
    assert WebAddressAt(s, h.start) == Some(h);
    SpanText(s, h.start, h.end);
    if OccursAt(s, "http", h.start) {
      PrefixedText(s, h.start, h.end, "http");
    } else {
      PrefixedText(s, h.start, h.end, "www.");
    }
  }

  lemma PlacePathFound(s: string)
    requires Search(PlacePath, s).Some?
    ensures var g := Search(PlacePath, s).value.group1;
      g != [] && '/' !in g && '@' !in g && Contains(s, "/place/" + g)
    ensures var h := Search(PlacePath, s).value;
      OccursAt(s, "/place/" + h.group1, h.start) && (h.end == |s| || s[h.end] == '/' || s[h.end] == '@')
  {
    var h := Search(PlacePath, s).value;
    assert PlacePathAt(s, h.start) == Some(h);
    PlaceText(s, h.start, h.end, h.group1);
  }

  lemma PlaceText(s: string, i: nat, e: nat, g: string)
    requires OccursAt(s, "/place/", i) && i + 7 < e <= |s| && g == s[i + 7..e]
    ensures OccursAt(s, "/place/" + g, i)
  {
    assert s[i..e] == s[i..i + 7] + g;
  }

  // ---------------------------------------------------------------- coordinates written into a URL

  /** `@` and a comma, each followed by a decimal ending where the next one
      starts, make an `@lat,lng` match of the two decimals. */
  lemma AtCoordsFromEnds(s: string, i: nat, e1: nat, e: nat, g1: string, g2: string)
    requires CharAt(s, i, '@') && CharAt(s, e1, ',')
    requires DecimalEnd(s, i + 1) == Some(e1) && DecimalEnd(s, e1 + 1) == Some(e)
    requires i + 1 <= e1 && e1 + 1 <= e <= |s| && g1 == s[i + 1..e1] && g2 == s[e1 + 1..e]
    ensures AtCoordsAt(s, i) == Some(Hit(i, e, g1, g2))
  {
    var r := AtCoordsAt(s, i);
    assert r == Some(Hit(i, e, s[i + 1..e1], s[e1 + 1..e]));
  }

  /** `!3d` and `!4d`, each followed by a decimal ending where the next one
      starts, make a `!3d…!4d…` match of the two decimals. */
  lemma BangCoordsFromEnds(s: string, i: nat, e1: nat, e: nat, g1: string, g2: string)
    requires MarkAt(s, i, '3') && MarkAt(s, e1, '4')
    requires DecimalEnd(s, i + 3) == Some(e1) && DecimalEnd(s, e1 + 3) == Some(e)
    requires i + 3 <= e1 && e1 + 3 <= e <= |s| && g1 == s[i + 3..e1] && g2 == s[e1 + 3..e]
    ensures BangCoordsAt(s, i) == Some(Hit(i, e, g1, g2))
  {
    var r := BangCoordsAt(s, i);
    assert r == Some(Hit(i, e, s[i + 3..e1], s[e1 + 3..e]));
  }

  /** Completeness of `@(-?\d+\.\d+),(-?\d+\.\d+)` at any position: the `@`,
      the comma and the two decimals in place at `p`, with no digit after the
      second, make one match there with those two groups. */
  lemma AtCoordsComplete(s: string, p: nat, lat: string, lng: string, e: nat)
    requires SignedDecimal(lat) && SignedDecimal(lng) && e == p + 2 + |lat| + |lng| <= |s|
    requires s[p] == '@' && s[p + 1 + |lat|] == ','
    requires OccursAt(s, lat, p + 1) && OccursAt(s, lng, p + 2 + |lat|)
    requires e == |s| || !IsDigit(s[e])
    ensures AtCoordsAt(s, p) == Some(Hit(p, e, lat, lng))
  {
    var e1 := p + 1 + |lat|;
    TwoDecimalEnds(s, p + 1, lat, e1 + 1, lng);
    AtCoordsFromEnds(s, p, e1, e, lat, lng);
  }

  /** Two decimals found at `i` and `j`, each followed by no digit, end where
      they are found to end, and are the slices between. */
  lemma TwoDecimalEnds(s: string, i: nat, d1: string, j: nat, d2: string)
    requires SignedDecimal(d1) && SignedDecimal(d2) && OccursAt(s, d1, i) && OccursAt(s, d2, j)
    requires i + |d1| < |s| && !IsDigit(s[i + |d1|]) && (j + |d2| == |s| || !IsDigit(s[j + |d2|]))
    ensures DecimalEnd(s, i) == Some(i + |d1|) && DecimalEnd(s, j) == Some(j + |d2|)
    ensures s[i..i + |d1|] == d1 && s[j..j + |d2|] == d2
  {
    DecimalEndOf(s, i, d1);
    DecimalEndOf(s, j, d2);
  }

  /** Completeness of `!3d(-?\d+\.\d+)!4d(-?\d+\.\d+)` at any position: the
      two markers and the two decimals in place at `p`, with no digit after the
      second, make one match there with those two groups. */
  lemma BangCoordsComplete(s: string, p: nat, lat: string, lng: string, e: nat)
    requires SignedDecimal(lat) && SignedDecimal(lng) && e == p + 6 + |lat| + |lng| <= |s|
    requires MarkAt(s, p, '3') && OccursAt(s, lat, p + 3)
    requires MarkAt(s, p + 3 + |lat|, '4') && OccursAt(s, lng, p + 6 + |lat|)
    requires e == |s| || !IsDigit(s[e])
    ensures BangCoordsAt(s, p) == Some(Hit(p, e, lat, lng))
  {
    var e1 := p + 3 + |lat|;
    TwoDecimalEnds(s, p + 3, lat, e1 + 3, lng);
    BangCoordsFromEnds(s, p, e1, e, lat, lng);
  }
}
