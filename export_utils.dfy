/** The lead-list utilities of `export_utils.py`: phone and name keys,
    duplicate removal, and the five-column rows handed to the telecalling team.
    A scraped lead is a dictionary from field names to text. */
module ExportUtils {
  import opened Wrappers
  import opened Text
  import opened Patterns

  /** A lead record: field name to text. */
  type Dict = map<string, string>

  /** `d.get(key, default)`. */
  function Get(d: Dict, key: string, default: string): string {
    if key in d then d[key] else default
  }

  // ---------------------------------------------------------------- normalize_phone

  predicate IsPhoneChar(c: char) { IsDigit(c) || c == '+' }

  predicate PhoneChars(s: string) { forall i :: 0 <= i < |s| ==> IsPhoneChar(s[i]) }

  /** `re.sub(r'[^\d+]', '', s)`: the digits and plus signs of `s`, in order. */
  function KeepDigitsPlus(s: string): (r: string)
    ensures |r| <= |s| && PhoneChars(r)
    ensures PhoneChars(s) ==> r == s
    ensures |s| == 1 ==> r == (if IsPhoneChar(s[0]) then s else [])
  {
    if s == [] then []
    else if IsPhoneChar(s[0]) then [s[0]] + KeepDigitsPlus(s[1..])
    else KeepDigitsPlus(s[1..])
  }

  /** The filter works piece by piece and keeps order: with the
      one-character case of `KeepDigitsPlus`, the key's characters are the
      digits and plus signs of the input, in the input's order. */
  lemma {:induction false} KeepDigitsPlusAppend(a: string, b: string)
    ensures KeepDigitsPlus(a + b) == KeepDigitsPlus(a) + KeepDigitsPlus(b)
  {
    if a != [] {
      assert (a + b)[1..] == a[1..] + b;
      KeepDigitsPlusAppend(a[1..], b);
    } else {
      assert a + b == b;
    }
  }

  /** The ways of writing an Indian number in front of its ten digits. */
  predicate IsIndianPrefix(p: string) { p == [] || p == "+91" || p == "91" || p == "0" }

  /** The values the scrapers use for "no phone", which normalise to the empty key. */
  predicate IsPhoneSentinel(phone: string) { phone == "" || phone == "Not found" || phone == "N/A" }

  /** The prefix rule of `normalize_phone` on the filtered text `f`: a leading
      `+91` goes; on more than ten characters a leading `91`, or else `0`, goes. */
  function DropTrunkPrefix(f: string): (g: string)
    ensures |g| <= |f| <= |g| + 3 && g == f[|f| - |g|..]
    ensures StartsWith(f, "+91") ==> g == f[3..]
    ensures !StartsWith(f, "+91") && |f| > 10 && StartsWith(f, "91") ==> g == f[2..]
    ensures !StartsWith(f, "+91") && |f| > 10 && !StartsWith(f, "91") && StartsWith(f, "0") ==> g == f[1..]
    ensures !StartsWith(f, "+91") && |f| > 10 && !StartsWith(f, "91") && !StartsWith(f, "0") ==> g == f
    ensures |f| <= 10 && !StartsWith(f, "+91") ==> g == f
  {
    if StartsWith(f, "+91") then f[3..]
    else if StartsWith(f, "91") && |f| > 10 then f[2..]
    else if StartsWith(f, "0") && |f| > 10 then f[1..]
    else f
  }

  /** `normalize_phone`: the placeholders give the empty key; otherwise the
      digits and plus signs, less the prefix `DropTrunkPrefix` removes. The
      closing `strip()` has nothing to remove (`PhoneKeyIsStripped`). */
  function NormalizePhone(phone: string): (r: string)
    ensures PhoneChars(r)
    ensures IsPhoneSentinel(phone) ==> r == ""
    ensures !IsPhoneSentinel(phone) ==> r == DropTrunkPrefix(KeepDigitsPlus(phone))
    ensures !IsPhoneSentinel(phone) ==> exists p :: IsIndianPrefix(p) && KeepDigitsPlus(phone) == p + r
  {
    if IsPhoneSentinel(phone) then ""
    else
      var f := KeepDigitsPlus(phone);
      var g := DropTrunkPrefix(f);
      TrunkPrefixDropped(f);
      assert f == f[..|f| - |g|] + g;
      g
  }

  /** What `DropTrunkPrefix` takes off is one of the Indian prefixes. */
  lemma TrunkPrefixDropped(f: string)
    ensures IsIndianPrefix(f[..|f| - |DropTrunkPrefix(f)|])
  {
    var p := f[..|f| - |DropTrunkPrefix(f)|];
    if StartsWith(f, "+91") {
      assert p == f[..3];
    } else if |f| > 10 && StartsWith(f, "91") {
      assert p == f[..2];
    } else if |f| > 10 && StartsWith(f, "0") {
      assert p == f[..1];
    } else {
      assert p == [];
    }
  }

  /** The `strip()` that ends `normalize_phone` leaves its result unchanged. */
  lemma PhoneKeyIsStripped(phone: string)
    ensures Strip(NormalizePhone(phone)) == NormalizePhone(phone)
  {
    var r := NormalizePhone(phone);
    StripUntouched(r);
  }

  /** Punctuation, spaces and letters never change the phone key. */
  lemma PhoneKeyIgnoresFormatting(phone: string)
    ensures NormalizePhone(phone) == NormalizePhone(KeepDigitsPlus(phone))
  {
    var f := KeepDigitsPlus(phone);
    if IsPhoneSentinel(phone) {
      SentinelsHaveNoPhoneChars(phone);
    } else if f != [] {
      KeyOfPhoneChars(f);
    }
  }

  lemma SentinelsHaveNoPhoneChars(phone: string)
    requires IsPhoneSentinel(phone)
    ensures KeepDigitsPlus(phone) == []
  {
    if phone != [] {
      NoPhoneChars(phone);
    }
  }

  lemma {:induction false} NoPhoneChars(s: string)
    requires forall i :: 0 <= i < |s| ==> !IsPhoneChar(s[i])
    ensures KeepDigitsPlus(s) == []
  {
    if s != [] {
      NoPhoneChars(s[1..]);
    }
  }

  lemma KeyOfPhoneChars(x: string)
    requires PhoneChars(x) && x != []
    ensures NormalizePhone(x) == DropTrunkPrefix(x)
  {
    assert IsPhoneChar(x[0]);
  }

  predicate TenDigits(d: string) { |d| == 10 && AllDigits(d) }

  lemma TrunkOfForm(p: string, d: string)
    requires IsIndianPrefix(p) && TenDigits(d)
    ensures DropTrunkPrefix(p + d) == d
  {
    if p == [] {
      assert p + d == d;
      assert !StartsWith(d, "+91") by { assert IsDigit(d[0]); }
    } else if p == "+91" {
      PrefixDropped(p, d);
    } else if p == "91" {
      assert !StartsWith(p + d, "+91") by { assert (p + d)[0] == '9'; }
      PrefixDropped(p, d);
    } else {
      assert !StartsWith(p + d, "+91") && !StartsWith(p + d, "91") by { assert (p + d)[0] == '0'; }
      PrefixDropped(p, d);
    }
  }

  /** `p + d` opens with `p`, and what follows it is `d`. */
  lemma PrefixDropped(p: string, d: string)
    ensures StartsWith(p + d, p) && (p + d)[|p|..] == d
  {
    assert (p + d)[..|p|] == p;
  }

  /** A ten-digit number gets the same key bare, after `+91`, after `91` and
      after a trunk `0`. */
  lemma IndianFormsShareKey(p: string, d: string)
    requires IsIndianPrefix(p) && TenDigits(d)
    ensures NormalizePhone(p + d) == d
  {
    TrunkOfForm(p, d);
    var f := p + d;
    forall i | 0 <= i < |f| ensures IsPhoneChar(f[i]) {
      if i >= |p| { assert f[i] == d[i - |p|]; } else { assert f[i] == p[i]; }
    }
    KeyOfPhoneChars(f);
  }

  // ---------------------------------------------------------------- normalize_name

  /** The company suffixes `normalize_name` drops. */
  const CompanySuffixes: set<string> := {"pvt", "ltd", "limited", "inc", "llc", "corp", "corporation"}

  /** A word `(pvt|ltd|limited|inc|llc|corp|corporation)\.?`. */
  predicate IsSuffixWord(w: string) {
    w in CompanySuffixes || (w != [] && w[|w| - 1] == '.' && w[..|w| - 1] in CompanySuffixes)
  }

  /** `' '.join(name.lower().split())`. */
  function Collapse(name: string): (r: string)
    ensures Collapsed(r) && NoUpper(r)
  {
    var ws := Words(Lower(name));
    JoinOfWords(ws);
    Join(ws)
  }

  /** `c` is `p`, a space, and a company suffix word: what
      `\s+(pvt|ltd|limited|inc|llc|corp|corporation)\.?$` matches in the
      collapsed name, with `p` the text before the match. */
  predicate SuffixAfter(c: string, p: string) {
    |p| < |c| && c[..|p|] == p && c[|p|] == ' ' && IsSuffixWord(c[|p| + 1..])
  }

  /** `normalize_name`: the placeholders give the empty key; otherwise lower
      case, single spaces, and one trailing company suffix word dropped when
      another word precedes it. The closing `strip()` has nothing to remove
      (`NameKeyIsStripped`). */
  function NormalizeName(name: string): (r: string)
    ensures Collapsed(r) && NoUpper(r)
    ensures name == "" || name == "Unknown Store" ==> r == ""
    ensures name != "" && name != "Unknown Store" ==>
      (forall p :: SuffixAfter(Collapse(name), p) ==> r == p)
      && (r != Collapse(name) ==> SuffixAfter(Collapse(name), r))
  {
    if name == "" || name == "Unknown Store" then ""
    else
      var ws := Words(Lower(name));
      JoinOfWords(ws);
      LastSpaceOfJoin(ws);
      SuffixAtLastSpace(Join(ws));
      if |ws| >= 2 && IsSuffixWord(ws[|ws| - 1]) then
        JoinOfWords(ws[..|ws| - 1]);
        Join(ws[..|ws| - 1])
      else
        Join(ws)
  }

  /** Index of the last whitespace character of `c`, None when it has none. */
  function LastSpace(c: string): (r: Option<nat>)
    ensures r.Some? ==> r.value < |c|
  {
    if c == [] then None
    else if IsSpace(c[|c| - 1]) then Some(|c| - 1)
    else LastSpace(c[..|c| - 1])
  }

  /** A whitespace character with none after it is the last one. */
  lemma {:induction false} LastSpaceAt(c: string, i: nat)
    requires i < |c| && IsSpace(c[i]) && NoSpace(c[i + 1..])
    ensures LastSpace(c) == Some(i)
    decreases |c|
  {
    if i < |c| - 1 {
      assert c[i + 1..][|c| - 2 - i] == c[|c| - 1];
      var d := c[..|c| - 1];
      assert d[i + 1..] == c[i + 1..][..|c| - 2 - i];
      LastSpaceAt(d, i);
    }
  }

  /** A text without whitespace has no last space. */
  lemma {:induction false} LastSpaceNone(c: string)
    requires NoSpace(c)
    ensures LastSpace(c) == None
    decreases |c|
  {
    if c != [] {
      LastSpaceNone(c[..|c| - 1]);
    }
  }

  /** A suffix word holds no whitespace. */
  lemma SuffixWordNoSpace(w: string)
    requires IsSuffixWord(w)
    ensures NoSpace(w)
  {
    if w !in CompanySuffixes {
      assert w[..|w| - 1] in CompanySuffixes;
      assert w == w[..|w| - 1] + ".";
    }
  }

  /** A suffix match starts at the last space: the text before it is
      determined by the text. */
  lemma SuffixAtLastSpace(c: string)
    ensures forall p :: SuffixAfter(c, p) ==> LastSpace(c) == Some(|p|) && p == c[..|p|]
  {
    forall p | SuffixAfter(c, p) ensures LastSpace(c) == Some(|p|) {
      SuffixWordNoSpace(c[|p| + 1..]);
      LastSpaceAt(c, |p|);
    }
  }

  /** Where the last space of joined words is: before the last word, when
      there are two words or more. */
  lemma LastSpaceOfJoin(ws: seq<string>)
    requires forall i :: 0 <= i < |ws| ==> IsWord(ws[i])
    ensures |ws| < 2 ==> LastSpace(Join(ws)) == None
    ensures |ws| >= 2 ==> var q := Join(ws[..|ws| - 1]);
      LastSpace(Join(ws)) == Some(|q|) && Join(ws) == q + " " + ws[|ws| - 1]
      && Join(ws)[..|q|] == q && Join(ws)[|q| + 1..] == ws[|ws| - 1]
  {
    if |ws| == 0 {
      LastSpaceNone([]);
    } else if |ws| == 1 {
      LastSpaceNone(ws[0]);
    } else {
      JoinSnoc(ws);
      var q := Join(ws[..|ws| - 1]);
      var c := Join(ws);
      assert c[..|q|] == q && c[|q| + 1..] == ws[|ws| - 1];
      LastSpaceAt(c, |q|);
    }
  }

  /** Only the last suffix goes: a name that collapses to `p w1 w2`, both
      suffix words, keys as `p w1` (so "Abc Traders Pvt. Ltd." keys as
      "abc traders pvt."). */
  lemma OneSuffixStripped(name: string, p: string, w1: string, w2: string)
    requires name != "Unknown Store" && IsSuffixWord(w1) && IsSuffixWord(w2)
    requires Collapse(name) == p + " " + w1 + " " + w2
    ensures NormalizeName(name) == p + " " + w1
  {
    var c := Collapse(name);
    var q := p + " " + w1;
    assert c == q + " " + w2;
    assert c[..|q|] == q && c[|q| + 1..] == w2;
    assert SuffixAfter(c, q);
  }

  /** The `strip()` that ends `normalize_name` leaves its result unchanged. */
  lemma NameKeyIsStripped(name: string)
    ensures Strip(NormalizeName(name)) == NormalizeName(name)
  {
    var r := NormalizeName(name);
    if r != [] {
      assert !IsSpace(r[0]) && !IsSpace(r[|r| - 1]);
    }
    StripUntouched(r);
  }

  // ---------------------------------------------------------------- ratings

  /** The exact value `mantissa / 10^scale` of a decimal text. */
  datatype Decimal = Decimal(mantissa: int, scale: nat)

  function Pow10(n: nat): (r: nat)
    ensures r >= 1
  {
    if n == 0 then 1 else 10 * Pow10(n - 1)
  }

  function DigitValue(c: char): nat
    requires IsDigit(c)
  {
    c as int - '0' as int
  }

  /** The number a run of decimal digits denotes. */
  function DigitsValue(ds: string): (r: nat)
    requires AllDigits(ds)
    ensures r < Pow10(|ds|)
  {
    if ds == [] then 0 else 10 * DigitsValue(ds[..|ds| - 1]) + DigitValue(ds[|ds| - 1])
  }

  /** Digits with at most one point and at least one digit, as `float` reads
      them after the sign; None for anything else. */
  function ParseUnsigned(body: string): Option<Decimal> {
    match IndexOf(body, '.')
    case None =>
      if body != [] && AllDigits(body) then Some(Decimal(DigitsValue(body), 0)) else None
    case Some(k) =>
      var whole, frac := body[..k], body[k + 1..];
      if AllDigits(whole) && AllDigits(frac) && |whole| + |frac| > 0 then
        Some(Decimal(DigitsValue(whole) * Pow10(|frac|) + DigitsValue(frac), |frac|))
      else None
  }

  /** Python's `float(t)` on plain decimal text: surrounding whitespace, an
      optional sign, then `ParseUnsigned`; None where `float` raises. */
  function ParseFloat(t: string): Option<Decimal> {
    var u := Strip(t);
    var signed := u != [] && (u[0] == '-' || u[0] == '+');
    var negative := signed && u[0] == '-';
    match ParseUnsigned(if signed then u[1..] else u)
    case None => None
    case Some(d) => Some(Decimal(if negative then -d.mantissa else d.mantissa, d.scale))
  }

  predicate HasDigit(t: string) { exists i :: 0 <= i < |t| && IsDigit(t[i]) }

  lemma UnsignedNeedsDigit(body: string)
    requires !HasDigit(body)
    ensures ParseUnsigned(body).None?
  {
    match IndexOf(body, '.')
    case None =>
      if body != [] { assert !IsDigit(body[0]); }
    case Some(k) =>
      if k > 0 { assert body[..k][0] == body[0]; }
      if k + 1 < |body| { assert body[k + 1..][0] == body[k + 1]; }
  }

  /** `float` raises on text without a digit: the placeholders `N/A` and
      `Not found`, the empty text, a bare point or sign. */
  lemma ParseNeedsDigit(t: string)
    requires !HasDigit(t)
    ensures ParseFloat(t).None?
  {
    var u := Strip(t);
    StrippedHasNoDigit(t);
    if u != [] && (u[0] == '-' || u[0] == '+') {
      TailHasNoDigit(u);
      UnsignedNeedsDigit(u[1..]);
    } else {
      UnsignedNeedsDigit(u);
    }
  }

  lemma StrippedHasNoDigit(t: string)
    requires !HasDigit(t)
    ensures !HasDigit(Strip(t))
  {
    var u := Strip(t);
    var a := |t| - |LStrip(t)|;
    forall j | 0 <= j < |u| ensures !IsDigit(u[j]) { assert u[j] == t[a + j]; }
  }

  lemma TailHasNoDigit(u: string)
    requires u != [] && !HasDigit(u)
    ensures !HasDigit(u[1..])
  {
    forall j | 0 <= j < |u[1..]| ensures !IsDigit(u[1..][j]) { assert u[1..][j] == u[j + 1]; }
  }

  /** A rating as the scrapers write it, one digit, a point, one digit, parses to its tenths. */
  lemma ParseRatingText(t: string)
    requires IsDigitDotDigit(t)
    ensures ParseFloat(t) == Some(Decimal(10 * DigitValue(t[0]) + DigitValue(t[2]), 1))
  {
    assert !IsSpace(t[0]) && !IsSpace(t[2]);
    StripUntouched(t);
    FloatOfUnsigned(t);
    UnsignedDigitDotDigit(t);
  }

  /** Unsigned text without surrounding whitespace parses as its body. */
  lemma FloatOfUnsigned(t: string)
    requires Strip(t) == t && t != [] && t[0] != '-' && t[0] != '+'
    ensures ParseFloat(t) == ParseUnsigned(t)
  {
  }

  lemma UnsignedDigitDotDigit(t: string)
    requires IsDigitDotDigit(t)
    ensures ParseUnsigned(t) == Some(Decimal(10 * DigitValue(t[0]) + DigitValue(t[2]), 1))
  {
    assert IndexOf(t, '.') == Some(1) by {
      assert IndexOf(t[1..], '.') == Some(0);
    }
    assert t[..1] == [t[0]] && t[2..] == [t[2]];
    assert DigitsValue(t[..1]) == DigitValue(t[0]) by { assert t[..1][..0] == []; }
    assert DigitsValue(t[2..]) == DigitValue(t[2]) by { assert t[2..][..0] == []; }
  }

  /** `float(r) if r != 'N/A' else 0`. */
  function RatingValue(t: string): (r: Option<Decimal>)
    ensures t == "N/A" ==> r == Some(Decimal(0, 0))
    ensures t != "N/A" ==> r == ParseFloat(t)
  {
    if t == "N/A" then Some(Decimal(0, 0)) else ParseFloat(t)
  }

  /** `a > b` on the values the decimals denote. */
  predicate Greater(a: Decimal, b: Decimal) {
    a.mantissa * Pow10(b.scale) > b.mantissa * Pow10(a.scale)
  }

  function Value(a: Decimal): real {
    a.mantissa as real / Pow10(a.scale) as real
  }

  /** `Greater` is the order of the real numbers the decimals denote. */
  lemma GreaterIsValueOrder(a: Decimal, b: Decimal)
    ensures Greater(a, b) <==> Value(a) > Value(b)
  {
    var p, q := Pow10(a.scale) as real, Pow10(b.scale) as real;
    var x, y := a.mantissa as real, b.mantissa as real;
    assert (a.mantissa * Pow10(b.scale)) as real == x * q;
    assert (b.mantissa * Pow10(a.scale)) as real == y * p;
    CrossMultiply(x, y, p, q);
  }

  /** Comparing two fractions with positive denominators by cross-multiplying. */
  lemma CrossMultiply(x: real, y: real, p: real, q: real)
    requires p > 0.0 && q > 0.0
    ensures x / p > y / q <==> x * q > y * p
  {
    assert x / p - y / q == (x * q - y * p) / (p * q);
    assert p * q > 0.0;
  }

  // ---------------------------------------------------------------- record fields

  /** The phone key of a record, `normalize_phone(record.get('phone_number', ''))`. */
  function PhoneKey(rec: Dict): string { NormalizePhone(Get(rec, "phone_number", "")) }

  /** The name key of a record, `normalize_name(record.get('store_name', ''))`. */
  function NameKey(rec: Dict): string { NormalizeName(Get(rec, "store_name", "")) }

  /** `record.get('rating', 'N/A')`. */
  function RatingOf(rec: Dict): string { Get(rec, "rating", "N/A") }

  /** `float(current) > float(existing)`, 'N/A' counting as 0; None when either
      text does not parse, the `except:` path. */
  function RatesHigher(rec: Dict, existing: Dict): Option<bool> {
    var e, c := RatingValue(RatingOf(existing)), RatingValue(RatingOf(rec));
    if e.Some? && c.Some? then Some(Greater(c.value, e.value)) else None
  }
}
