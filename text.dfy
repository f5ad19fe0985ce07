/** ASCII text primitives behind the scrapers' string handling: the character
    classes `\d`, `\s`, `\w`, and the `str` methods `lower`, `strip`, `split`,
    `join`, `find`, `replace` and `split('\n')`. */
module Text {
  import opened Wrappers

  /** `\d` (ASCII). */
  predicate IsDigit(c: char) { '0' <= c <= '9' }

  predicate IsUpper(c: char) { 'A' <= c <= 'Z' }

  predicate IsLetter(c: char) { IsUpper(c) || 'a' <= c <= 'z' }

  /** `\w` (ASCII). */
  predicate IsWordChar(c: char) { IsLetter(c) || IsDigit(c) || c == '_' }

  /** ASCII whitespace as `str.isspace`, `str.split`, `str.strip` and `\s` see it. */
  predicate IsSpace(c: char) {
    c == ' ' || c == '\t' || c == '\n' || c == '\r' || c == '\U{B}' || c == '\U{C}'
    || ('\U{1C}' <= c <= '\U{1F}')
  }

  predicate AllDigits(s: string) { forall i :: 0 <= i < |s| ==> IsDigit(s[i]) }

  predicate NoSpace(s: string) { forall i :: 0 <= i < |s| ==> !IsSpace(s[i]) }

  predicate NoUpper(s: string) { forall i :: 0 <= i < |s| ==> !IsUpper(s[i]) }

  /** ASCII `str.lower` on one character. */
  function LowerChar(c: char): (r: char)
    ensures !IsUpper(r)
    ensures IsSpace(r) <==> IsSpace(c)
    ensures !IsUpper(c) ==> r == c
  {
    if IsUpper(c) then (c as int + 32) as char else c
  }

  /** `str.lower` (ASCII letters only). */
  function Lower(s: string): (r: string)
    ensures |r| == |s| && NoUpper(r)
    ensures forall i :: 0 <= i < |s| ==> r[i] == LowerChar(s[i])
  {
    seq(|s|, i requires 0 <= i < |s| => LowerChar(s[i]))
  }

  /** `sub` occurs in `s` starting at index `i`. */
  predicate OccursAt(s: string, sub: string, i: nat) {
    i + |sub| <= |s| && s[i..i + |sub|] == sub
  }

  /** Python's `sub in s`. */
  predicate Contains(s: string, sub: string) {
    exists i :: 0 <= i <= |s| && OccursAt(s, sub, i)
  }

  predicate StartsWith(s: string, prefix: string) { OccursAt(s, prefix, 0) }

  /** A slice is its two halves put together. */
  lemma SliceSplit(s: string, a: nat, b: nat, c: nat)
    requires a <= b <= c <= |s|
    ensures s[a..c] == s[a..b] + s[b..c]
  {
  }

  /** An occurrence inside an occurrence is an occurrence. */
  lemma OccursWithin(t: string, w: string, i: nat, x: string, j: nat)
    requires OccursAt(t, w, i) && OccursAt(w, x, j)
    ensures OccursAt(t, x, i + j)
  {
    forall y | 0 <= y < |x| ensures t[i + j..i + j + |x|][y] == x[y] {
      assert x[y] == w[j..j + |x|][y] == w[j + y];
      assert w[j + y] == t[i..i + |w|][j + y];
    }
  }

  /** Text found in a part of `t` is found in `t`. */
  lemma ContainsWithin(t: string, w: string, i: nat, x: string)
    requires OccursAt(t, w, i) && Contains(w, x)
    ensures Contains(t, x)
  {
    var j :| 0 <= j <= |w| && OccursAt(w, x, j);
    OccursWithin(t, w, i, x, j);
  }

  function FindFrom(s: string, sub: string, k: nat): (r: Option<nat>)
    requires k <= |s|
    ensures r.Some? ==> k <= r.value <= |s| && OccursAt(s, sub, r.value)
    ensures r.Some? ==> forall j :: k <= j < r.value ==> !OccursAt(s, sub, j)
    ensures r.None? ==> forall j :: k <= j <= |s| ==> !OccursAt(s, sub, j)
    decreases |s| - k
  {
    if OccursAt(s, sub, k) then Some(k)
    else if k == |s| then None
    else FindFrom(s, sub, k + 1)
  }

  /** `str.find`: the lowest index of `sub` in `s`, or None for Python's -1. */
  function Find(s: string, sub: string): (r: Option<nat>)
    ensures r.Some? ==> OccursAt(s, sub, r.value) && forall j :: 0 <= j < r.value ==> !OccursAt(s, sub, j)
    ensures r.None? <==> !Contains(s, sub)
  {
    FindFrom(s, sub, 0)
  }

  /** `str.lstrip()` with no argument. */
  function LStrip(s: string): (r: string)
    ensures |r| <= |s| && r == s[|s| - |r|..]
    ensures r == [] || !IsSpace(r[0])
    ensures forall i :: 0 <= i < |s| - |r| ==> IsSpace(s[i])
  {
    if s != [] && IsSpace(s[0]) then LStrip(s[1..]) else s
  }

  /** `str.rstrip()` with no argument. */
  function RStrip(s: string): (r: string)
    ensures |r| <= |s| && r == s[..|r|]
    ensures r == [] || !IsSpace(r[|r| - 1])
    ensures forall i :: |r| <= i < |s| ==> IsSpace(s[i])
  {
    if s != [] && IsSpace(s[|s| - 1]) then RStrip(s[..|s| - 1]) else s
  }

  /** `str.strip()`: `s` without its leading and trailing whitespace. */
  function Strip(s: string): (r: string)
    ensures r == [] || (!IsSpace(r[0]) && !IsSpace(r[|r| - 1]))
    ensures var a := |s| - |LStrip(s)|;
      a + |r| <= |s| && r == s[a..a + |r|]
      && (forall i :: 0 <= i < a ==> IsSpace(s[i]))
      && (forall i :: a + |r| <= i < |s| ==> IsSpace(s[i]))
  {
    RStrip(LStrip(s))
  }

  /** What `strip` leaves is found in `s`, where the leading whitespace ends. */
  lemma StripAt(s: string) returns (a: nat)
    ensures a == |s| - |LStrip(s)| && a + |Strip(s)| <= |s| && OccursAt(s, Strip(s), a)
  {
    a := |s| - |LStrip(s)|;
  }

  /** What `strip` leaves of an occurrence in `t` occurs in `t`, inside it. */
  lemma StripWithin(t: string, m: string, a: nat) returns (b: nat)
    requires OccursAt(t, m, a)
    ensures a <= b && b + |Strip(m)| <= a + |m| && OccursAt(t, Strip(m), b)
  {
    var off := StripAt(m);
    OccursWithin(t, m, a, Strip(m), off);
    b := a + off;
  }

  lemma StripUntouched(s: string)
    requires s == [] || (!IsSpace(s[0]) && !IsSpace(s[|s| - 1]))
    ensures Strip(s) == s
  {
  }

  /** `s[:n]`. */
  function Take(s: string, n: nat): (r: string)
    ensures |r| <= n && |r| <= |s| && r == s[..|r|]
    ensures |s| <= n ==> r == s
    ensures n <= |s| ==> |r| == n
  {
    if n < |s| then s[..n] else s
  }

  /** Length of the run of non-whitespace characters that opens `s`. */
  function WordLen(s: string): (n: nat)
    requires s != [] && !IsSpace(s[0])
    ensures 1 <= n <= |s| && NoSpace(s[..n])
    ensures n < |s| ==> IsSpace(s[n])
  {
    if |s| == 1 || IsSpace(s[1]) then 1
    else
      var m := WordLen(s[1..]);
      assert s[..m + 1] == [s[0]] + s[1..][..m];
      m + 1
  }

  predicate IsWord(w: string) { w != [] && NoSpace(w) }

  /** `str.split()` with no argument: the maximal runs of non-whitespace. */
  function Words(s: string): (r: seq<string>)
    ensures forall i :: 0 <= i < |r| ==> IsWord(r[i])
    ensures NoUpper(s) ==> forall i :: 0 <= i < |r| ==> NoUpper(r[i])
    decreases |s|
  {
    if s == [] then []
    else if IsSpace(s[0]) then Words(s[1..])
    else
      var n := WordLen(s);
      [s[..n]] + Words(s[n..])
  }

  /** `' '.join(ws)`. */
  function Join(ws: seq<string>): string {
    if |ws| == 0 then []
    else if |ws| == 1 then ws[0]
    else ws[0] + " " + Join(ws[1..])
  }

  /** Single-space separated, no leading or trailing whitespace, and no
      whitespace other than the plain space. */
  predicate Collapsed(s: string) {
    forall i :: 0 <= i < |s| && IsSpace(s[i]) ==> s[i] == ' ' && 0 < i < |s| - 1 && !IsSpace(s[i + 1])
  }

  lemma {:induction false} JoinOfWords(ws: seq<string>)
    requires forall i :: 0 <= i < |ws| ==> IsWord(ws[i])
    ensures Collapsed(Join(ws))
    ensures Join(ws) == [] <==> ws == []
    ensures (forall i :: 0 <= i < |ws| ==> NoUpper(ws[i])) ==> NoUpper(Join(ws))
  {
    if |ws| >= 2 {
      var t := Join(ws[1..]);
      JoinOfWords(ws[1..]);
      var r := ws[0] + " " + t;
      assert r == Join(ws);
      assert t != [];
      assert forall i :: 0 <= i < |ws[0]| ==> r[i] == ws[0][i];
      forall i | 0 <= i < |r| && IsSpace(r[i])
        ensures r[i] == ' ' && 0 < i < |r| - 1 && !IsSpace(r[i + 1])
      {
        if i == |ws[0]| {
          assert r[i + 1] == t[0];
        } else {
          assert r[i] == t[i - |ws[0]| - 1];
        }
      }
      if forall i :: 0 <= i < |ws| ==> NoUpper(ws[i]) {
        assert forall i :: 0 <= i < |ws[1..]| ==> NoUpper(ws[1..][i]) by {
          forall i | 0 <= i < |ws[1..]| ensures NoUpper(ws[1..][i]) { assert ws[1..][i] == ws[i + 1]; }
        }
        forall i | 0 <= i < |r| ensures !IsUpper(r[i]) {
          if i > |ws[0]| { assert r[i] == t[i - |ws[0]| - 1]; }
        }
      }
    }
  }

  lemma {:induction false} JoinSnoc(ws: seq<string>)
    requires |ws| >= 2
    ensures Join(ws) == Join(ws[..|ws| - 1]) + " " + ws[|ws| - 1]
  {
    if |ws| > 2 {
      JoinSnoc(ws[1..]);
      assert ws[1..][..|ws| - 2] == ws[..|ws| - 1][1..];
    }
  }

  /** First index of character `c` in `s`. */
  function IndexOf(s: string, c: char): (r: Option<nat>)
    ensures r.Some? ==> r.value < |s| && s[r.value] == c && c !in s[..r.value]
    ensures r.None? ==> c !in s
  {
    if s == [] then None
    else if s[0] == c then Some(0)
    else
      var k := IndexOf(s[1..], c);
      if k.None? then None
      else
        assert s[..k.value + 1] == [s[0]] + s[1..][..k.value];
        Some(k.value + 1)
  }

  /** `s.split('\n')`: the pieces between newlines, empty ones included. */
  function Lines(s: string): (r: seq<string>)
    ensures |r| >= 1
    ensures forall i :: 0 <= i < |r| ==> '\n' !in r[i]
    decreases |s|
  {
    match IndexOf(s, '\n')
    case None => [s]
    case Some(k) => [s[..k]] + Lines(s[k + 1..])
  }

  /** `'\n'.join(ls)`. */
  function JoinLines(ls: seq<string>): string {
    if |ls| == 0 then []
    else if |ls| == 1 then ls[0]
    else ls[0] + "\n" + JoinLines(ls[1..])
  }

  /** Splitting on newlines loses nothing: joining the lines back gives `s`. */
  lemma {:induction false} LinesRoundTrip(s: string)
    ensures JoinLines(Lines(s)) == s
    decreases |s|
  {
    match IndexOf(s, '\n')
    case None =>
    case Some(k) =>
      var rest := Lines(s[k + 1..]);
      LinesRoundTrip(s[k + 1..]);
      assert Lines(s) == [s[..k]] + rest;
      assert s == s[..k] + "\n" + s[k + 1..];
  }

  /** `s.replace(p, '')`: occurrences removed left to right, without overlap. */
  function RemoveAll(s: string, p: string): (r: string)
    requires p != []
    ensures |r| <= |s|
    decreases |s|
  {
    if |s| < |p| then s
    else if s[..|p|] == p then RemoveAll(s[|p|..], p)
    else [s[0]] + RemoveAll(s[1..], p)
  }

  /** Text without an occurrence of `p` passes through `replace(p, '')` unchanged. */
  lemma {:induction false} RemoveAllAbsent(s: string, p: string)
    requires p != [] && !Contains(s, p)
    ensures RemoveAll(s, p) == s
    decreases |s|
  {
    if |s| >= |p| {
      assert !OccursAt(s, p, 0);
      if Contains(s[1..], p) {
        var j :| 0 <= j <= |s[1..]| && OccursAt(s[1..], p, j);
        assert s[j + 1..j + 1 + |p|] == s[1..][j..j + |p|];
        assert OccursAt(s, p, j + 1);
      }
      RemoveAllAbsent(s[1..], p);
    }
  }

  /** `s.replace(c, '')` for a single character: every `c` goes, every other
      character stays, as often as it occurs. Order is kept, as
      `RemoveCharAppend` states: the removal works piece by piece. */
  function RemoveChar(s: string, c: char): (r: string)
    ensures |r| <= |s| && c !in r
    ensures c !in s ==> r == s
    ensures multiset(r) == multiset(s)[c := 0]
    ensures |s| == 1 ==> r == (if s[0] == c then [] else s)
  {
    if s == [] then []
    else
      assert s == [s[0]] + s[1..];
      if s[0] == c then RemoveChar(s[1..], c)
      else [s[0]] + RemoveChar(s[1..], c)
  }

  /** Removing a character from two texts put together removes it from each
      and keeps them in order: with the one-character case of `RemoveChar`,
      this says the result is `s` with its `c`s taken out and nothing else
      moved. */
  lemma {:induction false} RemoveCharAppend(a: string, b: string, c: char)
    ensures RemoveChar(a + b, c) == RemoveChar(a, c) + RemoveChar(b, c)
  {
    if a != [] {
      assert (a + b)[1..] == a[1..] + b;
      RemoveCharAppend(a[1..], b, c);
    } else {
      assert a + b == b;
    }
  }
}
