/** The Python string primitives the bot relies on (`strip`, `lower`,
    `startswith`, `in`, `lstrip`, `split(sep, 1)`), over Unicode code points,
    plus an Option type for values that Python represents as "maybe None". */
module Text {

  datatype Option<+T> = None | Some(value: T) {
    /** The value, or `default` when there is none (Python's `x or default`
        for values that are never falsy). */
    function GetOr(default: T): T {
      match this
      case Some(v) => v
      case None => default
    }
  }

  /** Python truthiness of an optional string: `None` and `""` are falsy. */
  predicate Truthy(o: Option<string>) {
    o.Some? && o.value != ""
  }

  /** The characters for which Python's `str.isspace()` holds; `str.strip()`
      with no argument removes exactly these from both ends. */
  predicate IsSpace(c: char) {
    || '\t' <= c <= '\r'
    || '\U{1C}' <= c <= ' '
    || c == '\U{85}' || c == '\U{A0}' || c == '\U{1680}'
    || '\U{2000}' <= c <= '\U{200A}'
    || c == '\U{2028}' || c == '\U{2029}' || c == '\U{202F}'
    || c == '\U{205F}' || c == '\U{3000}'
  }

  /** `s.lstrip()`: drops the longest whitespace prefix. */
  function LStrip(s: string): (r: string)
    ensures |r| <= |s| && r == s[|s| - |r|..]
    ensures forall i :: 0 <= i < |s| - |r| ==> IsSpace(s[i])
    ensures r == [] || !IsSpace(r[0])
  {
    if |s| > 0 && IsSpace(s[0]) then LStrip(s[1..]) else s
  }

  /** `s.rstrip()`: drops the longest whitespace suffix. */
  function RStrip(s: string): (r: string)
    ensures |r| <= |s| && r == s[..|r|]
    ensures forall i :: |r| <= i < |s| ==> IsSpace(s[i])
    ensures r == [] || !IsSpace(r[|r| - 1])
  {
    if |s| > 0 && IsSpace(s[|s| - 1]) then RStrip(s[..|s| - 1]) else s
  }

  /** A string with no whitespace at either end. */
  predicate Stripped(s: string) {
    s == [] || (!IsSpace(s[0]) && !IsSpace(s[|s| - 1]))
  }

  /** `s.strip()`: the result has no whitespace at either end, and a string
      that already has none is returned unchanged; `StripIsTrim` shows it is
      the stretch of `s` between its leading and trailing whitespace. */
  function Strip(s: string): (r: string)
    ensures Stripped(r)
    ensures |r| <= |s|
    ensures Stripped(s) ==> r == s
  {
    RStrip(LStrip(s))
  }

  /** What `strip` leaves is the stretch of `s` between its leading and its
      trailing whitespace. */
  lemma StripIsTrim(s: string)
    ensures TrimAt(s, Strip(s), |s| - |LStrip(s)|)
  {
    StripSpan(s, LStrip(s), Strip(s));
  }

  /** `r` is a stretch of `s` with only whitespace before and after it;
      for a stripped `r` there is only one such stretch. */
  ghost predicate TrimOf(s: string, r: string) {
    exists k :: TrimAt(s, r, k)
  }

  /** `r` is the stretch of `s` starting at `k`, with only whitespace before
      and after it. */
  predicate TrimAt(s: string, r: string, k: int) {
    0 <= k && k + |r| <= |s| && r == s[k..k + |r|] &&
    (forall i :: 0 <= i < k ==> IsSpace(s[i])) &&
    (forall i :: k + |r| <= i < |s| ==> IsSpace(s[i]))
  }

  /** Dropping a whitespace prefix and then a whitespace suffix leaves a
      stretch of the original string with whitespace on both sides. */
  lemma StripSpan(s: string, l: string, r: string)
    requires |l| <= |s| && l == s[|s| - |l|..]
    requires forall i :: 0 <= i < |s| - |l| ==> IsSpace(s[i])
    requires |r| <= |l| && r == l[..|r|]
    requires forall i :: |r| <= i < |l| ==> IsSpace(l[i])
    ensures TrimAt(s, r, |s| - |l|)
  {
    var k := |s| - |l|;
    forall i | k + |r| <= i < |s|
      ensures IsSpace(s[i])
    {
      assert s[i] == l[i - k];
    }
  }

  /** A string made only of whitespace. */
  predicate AllSpace(w: string) {
    forall i :: 0 <= i < |w| ==> IsSpace(w[i])
  }

  /** Stripping a stripped string padded with whitespace on both sides
      gives back the string. */
  lemma StripPadded(w1: string, s: string, w2: string)
    requires AllSpace(w1) && AllSpace(w2) && Stripped(s)
    ensures Strip(w1 + s + w2) == s
  {
    if s == [] {
      assert w1 + s + w2 == (w1 + w2) + [];
      LStripPadded(w1 + w2, []);
    } else {
      assert w1 + s + w2 == w1 + (s + w2);
      LStripPadded(w1, s + w2);
      RStripPadded(s, w2);
    }
  }

  /** Stripping a stripped string followed by whitespace gives it back. */
  lemma StripTrailing(s: string, w: string)
    requires AllSpace(w) && Stripped(s)
    ensures Strip(s + w) == s
  {
    assert [] + s + w == s + w;
    StripPadded([], s, w);
  }

  /** Stripping a stripped string preceded by whitespace gives it back. */
  lemma StripLeading(w: string, s: string)
    requires AllSpace(w) && Stripped(s)
    ensures Strip(w + s) == s
  {
    assert w + s + [] == w + s;
    StripPadded(w, s, []);
  }

  /** `lstrip` removes exactly a whitespace prefix in front of a string
      that does not start with whitespace. */
  lemma {:induction false} LStripPadded(w: string, t: string)
    requires AllSpace(w)
    requires t == [] || !IsSpace(t[0])
    ensures LStrip(w + t) == t
    decreases |w|
  {
    if w == [] {
      assert w + t == t;
    } else {
      assert (w + t)[0] == w[0];
      assert (w + t)[1..] == w[1..] + t;
      LStripPadded(w[1..], t);
    }
  }

  /** `rstrip` removes exactly a whitespace suffix behind a string that
      does not end with whitespace. */
  lemma {:induction false} RStripPadded(t: string, w: string)
    requires AllSpace(w)
    requires t == [] || !IsSpace(t[|t| - 1])
    ensures RStrip(t + w) == t
    decreases |w|
  {
    if w == [] {
      assert t + w == t;
    } else {
      assert (t + w)[|t + w| - 1] == w[|w| - 1];
      assert (t + w)[..|t + w| - 1] == t + w[..|w| - 1];
      RStripPadded(t, w[..|w| - 1]);
    }
  }

  /** Stripping only removes characters: whatever is in the result was in
      the input. */
  lemma StripKeepsChars(s: string, c: char)
    requires c in Strip(s)
    ensures c in s
  {
    var l := LStrip(s);
    var r := Strip(s);
    var k :| 0 <= k < |r| && r[k] == c;
    assert l[k] == c;
    assert s[|s| - |l| + k] == c;
  }

  function LowerChar(c: char): char {
    if 'A' <= c <= 'Z' then (c as int + 32) as char else c
  }

  predicate IsUpper(c: char) {
    'A' <= c <= 'Z'
  }

  /** `s.lower()`, restricted to the ASCII letters. */
  function Lower(s: string): (r: string)
    ensures |r| == |s|
    ensures forall i :: 0 <= i < |s| ==> r[i] == LowerChar(s[i])
  {
    seq(|s|, i requires 0 <= i < |s| => LowerChar(s[i]))
  }

  /** `r` is made of the lower-cased characters of `text` that lie between
      some whitespace prefix and some whitespace suffix. */
  ghost predicate LowerTrimOf(text: string, r: string) {
    exists k :: LowerTrimAt(text, r, k)
  }

  /** `r` is the lower-cased stretch of `text` starting at `k`, with only
      whitespace before and after it. */
  predicate LowerTrimAt(text: string, r: string, k: int) {
    0 <= k && k + |r| <= |text| &&
    (forall i :: 0 <= i < k ==> IsSpace(text[i])) &&
    (forall i :: k + |r| <= i < |text| ==> IsSpace(text[i])) &&
    (forall i :: 0 <= i < |r| ==> r[i] == LowerChar(text[k + i]))
  }

  /** `normalize` (app.py): trimmed and lower-cased. The result is the
      input's characters between its leading and trailing whitespace, each
      lower-cased. */
  function Normalize(text: string): (r: string)
    ensures |r| <= |text|
    ensures Stripped(r)
    ensures forall i :: 0 <= i < |r| ==> !IsUpper(r[i])
    ensures Stripped(text) && (forall i :: 0 <= i < |text| ==> !IsUpper(text[i])) ==> r == text
    ensures LowerTrimOf(text, r)
  {
    LowerStripped(Strip(text));
    LowerStripUnchanged(text);
    LowerStripSpan(text);
    Lower(Strip(text))
  }

  /** A trimmed string without upper-case letters is its own lower-cased
      strip. */
  lemma LowerStripUnchanged(text: string)
    ensures Stripped(text) && (forall i :: 0 <= i < |text| ==> !IsUpper(text[i])) ==> Lower(Strip(text)) == text
  {
    if Stripped(text) && forall i :: 0 <= i < |text| ==> !IsUpper(text[i]) {
      LowerUnchanged(text);
    }
  }

  /** The lower-cased strip of `text` is made of the lower-cased characters
      of `text` between its leading and trailing whitespace. */
  lemma LowerStripSpan(text: string)
    ensures LowerTrimOf(text, Lower(Strip(text)))
  {
    var k := |text| - |LStrip(text)|;
    StripIsTrim(text);
    LowerOfSpan(text, Strip(text), k);
    assert LowerTrimAt(text, Lower(Strip(text)), k);
  }

  /** Lower-casing a stretch of a string lower-cases the characters of
      that stretch. */
  lemma LowerOfSpan(text: string, t: string, k: nat)
    requires k + |t| <= |text| && t == text[k..k + |t|]
    ensures forall i :: 0 <= i < |t| ==> Lower(t)[i] == LowerChar(text[k + i])
  {
  }

  /** Lower-casing changes no whitespace, so a stripped string stays
      stripped. */
  lemma LowerStripped(s: string)
    requires Stripped(s)
    ensures Stripped(Lower(s))
    ensures forall i :: 0 <= i < |s| ==> !IsUpper(Lower(s)[i])
  {
  }

  /** A string without upper-case letters is its own lower-cased form. */
  lemma LowerUnchanged(s: string)
    requires forall i :: 0 <= i < |s| ==> !IsUpper(s[i])
    ensures Lower(s) == s
  {
  }

  /** Normalizing is idempotent and ignores surrounding whitespace, so the
      webhook's normalizing of an already stripped body is the same as
      normalizing the raw body. */
  lemma NormalizeIdempotent(s: string)
    ensures Normalize(Normalize(s)) == Normalize(s)
    ensures Normalize(Strip(s)) == Normalize(s)
  {
  }

  /** `sub` occurs in `s` starting at index `i`. */
  predicate OccursAt(s: string, sub: string, i: int) {
    0 <= i && i + |sub| <= |s| && s[i..i + |sub|] == sub
  }

  /** Python's `sub in s` for strings: substring containment (the empty
      string is contained in every string). */
  predicate Contains(s: string, sub: string)
    decreases |s|
  {
    sub <= s || (|s| > 0 && Contains(s[1..], sub))
  }

  /** Shifting the haystack by one character shifts every occurrence. */
  lemma OccursShift(s: string, sub: string, i: int)
    requires |s| > 0 && i >= 1
    ensures OccursAt(s, sub, i) <==> OccursAt(s[1..], sub, i - 1)
  {
    if i + |sub| <= |s| {
      assert s[1..][i - 1..i - 1 + |sub|] == s[i..i + |sub|];
    }
  }

  /** `Contains` agrees with the textbook definition of a substring. */
  lemma {:induction false} ContainsIff(s: string, sub: string)
    ensures Contains(s, sub) <==> exists i :: OccursAt(s, sub, i)
    decreases |s|
  {
    assert OccursAt(s, sub, 0) <==> sub <= s;
    if |s| > 0 {
      ContainsIff(s[1..], sub);
      forall i | 1 <= i
        ensures OccursAt(s, sub, i) <==> OccursAt(s[1..], sub, i - 1)
      {
        OccursShift(s, sub, i);
      }
      if Contains(s[1..], sub) {
        var j :| OccursAt(s[1..], sub, j);
        assert OccursAt(s, sub, j + 1);
      }
    }
  }

  /** A substring occurrence makes `Contains` true. */
  lemma ContainsAt(s: string, sub: string, i: int)
    requires OccursAt(s, sub, i)
    ensures Contains(s, sub)
  {
    ContainsIff(s, sub);
  }

  /** `s.endswith(suffix)`. */
  predicate EndsWith(s: string, suffix: string) {
    |suffix| <= |s| && s[|s| - |suffix|..] == suffix
  }

  /** The index of the first occurrence of `c`, as `s.index(c)`. */
  function IndexOf(s: string, c: char): (i: nat)
    requires c in s
    ensures i < |s| && s[i] == c
    ensures c !in s[..i]
  {
    if s[0] == c then 0
    else
      var j := IndexOf(s[1..], c);
      assert s[..j + 1] == [s[0]] + s[1..][..j];
      1 + j
  }

  /** `s.lstrip(c)` for a single character `c`: drops every leading `c`. */
  function LStripChar(s: string, c: char): (r: string)
    ensures |r| <= |s| && r == s[|s| - |r|..]
    ensures forall i :: 0 <= i < |s| - |r| ==> s[i] == c
    ensures r == [] || r[0] != c
  {
    if |s| > 0 && s[0] == c then LStripChar(s[1..], c) else s
  }
}
