/**
 * `clean_text` of the newer filter: a chain of regular-expression
 * substitutions followed by `strip()`. Each substitution is written out as the
 * left-to-right scan Python's `re.sub` performs for its pattern.
 */
module Normalize {
  import opened Text

  /** Length of the longest prefix of `s` whose characters satisfy `p`. */
  function RunLength(s: string, p: char -> bool): (n: nat)
    ensures n <= |s|
    ensures forall i :: 0 <= i < n ==> p(s[i])
    ensures n < |s| ==> !p(s[n])
  {
    if s == [] || !p(s[0]) then 0 else 1 + RunLength(s[1..], p)
  }

  predicate NotSpace(c: char) { !IsSpace(c) }

  /** The class `[a-zA-Z0-9+/]`. */
  predicate EncodedChar(c: char)
  {
    ('a' <= c <= 'z') || ('A' <= c <= 'Z') || ('0' <= c <= '9') || c == '+' || c == '/'
  }

  predicate IsPad(c: char) { c == '=' }

  predicate IsPeriod(c: char) { c == '.' }

  const UrlToken := "[URL]"
  const EncodedToken := "[ENCODED_CONTENT]"
  const MinEncodedRun := 50

  /** `re.sub(r'\s+', ' ', s)`. */
  function CollapseWhitespace(s: string): string
    decreases |s|
  {
    if s == [] then []
    else if IsSpace(s[0]) then " " + CollapseWhitespace(SkipSpaces(s[1..]))
    else [s[0]] + CollapseWhitespace(s[1..])
  }

  /** Whether `https?://[^\s]+` matches at the start of `run`, the maximal
      whitespace-free run at the current position (the match is then all of
      `run`). */
  predicate IsUrl(run: string)
  {
    (StartsWith(run, "https://") && |run| > 8) || (StartsWith(run, "http://") && |run| > 7)
  }

  /** `re.sub(r'https?://[^\s]+', '[URL]', s)`. */
  function ReplaceUrls(s: string): string
    decreases |s|
  {
    if s == [] then []
    else
      var n := RunLength(s, NotSpace);
      if IsUrl(s[..n]) then UrlToken + ReplaceUrls(s[n..])
      else [s[0]] + ReplaceUrls(s[1..])
  }

  /** Where a match of `[a-zA-Z0-9+/]{50,}={0,2}` at the start of `s` ends:
      the whole run of encoded characters, then at most two `=`. */
  function EncodedMatchEnd(s: string): (k: nat)
    requires RunLength(s, EncodedChar) >= MinEncodedRun
    ensures MinEncodedRun <= k <= |s|
  {
    var n := RunLength(s, EncodedChar);
    var pad := RunLength(s[n..], IsPad);
    n + (if pad < 2 then pad else 2)
  }

  /** `re.sub(r'[a-zA-Z0-9+/]{50,}={0,2}', '[ENCODED_CONTENT]', s)`. */
  function ReplaceEncoded(s: string): string
    decreases |s|
  {
    if s == [] then []
    else
      if RunLength(s, EncodedChar) >= MinEncodedRun then
        EncodedToken + ReplaceEncoded(s[EncodedMatchEnd(s)..])
      else [s[0]] + ReplaceEncoded(s[1..])
  }

  /** `re.sub(r'[.]{3,}', '...', s)`. */
  function CollapsePeriods(s: string): string
    decreases |s|
  {
    if s == [] then []
    else
      var n := RunLength(s, IsPeriod);
      if n >= 3 then "..." + CollapsePeriods(s[n..])
      else [s[0]] + CollapsePeriods(s[1..])
  }

  /** `clean_text` (gmail_spam_killer_backup.py). */
  function CleanText(s: string): string
  {
    if s == "" then ""
    else Strip(CollapsePeriods(ReplaceEncoded(ReplaceUrls(CollapseWhitespace(s)))))
  }

  // ---------------------------------------------------------------------
  // The normal form clean_text produces

  /** Positions `i` and `i + 1` of `s` both hold whitespace. */
  predicate DoubleSpaceAt(s: string, i: nat)
  {
    i + 1 < |s| && IsSpace(s[i]) && IsSpace(s[i + 1])
  }

  /** No two adjacent whitespace characters. */
  predicate NoDoubleSpace(s: string)
  {
    forall i: nat | i < |s| :: !DoubleSpaceAt(s, i)
  }

  /** Every whitespace character is a plain blank. */
  predicate OnlyBlanks(s: string)
  {
    forall i :: 0 <= i < |s| && IsSpace(s[i]) ==> s[i] == ' '
  }

  /** Positions `i` to `i + 3` of `s` all hold periods. */
  predicate FourPeriodsAt(s: string, i: nat)
  {
    i + 3 < |s| && s[i] == '.' && s[i + 1] == '.' && s[i + 2] == '.' && s[i + 3] == '.'
  }

  /** No run of four or more periods. */
  predicate NoFourPeriods(s: string)
  {
    forall i: nat | i < |s| :: !FourPeriodsAt(s, i)
  }

  predicate Trimmed(s: string)
  {
    s == [] || (!IsSpace(s[0]) && !IsSpace(s[|s| - 1]))
  }

  predicate Normalized(s: string)
  {
    Trimmed(s) && NoDoubleSpace(s) && OnlyBlanks(s) && NoFourPeriods(s)
  }

  /** The whitespace shape every stage after the first keeps. */
  predicate Shape(s: string)
  {
    NoDoubleSpace(s) && OnlyBlanks(s)
  }

  /** `r` is empty exactly when `s` is, and starts with whitespace exactly when `s` does. */
  predicate SameStart(s: string, r: string)
  {
    (s == [] <==> r == []) && (s != [] ==> (IsSpace(s[0]) <==> IsSpace(r[0])))
  }

  predicate NoSpaceIn(t: string)
  {
    forall i :: 0 <= i < |t| ==> !IsSpace(t[i])
  }

  lemma TokensHaveNoSpace()
    ensures NoSpaceIn(UrlToken) && NoSpaceIn(EncodedToken) && NoSpaceIn("...")
  {
  }

  lemma ConcatShape(a: string, b: string)
    requires Shape(a) && Shape(b)
    requires a != [] && b != [] ==> !(IsSpace(a[|a| - 1]) && IsSpace(b[0]))
    ensures Shape(a + b)
  {
    var c := a + b;
    forall i: nat ensures !DoubleSpaceAt(c, i) {
      if i + 1 < |a| {
        assert !DoubleSpaceAt(a, i);
        assert c[i] == a[i] && c[i + 1] == a[i + 1];
      } else if i + 1 == |a| {
        assert c[i] == a[|a| - 1];
        if i + 1 < |c| { assert c[i + 1] == b[0]; }
      } else if i + 1 < |c| {
        assert !DoubleSpaceAt(b, i - |a|);
        assert c[i] == b[i - |a|] && c[i + 1] == b[i - |a| + 1];
      }
    }
    forall i | 0 <= i < |c| && IsSpace(c[i]) ensures c[i] == ' ' {
      if i < |a| { assert c[i] == a[i]; } else { assert c[i] == b[i - |a|]; }
    }
  }

  lemma SliceShape(s: string, i: nat, j: nat, t: string)
    requires i <= j <= |s| && t == s[i..j]
    ensures Shape(s) ==> Shape(t)
  {
    if Shape(s) {
      forall k: nat ensures !DoubleSpaceAt(t, k) {
        assert !DoubleSpaceAt(s, i + k);
        if k + 1 < |t| { assert t[k] == s[i + k] && t[k + 1] == s[i + k + 1]; }
      }
      forall k | 0 <= k < |t| && IsSpace(t[k]) ensures t[k] == ' ' {
        assert t[k] == s[i + k];
      }
    }
  }

  lemma SlicePeriods(s: string, i: nat, j: nat, t: string)
    requires i <= j <= |s| && t == s[i..j]
    ensures NoFourPeriods(s) ==> NoFourPeriods(t)
  {
    if NoFourPeriods(s) {
      forall k: nat ensures !FourPeriodsAt(t, k) {
        assert !FourPeriodsAt(s, i + k);
        if k + 3 < |t| {
          assert t[k] == s[i + k] && t[k + 1] == s[i + k + 1] && t[k + 2] == s[i + k + 2] && t[k + 3] == s[i + k + 3];
        }
      }
    }
  }

  /** One replacing step of a substitution: a whitespace-free token stands
      for a whitespace-free stretch at the start of `s`. */
  lemma TokenStep(s: string, t: string, rest: string)
    requires s != [] && !IsSpace(s[0])
    requires t != [] && NoSpaceIn(t) && Shape(rest)
    ensures Shape(t + rest) && SameStart(s, t + rest)
  {
    assert Shape(t);
    ConcatShape(t, rest);
  }

  /** One copying step of a substitution: the first character is kept and the
      rest of the text is rewritten with the same whitespace start. */
  lemma CopyStep(s: string, rest: string)
    requires s != [] && Shape(s) && Shape(rest) && SameStart(s[1..], rest)
    ensures Shape([s[0]] + rest) && SameStart(s, [s[0]] + rest)
  {
    if |s| > 1 { assert s[1..][0] == s[1]; assert !DoubleSpaceAt(s, 0); }
    ConcatShape([s[0]], rest);
  }

  lemma {:induction false} CollapseWhitespaceShape(s: string)
    ensures Shape(CollapseWhitespace(s)) && SameStart(s, CollapseWhitespace(s))
    decreases |s|
  {
    if s == [] {
    } else if IsSpace(s[0]) {
      var t := SkipSpaces(s[1..]);
      CollapseWhitespaceShape(t);
      ConcatShape(" ", CollapseWhitespace(t));
    } else {
      CollapseWhitespaceShape(s[1..]);
      ConcatShape([s[0]], CollapseWhitespace(s[1..]));
    }
  }

  lemma {:induction false} ReplaceUrlsShape(s: string)
    requires Shape(s)
    ensures Shape(ReplaceUrls(s)) && SameStart(s, ReplaceUrls(s))
    decreases |s|
  {
    if s != [] {
      var n := RunLength(s, NotSpace);
      SliceShape(s, if IsUrl(s[..n]) then n else 1, |s|, s[if IsUrl(s[..n]) then n else 1..]);
      if IsUrl(s[..n]) {
        ReplaceUrlsShape(s[n..]);
        TokensHaveNoSpace();
        TokenStep(s, UrlToken, ReplaceUrls(s[n..]));
      } else {
        ReplaceUrlsShape(s[1..]);
        CopyStep(s, ReplaceUrls(s[1..]));
      }
    }
  }

  lemma {:induction false} ReplaceEncodedShape(s: string)
    requires Shape(s)
    ensures Shape(ReplaceEncoded(s)) && SameStart(s, ReplaceEncoded(s))
    decreases |s|
  {
    if s != [] {
      if RunLength(s, EncodedChar) >= MinEncodedRun {
        var k := EncodedMatchEnd(s);
        SliceShape(s, k, |s|, s[k..]);
        ReplaceEncodedShape(s[k..]);
        TokensHaveNoSpace();
        TokenStep(s, EncodedToken, ReplaceEncoded(s[k..]));
      } else {
        SliceShape(s, 1, |s|, s[1..]);
        ReplaceEncodedShape(s[1..]);
        CopyStep(s, ReplaceEncoded(s[1..]));
      }
    }
  }

  lemma {:induction false} CollapsePeriodsShape(s: string)
    requires Shape(s)
    ensures Shape(CollapsePeriods(s)) && SameStart(s, CollapsePeriods(s))
    decreases |s|
  {
    if s != [] {
      var n := RunLength(s, IsPeriod);
      if n >= 3 {
        SliceShape(s, n, |s|, s[n..]);
        CollapsePeriodsShape(s[n..]);
        TokensHaveNoSpace();
        TokenStep(s, "...", CollapsePeriods(s[n..]));
      } else {
        SliceShape(s, 1, |s|, s[1..]);
        CollapsePeriodsShape(s[1..]);
        CopyStep(s, CollapsePeriods(s[1..]));
      }
    }
  }

  /** `s` starts with exactly `m` periods. */
  predicate LeadingPeriods(s: string, m: nat)
  {
    m <= |s| && (forall i :: 0 <= i < m ==> s[i] == '.') && (m < |s| ==> s[m] != '.')
  }

  /** After `[.]{3,}` is replaced by `...`, the result starts with as many
      periods as the input, capped at three. */
  lemma {:induction false} CollapsePeriodsLead(s: string)
    ensures var n := RunLength(s, IsPeriod);
            LeadingPeriods(CollapsePeriods(s), if n < 3 then n else 3)
    decreases |s|
  {
    var r := CollapsePeriods(s);
    if s != [] {
      var n := RunLength(s, IsPeriod);
      if n >= 3 {
        var t := CollapsePeriods(s[n..]);
        CollapsePeriodsLead(s[n..]);
        assert LeadingPeriods(s[n..], 0);
        assert r == "..." + t;
        if |t| > 0 { assert r[3] == t[0]; }
      } else if s[0] == '.' {
        var t := CollapsePeriods(s[1..]);
        CollapsePeriodsLead(s[1..]);
        assert r == [s[0]] + t;
        assert LeadingPeriods(s[1..], n - 1);
        forall i | 0 < i < n ensures r[i] == '.' {
          assert r[i] == t[i - 1];
        }
        if n < |r| { assert r[n] == t[n - 1]; }
      }
    }
  }

  lemma DotsBeforeNonPeriod(t: string)
    requires NoFourPeriods(t) && (t == [] || t[0] != '.')
    ensures NoFourPeriods("..." + t)
  {
    var r := "..." + t;
    forall i: nat ensures !FourPeriodsAt(r, i) {
      if i < 3 {
        if i + 3 < |r| { assert r[3] == t[0]; }
      } else {
        assert !FourPeriodsAt(t, i - 3);
        if i + 3 < |r| {
          assert r[i] == t[i - 3] && r[i + 1] == t[i - 2] && r[i + 2] == t[i - 1] && r[i + 3] == t[i];
        }
      }
    }
  }

  lemma CharBeforeShortRun(c: char, t: string)
    requires NoFourPeriods(t)
    requires c == '.' && |t| >= 2 ==> !(t[0] == '.' && t[1] == '.')
    ensures NoFourPeriods([c] + t)
  {
    var r := [c] + t;
    forall i: nat ensures !FourPeriodsAt(r, i) {
      if i == 0 {
        if 3 < |r| { assert r[1] == t[0] && r[2] == t[1]; }
      } else {
        assert !FourPeriodsAt(t, i - 1);
        if i + 3 < |r| {
          assert r[i] == t[i - 1] && r[i + 1] == t[i] && r[i + 2] == t[i + 1] && r[i + 3] == t[i + 2];
        }
      }
    }
  }

  /** After `[.]{3,}` is replaced by `...`, no four periods remain in a row. */
  lemma {:induction false} CollapsePeriodsDots(s: string)
    ensures NoFourPeriods(CollapsePeriods(s))
    decreases |s|
  {
    if s != [] {
      var n := RunLength(s, IsPeriod);
      if n >= 3 {
        var t := CollapsePeriods(s[n..]);
        CollapsePeriodsDots(s[n..]);
        CollapsePeriodsLead(s[n..]);
        assert LeadingPeriods(s[n..], 0);
        DotsBeforeNonPeriod(t);
      } else {
        var t := CollapsePeriods(s[1..]);
        CollapsePeriodsDots(s[1..]);
        CollapsePeriodsLead(s[1..]);
        if s[0] == '.' {
          assert LeadingPeriods(s[1..], n - 1);
        }
        CharBeforeShortRun(s[0], t);
      }
    }
  }

  /** Everything `clean_text` returns is in normal form: no leading or trailing
      whitespace, no two adjacent whitespace characters, blanks only, and no
      run of four or more periods. The empty text stays empty. */
  lemma CleanTextNormalized(s: string)
    ensures Normalized(CleanText(s))
    ensures s == "" ==> CleanText(s) == ""
  {
    if s != "" {
      var w := CollapseWhitespace(s);
      CollapseWhitespaceShape(s);
      var u := ReplaceUrls(w);
      ReplaceUrlsShape(w);
      var v := ReplaceEncoded(u);
      ReplaceEncodedShape(u);
      var x := CollapsePeriods(v);
      CollapsePeriodsShape(v);
      CollapsePeriodsDots(v);
      StripNormalized(x);
    }
  }

  /** Stripping text of the normal shape puts it in normal form. */
  lemma StripNormalized(x: string)
    requires Shape(x) && NoFourPeriods(x)
    ensures Normalized(Strip(x))
  {
    StripShape(x);
    StripPeriods(x);
  }

  lemma StripShape(x: string)
    requires Shape(x)
    ensures Shape(Strip(x))
  {
    var a := |x| - |SkipSpaces(x)|;
    var r := Strip(x);
    SliceOfSlice(x, a, |r|);
    SliceShape(x, a, a + |r|, r);
  }

  lemma StripPeriods(x: string)
    requires NoFourPeriods(x)
    ensures NoFourPeriods(Strip(x))
  {
    var a := |x| - |SkipSpaces(x)|;
    var r := Strip(x);
    SliceOfSlice(x, a, |r|);
    SlicePeriods(x, a, a + |r|, r);
  }

  lemma SliceOfSlice(x: string, a: nat, m: nat)
    requires a <= |x| && m <= |x| - a
    ensures x[a..][..m] == x[a..a + m]
  {
  }

  /** Collapsing whitespace again changes nothing in text of the normal shape. */
  lemma {:induction false} CollapseWhitespaceFixed(s: string)
    requires Shape(s)
    ensures CollapseWhitespace(s) == s
    decreases |s|
  {
    if s != [] {
      var t := s[1..];
      SliceShape(s, 1, |s|, t);
      CollapseWhitespaceFixed(t);
      if IsSpace(s[0]) {
        assert t == [] || !IsSpace(t[0]) by {
          if t != [] { assert t[0] == s[1]; assert !DoubleSpaceAt(s, 0); }
        }
        assert SkipSpaces(t) == t;
        assert CollapseWhitespace(s) == " " + CollapseWhitespace(t);
        assert s == " " + t;
      } else {
        assert CollapseWhitespace(s) == [s[0]] + CollapseWhitespace(t);
        assert s == [s[0]] + t;
      }
    }
  }

  /** Whitespace normalisation is idempotent on what clean_text returns:
      collapsing whitespace and stripping again leave it unchanged. */
  lemma CleanTextWhitespaceIdempotent(s: string)
    ensures var r := CleanText(s); CollapseWhitespace(r) == r && Strip(r) == r
  {
    var r := CleanText(s);
    CleanTextNormalized(s);
    CollapseWhitespaceFixed(r);
    StripOfStripped(r);
  }
}
