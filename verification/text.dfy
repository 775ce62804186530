/** The Python string operations the scraper relies on, over `seq<char>`.
    Character classes are the ASCII part of Python's Unicode classes. */
module Text {
  import opened Common

  // ---------------------------------------------------------------------
  // Character classes
  // ---------------------------------------------------------------------

  predicate IsDigit(c: char) { '0' <= c <= '9' }

  /** `str.isalnum` restricted to ASCII letters and digits. */
  predicate IsAlnum(c: char) { 'a' <= c <= 'z' || 'A' <= c <= 'Z' || IsDigit(c) }

  /** The characters Python's `str.isspace` and `str.strip` treat as whitespace,
      below U+0100. */
  predicate IsWhite(c: char) {
    c == ' ' || '\t' <= c <= '\r' || '\U{1C}' <= c <= '\U{1F}' || c == '\U{85}' || c == '\U{A0}'
  }

  predicate AllDigits(s: string) { forall i :: 0 <= i < |s| ==> IsDigit(s[i]) }

  predicate AllWhite(s: string) { forall i :: 0 <= i < |s| ==> IsWhite(s[i]) }

  /** Python's `s.isspace()`: false on the empty string. */
  predicate IsSpace(s: string) { |s| > 0 && AllWhite(s) }

  // ---------------------------------------------------------------------
  // Occurrences and str.replace
  // ---------------------------------------------------------------------

  predicate StartsWith(s: string, p: string) { |p| <= |s| && s[..|p|] == p }

  predicate EndsWith(s: string, p: string) { |p| <= |s| && s[|s| - |p|..] == p }

  /** `p in s` for strings: `p` occurs somewhere in `s`. */
  predicate Occurs(s: string, p: string)
    decreases |s|
  {
    StartsWith(s, p) || (|s| > 0 && Occurs(s[1..], p))
  }

  /** No proper non-empty prefix of `pat` is a suffix of `a`: an occurrence of
      `pat` in `a + b` cannot start inside `a` and end inside `b`. */
  predicate NoStraddle(a: string, pat: string) {
    forall k :: 0 < k < |pat| && k <= |a| ==> a[|a| - k..] != pat[..k]
  }

  /** Python's `s.replace(pat, rep)` for a non-empty `pat`: the string is scanned
      from the left and every non-overlapping occurrence is replaced. */
  function ReplaceAll(s: string, pat: string, rep: string): string
    requires |pat| > 0
    decreases |s|
  {
    if |s| < |pat| then s
    else if s[..|pat|] == pat then rep + ReplaceAll(s[|pat|..], pat, rep)
    else [s[0]] + ReplaceAll(s[1..], pat, rep)
  }

  /** Replacing in a string that does not contain `pat` changes nothing. */
  lemma {:induction false} ReplaceUnchanged(s: string, pat: string, rep: string)
    requires |pat| > 0 && !Occurs(s, pat)
    ensures ReplaceAll(s, pat, rep) == s
    decreases |s|
  {
    if |s| >= |pat| {
      ReplaceUnchanged(s[1..], pat, rep);
      assert [s[0]] + s[1..] == s;
    }
  }

  /** A string lacking some character of `pat` cannot contain `pat`. */
  lemma {:induction false} ForeignCharNoOccurrence(s: string, pat: string, c: char)
    requires c in pat && c !in s
    ensures !Occurs(s, pat)
    decreases |s|
  {
    if |s| > 0 {
      ForeignCharNoOccurrence(s[1..], pat, c);
    }
  }

  /** An occurrence at the front is replaced and the scan resumes after it. */
  lemma ReplaceFront(pat: string, rest: string, rep: string)
    requires |pat| > 0
    ensures ReplaceAll(pat + rest, pat, rep) == rep + ReplaceAll(rest, pat, rep)
  {
    var s := pat + rest;
    assert s[..|pat|] == pat;
    assert s[|pat|..] == rest;
  }

  /** A prefix without occurrences, and without an occurrence reaching across
      its end, is copied as it is. */
  lemma {:induction false} ReplaceConcat(a: string, b: string, pat: string, rep: string)
    requires |pat| > 0 && !Occurs(a, pat) && NoStraddle(a, pat)
    ensures ReplaceAll(a + b, pat, rep) == a + ReplaceAll(b, pat, rep)
    decreases |a|
  {
    if a == [] {
      assert a + b == b;
    } else {
      var s := a + b;
      if |s| < |pat| {
        assert ReplaceAll(b, pat, rep) == b;
      } else {
        NoMatchAtFront(a, b, pat);
        NoStraddleTail(a, pat);
        assert s[0] == a[0] && s[1..] == a[1..] + b;
        assert ReplaceAll(s, pat, rep) == [a[0]] + ReplaceAll(a[1..] + b, pat, rep);
        ReplaceConcat(a[1..], b, pat, rep);
        assert [a[0]] + (a[1..] + ReplaceAll(b, pat, rep)) == a + ReplaceAll(b, pat, rep);
      }
    }
  }

  /** A non-empty prefix without occurrences, and without an occurrence
      reaching across its end, does not start with `pat`. */
  lemma NoMatchAtFront(a: string, b: string, pat: string)
    requires |pat| > 0 && |a| > 0 && |a + b| >= |pat|
    requires !Occurs(a, pat) && NoStraddle(a, pat)
    ensures (a + b)[..|pat|] != pat
  {
    var s := a + b;
    if |a| >= |pat| {
      assert s[..|pat|] == a[..|pat|];
      assert !StartsWith(a, pat);
    } else {
      assert a[|a| - |a|..] == a;
      assert a != pat[..|a|];
      assert s[..|pat|][..|a|] == a;
    }
  }

  lemma NoStraddleTail(a: string, pat: string)
    requires |a| > 0 && NoStraddle(a, pat)
    ensures NoStraddle(a[1..], pat)
  {
    var a' := a[1..];
    forall k | 0 < k < |pat| && k <= |a'|
      ensures a'[|a'| - k..] != pat[..k]
    {
      assert a'[|a'| - k..] == a[|a| - k..];
    }
  }

  /** A leading marker, after whitespace and before text that cannot start
      another copy of it, is replaced once and the rest is left as it was. */
  lemma ReplaceLeadingMarker(w: string, pat: string, rest: string, rep: string)
    requires |pat| > 0 && !IsWhite(pat[0]) && AllWhite(w) && pat[0] !in rest
    ensures ReplaceAll(w + pat + rest, pat, rep) == w + rep + rest
  {
    ForeignCharNoOccurrence(w, pat, pat[0]);
    forall k | 0 < k < |pat| && k <= |w| ensures w[|w| - k..] != pat[..k] {
      assert w[|w| - k..][0] == w[|w| - k];
    }
    assert w + pat + rest == w + (pat + rest);
    ReplaceConcat(w, pat + rest, pat, rep);
    ReplaceFront(pat, rest, rep);
    ForeignCharNoOccurrence(rest, pat, pat[0]);
    ReplaceUnchanged(rest, pat, rep);
  }

  /** A leading marker, before text lacking one of its characters, is
      replaced once and the rest is left as it was. */
  lemma ReplaceMarkerOnce(pat: string, rest: string, rep: string, c: char)
    requires |pat| > 0 && c in pat && c !in rest
    ensures ReplaceAll(pat + rest, pat, rep) == rep + rest
  {
    ReplaceFront(pat, rest, rep);
    ForeignCharNoOccurrence(rest, pat, c);
    ReplaceUnchanged(rest, pat, rep);
  }

  /** A trailing marker, after text that lacks its first character, is
      replaced and the text before it is left as it was. */
  lemma ReplaceTrailingMarker(a: string, pat: string, rep: string)
    requires |pat| > 0 && pat[0] !in a
    ensures ReplaceAll(a + pat, pat, rep) == a + rep
  {
    ForeignCharNoOccurrence(a, pat, pat[0]);
    forall k | 0 < k < |pat| && k <= |a| ensures a[|a| - k..] != pat[..k] {
      assert a[|a| - k..][0] == a[|a| - k];
    }
    ReplaceConcat(a, pat, pat, rep);
    ReplaceFront(pat, [], rep);
    assert pat + [] == pat;
  }

  /** Replacing a single character distributes over concatenation. */
  lemma {:induction false} ReplaceCharConcat(a: string, b: string, c: char, rep: string)
    ensures ReplaceAll(a + b, [c], rep) == ReplaceAll(a, [c], rep) + ReplaceAll(b, [c], rep)
    decreases |a|
  {
    if a == [] {
      assert a + b == b;
    } else {
      assert (a + b)[..1] == a[..1];
      assert (a + b)[1..] == a[1..] + b;
      ReplaceCharConcat(a[1..], b, c, rep);
    }
  }

  /** Replacing one character by one character keeps the length. */
  lemma {:induction false} ReplaceCharLength(s: string, c: char, d: char)
    ensures |ReplaceAll(s, [c], [d])| == |s|
    decreases |s|
  {
    if s != [] {
      ReplaceCharLength(s[1..], c, d);
    }
  }

  /** Replacing one character by another works position by position. */
  lemma {:induction false} ReplaceCharAt(s: string, c: char, d: char)
    ensures |ReplaceAll(s, [c], [d])| == |s|
    ensures forall i :: 0 <= i < |s| ==> ReplaceAll(s, [c], [d])[i] == (if s[i] == c then d else s[i])
    decreases |s|
  {
    if s != [] {
      ReplaceCharAt(s[1..], c, d);
      assert s[..1] == [s[0]];
      forall i | 1 <= i < |s|
        ensures ReplaceAll(s, [c], [d])[i] == (if s[i] == c then d else s[i])
      {
        assert s[i] == s[1..][i - 1];
      }
    }
  }

  /** If `u` agrees with `s` wherever `u` holds a character of `p`, an
      occurrence of `p` in `u` is one in `s` too. */
  lemma {:induction false} OccursPointwise(s: string, u: string, p: string)
    requires |u| == |s|
    requires forall i :: 0 <= i < |u| && u[i] in p ==> u[i] == s[i]
    ensures Occurs(u, p) ==> Occurs(s, p)
    decreases |s|
  {
    if StartsWith(u, p) {
      forall j | 0 <= j < |p|
        ensures s[j] == p[j]
      {
        assert u[j] == u[..|p|][j];
      }
      assert s[..|p|] == p;
    }
    if |u| > 0 {
      forall i | 0 <= i < |u| - 1 && u[1..][i] in p
        ensures u[1..][i] == s[1..][i]
      {
        assert u[1..][i] == u[i + 1];
      }
      OccursPointwise(s[1..], u[1..], p);
    }
  }

  /** Every character of the result comes from the input or from `rep`. */
  lemma {:induction false} ReplaceChars(s: string, pat: string, rep: string)
    requires |pat| > 0
    ensures forall x :: x in ReplaceAll(s, pat, rep) ==> x in s || x in rep
    decreases |s|
  {
    if |s| >= |pat| {
      if s[..|pat|] == pat {
        ReplaceChars(s[|pat|..], pat, rep);
        assert forall x :: x in s[|pat|..] ==> x in s;
      } else {
        ReplaceChars(s[1..], pat, rep);
        assert forall x :: x in s[1..] ==> x in s;
      }
    }
  }

  /** A character that is not part of `pat` survives the replacement. */
  lemma {:induction false} ReplaceKeeps(s: string, pat: string, rep: string, x: char)
    requires |pat| > 0 && x in s && x !in pat
    ensures x in ReplaceAll(s, pat, rep)
    decreases |s|
  {
    if |s| >= |pat| {
      if s[..|pat|] == pat {
        var i :| 0 <= i < |s| && s[i] == x;
        assert i >= |pat|;
        assert s[|pat|..][i - |pat|] == x;
        ReplaceKeeps(s[|pat|..], pat, rep, x);
      } else if s[0] != x {
        var i :| 0 <= i < |s| && s[i] == x;
        assert s[1..][i - 1] == x;
        ReplaceKeeps(s[1..], pat, rep, x);
      }
    }
  }

  /** After replacing a character by text without it, the character is gone. */
  lemma {:induction false} ReplaceCharRemoves(s: string, c: char, rep: string)
    requires c !in rep
    ensures c !in ReplaceAll(s, [c], rep)
    decreases |s|
  {
    if |s| >= 1 {
      ReplaceCharRemoves(s[1..], c, rep);
      if s[..1] != [c] {
        assert s[0] != c;
      }
    }
  }

  /** Replacing `a` by `b` and then `b` by `a` restores a string without `b`. */
  lemma {:induction false} ReplaceCharRoundTrip(s: string, a: char, b: char)
    requires b !in s
    ensures ReplaceAll(ReplaceAll(s, [a], [b]), [b], [a]) == s
    decreases |s|
  {
    if s != [] {
      var head := if s[0] == a then [b] else [s[0]];
      assert ReplaceAll(s, [a], [b]) == head + ReplaceAll(s[1..], [a], [b]) by {
        assert s[..1] == [s[0]];
      }
      ReplaceCharConcat(head, ReplaceAll(s[1..], [a], [b]), b, [a]);
      assert head[..1] == head;
      assert ReplaceAll(head, [b], [a]) == [s[0]];
      ReplaceCharRoundTrip(s[1..], a, b);
      assert [s[0]] + s[1..] == s;
    }
  }

  // ---------------------------------------------------------------------
  // Filters, case and slicing
  // ---------------------------------------------------------------------

  /** `re.sub(r"\D", "", s)`: the digits of `s`, in order. */
  function KeepDigits(s: string): (r: string)
    ensures AllDigits(r) && |r| <= |s|
    decreases |s|
  {
    if s == [] then [] else (if IsDigit(s[0]) then [s[0]] else []) + KeepDigits(s[1..])
  }

  /** `re.sub(r"[0-9]+", "", s)`: deleting every run of digits deletes every digit. */
  function DeleteDigits(s: string): (r: string)
    ensures forall i :: 0 <= i < |r| ==> !IsDigit(r[i])
    ensures forall x :: x in r ==> x in s
    decreases |s|
  {
    if s == [] then [] else (if IsDigit(s[0]) then [] else [s[0]]) + DeleteDigits(s[1..])
  }

  lemma {:induction false} DeleteDigitsConcat(a: string, b: string)
    ensures DeleteDigits(a + b) == DeleteDigits(a) + DeleteDigits(b)
    decreases |a|
  {
    if a == [] {
      assert a + b == b;
    } else {
      var head := if IsDigit(a[0]) then [] else [a[0]];
      assert (a + b)[0] == a[0] && (a + b)[1..] == a[1..] + b;
      assert DeleteDigits(a + b) == head + DeleteDigits(a[1..] + b);
      assert DeleteDigits(a) == head + DeleteDigits(a[1..]);
      DeleteDigitsConcat(a[1..], b);
      assert head + (DeleteDigits(a[1..]) + DeleteDigits(b)) == (head + DeleteDigits(a[1..])) + DeleteDigits(b);
    }
  }

  /** Text without digits is left as it is. */
  lemma {:induction false} DeleteDigitsOfText(s: string)
    requires forall i :: 0 <= i < |s| ==> !IsDigit(s[i])
    ensures DeleteDigits(s) == s
    decreases |s|
  {
    if s != [] {
      DeleteDigitsOfText(s[1..]);
      assert [s[0]] + s[1..] == s;
    }
  }

  /** A run of digits is deleted entirely. */
  lemma {:induction false} DeleteDigitsOfDigits(s: string)
    requires AllDigits(s)
    ensures DeleteDigits(s) == ""
    decreases |s|
  {
    if s != [] {
      DeleteDigitsOfDigits(s[1..]);
    }
  }

  function LowerChar(c: char): char {
    if 'A' <= c <= 'Z' then (c as int + 32) as char else c
  }

  /** `str.lower()` on ASCII letters. */
  function Lower(s: string): string {
    seq(|s|, i requires 0 <= i < |s| => LowerChar(s[i]))
  }

  /** Python's slice `s[:n]`. */
  function Take(s: string, n: nat): string {
    if |s| <= n then s else s[..n]
  }

  function StripLeft(s: string): string
    decreases |s|
  {
    if |s| > 0 && IsWhite(s[0]) then StripLeft(s[1..]) else s
  }

  function StripRight(s: string): string
    decreases |s|
  {
    if |s| > 0 && IsWhite(s[|s| - 1]) then StripRight(s[..|s| - 1]) else s
  }

  /** `str.strip()`. */
  function Strip(s: string): string {
    StripRight(StripLeft(s))
  }

  lemma {:induction false} StripLeftWhite(w: string, u: string)
    requires AllWhite(w) && (u == [] || !IsWhite(u[0]))
    ensures StripLeft(w + u) == u
    decreases |w|
  {
    if w != [] {
      assert (w + u)[1..] == w[1..] + u;
      StripLeftWhite(w[1..], u);
    } else {
      assert w + u == u;
    }
  }

  lemma {:induction false} StripRightWhite(u: string, w: string)
    requires AllWhite(w) && (u == [] || !IsWhite(u[|u| - 1]))
    ensures StripRight(u + w) == u
    decreases |w|
  {
    if w != [] {
      assert (u + w)[..|u + w| - 1] == u + w[..|w| - 1];
      StripRightWhite(u, w[..|w| - 1]);
    } else {
      assert u + w == u;
    }
  }

  /** Stripping removes exactly the surrounding whitespace. */
  lemma StripPadded(w1: string, t: string, w2: string)
    requires AllWhite(w1) && AllWhite(w2)
    requires t == [] || (!IsWhite(t[0]) && !IsWhite(t[|t| - 1]))
    ensures Strip(w1 + t + w2) == t
  {
    if t == [] {
      assert w1 + t + w2 == w1 + w2;
      StripLeftWhite(w1 + w2, []);
      assert w1 + w2 + [] == w1 + w2;
    } else {
      assert w1 + t + w2 == w1 + (t + w2);
      StripLeftWhite(w1, t + w2);
      StripRightWhite(t, w2);
    }
  }

  /** Python's `s.rsplit("/", 1)[0]`: everything before the last "/", or the
      whole string when it has no "/". */
  function DropLastSegment(s: string): (r: string)
    ensures '/' !in s ==> r == s
    ensures '/' in s ==> |r| < |s| && s[..|r|] == r && s[|r|] == '/' && '/' !in s[|r| + 1..]
    decreases |s|
  {
    if '/' !in s then s
    else if s[|s| - 1] == '/' then s[..|s| - 1]
    else
      var init := s[..|s| - 1];
      assert '/' in init by {
        var i :| 0 <= i < |s| && s[i] == '/';
        assert init[i] == '/';
      }
      var r := DropLastSegment(init);
      assert s[|r| + 1..] == init[|r| + 1..] + [s[|s| - 1]];
      r
  }

  // ---------------------------------------------------------------------
  // Decimal numbers
  // ---------------------------------------------------------------------

  function DigitValue(c: char): nat
    requires IsDigit(c)
  {
    c as int - '0' as int
  }

  function DigitChar(d: nat): char
    requires d < 10
  {
    ('0' as int + d) as char
  }

  function DigitsValue(s: string): nat
    requires AllDigits(s)
    decreases |s|
  {
    if s == [] then 0 else DigitsValue(s[..|s| - 1]) * 10 + DigitValue(s[|s| - 1])
  }

  /** `str(n)` for a natural number. */
  function NatToString(n: nat): (r: string)
    ensures |r| > 0 && AllDigits(r)
    decreases n
  {
    if n < 10 then [DigitChar(n)] else NatToString(n / 10) + [DigitChar(n % 10)]
  }

  lemma {:induction false} NatToStringValue(n: nat)
    ensures DigitsValue(NatToString(n)) == n
    decreases n
  {
    if n >= 10 {
      var s := NatToString(n);
      NatToStringValue(n / 10);
      assert s[..|s| - 1] == NatToString(n / 10);
    }
  }

  /** Python's `int(s)` on text: surrounding whitespace is ignored, then an
      optional sign and at least one digit must make up the rest. */
  function ParseInt(s: string): Result<int> {
    var t := Strip(s);
    if |t| > 0 && (t[0] == '+' || t[0] == '-') then
      if |t| > 1 && AllDigits(t[1..]) then
        var v: int := DigitsValue(t[1..]);
        Ok(if t[0] == '-' then -v else v)
      else Err(ValueError(s))
    else if |t| > 0 && AllDigits(t) then Ok(DigitsValue(t))
    else Err(ValueError(s))
  }

  /** `int()` reads back what `str()` wrote, whatever whitespace surrounds it. */
  lemma ParseNatToString(w1: string, n: nat, w2: string)
    requires AllWhite(w1) && AllWhite(w2)
    ensures ParseInt(w1 + NatToString(n) + w2) == Ok(n)
  {
    var d := NatToString(n);
    assert IsDigit(d[0]) && IsDigit(d[|d| - 1]);
    StripPadded(w1, d, w2);
    NatToStringValue(n);
  }
}
