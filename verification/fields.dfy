/** Cleaning rules for the fields of a book detail page. */
module Fields {
  import opened Common
  import opened Text

  /** The truncation marker the site appends to long descriptions. */
  const MoreMarker := " ...more"

  /** What an all-whitespace description is replaced with. */
  const Sentinel := "n/a"

  /** `description.replace(' ...more', '')`. */
  function StripMore(d: string): string {
    ReplaceAll(d, MoreMarker, "")
  }

  /** `StripMore`, then `'n/a'` in place of a text for which `isspace()` holds. */
  function CleanDescription(d: string): (r: string)
    ensures !IsSpace(r)
    ensures r == Sentinel || r == StripMore(d)
    ensures IsSpace(StripMore(d)) ==> r == Sentinel
    ensures StripMore(d) == "" ==> r == ""
  {
    var s := StripMore(d);
    if IsSpace(s) then
      assert !IsWhite(Sentinel[0]);
      Sentinel
    else s
  }

  /** A description cut by the site reads back as the text before the marker. */
  lemma MarkerStripped(text: string)
    requires !Occurs(text, MoreMarker) && NoStraddle(text, MoreMarker)
    ensures StripMore(text + MoreMarker) == text
    ensures !IsSpace(text) ==> CleanDescription(text + MoreMarker) == text
  {
    ReplaceConcat(text, MoreMarker, MoreMarker, "");
    ReplaceFront(MoreMarker, "", "");
    assert MoreMarker + "" == MoreMarker;
    assert text + "" == text;
  }

  /** A text of blanks holds no truncation marker. */
  lemma BlankUnmarked(s: string)
    requires AllWhite(s)
    ensures !Occurs(s, MoreMarker)
  {
    assert MoreMarker[2] == '.';
    assert '.' !in s;
    ForeignCharNoOccurrence(s, MoreMarker, '.');
  }

  lemma {:induction false} KeepDigitsConcat(a: string, b: string)
    ensures KeepDigits(a + b) == KeepDigits(a) + KeepDigits(b)
    decreases |a|
  {
    if a == [] {
      assert a + b == b;
    } else {
      var head := if IsDigit(a[0]) then [a[0]] else [];
      assert (a + b)[0] == a[0] && (a + b)[1..] == a[1..] + b;
      assert KeepDigits(a + b) == head + KeepDigits(a[1..] + b);
      assert KeepDigits(a) == head + KeepDigits(a[1..]);
      KeepDigitsConcat(a[1..], b);
      assert head + (KeepDigits(a[1..]) + KeepDigits(b)) == (head + KeepDigits(a[1..])) + KeepDigits(b);
    }
  }

  lemma {:induction false} KeepDigitsOfDigits(s: string)
    requires AllDigits(s)
    ensures KeepDigits(s) == s
    decreases |s|
  {
    if s != [] {
      KeepDigitsOfDigits(s[1..]);
      assert [s[0]] + s[1..] == s;
    }
  }

  lemma {:induction false} KeepDigitsOfText(s: string)
    requires forall i :: 0 <= i < |s| ==> !IsDigit(s[i])
    ensures KeepDigits(s) == ""
    decreases |s|
  {
    if s != [] {
      KeepDigitsOfText(s[1..]);
    }
  }

  /** The digits-only availability of a cell like "In stock (22 available)"
      is the count, and `int()` reads it back. */
  lemma AvailabilityCount(before: string, n: nat, after: string)
    requires forall i :: 0 <= i < |before| ==> !IsDigit(before[i])
    requires forall i :: 0 <= i < |after| ==> !IsDigit(after[i])
    ensures KeepDigits(before + NatToString(n) + after) == NatToString(n)
    ensures ParseInt(KeepDigits(before + NatToString(n) + after)) == Ok(n)
  {
    var d := NatToString(n);
    KeepDigitsConcat(before + d, after);
    KeepDigitsConcat(before, d);
    KeepDigitsOfText(before);
    KeepDigitsOfText(after);
    KeepDigitsOfDigits(d);
    assert "" + d + "" == d;
    ParseNatToString("", n, "");
  }
}
