/** File names derived from category names and book titles. */
module Naming {
  import opened Text

  /** `name.lower().replace(' ', '_') + ".csv"`, the per-category CSV file name
      of scraper.py, category_info.py and Books_toScrape.py. */
  function CsvFilename(name: string): (f: string)
    ensures ' ' !in f && EndsWith(f, ".csv")
  {
    var stem := ReplaceAll(Lower(name), " ", "_");
    ReplaceCharRemoves(Lower(name), ' ', "_");
    assert (stem + ".csv")[|stem + ".csv"| - 4..] == ".csv";
    stem + ".csv"
  }

  /** Reads a category name back from a CSV file name. */
  function CsvCategory(f: string): string
    requires EndsWith(f, ".csv")
  {
    ReplaceAll(f[..|f| - 4], "_", " ")
  }

  /** For a name without "_", the file name gives back the lower-cased name. */
  lemma CsvFilenameRoundTrip(name: string)
    requires '_' !in name
    ensures CsvCategory(CsvFilename(name)) == Lower(name)
  {
    var l := Lower(name);
    assert '_' !in l by {
      forall i | 0 <= i < |l| ensures l[i] != '_' {
        assert name[i] != '_';
      }
    }
    var stem := ReplaceAll(l, " ", "_");
    var f := CsvFilename(name);
    assert f == stem + ".csv";
    assert f[..|f| - 4] == stem;
    ReplaceCharRoundTrip(l, ' ', '_');
  }

  /** Two names without "_" share a CSV file only if they differ in case alone. */
  lemma CsvFilenameInjective(a: string, b: string)
    requires '_' !in a && '_' !in b
    requires CsvFilename(a) == CsvFilename(b)
    ensures Lower(a) == Lower(b)
  {
    CsvFilenameRoundTrip(a);
    CsvFilenameRoundTrip(b);
  }

  /** The characters of `s` that are alphanumeric or a space, in order. */
  function KeepAlnumSpace(s: string): (r: string)
    ensures |r| <= |s|
    ensures forall i :: 0 <= i < |r| ==> IsAlnum(r[i]) || r[i] == ' '
    decreases |s|
  {
    if s == [] then []
    else (if IsAlnum(s[0]) || s[0] == ' ' then [s[0]] else []) + KeepAlnumSpace(s[1..])
  }

  /** `''.join([x for x in s if x.isalnum() or x in ' ']).replace(' ', '_')`,
      the title part of a cover image file name. */
  function CleanTitle(s: string): (r: string)
    ensures |r| <= |s|
    ensures forall i :: 0 <= i < |r| ==> IsAlnum(r[i]) || r[i] == '_'
  {
    var kept := KeepAlnumSpace(s);
    var r := ReplaceAll(kept, " ", "_");
    ReplaceCharLength(kept, ' ', '_');
    ReplaceChars(kept, " ", "_");
    ReplaceCharRemoves(kept, ' ', "_");
    assert forall i :: 0 <= i < |r| ==> r[i] in kept || r[i] == '_';
    r
  }

  lemma {:induction false} KeepAlnumSpaceConcat(a: string, b: string)
    ensures KeepAlnumSpace(a + b) == KeepAlnumSpace(a) + KeepAlnumSpace(b)
    decreases |a|
  {
    if a == [] {
      assert a + b == b;
    } else {
      assert (a + b)[1..] == a[1..] + b;
      KeepAlnumSpaceConcat(a[1..], b);
    }
  }

  /** Cleaning works character by character and keeps the order ... */
  lemma CleanTitleConcat(a: string, b: string)
    ensures CleanTitle(a + b) == CleanTitle(a) + CleanTitle(b)
  {
    KeepAlnumSpaceConcat(a, b);
    ReplaceCharConcat(KeepAlnumSpace(a), KeepAlnumSpace(b), ' ', "_");
  }

  /** ... keeping letters and digits, turning a space into "_", dropping the rest. */
  lemma CleanTitleChar(c: char)
    ensures CleanTitle([c]) == if IsAlnum(c) then [c] else if c == ' ' then "_" else ""
  {
    assert [c][1..] == [];
    var kept := KeepAlnumSpace([c]);
    if IsAlnum(c) || c == ' ' {
      assert kept == [c];
      assert kept[..1] == [c];
    } else {
      assert kept == [];
    }
  }

  /** A title made only of letters, digits and spaces keeps every character,
      its spaces written as "_". */
  lemma {:induction false} CleanTitlePlain(s: string)
    requires forall i :: 0 <= i < |s| ==> IsAlnum(s[i]) || s[i] == ' '
    ensures CleanTitle(s) == ReplaceAll(s, " ", "_")
  {
    KeepAlnumSpacePlain(s);
  }

  lemma {:induction false} KeepAlnumSpacePlain(s: string)
    requires forall i :: 0 <= i < |s| ==> IsAlnum(s[i]) || s[i] == ' '
    ensures KeepAlnumSpace(s) == s
    decreases |s|
  {
    if s != [] {
      KeepAlnumSpacePlain(s[1..]);
      assert [s[0]] + s[1..] == s;
    }
  }

  /** `os.path.join(a, b)` for two parts: an absolute `b` replaces `a`,
      otherwise a "/" is put between them unless `a` is empty or ends in one. */
  function PathJoin(a: string, b: string): (p: string)
    ensures |b| > 0 && b[0] == '/' ==> p == b
    ensures !(|b| > 0 && b[0] == '/') ==> StartsWith(p, a) && EndsWith(p, b)
  {
    if |b| > 0 && b[0] == '/' then b
    else
      var p := if a == [] || a[|a| - 1] == '/' then a + b else a + "/" + b;
      assert p[..|a|] == a && p[|p| - |b|..] == b;
      p
  }
}
