/**
 * The organisation form: the slug derived from the name as it is typed, and the schema
 * that accepts the name and the slug.
 */
module Slug {
  import opened Seqs
  import opened Validation

  // ---------------------------------------------------------------- character classes

  predicate IsLowerAscii(c: char) { 'a' <= c <= 'z' }
  predicate IsAsciiDigit(c: char) { '0' <= c <= '9' }
  predicate IsHyphen(c: char) { c == '-' }

  /** The characters of the slug regex `[a-z0-9-]`. */
  predicate SlugChar(c: char) {
    IsLowerAscii(c) || IsAsciiDigit(c) || c == '-'
  }

  /** The characters JavaScript's `\s` matches. */
  predicate IsJsSpace(c: char) {
    var k := c as int;
    (0x09 <= k <= 0x0D) || k == 0x20 || k == 0xA0 || k == 0x1680 || (0x2000 <= k <= 0x200A) ||
    k == 0x2028 || k == 0x2029 || k == 0x202F || k == 0x205F || k == 0x3000 || k == 0xFEFF
  }

  /** The combining diacritical marks, U+0300 to U+036F. */
  predicate IsCombiningMark(c: char) {
    0x300 <= c as int <= 0x36F
  }

  /** What survives `replace(/[^a-z0-9\s-]/g, '')`. */
  predicate Allowed(c: char) {
    IsLowerAscii(c) || IsAsciiDigit(c) || IsJsSpace(c) || c == '-'
  }

  predicate NotCombiningMark(c: char) { !IsCombiningMark(c) }

  // ---------------------------------------------------------------- the pipeline steps

  /** `toLowerCase` on one character: ASCII and Latin-1 capitals, the rest unchanged. */
  function LowerChar(c: char): (l: char)
    ensures 'A' <= c <= 'Z' ==> IsLowerAscii(l) && l as int == c as int + 32
    ensures SlugChar(c) ==> l == c
  {
    var k := c as int;
    if 'A' <= c <= 'Z' || (0xC0 <= k <= 0xDE && k != 0xD7) then (k + 32) as char else c
  }

  function Lower(s: string): (r: string)
    ensures |r| == |s| && forall i :: 0 <= i < |s| ==> r[i] == LowerChar(s[i])
  {
    seq(|s|, i requires 0 <= i < |s| => LowerChar(s[i]))
  }

  const AMarks: seq<int> := [0x300, 0x301, 0x302, 0x303, 0x308, 0x30A]
  const EMarks: seq<int> := [0x300, 0x301, 0x302, 0x308]
  const OMarks: seq<int> := [0x300, 0x301, 0x302, 0x303, 0x308]

  /** A base letter followed by one combining mark. */
  function Pair(base: char, mark: int): (d: string)
    requires 0x300 <= mark <= 0x36F
    ensures |d| == 2 && d[0] == base && IsCombiningMark(d[1])
  {
    [base, mark as char]
  }

  /**
   * The canonical decomposition of one character for the precomposed Latin-1 letters
   * (a base letter and a combining mark); every other character stays as it is.
   */
  function Decompose(c: char): (d: string)
    ensures d == [c] || (|d| == 2 && IsCombiningMark(d[1]) && !IsCombiningMark(d[0]))
    ensures c as int < 0xC0 ==> d == [c]
  {
    var k := c as int;
    var small := if 0xE0 <= k <= 0xFF then 0x20 else 0;
    var u := k - small;
    if k == 0xFF then Pair('y', 0x308)
    else if 0xC0 <= u <= 0xC5 then Pair(('A' as int + small) as char, AMarks[u - 0xC0])
    else if u == 0xC7 then Pair(('C' as int + small) as char, 0x327)
    else if 0xC8 <= u <= 0xCB then Pair(('E' as int + small) as char, EMarks[u - 0xC8])
    else if 0xCC <= u <= 0xCF then Pair(('I' as int + small) as char, EMarks[u - 0xCC])
    else if u == 0xD1 then Pair(('N' as int + small) as char, 0x303)
    else if 0xD2 <= u <= 0xD6 then Pair(('O' as int + small) as char, OMarks[u - 0xD2])
    else if 0xD9 <= u <= 0xDC then Pair(('U' as int + small) as char, EMarks[u - 0xD9])
    else if u == 0xDD then Pair(('Y' as int + small) as char, 0x301)
    else [c]
  }

  /** `normalize('NFD')`, character by character. */
  function Nfd(s: string): string {
    if s == [] then [] else Decompose(s[0]) + Nfd(s[1..])
  }

  /** The input of a step that keeps whatever is left of the first matching run. */
  function DropRun(s: string, p: char -> bool): (t: string)
    ensures |t| <= |s|
    ensures t == [] || !p(t[0])
    ensures s != [] && p(s[0]) ==> |t| < |s|
  {
    if s != [] && p(s[0]) then DropRun(s[1..], p) else s
  }

  /** What is left after a run is the tail of the input, and everything before it matched. */
  lemma {:induction false} DropRunIsSuffix(s: string, p: char -> bool)
    ensures DropRun(s, p) == s[|s| - |DropRun(s, p)|..]
    ensures forall i :: 0 <= i < |s| - |DropRun(s, p)| ==> p(s[i])
  {
    if s != [] && p(s[0]) {
      DropRunIsSuffix(s[1..], p);
    }
  }

  /** A string that ends outside the run keeps its last character after the run is dropped. */
  lemma DropRunKeepsLast(s: string, p: char -> bool)
    requires s != [] && !p(s[|s| - 1])
    ensures var t := DropRun(s, p); t != [] && t[|t| - 1] == s[|s| - 1]
  {
    DropRunIsSuffix(s, p);
  }

  /** `replace(/x+/g, '-')` for the characters `p` matches: each maximal run becomes one hyphen. */
  function CollapseRuns(s: string, p: char -> bool): (r: string)
    ensures s != [] ==> r != [] && r[0] == (if p(s[0]) then '-' else s[0])
    ensures |r| <= |s|
    decreases |s|
  {
    if s == [] then []
    else if p(s[0]) then "-" + CollapseRuns(DropRun(s, p), p)
    else [s[0]] + CollapseRuns(s[1..], p)
  }

  /**
   * `replace(/^-|-$/g, '')`: one hyphen off the front, then one off the back. At most one
   * character goes at each end, only a hyphen goes, and a hyphen there always goes.
   */
  function TrimHyphens(s: string): (r: string)
    ensures exists i, j :: 0 <= i <= j <= |s| && r == s[i..j] &&
              i <= 1 && (i == 1 <==> s != [] && s[0] == '-') &&
              j >= |s| - 1 && (j == |s| - 1 <==> |s| > i && s[|s| - 1] == '-')
  {
    var front := if s != [] && s[0] == '-' then 1 else 0;
    var t := s[front..];
    var back := if t != [] && t[|t| - 1] == '-' then 1 else 0;
    assert t[..|t| - back] == s[front..|s| - back];
    t[..|t| - back]
  }

  /** Trimming peels at most one hyphen off each end and keeps every other character. */
  lemma TrimHyphensPeels(s: string)
    ensures exists a, b :: (a == "" || a == "-") && (b == "" || b == "-") && s == a + TrimHyphens(s) + b
    ensures s != [] && s[0] != '-' ==> TrimHyphens(s) != [] && TrimHyphens(s)[0] == s[0]
    ensures s != [] && s[|s| - 1] != '-' ==>
              TrimHyphens(s) != [] && TrimHyphens(s)[|TrimHyphens(s)| - 1] == s[|s| - 1]
  {
    var front := if s != [] && s[0] == '-' then 1 else 0;
    var back := if |s| > front && s[|s| - 1] == '-' then 1 else 0;
    var r := s[front..|s| - back];
    assert TrimHyphens(s) == r;
    var a, b := s[..front], s[|s| - back..];
    assert a == "" || a == "-";
    assert b == "" || b == "-";
    assert s == a + r + b;
  }

  /** The first four steps: lower case, decompose, drop the marks, drop the special characters. */
  function Cleaned(name: string): string {
    Filter(Filter(Nfd(Lower(name)), NotCombiningMark), Allowed)
  }

  /** The slug `handleNameChange` writes into the form for a typed name. */
  function Slugify(name: string): string {
    TrimHyphens(CollapseRuns(CollapseRuns(Cleaned(name), IsJsSpace), IsHyphen))
  }

  // ---------------------------------------------------------------- the shape of a slug

  predicate NoDoubleHyphen(s: string) {
    forall i :: 0 <= i < |s| - 1 ==> !(s[i] == '-' && s[i + 1] == '-')
  }

  /** Lower-case letters, digits and single inner hyphens. */
  predicate IsSlug(s: string) {
    && (forall c :: c in s ==> SlugChar(c))
    && NoDoubleHyphen(s)
    && (s != [] ==> s[0] != '-' && s[|s| - 1] != '-')
  }

  /** A collapsed string holds hyphens and what was there and not matched. */
  lemma {:induction false} CollapseRunsChars(s: string, p: char -> bool)
    ensures forall c :: c in CollapseRuns(s, p) ==> c == '-' || (c in s && !p(c))
    decreases |s|
  {
    if s != [] {
      if p(s[0]) {
        var t := DropRun(s, p);
        CollapseRunsChars(t, p);
        DropRunIsSuffix(s, p);
        assert forall c :: c in t ==> c in s;
      } else {
        CollapseRunsChars(s[1..], p);
        assert forall c :: c in s[1..] ==> c in s;
      }
    }
  }

  /** When hyphens are among the collapsed characters, no two hyphens are left side by side. */
  lemma {:induction false} CollapseRunsNoDoubleHyphen(s: string, p: char -> bool)
    requires p('-')
    ensures NoDoubleHyphen(CollapseRuns(s, p))
    decreases |s|
  {
    if s != [] {
      if p(s[0]) {
        var t := DropRun(s, p);
        CollapseRunsNoDoubleHyphen(t, p);
      } else {
        CollapseRunsNoDoubleHyphen(s[1..], p);
      }
    }
  }

  /** Skipping a leading run only looks past `s` when all of `s` is in the run. */
  lemma {:induction false} DropRunConcat(s: string, t: string, p: char -> bool)
    requires exists c :: c in s && !p(c)
    ensures DropRun(s + t, p) == DropRun(s, p) + t
  {
    if p(s[0]) {
      assert (s + t)[1..] == s[1..] + t;
      var c :| c in s && !p(c);
      assert c in s[1..];
      DropRunConcat(s[1..], t, p);
    }
  }

  /** Skipping a run that is followed by something outside it lands right after the run. */
  lemma {:induction false} DropWholeRun(run: string, b: string, p: char -> bool)
    requires forall c :: c in run ==> p(c)
    requires b == [] || !p(b[0])
    ensures DropRun(run + b, p) == b
  {
    if run != [] {
      assert (run + b)[1..] == run[1..] + b;
      assert forall c :: c in run[1..] ==> c in run;
      DropWholeRun(run[1..], b, p);
    } else {
      assert run + b == b;
    }
  }

  /**
   * Each maximal run of matched characters becomes exactly one hyphen, and the text on
   * either side of it is collapsed on its own.
   */
  lemma {:induction false} RunBecomesHyphen(a: string, run: string, b: string, p: char -> bool)
    requires run != [] && forall c :: c in run ==> p(c)
    requires a == [] || !p(a[|a| - 1])
    requires b == [] || !p(b[0])
    ensures CollapseRuns(a + run + b, p) == CollapseRuns(a, p) + "-" + CollapseRuns(b, p)
    decreases |a|
  {
    Associative(a, run, b);
    var t := run + b;
    if a == [] {
      RunAtStart(run, b, p);
      assert a + t == t;
    } else if p(a[0]) {
      var rest := DropRun(a, p);
      DropRunKeepsLast(a, p);
      RunBecomesHyphen(rest, run, b, p);
      Associative(rest, run, b);
      RunAfterLeadingRun(a, t, CollapseRuns(rest, p), CollapseRuns(b, p), p);
    } else {
      RunBecomesHyphen(a[1..], run, b, p);
      Associative(a[1..], run, b);
      RunAfterOther(a, t, CollapseRuns(a[1..], p), CollapseRuns(b, p), p);
    }
  }

  lemma Associative(x: string, y: string, z: string)
    ensures x + y + z == x + (y + z)
  {
  }

  /** `RunBecomesHyphen` with nothing before the run. */
  lemma RunAtStart(run: string, b: string, p: char -> bool)
    requires run != [] && forall c :: c in run ==> p(c)
    requires b == [] || !p(b[0])
    ensures CollapseRuns(run + b, p) == "-" + CollapseRuns(b, p)
  {
    assert (run + b)[0] == run[0];
    DropWholeRun(run, b, p);
  }

  /** The step of `RunBecomesHyphen` for a prefix that starts with a run of its own. */
  lemma RunAfterLeadingRun(a: string, t: string, x: string, y: string, p: char -> bool)
    requires a != [] && p(a[0]) && !p(a[|a| - 1])
    requires CollapseRuns(DropRun(a, p) + t, p) == x + "-" + y
    requires x == CollapseRuns(DropRun(a, p), p)
    ensures CollapseRuns(a + t, p) == CollapseRuns(a, p) + "-" + y
  {
    assert (a + t)[0] == a[0];
    assert a[|a| - 1] in a;
    calc {
      CollapseRuns(a + t, p);
    ==
      "-" + CollapseRuns(DropRun(a + t, p), p);
    ==  { DropRunConcat(a, t, p); }
      "-" + CollapseRuns(DropRun(a, p) + t, p);
    ==
      "-" + (x + "-" + y);
    ==  { Associative("-", x + "-", y); Associative("-", x, "-"); }
      "-" + x + "-" + y;
    ==
      CollapseRuns(a, p) + "-" + y;
    }
  }

  /** The step of `RunBecomesHyphen` for a prefix that starts with an unmatched character. */
  lemma RunAfterOther(a: string, t: string, x: string, y: string, p: char -> bool)
    requires a != [] && !p(a[0])
    requires CollapseRuns(a[1..] + t, p) == x + "-" + y
    requires x == CollapseRuns(a[1..], p)
    ensures CollapseRuns(a + t, p) == CollapseRuns(a, p) + "-" + y
  {
    var c := a[0];
    assert (a + t)[0] == c && (a + t)[1..] == a[1..] + t;
    calc {
      CollapseRuns(a + t, p);
    ==
      [c] + CollapseRuns(a[1..] + t, p);
    ==
      [c] + (x + "-" + y);
    ==  { Associative([c], x + "-", y); Associative([c], x, "-"); }
      [c] + x + "-" + y;
    ==
      CollapseRuns(a, p) + "-" + y;
    }
  }

  /** Trimming a string without double hyphens leaves no hyphen at either end. */
  lemma TrimHyphensShape(s: string)
    requires NoDoubleHyphen(s)
    ensures var r := TrimHyphens(s);
            NoDoubleHyphen(r) && (r != [] ==> r[0] != '-' && r[|r| - 1] != '-')
  {
    var r := TrimHyphens(s);
    var i, j :| 0 <= i <= j <= |s| && r == s[i..j];
    forall k | 0 <= k < |r| - 1
      ensures !(r[k] == '-' && r[k + 1] == '-')
    {
      assert r[k] == s[i + k] && r[k + 1] == s[i + k + 1];
    }
  }

  /** Every generated slug is made of `[a-z0-9-]`, with no double hyphen and no hyphen at either end. */
  lemma SlugifyShape(name: string)
    ensures IsSlug(Slugify(name))
  {
    var s1 := Cleaned(name);
    var s2 := CollapseRuns(s1, IsJsSpace);
    var s3 := CollapseRuns(s2, IsHyphen);
    CollapseRunsChars(s1, IsJsSpace);
    assert forall c :: c in s2 ==> SlugChar(c);
    CollapseRunsChars(s2, IsHyphen);
    assert forall c :: c in s3 ==> SlugChar(c);
    CollapseRunsNoDoubleHyphen(s2, IsHyphen);
    TrimHyphensShape(s3);
    var r := TrimHyphens(s3);
    var i, j :| 0 <= i <= j <= |s3| && r == s3[i..j];
    assert forall c :: c in r ==> c in s3;
  }

  // ---------------------------------------------------------------- idempotence

  lemma {:induction false} NfdOfAscii(s: string)
    requires forall c :: c in s ==> c as int < 0xC0
    ensures Nfd(s) == s
  {
    if s != [] {
      assert forall c :: c in s[1..] ==> c in s;
      NfdOfAscii(s[1..]);
      assert s[0] in s;
      assert s == [s[0]] + s[1..];
    }
  }

  lemma {:induction false} CollapseRunsUntouched(s: string, p: char -> bool)
    requires forall c :: c in s ==> !p(c)
    ensures CollapseRuns(s, p) == s
  {
    if s != [] {
      assert forall c :: c in s[1..] ==> c in s;
      CollapseRunsUntouched(s[1..], p);
      assert s == [s[0]] + s[1..];
    }
  }

  lemma {:induction false} CollapseHyphensUntouched(s: string)
    requires NoDoubleHyphen(s)
    ensures CollapseRuns(s, IsHyphen) == s
  {
    if s != [] {
      assert NoDoubleHyphen(s[1..]) by {
        assert forall i :: 0 <= i < |s[1..]| ==> s[1..][i] == s[i + 1];
      }
      CollapseHyphensUntouched(s[1..]);
      if s[0] == '-' {
        assert DropRun(s, IsHyphen) == s[1..] by {
          assert s[1..] == [] || s[1] != '-';
          assert DropRun(s, IsHyphen) == DropRun(s[1..], IsHyphen);
        }
      }
      assert s == [s[0]] + s[1..];
    }
  }

  lemma LowerOfSlug(s: string)
    requires forall c :: c in s ==> SlugChar(c)
    ensures Lower(s) == s
  {
    forall i | 0 <= i < |s|
      ensures Lower(s)[i] == s[i]
    {
      assert s[i] in s;
    }
  }

  lemma TrimOfSlug(s: string)
    requires IsSlug(s)
    ensures TrimHyphens(s) == s
  {
  }

  /** A slug is left unchanged by the generator. */
  lemma SlugifyFixesSlugs(s: string)
    requires IsSlug(s)
    ensures Slugify(s) == s
  {
    forall c | c in s
      ensures c as int < 0xC0 && NotCombiningMark(c) && Allowed(c) && !IsJsSpace(c)
    {
      assert SlugChar(c);
    }
    calc {
      Cleaned(s);
    ==
      Filter(Filter(Nfd(Lower(s)), NotCombiningMark), Allowed);
    ==  { LowerOfSlug(s); NfdOfAscii(s); }
      Filter(Filter(s, NotCombiningMark), Allowed);
    ==  { FilterAll(s, NotCombiningMark); FilterAll(s, Allowed); }
      s;
    }
    calc {
      Slugify(s);
    ==
      TrimHyphens(CollapseRuns(CollapseRuns(s, IsJsSpace), IsHyphen));
    ==  { CollapseRunsUntouched(s, IsJsSpace); }
      TrimHyphens(CollapseRuns(s, IsHyphen));
    ==  { CollapseHyphensUntouched(s); }
      TrimHyphens(s);
    ==  { TrimOfSlug(s); }
      s;
    }
  }

  /** Generating a slug from a generated slug gives it back: the generator is idempotent. */
  lemma SlugifyIdempotent(name: string)
    ensures Slugify(Slugify(name)) == Slugify(name)
  {
    SlugifyShape(name);
    SlugifyFixesSlugs(Slugify(name));
  }

  // ---------------------------------------------------------------- accents

  /** The letter a character is built on: itself unless it is a precomposed Latin-1 letter. */
  function BaseLetter(c: char): char {
    Decompose(c)[0]
  }

  function BaseLetters(s: string): (r: string)
    ensures |r| == |s|
  {
    if s == [] then [] else [BaseLetter(s[0])] + BaseLetters(s[1..])
  }

  /**
   * Decomposing and then dropping the combining marks replaces each precomposed letter by
   * its base letter: the accents are gone and nothing else is.
   */
  lemma {:induction false} AccentsDropped(s: string)
    ensures Filter(Nfd(s), NotCombiningMark) == Filter(BaseLetters(s), NotCombiningMark)
  {
    if s != [] {
      AccentsDropped(s[1..]);
      FilterConcat(Decompose(s[0]), Nfd(s[1..]), NotCombiningMark);
      FilterConcat([BaseLetter(s[0])], BaseLetters(s[1..]), NotCombiningMark);
      DecomposeThenStrip(s[0]);
    }
  }

  lemma DecomposeThenStrip(c: char)
    ensures Filter(Decompose(c), NotCombiningMark) == Filter([BaseLetter(c)], NotCombiningMark)
  {
    var d := Decompose(c);
    if |d| == 2 {
      assert d[..1] == [d[0]];
    }
  }

  /** The accented capitals and small letters of Portuguese reduce to their ASCII base letter. */
  lemma PortugueseBaseLetters()
    ensures BaseLetter('á') == 'a' && BaseLetter('à') == 'a' && BaseLetter('â') == 'a' && BaseLetter('ã') == 'a'
    ensures BaseLetter('é') == 'e' && BaseLetter('ê') == 'e' && BaseLetter('í') == 'i'
    ensures BaseLetter('ó') == 'o' && BaseLetter('ô') == 'o' && BaseLetter('õ') == 'o'
    ensures BaseLetter('ú') == 'u' && BaseLetter('ü') == 'u' && BaseLetter('ç') == 'c'
    ensures LowerChar('Á') == 'á' && LowerChar('Ç') == 'ç' && LowerChar('Õ') == 'õ'
  {
  }

  // ---------------------------------------------------------------- examples

  lemma ExampleLower() ensures Lower("Zé!") == "zé!" {}

  lemma ExampleNfd()
    ensures Nfd("zé!") == "ze\U{301}!"
  {
    assert "zé!"[1..] == "é!";
    assert "é!"[1..] == "!";
    assert Nfd("!") == "!";
    assert Decompose('é') == "e\U{301}";
  }

  lemma ExampleStripMarks()
    ensures Filter("ze\U{301}!", NotCombiningMark) == "ze!"
  {
    FilterSkip("ze", '\U{301}', "!", NotCombiningMark);
    assert "ze" + ['\U{301}'] + "!" == "ze\U{301}!";
    FilterAll("ze!", NotCombiningMark);
  }

  lemma ExampleKeepAllowed()
    ensures Filter("ze!", Allowed) == "ze"
  {
    assert "ze!"[..2] == "ze";
    FilterAll("ze", Allowed);
  }

  /** "Zé!" gives "ze": upper case lowered, accent dropped, punctuation removed. */
  lemma ExampleAccentedName()
    ensures Slugify("Zé!") == "ze"
  {
    assert Cleaned("Zé!") == "ze" by {
      ExampleLower();
      ExampleNfd();
      ExampleStripMarks();
      ExampleKeepAllowed();
    }
    assert CollapseRuns(CollapseRuns("ze", IsJsSpace), IsHyphen) == "ze" by {
      CollapseRunsUntouched("ze", IsJsSpace);
      CollapseRunsUntouched("ze", IsHyphen);
    }
    assert TrimHyphens("ze") == "ze";
  }

  // ---------------------------------------------------------------- the form schema

  /** The slug regex `^[a-z0-9-]+$`: non-empty, and only slug characters. */
  predicate MatchesSlugRegex(slug: string) {
    |slug| >= 1 && forall c :: c in slug ==> SlugChar(c)
  }

  /** `createOrganizationSchema`: every check runs, and each failure reports its own issue. */
  function CreateOrganizationIssues(name: string, slug: string): (issues: seq<Issue>)
    ensures issues == [] <==> |name| >= 3 && |slug| >= 3 && forall c :: c in slug ==> SlugChar(c)
    ensures Paths(issues) <= {"name", "slug"}
    ensures "name" in Paths(issues) <==> |name| < 3
  {
    var nameIssues := Check(|name| < 3, "name", "O nome deve ter pelo menos 3 caracteres");
    var slugMin := Check(|slug| < 3, "slug", "O slug deve ter pelo menos 3 caracteres");
    var slugRegex := Check(!MatchesSlugRegex(slug), "slug",
      "O slug deve conter apenas letras minúsculas, números e hífens");
    var issues := nameIssues + slugMin + slugRegex;
    assert forall i :: i in issues ==> i in nameIssues || i in slugMin || i in slugRegex;
    assert |name| < 3 ==> nameIssues[0] in issues;
    issues
  }

  /** A generated slug that is not empty always matches the regex; only the length can fail. */
  lemma GeneratedSlugMatchesRegex(name: string)
    requires Slugify(name) != []
    ensures MatchesSlugRegex(Slugify(name))
    ensures CreateOrganizationIssues(name, Slugify(name)) == [] <==> |name| >= 3 && |Slugify(name)| >= 3
  {
    SlugifyShape(name);
  }

  /** A valid name can still give a slug that is too short: "Zé!" has three characters, "ze" two. */
  lemma ExampleShortSlug()
    ensures CreateOrganizationIssues("Zé!", Slugify("Zé!"))
            == [Issue("slug", "O slug deve ter pelo menos 3 caracteres")]
  {
    ExampleAccentedName();
    ShortSlugIssues();
  }

  /** A three-character name with the two-character slug "ze" fails only the slug length. */
  lemma ShortSlugIssues()
    ensures CreateOrganizationIssues("Zé!", "ze")
            == [Issue("slug", "O slug deve ter pelo menos 3 caracteres")]
  {
    assert |"Zé!"| == 3 && |"ze"| == 2;
    assert MatchesSlugRegex("ze") by {
      assert forall c :: c in "ze" ==> c == 'z' || c == 'e';
    }
  }
}
