/**
 * `PDFLoader`: metadata from a manual's file name, the table of contents, the
 * page texts, the split of the page texts into TOC sections and the attachment
 * of detected drawings to sections. The PDF readers are foreign: the TOC
 * arrives as the list `get_toc()` returned (or the error it raised) and the
 * pages as the text each `extract_text()` returned (or `None` when it raised).
 */
module PdfLoader {
  import opened Wrappers
  import opened Text
  import Sorting
  import ImagesExtract

  /** The family names, in the order `extract_metadata` tries them. */
  const Families: seq<string> := [
    "DesertX", "Diavel", "Hypermotard", "Monster", "Multistrada",
    "Off-Road", "Panigale", "Scrambler", "Streetfighter",
    "Supersport", "Superbike", "XDiavel"]

  /** The tokens deleted from a file name, in the order they are deleted. */
  const CleanupPatterns: seq<string> := [
    "OM", "_", ".pdf", "-", "EN", "ED00", "ED01", "ED02", "ED03", "Rev01", "Rev02"]

  /** The `PDFMetadata` record; `family` and `year` are `None` when not found. */
  datatype Metadata = Metadata(family: Option<string>, year: Option<string>, modelName: string, originalName: string)

  // ---------------------------------------------------------------- file-name metadata

  /** Tokens that can be deleted: none is empty. */
  predicate Tokens(pats: seq<string>) {
    forall i :: 0 <= i < |pats| ==> |pats[i]| > 0
  }

  /** `for pattern in patterns: s = s.replace(pattern, '')`. */
  function RemoveEach(s: string, pats: seq<string>): (r: string)
    requires Tokens(pats)
    ensures |r| <= |s|
    decreases |pats|
  {
    if pats == [] then s else RemoveEach(Remove(s, pats[0]), pats[1..])
  }

  /**
   * The fold only deletes: every character left was in the name, and no
   * single-character token survives it.
   */
  lemma {:induction false} RemoveEachDeletes(s: string, pats: seq<string>)
    requires Tokens(pats)
    ensures forall c :: c in RemoveEach(s, pats) ==> c in s
    ensures forall i :: 0 <= i < |pats| && |pats[i]| == 1 ==> pats[i][0] !in RemoveEach(s, pats)
    decreases |pats|
  {
    if pats != [] {
      RemoveEachDeletes(Remove(s, pats[0]), pats[1..]);
      assert forall i :: 1 <= i < |pats| ==> pats[i] == pats[1..][i - 1];
    }
  }

  /** Deleting one list of tokens and then another is deleting their concatenation. */
  lemma {:induction false} RemoveEachAppend(s: string, a: seq<string>, b: seq<string>)
    requires Tokens(a) && Tokens(b)
    ensures Tokens(a + b)
    ensures RemoveEach(s, a + b) == RemoveEach(RemoveEach(s, a), b)
    decreases |a|
  {
    if a == [] {
      assert a + b == b;
    } else {
      assert (a + b)[0] == a[0];
      assert (a + b)[1..] == a[1..] + b;
      RemoveEachAppend(Remove(s, a[0]), a[1..], b);
    }
  }

  /** The cleanup keeps only characters of the name, and none of them is `_` or `-`. */
  lemma CleanupDeletes(pdfName: string)
    ensures Tokens(CleanupPatterns)
    ensures forall c :: c in RemoveEach(pdfName, CleanupPatterns) ==> c in pdfName
    ensures '_' !in RemoveEach(pdfName, CleanupPatterns) && '-' !in RemoveEach(pdfName, CleanupPatterns)
  {
    CleanupTokens();
    RemoveEachDeletes(pdfName, CleanupPatterns);
    assert |CleanupPatterns[1]| == 1 && CleanupPatterns[1][0] == '_';
    assert |CleanupPatterns[3]| == 1 && CleanupPatterns[3][0] == '-';
  }

  /** The cleaned file name: every cleanup token deleted in list order, then trimmed. */
  function CleanName(pdfName: string): (r: string)
    ensures |r| <= |pdfName|
    ensures '_' !in r && '-' !in r
    ensures forall c :: c in r ==> c in pdfName
    ensures r == [] || (!IsSpace(r[0]) && !IsSpace(r[|r| - 1]))
  {
    CleanupDeletes(pdfName);
    Strip(RemoveEach(pdfName, CleanupPatterns))
  }

  /** Index of the first name in `fams` that occurs in `name`; `|fams|` when none does. */
  function FirstFamilyIndex(name: string, fams: seq<string>): (i: nat)
    ensures i <= |fams|
    ensures i < |fams| ==> Contains(name, fams[i])
    ensures forall j :: 0 <= j < i ==> !Contains(name, fams[j])
  {
    if fams == [] then 0
    else if Contains(name, fams[0]) then 0
    else 1 + FirstFamilyIndex(name, fams[1..])
  }

  /** The family scan with `break`: the first listed family that is a substring of `name`. */
  function FindFamily(name: string): (r: Option<string>)
    ensures r.None? <==> forall j :: 0 <= j < |Families| ==> !Contains(name, Families[j])
    ensures r.Some? ==> exists i :: (0 <= i < |Families| && r.value == Families[i]
      && Contains(name, Families[i]) && forall j :: 0 <= j < i ==> !Contains(name, Families[j]))
  {
    var i := FirstFamilyIndex(name, Families);
    if i < |Families| then Some(Families[i]) else None
  }

  /** `XDiavel` is never reported: any name containing it contains `Diavel`, which is listed earlier. */
  lemma NeverXDiavel(name: string)
    ensures FindFamily(name) != Some("XDiavel")
  {
    assert Families[1] == "Diavel" && Families[11] == "X" + "Diavel";
    if Contains(name, "X" + "Diavel") {
      ContainsSuffix(name, "X", "Diavel");
    }
  }

  /** A reported family occurs in the name. */
  lemma FamilyContained(name: string)
    ensures FindFamily(name).Some? ==> Contains(name, FindFamily(name).value)
  {
  }

  /** `Off-Road` is never reported for a file name: the cleanup has already deleted every `-`. */
  lemma NeverOffRoad(pdfName: string)
    ensures FindFamily(CleanName(pdfName)) != Some("Off-Road")
  {
    var name := CleanName(pdfName);
    FamilyContained(name);
    MissingCharNotContained(name, "Off-Road", 3);
  }

  predicate IsDigit(c: char) {
    '0' <= c <= '9'
  }

  function DigitValue(c: char): int {
    c as int - '0' as int
  }

  /** `MY` followed by two digits starts at position `k` of `s`. */
  predicate YearTokenAt(s: string, k: nat) {
    k + 4 <= |s| && s[k] == 'M' && s[k + 1] == 'Y' && IsDigit(s[k + 2]) && IsDigit(s[k + 3])
  }

  /** `re.search(r'MY([0-9][0-9])', s)` from position `from`: the start of the leftmost match. */
  function FirstYearToken(s: string, from: nat): (r: Option<nat>)
    requires from <= |s|
    ensures r.Some? ==> from <= r.value && YearTokenAt(s, r.value)
    ensures r.Some? ==> forall k :: from <= k < r.value ==> !YearTokenAt(s, k)
    ensures r.None? ==> forall k :: from <= k <= |s| ==> !YearTokenAt(s, k)
    decreases |s| - from
  {
    if from + 4 > |s| then None
    else if YearTokenAt(s, from) then Some(from)
    else FirstYearToken(s, from + 1)
  }

  /** Two digits `d1 d2` read as a year: above 50 means 19xx, otherwise 20xx. */
  function YearOf(d1: char, d2: char): (y: string)
    requires IsDigit(d1) && IsDigit(d2)
    ensures |y| == 4 && y[2] == d1 && y[3] == d2 && forall c :: c in y ==> IsDigit(c)
    ensures var v := 1000 * DigitValue(y[0]) + 100 * DigitValue(y[1]) + 10 * DigitValue(y[2]) + DigitValue(y[3]);
      1951 <= v <= 2050
  {
    if 10 * DigitValue(d1) + DigitValue(d2) > 50 then ['1', '9', d1, d2] else ['2', '0', d1, d2]
  }

  /** What `extract_metadata` derives from the cleaned name: family, then year and the name without the year token. */
  function MetadataOf(cleaned: string, pdfName: string): (m: Metadata)
    ensures m.originalName == pdfName
    ensures m.family == FindFamily(cleaned)
    ensures m.family.None? ==> m == Metadata(None, None, cleaned, pdfName)
    ensures m.year.Some? <==> m.family.Some? && FirstYearToken(cleaned, 0).Some?
    ensures m.family.Some? && m.year.None? ==> m.modelName == cleaned
    ensures m.year.Some? ==>
      var k := FirstYearToken(cleaned, 0).value;
      m.year.value == YearOf(cleaned[k + 2], cleaned[k + 3]) && m.modelName == Strip(Remove(cleaned, cleaned[k..k + 4]))
  {
    var family := FindFamily(cleaned);
    if family.None? then Metadata(None, None, cleaned, pdfName)
    else
      match FirstYearToken(cleaned, 0)
      case None => Metadata(family, None, cleaned, pdfName)
      case Some(k) =>
        Metadata(family, Some(YearOf(cleaned[k + 2], cleaned[k + 3])), Strip(Remove(cleaned, cleaned[k..k + 4])), pdfName)
  }

  /** `extract_metadata`: the metadata of the cleaned file name. */
  function ExtractMetadata(pdfName: string): (m: Metadata)
    ensures m.originalName == pdfName
    ensures m.family.Some? ==> m.family.value in Families && m.family.value != "XDiavel" && m.family.value != "Off-Road"
    ensures m.family.None? ==> m.year.None? && m.modelName == CleanName(pdfName)
  {
    NeverXDiavel(CleanName(pdfName));
    NeverOffRoad(pdfName);
    MetadataOf(CleanName(pdfName), pdfName)
  }

  /** `Remove(x + pat + y, pat) == x + y` when `pat` occurs neither from inside `x` nor in `y`. */
  lemma RemoveOnce(x: string, pat: string, y: string, i: nat)
    requires |pat| > 0 && i < |pat| && pat[i] !in y
    requires forall k :: 0 <= k < |x| ==> !(pat <= x[k..] + pat + y)
    ensures Remove(x + pat + y, pat) == x + y
  {
    RemoveAfter(x, pat, y);
    MissingCharNotContained(y, pat, i);
  }

  /** A name containing none of the tokens is left as it is. */
  lemma {:induction false} RemoveEachAbsent(s: string, pats: seq<string>)
    requires Tokens(pats) && forall i :: 0 <= i < |pats| ==> !Contains(s, pats[i])
    ensures RemoveEach(s, pats) == s
    decreases |pats|
  {
    if pats != [] {
      assert forall i :: 1 <= i < |pats| ==> pats[i] == pats[1..][i - 1];
      RemoveEachAbsent(s, pats[1..]);
    }
  }

  lemma RemoveEachStep(s: string, pats: seq<string>, i: nat, r: string)
    requires Tokens(pats)
    requires i < |pats| && RemoveEach(Remove(s, pats[i]), pats[i + 1..]) == r
    ensures RemoveEach(s, pats[i..]) == r
  {
    assert pats[i..][0] == pats[i] && pats[i..][1..] == pats[i + 1..];
  }

  /** The last tokens of the cleanup fold, for a name without `-` whose only later token is `EN`. */
  lemma CleanNameTail(u: string, t: string)
    requires !Contains(u, "-") && Remove(u, "EN") == t
    requires forall i :: 5 <= i < |CleanupPatterns| ==> !Contains(t, CleanupPatterns[i])
    ensures RemoveEach(u, CleanupPatterns[3..]) == t
  {
    var P := CleanupPatterns;
    assert P[3] == "-" && P[4] == "EN";
    RemoveEachAbsent(t, P[5..]);
    RemoveEachStep(u, P, 4, t);
    RemoveEachStep(u, P, 3, t);
  }

  lemma CleanupTokens()
    ensures Tokens(CleanupPatterns)
  {
  }

  /** One token of the cleanup fold, by its position in the list. */
  lemma CleanupStep(s: string, i: nat, pat: string)
    requires i < |CleanupPatterns| && CleanupPatterns[i] == pat
    ensures Tokens(CleanupPatterns)
    ensures RemoveEach(s, CleanupPatterns[i..]) == RemoveEach(Remove(s, pat), CleanupPatterns[i + 1..])
  {
    CleanupTokens();
    RemoveEachStep(s, CleanupPatterns, i, RemoveEach(Remove(s, pat), CleanupPatterns[i + 1..]));
  }

  /** The first tokens of the cleanup fold, for a name from which they delete `OM`, `_` and `.pdf`. */
  lemma CleanNameHead(pdfName: string, u: string)
    requires Remove(Remove(pdfName, "OM"), "_") == u + ".pdf" && Remove(u + ".pdf", ".pdf") == u
    ensures RemoveEach(pdfName, CleanupPatterns) == RemoveEach(u, CleanupPatterns[3..])
  {
    CleanupStep(pdfName, 0, "OM");
    CleanupStep(Remove(pdfName, "OM"), 1, "_");
    CleanupStep(u + ".pdf", 2, ".pdf");
    assert CleanupPatterns[0..] == CleanupPatterns;
  }

  /** The cleanup fold spelled out for a name from which only the first five tokens delete anything. */
  lemma CleanNameSteps(pdfName: string, u: string, t: string)
    requires Remove(Remove(pdfName, "OM"), "_") == u + ".pdf"
    requires Remove(u + ".pdf", ".pdf") == u && !Contains(u, "-") && Remove(u, "EN") == t
    requires forall i :: 5 <= i < |CleanupPatterns| ==> !Contains(t, CleanupPatterns[i])
    ensures CleanName(pdfName) == Strip(t)
  {
    CleanNameHead(pdfName, u);
    CleanNameTail(u, t);
  }

  /** The family found is the `i`-th when the name contains it and none listed before it. */
  lemma FamilyAt(name: string, i: nat)
    requires i < |Families| && Contains(name, Families[i])
    requires forall j :: 0 <= j < i ==> !Contains(name, Families[j])
    ensures FindFamily(name) == Some(Families[i])
  {
  }

  lemma MonsterFamily(t: string)
    requires 'X' !in t && 'v' !in t && 'p' !in t && |t| >= 13 && t[6..13] == "Monster"
    ensures FindFamily(t) == Some("Monster")
  {
    MissingCharNotContained(t, "DesertX", 6);
    MissingCharNotContained(t, "Diavel", 3);
    MissingCharNotContained(t, "Hypermotard", 2);
    assert t[6..][..7] == "Monster";
    ContainsShift(t, 6, "Monster");
    assert Families[..4] == ["DesertX", "Diavel", "Hypermotard", "Monster"];
    FamilyAt(t, 3);
  }

  lemma ExampleShape(t: string)
    requires t == "DucatiMonsterMY23"
    ensures 'X' !in t && 'v' !in t && 'p' !in t && |t| >= 13 && t[6..13] == "Monster"
    ensures Strip(t) == t
  {
    ExampleLetters(t);
    assert t[6..13] == "Monster";
    assert !IsSpace(t[0]) && !IsSpace(t[|t| - 1]);
  }

  lemma ExampleYear(t: string)
    requires t == "DucatiMonsterMY23"
    ensures FirstYearToken(t, 0) == Some(13)
  {
    assert YearTokenAt(t, 13);
    forall k | 0 <= k < 13 ensures !YearTokenAt(t, k) {
      assert t[k + 1] != 'Y';
    }
  }

  /** No occurrence of `pat` starts inside `x` when `x` lacks the first character of `pat`. */
  lemma FirstCharAbsent(x: string, pat: string, y: string)
    requires |pat| > 0 && pat[0] !in x
    ensures forall k :: 0 <= k < |x| ==> !(pat <= x[k..] + pat + y)
  {
    forall k | 0 <= k < |x| ensures !(pat <= x[k..] + pat + y) {
      assert (x[k..] + pat + y)[0] == x[k];
    }
  }

  lemma ExampleLetters(t: string)
    requires t == "DucatiMonsterMY23"
    ensures 'X' !in t && 'v' !in t && 'p' !in t
    ensures 'O' !in t && '_' !in t && '.' !in t && 'E' !in t && '0' !in t && 'R' !in t && '-' !in t
  {
    forall k | 0 <= k < |t|
      ensures t[k] != 'X' && t[k] != 'v' && t[k] != 'p' && t[k] != 'O' && t[k] != '_'
      ensures t[k] != '.' && t[k] != 'E' && t[k] != '0' && t[k] != 'R' && t[k] != '-'
    {
      assert t[k] in "DucatiMonsterMY23";
    }
  }

  lemma ExampleFirstTokens(pdfName: string, t: string, u: string)
    requires t == "DucatiMonsterMY23" && u == t + "EN" && pdfName == t + "OM" + "_EN.pdf"
    ensures Remove(Remove(pdfName, "OM"), "_") == u + ".pdf"
  {
    ExampleLetters(t);
    FirstCharAbsent(t, "OM", "_EN.pdf");
    RemoveOnce(t, "OM", "_EN.pdf", 0);
    FirstCharAbsent(t, "_", "EN.pdf");
    assert t + "_EN.pdf" == t + "_" + "EN.pdf";
    RemoveOnce(t, "_", "EN.pdf", 0);
    assert t + "EN.pdf" == u + ".pdf";
  }

  lemma ExampleDropPdf(t: string, u: string)
    requires t == "DucatiMonsterMY23" && u == t + "EN"
    ensures Remove(u + ".pdf", ".pdf") == u
  {
    ExampleLetters(t);
    assert '.' !in u;
    FirstCharAbsent(u, ".pdf", "");
    assert u + ".pdf" == u + ".pdf" + "";
    RemoveOnce(u, ".pdf", "", 0);
    assert u + "" == u;
  }

  lemma ExampleDropEN(t: string, u: string)
    requires t == "DucatiMonsterMY23" && u == t + "EN"
    ensures Remove(u, "EN") == t
  {
    ExampleLetters(t);
    FirstCharAbsent(t, "EN", "");
    assert u == t + "EN" + "";
    RemoveOnce(t, "EN", "", 0);
    assert t + "" == t;
  }

  lemma ExampleMidTokens(t: string, u: string)
    requires t == "DucatiMonsterMY23" && u == t + "EN"
    ensures Remove(u + ".pdf", ".pdf") == u && !Contains(u, "-") && Remove(u, "EN") == t
  {
    ExampleDropPdf(t, u);
    ExampleLetters(t);
    assert '-' !in u;
    MissingCharNotContained(u, "-", 0);
    ExampleDropEN(t, u);
  }

  lemma ExampleLastTokens(t: string)
    requires t == "DucatiMonsterMY23"
    ensures forall i :: 5 <= i < |CleanupPatterns| ==> !Contains(t, CleanupPatterns[i])
  {
    ExampleLetters(t);
    assert CleanupPatterns[5..] == ["ED00", "ED01", "ED02", "ED03", "Rev01", "Rev02"];
    forall i | 5 <= i < |CleanupPatterns| ensures !Contains(t, CleanupPatterns[i]) {
      var pat := CleanupPatterns[5..][i - 5];
      if i < 9 {
        assert pat[2] == '0';
        MissingCharNotContained(t, pat, 2);
      } else {
        assert pat[0] == 'R';
        MissingCharNotContained(t, pat, 0);
      }
    }
  }

  /** In `DucatiMonster` the only `M` is followed by `o`, so `MY23` starts nowhere inside it. */
  lemma NoYearInside(x: string)
    requires x == "DucatiMonster"
    ensures forall k :: 0 <= k < |x| ==> !("MY23" <= x[k..] + "MY23" + "")
  {
    forall k | 0 <= k < |x| ensures !("MY23" <= x[k..] + "MY23" + "") {
      var w := x[k..] + "MY23" + "";
      assert w[0] == x[k];
      assert w[1] == if k + 1 < |x| then x[k + 1] else 'M';
    }
  }

  lemma ExampleModelName(t: string, x: string)
    requires t == "DucatiMonsterMY23" && x == "DucatiMonster"
    ensures Strip(Remove(t, t[13..17])) == x
  {
    assert t[13..17] == "MY23";
    assert t == x + "MY23" + "";
    NoYearInside(x);
    RemoveAfter(x, "MY23", "");
    assert Remove("", "MY23") == "";
    assert x + "" == x;
    assert !IsSpace(x[0]) && !IsSpace(x[|x| - 1]);
  }

  lemma ExampleCleaned(pdfName: string)
    requires pdfName == "DucatiMonsterMY23OM_EN.pdf"
    ensures CleanName(pdfName) == "DucatiMonsterMY23"
  {
    var t := "DucatiMonsterMY23";
    ExampleFirstTokens(pdfName, t, t + "EN");
    ExampleMidTokens(t, t + "EN");
    ExampleLastTokens(t);
    ExampleShape(t);
    CleanNameSteps(pdfName, t + "EN", t);
  }

  lemma ExampleFacts(t: string)
    requires t == "DucatiMonsterMY23"
    ensures FindFamily(t) == Some("Monster") && FirstYearToken(t, 0) == Some(13)
    ensures YearOf(t[15], t[16]) == "2023" && Strip(Remove(t, t[13..17])) == "DucatiMonster"
  {
    ExampleShape(t);
    MonsterFamily(t);
    ExampleYear(t);
    ExampleModelName(t, "DucatiMonster");
  }

  lemma MetadataFromFacts(pdfName: string, t: string)
    requires CleanName(pdfName) == t
    requires FindFamily(t) == Some("Monster")
    requires FirstYearToken(t, 0) == Some(13) && YearTokenAt(t, 13)
    requires YearOf(t[15], t[16]) == "2023"
    requires Strip(Remove(t, t[13..17])) == "DucatiMonster"
    ensures ExtractMetadata(pdfName) == Metadata(Some("Monster"), Some("2023"), "DucatiMonster", pdfName)
  {
  }

  /** A worked file name: `DucatiMonsterMY23OM_EN.pdf` is a 2023 Monster named `DucatiMonster`. */
  lemma MetadataExample(pdfName: string)
    requires pdfName == "DucatiMonsterMY23OM_EN.pdf"
    ensures ExtractMetadata(pdfName) == Metadata(Some("Monster"), Some("2023"), "DucatiMonster", pdfName)
  {
    ExampleCleaned(pdfName);
    ExampleFacts(CleanName(pdfName));
    MetadataFromFacts(pdfName, CleanName(pdfName));
  }

  // ---------------------------------------------------------------- table of contents and pages

  /**
   * One entry of `get_toc()`: `arity` is `len(entry)`; `title` and `page` are
   * `entry[1]` and `entry[2]`, meaningful only when `arity >= 3`.
   */
  datatype RawTocEntry = RawTocEntry(arity: nat, title: string, page: int)

  /** One key/value pair of the title-to-page dictionary, in insertion order. */
  datatype TocItem = TocItem(title: string, page: int)

  predicate DistinctTitles(m: seq<TocItem>) {
    forall i, j :: 0 <= i < j < |m| ==> m[i].title != m[j].title
  }

  /** Where `title` sits among the keys of `m`, or `|m|` when it is not a key. */
  function KeyIndex(m: seq<TocItem>, title: string): (k: nat)
    ensures k <= |m|
    ensures k < |m| ==> m[k].title == title
    ensures forall i :: 0 <= i < k ==> m[i].title != title
  {
    if m == [] then 0
    else
      var k := KeyIndex(m[..|m| - 1], title);
      if k < |m| - 1 || m[|m| - 1].title == title then k else |m|
  }

  /** `m[title] = page` on an insertion-ordered dictionary: an existing key keeps its place. */
  function Put(m: seq<TocItem>, title: string, page: int): (r: seq<TocItem>)
    requires DistinctTitles(m)
    ensures DistinctTitles(r)
    ensures (exists i :: 0 <= i < |m| && m[i].title == title) ==>
      |r| == |m| && forall i :: 0 <= i < |m| ==> r[i] == (if m[i].title == title then TocItem(title, page) else m[i])
    ensures (forall i :: 0 <= i < |m| ==> m[i].title != title) ==> r == m + [TocItem(title, page)]
  {
    var k := KeyIndex(m, title);
    if k < |m| then m[k := TocItem(title, page)] else m + [TocItem(title, page)]
  }

  /** The dictionary after the first `n` entries of the TOC. */
  function TocUpTo(entries: seq<RawTocEntry>, n: nat): (r: seq<TocItem>)
    requires n <= |entries|
    ensures DistinctTitles(r)
  {
    if n == 0 then []
    else if entries[n - 1].arity >= 3 then Put(TocUpTo(entries, n - 1), entries[n - 1].title, entries[n - 1].page)
    else TocUpTo(entries, n - 1)
  }

  /** `extract_toc`: a failing or empty `get_toc()` gives the empty dictionary. */
  function ExtractToc(toc: Result<seq<RawTocEntry>>): (r: seq<TocItem>)
    ensures DistinctTitles(r)
    ensures toc.Err? || toc.value == [] ==> r == []
  {
    if toc.Err? then [] else TocUpTo(toc.value, |toc.value|)
  }

  /** Dictionary lookup. */
  function Lookup(m: seq<TocItem>, title: string): Option<int> {
    var k := KeyIndex(m, title);
    if k < |m| then Some(m[k].page) else None
  }

  /** The first position holding `title` is the one `KeyIndex` finds. */
  lemma KeyIndexIs(m: seq<TocItem>, title: string, k: nat)
    requires k <= |m| && (k < |m| ==> m[k].title == title)
    requires forall i :: 0 <= i < k ==> m[i].title != title
    ensures KeyIndex(m, title) == k
  {

  }

  /** The page of the last entry among the first `n` with at least three fields and this title. */
  function LastPage(entries: seq<RawTocEntry>, n: nat, title: string): Option<int>
    requires n <= |entries|
  {
    if n == 0 then None
    else if entries[n - 1].arity >= 3 && entries[n - 1].title == title then Some(entries[n - 1].page)
    else LastPage(entries, n - 1, title)
  }

  lemma LookupPut(m: seq<TocItem>, title: string, page: int, t: string)
    requires DistinctTitles(m)
    ensures Lookup(Put(m, title, page), t) == if t == title then Some(page) else Lookup(m, t)
  {
    var r := Put(m, title, page);
    var k := KeyIndex(m, title);
    var item := TocItem(title, page);
    assert k < |m| ==> r == m[k := item];
    assert k == |m| ==> r == m + [item];
    assert |r| > |m| ==> r[|m|] == item;
    assert forall i :: 0 <= i < |m| ==> r[i].title == m[i].title;
    if t == title {
      KeyIndexIs(r, t, k);
    } else {
      var j := KeyIndex(m, t);
      if j < |m| {
        KeyIndexIs(r, t, j);
        assert r[j] == m[j];
      } else {
        KeyIndexIs(r, t, |r|);
      }
    }
  }

  /**
   * The TOC dictionary holds exactly the titles of the entries with at least
   * three fields, and a repeated title maps to the page of its last entry.
   */
  lemma {:induction false} TocLastWins(entries: seq<RawTocEntry>, n: nat, title: string)
    requires n <= |entries|
    ensures Lookup(TocUpTo(entries, n), title) == LastPage(entries, n, title)
  {
    if n > 0 {
      TocLastWins(entries, n - 1, title);
      if entries[n - 1].arity >= 3 {
        LookupPut(TocUpTo(entries, n - 1), entries[n - 1].title, entries[n - 1].page, title);
      }
    }
  }

  /** `extract_text()` of one page, or `None` when it raised; a failing page reads as `""`. */
  function PageText(p: Option<string>): string {
    if p.Some? then p.value else ""
  }

  /** The dictionary after the first `n` pages: page `i + 1` holds the text of `pages[i]`. */
  function PagesUpTo(pages: seq<Option<string>>, n: nat): (r: map<int, string>)
    requires n <= |pages|
    ensures forall i :: i in r <==> 1 <= i <= n
    ensures forall i :: 1 <= i <= n ==> r[i] == PageText(pages[i - 1])
    ensures |r| == n
  {
    if n == 0 then map[]
    else
      var prev := PagesUpTo(pages, n - 1);
      assert n !in prev;
      prev[n := PageText(pages[n - 1])]
  }

  /** `extract_page_content`: keys 1..n; if even the page count cannot be read, the empty dictionary. */
  function ExtractPageContent(pages: Result<seq<Option<string>>>): (r: map<int, string>)
    ensures pages.Err? ==> r == map[]
    ensures pages.Ok? ==> |r| == |pages.value| && forall i :: i in r <==> 1 <= i <= |pages.value|
    ensures pages.Ok? ==> forall i :: 1 <= i <= |pages.value| ==> r[i] == PageText(pages.value[i - 1])
  {
    if pages.Err? then map[] else PagesUpTo(pages.value, |pages.value|)
  }

  // ---------------------------------------------------------------- sections

  /** A drawing as a section lists it. */
  datatype DrawingRef = DrawingRef(drawingId: string, pageNumber: int, imagePath: string, x: int, y: int, w: int, h: int)

  /** The `PDFSection` record. */
  datatype Section = Section(
    heading: string, startPage: int, endPage: int, text: string,
    model: string, year: Option<string>, sourcePdf: string, drawings: seq<DrawingRef>)

  function PageKey(t: TocItem): real {
    t.page as real
  }

  /** The text gathered for pages `start..end`: each page (missing as `""`) followed by a newline. */
  function PagesText(content: map<int, string>, start: int, end: int): (r: string)
    ensures end < start ==> r == ""
    decreases end - start
  {
    if end < start then ""
    else PagesText(content, start, end - 1) + (if end in content then content[end] else "") + "\n"
  }

  /** The last page of the `i`-th sorted entry: one before the next entry's page, or the page count. */
  function EndPage(sorted: seq<TocItem>, i: nat, pageCount: int): int
    requires i < |sorted|
  {
    if i + 1 < |sorted| then sorted[i + 1].page - 1 else pageCount
  }

  predicate InRange(sorted: seq<TocItem>, i: nat, pageCount: int)
    requires i < |sorted|
  {
    sorted[i].page >= 1 && EndPage(sorted, i, pageCount) <= pageCount
  }

  /**
   * The section the `i`-th sorted entry opens. `text` gives the text of a page
   * range; `organize_by_section` passes the stripped text of the pages.
   */
  function MakeSection(sorted: seq<TocItem>, i: nat, pageCount: int, text: (int, int) -> string,
                       year: Option<string>, model: string, pdfName: string): Section
    requires i < |sorted|
  {
    var start, end := sorted[i].page, EndPage(sorted, i, pageCount);
    Section(sorted[i].title, start, end, text(start, end), model, year, pdfName, [])
  }

  /** The sections built from the first `k` sorted entries; an entry out of range is skipped. */
  function SectionsUpTo(sorted: seq<TocItem>, k: nat, pageCount: int, text: (int, int) -> string,
                        year: Option<string>, model: string, pdfName: string): (r: seq<Section>)
    requires k <= |sorted|
    ensures |r| <= k
  {
    if k == 0 then []
    else
      SectionsUpTo(sorted, k - 1, pageCount, text, year, model, pdfName)
      + (if InRange(sorted, k - 1, pageCount) then [MakeSection(sorted, k - 1, pageCount, text, year, model, pdfName)] else [])
  }

  /** A section within `1..pageCount`, holding the text of its pages and the document's metadata. */
  predicate Built(s: Section, pageCount: int, text: (int, int) -> string, year: Option<string>, model: string, pdfName: string) {
    && 1 <= s.startPage && s.endPage <= pageCount
    && s.text == text(s.startPage, s.endPage)
    && s.model == model && s.year == year && s.sourcePdf == pdfName && s.drawings == []
  }

  lemma {:induction false} SectionsUpToBuilt(sorted: seq<TocItem>, k: nat, pageCount: int, text: (int, int) -> string,
                                             year: Option<string>, model: string, pdfName: string)
    requires k <= |sorted|
    ensures forall s :: s in SectionsUpTo(sorted, k, pageCount, text, year, model, pdfName) ==>
      Built(s, pageCount, text, year, model, pdfName)
  {
    if k > 0 {
      SectionsUpToBuilt(sorted, k - 1, pageCount, text, year, model, pdfName);
    }
  }

  /** The stripped text of the pages `start..end`. */
  function RangeText(content: map<int, string>): (int, int) -> string {
    (start, end) => Strip(PagesText(content, start, end))
  }

  /** The positions, in increasing order, of those of the first `k` sorted entries whose range lies within the pages. */
  function KeptEntries(sorted: seq<TocItem>, k: nat, pageCount: int): (ks: seq<nat>)
    requires k <= |sorted|
    ensures forall i: int :: i in ks <==> 0 <= i < k && InRange(sorted, i, pageCount)
    ensures forall a, b :: 0 <= a < b < |ks| ==> ks[a] < ks[b]
  {
    if k == 0 then []
    else
      var prev := KeptEntries(sorted, k - 1, pageCount);
      var ks := prev + (if InRange(sorted, k - 1, pageCount) then [k - 1] else []);
      assert forall a :: 0 <= a < |prev| ==> prev[a] in prev && ks[a] == prev[a];
      ks
  }

  /** The `j`-th section built is the one the `j`-th kept entry opens. */
  lemma {:induction false} SectionsUpToEntries(sorted: seq<TocItem>, k: nat, pageCount: int, text: (int, int) -> string,
                                               year: Option<string>, model: string, pdfName: string)
    requires k <= |sorted|
    ensures var r := SectionsUpTo(sorted, k, pageCount, text, year, model, pdfName);
      var ks := KeptEntries(sorted, k, pageCount);
      && |r| == |ks|
      && forall j :: 0 <= j < |r| ==> ks[j] < |sorted| && r[j] == MakeSection(sorted, ks[j], pageCount, text, year, model, pdfName)
  {
    if k > 0 {
      SectionsUpToEntries(sorted, k - 1, pageCount, text, year, model, pdfName);
      var prev := SectionsUpTo(sorted, k - 1, pageCount, text, year, model, pdfName);
      var ks := KeptEntries(sorted, k - 1, pageCount);
      forall j | 0 <= j < |prev| ensures ks[j] < |sorted| {
        assert ks[j] in ks;
      }
    }
  }

  /**
   * `organize_by_section`: TOC entries ordered by page (stably); the `j`-th
   * section is opened by the `j`-th sorted entry whose range lies within the
   * pages, runs to one page before the NEXT sorted entry (kept or not) or to
   * the last page, and holds the stripped text of those pages.
   */
  function OrganizeBySection(toc: seq<TocItem>, content: map<int, string>, year: Option<string>, model: string, pdfName: string)
    : (r: seq<Section>)
    ensures toc == [] ==> r == []
    ensures |r| <= |toc|
    ensures forall s :: s in r ==>
      && 1 <= s.startPage && s.endPage <= |content|
      && s.text == Strip(PagesText(content, s.startPage, s.endPage))
      && s.model == model && s.year == year && s.sourcePdf == pdfName && s.drawings == []
    ensures var sorted := Sorting.SortBy(toc, PageKey);
      var ks := KeptEntries(sorted, |sorted|, |content|);
      && |r| == |ks|
      && forall j :: 0 <= j < |r| ==>
           && ks[j] < |sorted|
           && r[j].heading == sorted[ks[j]].title && r[j].startPage == sorted[ks[j]].page
           && r[j].endPage == EndPage(sorted, ks[j], |content|)
  {
    var sorted := Sorting.SortBy(toc, PageKey);
    SectionsUpToBuilt(sorted, |sorted|, |content|, RangeText(content), year, model, pdfName);
    SectionsUpToEntries(sorted, |sorted|, |content|, RangeText(content), year, model, pdfName);
    SectionsUpTo(sorted, |sorted|, |content|, RangeText(content), year, model, pdfName)
  }

  /** A section whose range is empty (two entries on one page) has empty text. */
  lemma EmptyRangeEmptyText(content: map<int, string>, start: int, end: int)
    requires end < start
    ensures Strip(PagesText(content, start, end)) == ""
  {
  }

  lemma {:induction false} SortedPages(sorted: seq<TocItem>, i: nat, j: nat)
    requires Sorting.SortedBy(sorted, PageKey)
    requires i <= j < |sorted|
    ensures sorted[i].page <= sorted[j].page
  {
    if i < j {
      assert PageKey(sorted[i]) <= PageKey(sorted[j]);
    }
  }

  /** Each section ends before any later one starts. */
  predicate Disjoint(r: seq<Section>) {
    forall a, b :: 0 <= a < b < |r| ==> r[a].endPage < r[b].startPage
  }

  predicate EndBefore(r: seq<Section>, page: int) {
    forall a :: 0 <= a < |r| ==> r[a].endPage < page
  }

  /**
   * The sections built from sorted entries come in page order with disjoint
   * ranges, each ending before the next entry's page.
   */
  lemma {:induction false} SectionsUpToOrdered(sorted: seq<TocItem>, k: nat, pageCount: int, text: (int, int) -> string,
                                               year: Option<string>, model: string, pdfName: string)
    requires Sorting.SortedBy(sorted, PageKey)
    requires k <= |sorted|
    ensures Disjoint(SectionsUpTo(sorted, k, pageCount, text, year, model, pdfName))
    ensures k < |sorted| ==> EndBefore(SectionsUpTo(sorted, k, pageCount, text, year, model, pdfName), sorted[k].page)
  {
    if k > 0 {
      SectionsUpToOrdered(sorted, k - 1, pageCount, text, year, model, pdfName);
      var prev := SectionsUpTo(sorted, k - 1, pageCount, text, year, model, pdfName);
      var r := SectionsUpTo(sorted, k, pageCount, text, year, model, pdfName);
      assert EndBefore(prev, sorted[k - 1].page);
      if k < |sorted| {
        SortedPages(sorted, k - 1, k);
        assert EndBefore(prev, sorted[k].page);
      }
      if InRange(sorted, k - 1, pageCount) {
        var last := MakeSection(sorted, k - 1, pageCount, text, year, model, pdfName);
        assert r == prev + [last];
        assert forall a :: 0 <= a < |prev| ==> r[a] == prev[a];
        assert r[|prev|] == last;
      } else {
        assert r == prev;
      }
    }
  }

  /** Organised sections never overlap: each ends before the next one starts. */
  lemma SectionsDisjoint(toc: seq<TocItem>, content: map<int, string>, year: Option<string>, model: string, pdfName: string)
    ensures Disjoint(OrganizeBySection(toc, content, year, model, pdfName))
  {
    var sorted := Sorting.SortBy(toc, PageKey);
    Sorting.SortByCorrect(toc, PageKey);
    SectionsUpToOrdered(sorted, |sorted|, |content|, RangeText(content), year, model, pdfName);
  }

  /** The `i`-th section is the one the `i`-th sorted entry opens, for every section. */
  predicate OneSectionPerEntry(r: seq<Section>, sorted: seq<TocItem>, pageCount: int) {
    && |r| <= |sorted|
    && forall i :: 0 <= i < |r| ==>
         r[i].heading == sorted[i].title && r[i].startPage == sorted[i].page
         && r[i].endPage == EndPage(sorted, i, pageCount)
  }

  lemma {:induction false} SectionsUpToTile(sorted: seq<TocItem>, k: nat, pageCount: int, text: (int, int) -> string,
                                            year: Option<string>, model: string, pdfName: string)
    requires k <= |sorted|
    requires forall i :: 0 <= i < |sorted| ==> 1 <= sorted[i].page <= pageCount
    ensures |SectionsUpTo(sorted, k, pageCount, text, year, model, pdfName)| == k
    ensures OneSectionPerEntry(SectionsUpTo(sorted, k, pageCount, text, year, model, pdfName), sorted, pageCount)
  {
    if k > 0 {
      SectionsUpToTile(sorted, k - 1, pageCount, text, year, model, pdfName);
      assert InRange(sorted, k - 1, pageCount);
    }
  }

  /** Consecutive sections meet with no gap, and the last one runs to the last page. */
  predicate Tiles(r: seq<Section>, pageCount: int) {
    && (forall i :: 0 <= i < |r| - 1 ==> r[i].endPage + 1 == r[i + 1].startPage)
    && (r != [] ==> r[|r| - 1].endPage == pageCount)
  }

  lemma OneSectionPerEntryTiles(r: seq<Section>, sorted: seq<TocItem>, pageCount: int)
    requires OneSectionPerEntry(r, sorted, pageCount) && |r| == |sorted|
    ensures Tiles(r, pageCount)
  {
  }

  /** Reordering keeps every page within the document. */
  lemma {:induction false} SortedWithin(toc: seq<TocItem>, sorted: seq<TocItem>, pageCount: int)
    requires forall i :: 0 <= i < |toc| ==> 1 <= toc[i].page <= pageCount
    requires sorted == Sorting.SortBy(toc, PageKey)
    ensures forall i :: 0 <= i < |sorted| ==> 1 <= sorted[i].page <= pageCount
  {
    Sorting.SortByCorrect(toc, PageKey);
    forall i | 0 <= i < |sorted| ensures 1 <= sorted[i].page <= pageCount {
      assert sorted[i] in multiset(toc);
      var j :| 0 <= j < |toc| && toc[j] == sorted[i];
    }
  }

  /**
   * When every TOC page lies within the document, no entry is dropped and the
   * sections tile the pages from the first entry's page to the last page.
   */
  lemma OrganizeTiles(toc: seq<TocItem>, content: map<int, string>, year: Option<string>, model: string, pdfName: string)
    requires forall i :: 0 <= i < |toc| ==> 1 <= toc[i].page <= |content|
    ensures |OrganizeBySection(toc, content, year, model, pdfName)| == |toc|
    ensures OneSectionPerEntry(OrganizeBySection(toc, content, year, model, pdfName), Sorting.SortBy(toc, PageKey), |content|)
    ensures Tiles(OrganizeBySection(toc, content, year, model, pdfName), |content|)
  {
    var sorted := Sorting.SortBy(toc, PageKey);
    SortedWithin(toc, sorted, |content|);
    SectionsUpToTile(sorted, |sorted|, |content|, RangeText(content), year, model, pdfName);
    OneSectionPerEntryTiles(SectionsUpTo(sorted, |sorted|, |content|, RangeText(content), year, model, pdfName), sorted, |content|);
  }

  // ---------------------------------------------------------------- drawings

  /** The attributes `map_drawings_to_sections` reads from a section. */
  datatype Span = Span(model: string, year: Option<string>, sourcePdf: string, startPage: int, endPage: int)

  function SectionSpan(s: Section): Span {
    Span(s.model, s.year, s.sourcePdf, s.startPage, s.endPage)
  }

  function WithDrawings(s: Section, ds: seq<DrawingRef>): Section {
    s.(drawings := ds)
  }

  predicate Matches(d: ImagesExtract.Drawing, s: Span) {
    d.model == s.model && d.year == s.year && d.sourcePdf == s.sourcePdf
    && s.startPage <= d.pageNumber <= s.endPage
  }

  function Ref(d: ImagesExtract.Drawing): DrawingRef {
    DrawingRef(d.drawingId, d.pageNumber, d.imagePath, d.x, d.y, d.w, d.h)
  }

  /** The projections of the matching drawings, in drawing order. */
  function Attached(drawings: seq<ImagesExtract.Drawing>, s: Span): (r: seq<DrawingRef>)
    ensures |r| <= |drawings|
    ensures forall x :: x in r ==> exists d :: d in drawings && Matches(d, s) && x == Ref(d)
    ensures forall d :: d in drawings && Matches(d, s) ==> Ref(d) in r
  {
    if drawings == [] then []
    else
      var init, last := drawings[..|drawings| - 1], drawings[|drawings| - 1];
      var r := Attached(init, s) + (if Matches(last, s) then [Ref(last)] else []);
      assert forall d :: d in init ==> d in drawings;
      r
  }

  /** Attaching over two lists of drawings is attaching over each, in list order. */
  lemma {:induction false} AttachedAppend(a: seq<ImagesExtract.Drawing>, b: seq<ImagesExtract.Drawing>, s: Span)
    ensures Attached(a + b, s) == Attached(a, s) + Attached(b, s)
    decreases |b|
  {
    if b == [] {
      assert a + b == a;
    } else {
      var init, last := b[..|b| - 1], b[|b| - 1];
      var tail := if Matches(last, s) then [Ref(last)] else [];
      AttachedAppend(a, init, s);
      assert (a + b)[..|a + b| - 1] == a + init;
      assert (a + b)[|a + b| - 1] == last;
      assert Attached(a + b, s) == Attached(a + init, s) + tail;
      assert Attached(b, s) == Attached(init, s) + tail;
    }
  }

  /** One drawing is attached, as its projection, exactly when it matches. */
  lemma AttachedOne(d: ImagesExtract.Drawing, s: Span)
    ensures Attached([d], s) == (if Matches(d, s) then [Ref(d)] else [])
  {
    assert [d][..0] == [];
  }

  /** Drawings whose `source_pdf` is a `.png` image never match a section read from a `.pdf` file. */
  lemma {:induction false} NoImageMatchesPdf(drawings: seq<ImagesExtract.Drawing>, s: Span)
    requires |s.sourcePdf| >= 4 && s.sourcePdf[|s.sourcePdf| - 4..] == ".pdf"
    requires forall d :: d in drawings ==> |d.sourcePdf| >= 4 && d.sourcePdf[|d.sourcePdf| - 4..] == ".png"
    ensures Attached(drawings, s) == []
  {
    if drawings != [] {
      var last := drawings[|drawings| - 1];
      assert last in drawings;
      assert last.sourcePdf[|last.sourcePdf| - 4..] != s.sourcePdf[|s.sourcePdf| - 4..];
      assert forall d :: d in drawings[..|drawings| - 1] ==> d in drawings;
      NoImageMatchesPdf(drawings[..|drawings| - 1], s);
    }
  }

  /** Every element with its drawings replaced by the matching drawings, order and length kept. */
  function MapDrawings<T>(items: seq<T>, drawings: seq<ImagesExtract.Drawing>, span: T -> Span, attach: (T, seq<DrawingRef>) -> T)
    : (r: seq<T>)
    ensures |r| == |items|
  {
    seq(|items|, i requires 0 <= i < |items| => attach(items[i], Attached(drawings, span(items[i]))))
  }

  /**
   * Mapping is idempotent when replacing the drawings leaves what is matched on
   * alone and a later replacement overrides an earlier one.
   */
  lemma MapDrawingsIdempotent<T>(items: seq<T>, drawings: seq<ImagesExtract.Drawing>, span: T -> Span, attach: (T, seq<DrawingRef>) -> T)
    requires forall x, ds :: span(attach(x, ds)) == span(x)
    requires forall x, ds, es :: attach(attach(x, ds), es) == attach(x, es)
    ensures MapDrawings(MapDrawings(items, drawings, span, attach), drawings, span, attach)
         == MapDrawings(items, drawings, span, attach)
  {
  }

  /**
   * For sections: the drawings of each are the matching drawings in order,
   * every other field and the section order are unchanged, and mapping twice
   * is mapping once.
   */
  lemma MapSectionsCorrect(sections: seq<Section>, drawings: seq<ImagesExtract.Drawing>)
    ensures var r := MapDrawings(sections, drawings, SectionSpan, WithDrawings);
      && |r| == |sections|
      && (forall i :: 0 <= i < |r| ==>
            r[i] == sections[i].(drawings := Attached(drawings, SectionSpan(sections[i]))))
      && MapDrawings(r, drawings, SectionSpan, WithDrawings) == r
  {
    MapDrawingsIdempotent(sections, drawings, SectionSpan, WithDrawings);
  }

  /**
   * `map_drawings_to_sections`: for each section in turn, its `drawings` are
   * reset and the matching drawings appended in order. The list is updated in place.
   */
  method MapDrawingsToSections<T>(sections: array<T>, drawings: seq<ImagesExtract.Drawing>, span: T -> Span, attach: (T, seq<DrawingRef>) -> T)
    modifies sections
    ensures sections[..] == MapDrawings(old(sections[..]), drawings, span, attach)
  {
    ghost var original := sections[..];
    var i := 0;
    while i < sections.Length
      invariant 0 <= i <= sections.Length
      invariant sections[i..] == original[i..]
      invariant forall k :: 0 <= k < i ==> sections[k] == attach(original[k], Attached(drawings, span(original[k])))
    {
      var s := span(sections[i]);
      var found: seq<DrawingRef> := [];
      var j := 0;
      while j < |drawings|
        invariant 0 <= j <= |drawings|
        invariant found == Attached(drawings[..j], s)
      {
        assert drawings[..j + 1][..j] == drawings[..j];
        if Matches(drawings[j], s) {
          found := found + [Ref(drawings[j])];
        }
        j := j + 1;
      }
      assert drawings[..j] == drawings;
      assert sections[i] == original[i];
      sections[i] := attach(sections[i], found);
      assert sections[i + 1..] == original[i + 1..];
      i := i + 1;
    }
  }
}
