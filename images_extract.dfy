/**
 * Diagram detection on rendered pages. The raster work (rendering, grayscale,
 * adaptive threshold, dilation, `findContours`, `contourArea`, PNG writing)
 * is foreign: each page arrives already reduced to its size and its contours,
 * and the set of sequence numbers whose crop could not be written.
 */
module ImagesExtract {
  import opened Wrappers
  import opened Text
  import Sorting

  /** Minimum contour area, in square pixels of the 2x render. */
  const MinArea: real := 30000.0
  /** Margin added on every side of a detected box. */
  const Padding: nat := 15
  /** `str(e)` of the `ZeroDivisionError` raised by `float(w) / h` when `h == 0`. */
  const DivisionByZero: string := "float division by zero"

  /** A contour as `cv2.boundingRect` and `cv2.contourArea` report it. */
  datatype Contour = Contour(x: nat, y: nat, w: nat, h: nat, area: real)

  /**
   * One page after rendering: either rendering or preprocessing raised, or the
   * image size (`shape[1]`, `shape[0]`), its contours in `findContours` order and
   * the per-page counts whose crop could not be saved.
   */
  datatype RenderedPage =
    | RenderFailed(reason: string)
    | Rendered(width: nat, height: nat, contours: seq<Contour>, failedSaves: set<nat>)

  datatype Box = Box(x: int, y: int, w: int, h: int)

  /** The `DiagramInfo` record. */
  datatype DiagramInfo = DiagramInfo(
    drawingId: string, x: int, y: int, width: int, height: int, pageNumber: nat,
    imagePath: string, model: string, year: Option<string>, sourcePdf: string)

  /** A drawing dictionary as `extract_diagram_from_pdf` returns it (`width`, `height` renamed `w`, `h`). */
  datatype Drawing = Drawing(
    drawingId: string, x: int, y: int, w: int, h: int, pageNumber: int,
    imagePath: string, model: string, year: Option<string>, sourcePdf: string)

  predicate DividesByZero(c: Contour) {
    c.area > MinArea && c.h == 0
  }

  function AspectRatio(c: Contour): real
    requires c.h > 0
  {
    c.w as real / c.h as real
  }

  /** Kept by `_find_diagrams`: area strictly above the minimum, aspect ratio strictly inside (0.5, 2.0). */
  predicate IsCandidate(c: Contour) {
    c.area > MinArea && c.h > 0 && 0.5 < AspectRatio(c) < 2.0
  }

  /** The aspect test in integers: neither side is twice the other or more. */
  lemma {:induction false} CandidateInIntegers(c: Contour)
    ensures IsCandidate(c) <==> c.area > MinArea && c.h > 0 && c.h < 2 * c.w && c.w < 2 * c.h
  {
    if c.h > 0 {
      AspectBounds(c.w, c.h);
    }
  }

  lemma MulMono(x: real, y: real, b: real)
    requires b > 0.0
    ensures x < y <==> x * b < y * b
  {
    assert (y - x) * b == y * b - x * b;
    if x < y { assert (y - x) * b > 0.0; }
    if x * b < y * b { assert (y - x) * b > 0.0; }
  }

  lemma QuotientBounds(a: real, b: real)
    requires b > 0.0
    ensures 0.5 < a / b <==> b < 2.0 * a
    ensures a / b < 2.0 <==> a < 2.0 * b
  {
    var q := a / b;
    assert q * b == a;
    MulMono(0.5, q, b);
    MulMono(q, 2.0, b);
  }

  lemma AspectBounds(w: nat, h: nat)
    requires h > 0
    ensures 0.5 < w as real / h as real <==> h < 2 * w
    ensures w as real / h as real < 2.0 <==> w < 2 * h
  {
    QuotientBounds(w as real, h as real);
    assert (2 * w) as real == 2.0 * (w as real);
    assert (2 * h) as real == 2.0 * (h as real);
  }

  /** The contours `_find_diagrams` appends, in contour order. */
  function Candidates(cs: seq<Contour>): (r: seq<Contour>)
    ensures |r| <= |cs|
    ensures forall c :: c in r <==> c in cs && IsCandidate(c)
  {
    if cs == [] then []
    else Candidates(cs[..|cs| - 1]) + (if IsCandidate(cs[|cs| - 1]) then [cs[|cs| - 1]] else [])
  }

  /** Sorting on the negated area is `sorted(..., key=area, reverse=True)`. */
  function AreaKey(c: Contour): real {
    -c.area
  }

  /** What `_find_diagrams` returns: the candidates, largest area first, or the division error. */
  function RankedCandidates(cs: seq<Contour>): Result<seq<Contour>> {
    if exists i :: 0 <= i < |cs| && DividesByZero(cs[i]) then Err(DivisionByZero)
    else Ok(Sorting.SortBy(Candidates(cs), AreaKey))
  }

  /**
   * The ranking keeps exactly the candidates, orders them by non-increasing area
   * and leaves contours of equal area in contour order.
   */
  lemma RankedCandidatesCorrect(cs: seq<Contour>)
    ensures RankedCandidates(cs).Ok? <==> forall i :: 0 <= i < |cs| ==> !DividesByZero(cs[i])
    ensures RankedCandidates(cs).Ok? ==>
      var r := RankedCandidates(cs).value;
      && multiset(r) == multiset(Candidates(cs))
      && (forall i :: 0 <= i < |r| ==> IsCandidate(r[i]))
      && (forall i, j :: 0 <= i < j < |r| ==> r[i].area >= r[j].area)
      && (forall a: real :: Sorting.WithKey(r, AreaKey, a) == Sorting.WithKey(Candidates(cs), AreaKey, a))
  {
    if RankedCandidates(cs).Ok? {
      var r := RankedCandidates(cs).value;
      Sorting.SortByCorrect(Candidates(cs), AreaKey);
      forall i | 0 <= i < |r| ensures IsCandidate(r[i]) {
        assert r[i] in multiset(Candidates(cs));
      }
      forall a: real ensures Sorting.WithKey(r, AreaKey, a) == Sorting.WithKey(Candidates(cs), AreaKey, a) {
        Sorting.SortByStable(Candidates(cs), AreaKey, a);
      }
    }
  }

  /** `_find_diagrams` over given contours. */
  method FindDiagrams(contours: seq<Contour>) returns (r: Result<seq<Contour>>)
    ensures r == RankedCandidates(contours)
  {
    var potential: seq<Contour> := [];
    var i := 0;
    while i < |contours|
      invariant 0 <= i <= |contours|
      invariant potential == Candidates(contours[..i])
      invariant forall j :: 0 <= j < i ==> !DividesByZero(contours[j])
    {
      var c := contours[i];
      if c.area > MinArea {
        if c.h == 0 {
          return Err(DivisionByZero);
        }
        var aspectRatio := c.w as real / c.h as real;
        if 0.5 < aspectRatio < 2.0 {
          potential := potential + [c];
        }
      }
      assert contours[..i + 1] == contours[..i] + [c];
      i := i + 1;
    }
    assert contours[..i] == contours;
    r := Ok(Sorting.SortBy(potential, AreaKey));
  }

  function Max(a: int, b: int): int { if a >= b then a else b }
  function Min(a: int, b: int): int { if a <= b then a else b }

  /**
   * The padded crop of `_extract_diagram`: 15 px added on each side, clamped to
   * the image. It always lies inside the image, grows each side by at most 30,
   * contains the contour's box when that box is inside the image, and away from
   * the edges is exactly the box grown by 15 px on every side.
   */
  function PadBox(c: Contour, width: nat, height: nat): (b: Box)
    ensures b.x >= 0 && b.y >= 0
    ensures b.x + b.w <= width && b.y + b.h <= height
    ensures b.w <= c.w + 2 * Padding && b.h <= c.h + 2 * Padding
    ensures c.x <= width ==> b.w >= 0
    ensures c.y <= height ==> b.h >= 0
    ensures c.x + c.w <= width ==> b.x <= c.x && c.x + c.w <= b.x + b.w
    ensures c.y + c.h <= height ==> b.y <= c.y && c.y + c.h <= b.y + b.h
    ensures Padding <= c.x && c.x + c.w + Padding <= width ==> b.x == c.x - Padding && b.w == c.w + 2 * Padding
    ensures Padding <= c.y && c.y + c.h + Padding <= height ==> b.y == c.y - Padding && b.h == c.h + 2 * Padding
  {
    var xPad := Max(0, c.x - Padding);
    var yPad := Max(0, c.y - Padding);
    Box(xPad, yPad, Min(width - xPad, c.w + 2 * Padding), Min(height - yPad, c.h + 2 * Padding))
  }

  /** How an f-string prints an optional year (`None` prints as `"None"`). */
  function YearText(year: Option<string>): string {
    match year
    case None => "None"
    case Some(y) => y
  }

  /** `f"{model}_{year}_diagram_pg{page_num}_{count}"`. */
  function DrawingId(model: string, year: Option<string>, page: nat, count: nat): string {
    model + "_" + YearText(year) + "_diagram_pg" + NatToString(page) + "_" + NatToString(count)
  }

  /** `f"{model}_{year}_pg{page_num}_{count}.png"`. */
  function ImageFileName(model: string, year: Option<string>, page: nat, count: nat): string {
    model + "_" + YearText(year) + "_pg" + NatToString(page) + "_" + NatToString(count) + ".png"
  }

  /** The path names a `.png` file. */
  predicate IsPng(p: string) {
    |p| >= 4 && p[|p| - 4..] == ".png"
  }

  /**
   * `str(dir / part)` for a directory `dir` as pathlib prints it and a part
   * without `/`: an empty or `.` part adds nothing, the current directory `.`
   * is dropped, and one separator joins the two (none after the root `/`).
   */
  function PathJoin(dir: string, part: string): (p: string)
    ensures part == "" || part == "." ==> p == dir
    ensures part != "" && part != "." ==> |p| >= |part| && p[|p| - |part|..] == part
    ensures part != "" && part != "." && dir != "" && dir != "." && dir[|dir| - 1] != '/' ==> p == dir + "/" + part
  {
    if part == "" || part == "." then dir
    else if dir == "" || dir == "." then part
    else if dir[|dir| - 1] == '/' then dir + part
    else dir + "/" + part
  }

  /** `str(images_dir / model / file_name)`: the crop's file inside the model's directory. */
  function ImagePath(imagesDir: string, model: string, year: Option<string>, page: nat, count: nat): (p: string)
    ensures IsPng(p)
    ensures |p| >= |ImageFileName(model, year, page, count)|
    ensures p[|p| - |ImageFileName(model, year, page, count)|..] == ImageFileName(model, year, page, count)
  {
    var name := ImageFileName(model, year, page, count);
    assert name == (model + "_" + YearText(year) + "_pg" + NatToString(page) + "_" + NatToString(count)) + ".png";
    assert name[|name| - 4..] == ".png";
    PathJoin(PathJoin(imagesDir, model), name)
  }

  /** With a plain directory and a non-empty model name, the path is `dir/model/file`. */
  lemma ImagePathPlain(imagesDir: string, model: string, year: Option<string>, page: nat, count: nat)
    requires imagesDir != "" && imagesDir != "." && imagesDir[|imagesDir| - 1] != '/'
    requires model != "" && model != "." && model[|model| - 1] != '/'
    ensures ImagePath(imagesDir, model, year, page, count) == imagesDir + "/" + model + "/" + ImageFileName(model, year, page, count)
  {
  }

  /** A model name that cleans to `""` adds no directory: the crop lies directly in the images directory. */
  lemma EmptyModelPathExample()
    ensures ImagePath("images", "", None, 0, 1) == "images/_None_pg0_1.png"
  {
    assert NatToString(0) == "0" && NatToString(1) == "1";
  }

  /** Length of the run of decimal digits at the front of `s`. */
  function LeadingDigits(s: string): nat
  {
    if s != [] && '0' <= s[0] <= '9' then 1 + LeadingDigits(s[1..]) else 0
  }

  lemma {:induction false} LeadingDigitsOf(a: string, b: string)
    requires forall ch :: ch in a ==> '0' <= ch <= '9'
    ensures LeadingDigits(a + "_" + b) == |a|
    decreases |a|
  {
    if a == [] {
      assert a + "_" + b == "_" + b;
    } else {
      assert a[0] in a && (a + "_" + b)[0] == a[0];
      assert forall ch :: ch in a[1..] ==> ch in a;
      assert (a + "_" + b)[1..] == a[1..] + "_" + b;
      LeadingDigitsOf(a[1..], b);
    }
  }

  lemma {:induction false} DigitsThenUnderscore(a: string, b: string, c: string, d: string)
    requires forall ch :: ch in a ==> '0' <= ch <= '9'
    requires forall ch :: ch in c ==> '0' <= ch <= '9'
    requires a + "_" + b == c + "_" + d
    ensures a == c && b == d
  {
    var s := a + "_" + b;
    LeadingDigitsOf(a, b);
    LeadingDigitsOf(c, d);
    assert |a| == |c|;
    assert a == s[..|a|] == c;
    assert b == s[|a| + 1..] == d;
  }

  /** Within one document, a drawing id names one page and one sequence number. */
  lemma {:induction false} DrawingIdUnique(model: string, year: Option<string>, p1: nat, c1: nat, p2: nat, c2: nat)
    requires DrawingId(model, year, p1, c1) == DrawingId(model, year, p2, c2)
    ensures p1 == p2 && c1 == c2
  {
    var prefix := model + "_" + YearText(year) + "_diagram_pg";
    var t1 := NatToString(p1) + "_" + NatToString(c1);
    var t2 := NatToString(p2) + "_" + NatToString(c2);
    assert DrawingId(model, year, p1, c1) == prefix + t1;
    assert DrawingId(model, year, p2, c2) == prefix + t2;
    assert t1 == (prefix + t1)[|prefix|..];
    assert t2 == (prefix + t2)[|prefix|..];
    DigitsThenUnderscore(NatToString(p1), NatToString(c1), NatToString(p2), NatToString(c2));
    NatToStringInjective(p1, p2);
    NatToStringInjective(c1, c2);
  }

  /**
   * `_extract_diagram` for the `count`-th ranked contour of page `page`: the
   * padded box, the deterministic names, the image path as `source_pdf`; it
   * raises when the crop cannot be saved.
   */
  function ExtractDiagram(
    c: Contour, width: nat, height: nat, failedSaves: set<nat>,
    imagesDir: string, model: string, year: Option<string>, page: nat, count: nat): (r: Result<DiagramInfo>)
    ensures r.Ok? <==> count !in failedSaves
    ensures r.Ok? ==>
      && r.value.drawingId == DrawingId(model, year, page, count)
      && r.value.imagePath == ImagePath(imagesDir, model, year, page, count)
      && r.value.sourcePdf == r.value.imagePath
      && r.value.pageNumber == page && r.value.model == model && r.value.year == year
      && Box(r.value.x, r.value.y, r.value.width, r.value.height) == PadBox(c, width, height)
  {
    if count in failedSaves then Err("the diagram image could not be saved")
    else
      var b := PadBox(c, width, height);
      var path := ImagePath(imagesDir, model, year, page, count);
      Ok(DiagramInfo(DrawingId(model, year, page, count), b.x, b.y, b.w, b.h, page, path, model, year, path))
  }

  /** The diagrams kept from the first `n` ranked contours of one page; a crop that raises is skipped. */
  function PageDiagrams(
    ranked: seq<Contour>, n: nat, width: nat, height: nat, failedSaves: set<nat>,
    imagesDir: string, model: string, year: Option<string>, page: nat): (r: seq<DiagramInfo>)
    requires n <= |ranked|
    ensures |r| <= n
  {
    if n == 0 then []
    else
      var prev := PageDiagrams(ranked, n - 1, width, height, failedSaves, imagesDir, model, year, page);
      match ExtractDiagram(ranked[n - 1], width, height, failedSaves, imagesDir, model, year, page, n)
      case Ok(d) => prev + [d]
      case Err(_) => prev
  }

  /** When no crop of the page fails, the `k`-th diagram is the `k`-th ranked contour, numbered from 1. */
  lemma {:induction false} PageDiagramsNumbered(
    ranked: seq<Contour>, n: nat, width: nat, height: nat, failedSaves: set<nat>,
    imagesDir: string, model: string, year: Option<string>, page: nat)
    requires n <= |ranked|
    requires forall k :: 1 <= k <= n ==> k !in failedSaves
    ensures var r := PageDiagrams(ranked, n, width, height, failedSaves, imagesDir, model, year, page);
      && |r| == n
      && forall k :: 0 <= k < n ==>
           r[k].drawingId == DrawingId(model, year, page, k + 1)
           && Box(r[k].x, r[k].y, r[k].width, r[k].height) == PadBox(ranked[k], width, height)
  {
    if n > 0 {
      PageDiagramsNumbered(ranked, n - 1, width, height, failedSaves, imagesDir, model, year, page);
      var prev := PageDiagrams(ranked, n - 1, width, height, failedSaves, imagesDir, model, year, page);
      var d := ExtractDiagram(ranked[n - 1], width, height, failedSaves, imagesDir, model, year, page, n);
      var r := PageDiagrams(ranked, n, width, height, failedSaves, imagesDir, model, year, page);
      assert d.Ok? && r == prev + [d.value];
      forall k | 0 <= k < n
        ensures r[k].drawingId == DrawingId(model, year, page, k + 1)
        ensures Box(r[k].x, r[k].y, r[k].width, r[k].height) == PadBox(ranked[k], width, height)
      {
        if k < n - 1 {
          assert r[k] == prev[k];
        }
      }
    }
  }

  /** The sequence numbers `1..n` whose crop is saved, in increasing order. */
  function SavedCounts(n: nat, failedSaves: set<nat>): (ks: seq<nat>)
    ensures forall k: int :: k in ks <==> 1 <= k <= n && k !in failedSaves
    ensures forall a, b :: 0 <= a < b < |ks| ==> ks[a] < ks[b]
  {
    if n == 0 then []
    else
      var prev := SavedCounts(n - 1, failedSaves);
      var ks := prev + (if n in failedSaves then [] else [n]);
      assert forall a :: 0 <= a < |prev| ==> prev[a] in prev && ks[a] == prev[a];
      ks
  }

  /** `d` is the diagram cropped from the `k`-th ranked contour with sequence number `k`. */
  predicate CroppedAs(
    d: DiagramInfo, ranked: seq<Contour>, width: nat, height: nat, failedSaves: set<nat>,
    imagesDir: string, model: string, year: Option<string>, page: nat, k: int)
  {
    && 1 <= k <= |ranked|
    && ExtractDiagram(ranked[k - 1], width, height, failedSaves, imagesDir, model, year, page, k) == Ok(d)
  }

  /**
   * Whatever crops fail, the page's diagrams are those of the saved sequence
   * numbers `k`, in increasing order: diagram `j` is the `k`-th ranked contour
   * cropped with number `k`, and its id names `k`.
   */
  lemma {:induction false} PageDiagramsKept(
    ranked: seq<Contour>, n: nat, width: nat, height: nat, failedSaves: set<nat>,
    imagesDir: string, model: string, year: Option<string>, page: nat)
    requires n <= |ranked|
    ensures var r := PageDiagrams(ranked, n, width, height, failedSaves, imagesDir, model, year, page);
      var ks := SavedCounts(n, failedSaves);
      && |r| == |ks|
      && forall j :: 0 <= j < |r| ==>
           && CroppedAs(r[j], ranked, width, height, failedSaves, imagesDir, model, year, page, ks[j])
           && r[j].drawingId == DrawingId(model, year, page, ks[j])
  {
    if n > 0 {
      PageDiagramsKept(ranked, n - 1, width, height, failedSaves, imagesDir, model, year, page);
      var prev := PageDiagrams(ranked, n - 1, width, height, failedSaves, imagesDir, model, year, page);
      var r := PageDiagrams(ranked, n, width, height, failedSaves, imagesDir, model, year, page);
      var pks := SavedCounts(n - 1, failedSaves);
      var ks := SavedCounts(n, failedSaves);
      var d := ExtractDiagram(ranked[n - 1], width, height, failedSaves, imagesDir, model, year, page, n);
      if n in failedSaves {
        assert r == prev && ks == pks;
      } else {
        assert r == prev + [d.value] && ks == pks + [n];
        assert CroppedAs(d.value, ranked, width, height, failedSaves, imagesDir, model, year, page, n);
        forall j | 0 <= j < |r|
          ensures CroppedAs(r[j], ranked, width, height, failedSaves, imagesDir, model, year, page, ks[j])
          ensures r[j].drawingId == DrawingId(model, year, page, ks[j])
        {
          if j < |prev| {
            assert r[j] == prev[j] && ks[j] == pks[j];
          }
        }
      }
    }
  }

  /** One page's contribution, or the error that aborts the document. */
  function PageResult(pageImage: RenderedPage, imagesDir: string, model: string, year: Option<string>, page: nat)
    : (r: Result<seq<DiagramInfo>>)
  {
    match pageImage
    case RenderFailed(reason) => Err(reason)
    case Rendered(width, height, contours, failedSaves) =>
      match RankedCandidates(contours)
      case Err(e) => Err(e)
      case Ok(ranked) => Ok(PageDiagrams(ranked, |ranked|, width, height, failedSaves, imagesDir, model, year, page))
  }

  /**
   * `extract_diagrams_from_pdf` over the first `n` pages: page by page (0-based
   * page numbers), the first error anywhere aborts the whole document.
   */
  function DiagramsUpTo(pages: seq<RenderedPage>, n: nat, imagesDir: string, model: string, year: Option<string>)
    : (r: Result<seq<DiagramInfo>>)
    requires n <= |pages|
  {
    if n == 0 then Ok([])
    else
      match DiagramsUpTo(pages, n - 1, imagesDir, model, year)
      case Err(e) => Err(e)
      case Ok(ds) =>
        match PageResult(pages[n - 1], imagesDir, model, year, n - 1)
        case Err(e) => Err(e)
        case Ok(pd) => Ok(ds + pd)
  }

  /** Every diagram of a page carries that page's number, and its image path, a `.png`, as its source. */
  lemma {:induction false} PageDiagramsFields(
    ranked: seq<Contour>, n: nat, width: nat, height: nat, failedSaves: set<nat>,
    imagesDir: string, model: string, year: Option<string>, page: nat)
    requires n <= |ranked|
    ensures forall d :: d in PageDiagrams(ranked, n, width, height, failedSaves, imagesDir, model, year, page) ==>
      d.pageNumber == page && d.sourcePdf == d.imagePath && IsPng(d.imagePath)
  {
    if n > 0 {
      PageDiagramsFields(ranked, n - 1, width, height, failedSaves, imagesDir, model, year, page);
    }
  }

  /** Every diagram comes from one of the first `n` pages and names its `.png` image as its source. */
  predicate FromPages(ds: seq<DiagramInfo>, n: nat) {
    forall i :: 0 <= i < |ds| ==> ds[i].pageNumber < n && ds[i].sourcePdf == ds[i].imagePath && IsPng(ds[i].imagePath)
  }

  predicate PageOrdered(ds: seq<DiagramInfo>) {
    forall i, j :: 0 <= i < j < |ds| ==> ds[i].pageNumber <= ds[j].pageNumber
  }

  lemma AppendPage(ds: seq<DiagramInfo>, pd: seq<DiagramInfo>, page: nat)
    requires FromPages(ds, page) && PageOrdered(ds)
    requires forall d :: d in pd ==> d.pageNumber == page && d.sourcePdf == d.imagePath && IsPng(d.imagePath)
    ensures FromPages(ds + pd, page + 1) && PageOrdered(ds + pd)
  {
    var r := ds + pd;
    forall i | |ds| <= i < |r| ensures r[i] in pd {
      assert r[i] == pd[i - |ds|];
    }
  }

  /** The diagrams of the first `n` pages come in page order, each from one of those pages. */
  lemma {:induction false} DiagramsUpToFields(pages: seq<RenderedPage>, n: nat, imagesDir: string, model: string, year: Option<string>)
    requires n <= |pages|
    ensures var r := DiagramsUpTo(pages, n, imagesDir, model, year);
      r.Ok? ==> FromPages(r.value, n) && PageOrdered(r.value)
  {
    if n > 0 {
      DiagramsUpToFields(pages, n - 1, imagesDir, model, year);
      var prev := DiagramsUpTo(pages, n - 1, imagesDir, model, year);
      var p := pages[n - 1];
      if prev.Ok? && p.Rendered? && RankedCandidates(p.contours).Ok? {
        var ranked := RankedCandidates(p.contours).value;
        PageDiagramsFields(ranked, |ranked|, p.width, p.height, p.failedSaves, imagesDir, model, year, n - 1);
        AppendPage(prev.value, PageDiagrams(ranked, |ranked|, p.width, p.height, p.failedSaves, imagesDir, model, year, n - 1), n - 1);
      }
    }
  }

  /** Rendering the page raised, or one of its contours divides by zero. */
  predicate PageFails(p: RenderedPage) {
    p.RenderFailed? || RankedCandidates(p.contours).Err?
  }

  /** The document fails exactly when some page fails to render or holds a contour dividing by zero. */
  lemma {:induction false} DiagramsFailure(pages: seq<RenderedPage>, n: nat, imagesDir: string, model: string, year: Option<string>)
    requires n <= |pages|
    ensures DiagramsUpTo(pages, n, imagesDir, model, year).Err? <==> exists i :: 0 <= i < n && PageFails(pages[i])
  {
    if n > 0 {
      DiagramsFailure(pages, n - 1, imagesDir, model, year);
      if PageFails(pages[n - 1]) {
        assert DiagramsUpTo(pages, n, imagesDir, model, year).Err?;
      } else {
        if exists i :: 0 <= i < n && PageFails(pages[i]) {
          var i :| 0 <= i < n && PageFails(pages[i]);
          assert i < n - 1;
        }
      }
    }
  }

  /** Once a prefix of the pages has failed, every longer prefix fails with the same error. */
  lemma {:induction false} DiagramsErrSticky(pages: seq<RenderedPage>, n: nat, m: nat, imagesDir: string, model: string, year: Option<string>)
    requires n <= m <= |pages|
    requires DiagramsUpTo(pages, n, imagesDir, model, year).Err?
    ensures DiagramsUpTo(pages, m, imagesDir, model, year) == DiagramsUpTo(pages, n, imagesDir, model, year)
    decreases m - n
  {
    if n < m {
      DiagramsErrSticky(pages, n, m - 1, imagesDir, model, year);
    }
  }

  /** A rendered page whose contours rank without error adds its diagrams to the document's. */
  lemma DiagramsStep(pages: seq<RenderedPage>, n: nat, imagesDir: string, model: string, year: Option<string>,
                     ds: seq<DiagramInfo>, ranked: seq<Contour>)
    requires n < |pages| && pages[n].Rendered?
    requires DiagramsUpTo(pages, n, imagesDir, model, year) == Ok(ds)
    requires RankedCandidates(pages[n].contours) == Ok(ranked)
    ensures DiagramsUpTo(pages, n + 1, imagesDir, model, year) ==
      Ok(ds + PageDiagrams(ranked, |ranked|, pages[n].width, pages[n].height, pages[n].failedSaves, imagesDir, model, year, n))
  {
  }

  /** A page that fails to render or to rank its contours ends the document with that page's error. */
  lemma DiagramsAbort(pages: seq<RenderedPage>, n: nat, imagesDir: string, model: string, year: Option<string>, e: string)
    requires n < |pages| && DiagramsUpTo(pages, n, imagesDir, model, year).Ok?
    requires if pages[n].RenderFailed? then e == pages[n].reason else RankedCandidates(pages[n].contours) == Err(e)
    ensures DiagramsUpTo(pages, |pages|, imagesDir, model, year) == Err(e)
  {
    assert PageResult(pages[n], imagesDir, model, year, n) == Err(e);
    assert DiagramsUpTo(pages, n + 1, imagesDir, model, year) == Err(e);
    DiagramsErrSticky(pages, n + 1, |pages|, imagesDir, model, year);
  }

  /** The inner loop of `extract_diagrams_from_pdf`: one diagram per ranked contour, counted from 1. */
  method ExtractPageDiagrams(
    potential: seq<Contour>, width: nat, height: nat, failedSaves: set<nat>,
    imagesDir: string, model: string, year: Option<string>, pageNum: nat) returns (found: seq<DiagramInfo>)
    ensures found == PageDiagrams(potential, |potential|, width, height, failedSaves, imagesDir, model, year, pageNum)
  {
    found := [];
    var count := 1;
    while count <= |potential|
      invariant 1 <= count <= |potential| + 1
      invariant found == PageDiagrams(potential, count - 1, width, height, failedSaves, imagesDir, model, year, pageNum)
    {
      var diagram := ExtractDiagram(potential[count - 1], width, height, failedSaves, imagesDir, model, year, pageNum, count);
      if diagram.Ok? {
        found := found + [diagram.value];
      }
      count := count + 1;
    }
  }

  /** `extract_diagrams_from_pdf`: nested loops over pages and their ranked contours. */
  method ExtractDiagramsFromPdf(pages: seq<RenderedPage>, imagesDir: string, model: string, year: Option<string>)
    returns (r: Result<seq<DiagramInfo>>)
    ensures r == DiagramsUpTo(pages, |pages|, imagesDir, model, year)
  {
    var drawings: seq<DiagramInfo> := [];
    var pageNum := 0;
    while pageNum < |pages|
      invariant 0 <= pageNum <= |pages|
      invariant DiagramsUpTo(pages, pageNum, imagesDir, model, year) == Ok(drawings)
    {
      var pageImage := pages[pageNum];
      if pageImage.RenderFailed? {
        DiagramsAbort(pages, pageNum, imagesDir, model, year, pageImage.reason);
        return Err(pageImage.reason);
      }
      var found := FindDiagrams(pageImage.contours);
      if found.Err? {
        DiagramsAbort(pages, pageNum, imagesDir, model, year, found.error);
        return Err(found.error);
      }
      var diagrams := ExtractPageDiagrams(found.value, pageImage.width, pageImage.height,
        pageImage.failedSaves, imagesDir, model, year, pageNum);
      DiagramsStep(pages, pageNum, imagesDir, model, year, drawings, found.value);
      drawings := drawings + diagrams;
      pageNum := pageNum + 1;
    }
    r := Ok(drawings);
  }

  /** The dictionary projection of `extract_diagram_from_pdf`: same length and order, `width`/`height` as `w`/`h`. */
  function AsDrawings(ds: seq<DiagramInfo>): (r: seq<Drawing>)
    ensures |r| == |ds|
    ensures forall i :: 0 <= i < |ds| ==>
      r[i] == Drawing(ds[i].drawingId, ds[i].x, ds[i].y, ds[i].width, ds[i].height, ds[i].pageNumber,
                      ds[i].imagePath, ds[i].model, ds[i].year, ds[i].sourcePdf)
  {
    seq(|ds|, i requires 0 <= i < |ds| =>
      Drawing(ds[i].drawingId, ds[i].x, ds[i].y, ds[i].width, ds[i].height, ds[i].pageNumber,
              ds[i].imagePath, ds[i].model, ds[i].year, ds[i].sourcePdf))
  }

  /** `extract_diagram_from_pdf`: the detector's records as dictionaries; its errors propagate. */
  method ExtractDiagramFromPdf(pages: seq<RenderedPage>, imagesDir: string, model: string, year: Option<string>)
    returns (r: Result<seq<Drawing>>)
    ensures r.Err? <==> DiagramsUpTo(pages, |pages|, imagesDir, model, year).Err?
    ensures r.Err? ==> r.error == DiagramsUpTo(pages, |pages|, imagesDir, model, year).error
    ensures r.Ok? ==> r.value == AsDrawings(DiagramsUpTo(pages, |pages|, imagesDir, model, year).value)
  {
    var diagrams := ExtractDiagramsFromPdf(pages, imagesDir, model, year);
    if diagrams.Err? {
      return Err(diagrams.error);
    }
    r := Ok(AsDrawings(diagrams.value));
  }
}
