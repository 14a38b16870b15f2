/**
 * Turning an input document into the list of page images the pipeline works on: a PDF
 * is rendered page by page over a clamped page range, and a single image is copied into
 * the pages directory as page 1. Rendering itself is not modelled; a document is known
 * by its page count, and the pages directory by the files it holds.
 */
module ImageProcessing {
  import opened Wrappers
  import Strings

  /** An image file and the 1-based page number it shows. */
  type PageImage = (string, int)

  /** The first page rendered, `max(1, min(start_page, total_pages))`. */
  function FirstPage(start: int, total: nat): (s: int)
    ensures 1 <= s
    ensures total >= 1 ==> s <= total
    ensures 1 <= start <= total ==> s == start
    ensures start < 1 ==> s == 1
    ensures total >= 1 && start > total ==> s == total
  {
    var m := if start < total then start else total;
    if m < 1 then 1 else m
  }

  /** The last page rendered: the page count when no end is given, otherwise
      `max(start_page, min(end_page, total_pages))`. */
  function LastPage(first: int, end: Option<int>, total: nat): (e: int)
    ensures end.None? ==> e == total
    ensures end.Some? ==> first <= e
    ensures end.Some? && first <= total ==> e <= total
    ensures end.Some? && first <= end.value <= total ==> e == end.value
  {
    match end
    case None => total
    case Some(n) =>
      var m := if n < total then n else total;
      if m < first then first else m
  }

  /** Where page `n` of a PDF is rendered. */
  function PagePath(dir: string, n: int): string
  {
    Strings.PathJoin(dir, "page_" + Strings.IntToString(n) + ".png")
  }

  /** The page images for pages `first` to `last` inclusive. */
  function PageImages(dir: string, first: int, last: int): seq<PageImage>
  {
    seq(if first <= last then last - first + 1 else 0, i => (PagePath(dir, first + i), first + i))
  }

  /** What `extract_images_from_pdf` returns for a document of `pageCount` pages (`None`
      when the document cannot be opened). */
  function PdfImages(pageCount: Option<nat>, dir: string, start: int, end: Option<int>): Outcome<seq<PageImage>>
  {
    match pageCount
    case None => Raised
    case Some(total) =>
      var first := FirstPage(start, total);
      var last := LastPage(first, end, total);
      if last > total then Raised else Ok(PageImages(dir, first, last))
  }

  /**
   * `extract_images_from_pdf`: renders the clamped range page by page. Opening a missing
   * document raises, and so does loading a page past the end, which happens for an empty
   * document given an end page.
   */
  method ExtractImagesFromPdf(pageCount: Option<nat>, outputDir: string, start: int, end: Option<int>)
    returns (r: Outcome<seq<PageImage>>)
    ensures r == PdfImages(pageCount, outputDir, start, end)
  {
    if pageCount.None? {
      return Raised;
    }
    var total := pageCount.value;
    var first := FirstPage(start, total);
    var last := LastPage(first, end, total);
    var images: seq<PageImage> := [];
    var n := first;
    while n <= last
      invariant first <= n <= if first <= last then last + 1 else first
      invariant images == PageImages(outputDir, first, n - 1)
      invariant last > total ==> n <= total + 1
    {
      if n > total {
        return Raised;
      }
      images := images + [(PagePath(outputDir, n), n)];
      n := n + 1;
    }
    assert images == PageImages(outputDir, first, last);
    r := Ok(images);
  }

  /** For a non-empty document the pages rendered are consecutive, ascending, within the
      document, and run from the clamped start to the clamped end. */
  lemma PdfImagesInRange(total: nat, dir: string, start: int, end: Option<int>)
    requires total >= 1
    ensures PdfImages(Some(total), dir, start, end).Ok?
    ensures
      var images := PdfImages(Some(total), dir, start, end).value;
      var first := FirstPage(start, total);
      && |images| == LastPage(first, end, total) - first + 1
      && (forall i :: 0 <= i < |images| ==> images[i].1 == first + i && 1 <= images[i].1 <= total)
      && (forall i :: 0 <= i < |images| ==> images[i].0 == PagePath(dir, images[i].1))
  {
  }

  /** Without an end page every page from the clamped start to the last page is rendered. */
  lemma PdfImagesToEnd(total: nat, dir: string, start: int, n: int)
    requires total >= 1
    requires FirstPage(start, total) <= n <= total
    ensures exists i ::
      0 <= i < |PdfImages(Some(total), dir, start, None).value| && PdfImages(Some(total), dir, start, None).value[i].1 == n
  {
    var images := PdfImages(Some(total), dir, start, None).value;
    assert images[n - FirstPage(start, total)].1 == n;
  }

  /** An empty document renders nothing when no end page is given and raises otherwise. */
  lemma EmptyPdf(dir: string, start: int, end: Option<int>)
    ensures PdfImages(Some(0), dir, start, end) == if end.None? then Ok([]) else Raised
  {
    assert |PageImages(dir, 1, 0)| == 0;
  }

  /** The pages directory: the files it holds, each mapped to the file it was copied from. */
  class PagesDir {
    var files: map<string, string>

    constructor (files: map<string, string>)
      ensures this.files == files
    {
      this.files := files;
    }

    /** `prepare_input_image`: the image in the pages directory as the only page, page 1,
        copied there only when no file of that name is present. */
    method PrepareInputImage(inputFile: string, pagesDir: string) returns (r: seq<PageImage>, copied: bool)
      modifies this
      ensures r == [(Strings.PathJoin(pagesDir, Strings.Basename(inputFile)), 1)]
      ensures copied <==> r[0].0 !in old(files)
      ensures files == if copied then old(files)[r[0].0 := inputFile] else old(files)
    {
      var dest := Strings.PathJoin(pagesDir, Strings.Basename(inputFile));
      copied := dest !in files;
      if copied {
        files := files[dest := inputFile];
      }
      r := [(dest, 1)];
    }
  }
}
