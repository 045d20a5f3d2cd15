/**
  The report view: the model's answer is cut at the first page marker into
  the main report and the health-trend report, the trend section is shown
  only when its text is non-empty, and the PDF export lays out one page per
  shown section.
 */
module ResultCard {
  import opened Wrappers
  import opened Strings
  import GeminiService

  /** The marker the trend prompt asks the model to put between the two reports. */
  const NewPageMarker := "---NEW_PAGE---"

  /** The view cuts at the same marker the trend prompt asks for. */
  lemma MarkerIsPromptSeparator()
    ensures NewPageMarker == GeminiService.NewPageSeparator
  {
  }

  /** `[mainResult, trendResult]`: the first two pieces of the split, the
      second one `undefined` when the text holds no marker. */
  datatype Report = Report(main: string, trend: Option<string>)

  /** `result.split('---NEW_PAGE---')` destructured into its first two pieces. */
  function SplitReport(result: string): (r: Report)
    ensures !Includes(r.main, NewPageMarker)
    ensures r.trend.Some? ==> !Includes(r.trend.value, NewPageMarker)
    ensures r.trend.None? ==> r.main == result
  {
    SplitPiecesFree(result, NewPageMarker);
    var pieces := Split(result, NewPageMarker);
    Report(pieces[0], if |pieces| >= 2 then Some(pieces[1]) else None)
  }

  /** `{trendResult && ...}`: the trend section is rendered only for a
      present, non-empty second piece. */
  predicate TrendRendered(r: Report) {
    r.trend.Some? && r.trend.value != ""
  }

  /** Without a marker the whole text is the main report and there is no
      trend piece; with one, there is. */
  lemma SplitNoMarker(result: string)
    ensures SplitReport(result).trend.None? <==> !Includes(result, NewPageMarker)
    ensures !Includes(result, NewPageMarker) ==> SplitReport(result) == Report(result, None)
  {
  }

  /** An empty answer is an empty main report with no trend. */
  lemma SplitEmpty()
    ensures SplitReport("") == Report("", None)
    ensures !TrendRendered(SplitReport(""))
  {
    assert !OccursAt("", NewPageMarker, 0);
  }

  /** With exactly one marker, the two pieces and the marker between them
      give back the whole text. */
  lemma {:induction false} SplitOneMarker(a: string, b: string)
    requires IndexOf(a + NewPageMarker, NewPageMarker) == |a|
    requires !Includes(b, NewPageMarker)
    ensures SplitReport(a + NewPageMarker + b) == Report(a, Some(b))
    ensures SplitReport(a + NewPageMarker + b).main + NewPageMarker
            + SplitReport(a + NewPageMarker + b).trend.value == a + NewPageMarker + b
  {
    SplitAtFirst(a, b, NewPageMarker);
    SplitNoMarker(b);
  }

  /** With two or more markers the trend report is only the text between the
      first and the second; whatever follows the second is never shown. */
  lemma {:induction false} SplitTwoMarkers(a: string, b: string, c: string)
    requires IndexOf(a + NewPageMarker, NewPageMarker) == |a|
    requires IndexOf(b + NewPageMarker, NewPageMarker) == |b|
    ensures SplitReport(a + NewPageMarker + b + NewPageMarker + c) == Report(a, Some(b))
  {
    SplitTwoAtFirst(a, b, c, NewPageMarker);
  }

  /** A text that ends with its first marker has an empty trend piece, so
      no trend section is rendered. */
  lemma {:induction false} SplitTrailingMarker(a: string)
    requires IndexOf(a + NewPageMarker, NewPageMarker) == |a|
    ensures SplitReport(a + NewPageMarker) == Report(a, Some(""))
    ensures !TrendRendered(SplitReport(a + NewPageMarker))
  {
    assert a + NewPageMarker == a + NewPageMarker + "";
    SplitOneMarker(a, "");
  }

  /** For every text: neither shown piece contains the marker; with no trend
      piece the main report is the whole text; otherwise the text is the main
      report, a marker and the trend report, followed either by nothing or
      by a second marker and the text that is dropped. */
  lemma {:induction false} SplitReassembles(result: string)
    ensures !Includes(SplitReport(result).main, NewPageMarker)
    ensures SplitReport(result).trend.Some? ==> !Includes(SplitReport(result).trend.value, NewPageMarker)
    ensures SplitReport(result).trend.None? ==> SplitReport(result).main == result
    ensures SplitReport(result).trend.Some? ==>
      (exists dropped :: (result == SplitReport(result).main + NewPageMarker + SplitReport(result).trend.value + dropped
        && (dropped == "" || StartsWith(dropped, NewPageMarker))))
  {
    var dropped := SplitFirstTwo(result, NewPageMarker);
    if SplitReport(result).trend.Some? {
      assert result == SplitReport(result).main + NewPageMarker + SplitReport(result).trend.value + dropped;
    }
  }

  // ---- PDF export ----------------------------------------------------------

  /** A captured section: its size in pixels and its PNG data URL. */
  datatype Canvas = Canvas(width: nat, height: nat, image: string)

  /** An image placed on a page, as `addImage(data, format, x, y, w, h)` places it. */
  datatype Placed = Placed(image: string, format: string, x: int, y: int, width: nat, height: nat)

  datatype Page = Page(width: nat, height: nat, orientation: string, images: seq<Placed>)

  /** What `pdf.save(name)` writes. */
  datatype SavedPdf = SavedPdf(fileName: string, pages: seq<Page>)

  const ReportFileName := "Purus-Report.pdf"

  /** The `jsPDF` document: a sequence of pages; images go on the last one. */
  class PdfDocument {
    var pages: seq<Page>

    /** `new jsPDF({orientation, unit: 'px', format: [width, height]})` */
    constructor(orientation: string, width: nat, height: nat)
      ensures pages == [Page(width, height, orientation, [])]
    {
      pages := [Page(width, height, orientation, [])];
    }

    /** `pdf.addImage(...)`: the image goes on the current (last) page. */
    method AddImage(image: string, format: string, x: int, y: int, width: nat, height: nat)
      requires |pages| > 0
      modifies this
      ensures |pages| == |old(pages)|
      ensures pages[..|pages| - 1] == old(pages)[..|pages| - 1]
      ensures var last := old(pages)[|pages| - 1];
        pages[|pages| - 1] == last.(images := last.images + [Placed(image, format, x, y, width, height)])
    {
      var last := pages[|pages| - 1];
      pages := pages[..|pages| - 1] + [last.(images := last.images + [Placed(image, format, x, y, width, height)])];
    }

    /** `pdf.addPage([width, height], orientation)`: a new, empty current page. */
    method AddPage(width: nat, height: nat, orientation: string)
      modifies this
      ensures pages == old(pages) + [Page(width, height, orientation, [])]
    {
      pages := pages + [Page(width, height, orientation, [])];
    }

    /** `pdf.save(fileName)` */
    method Save(fileName: string) returns (saved: SavedPdf)
      ensures saved == SavedPdf(fileName, pages)
    {
      saved := SavedPdf(fileName, pages);
    }
  }

  /** The page a captured section gets: its own size, portrait, with the
      section's image filling it from the top-left corner. */
  function SectionPage(c: Canvas): Page {
    Page(c.width, c.height, "portrait", [Placed(c.image, "PNG", 0, 0, c.width, c.height)])
  }

  /** The pages exported for an answer, given how each section's text is
      captured: the main section, then the trend section if it is rendered. */
  function ReportPages(result: string, capture: string -> Canvas): (pages: seq<Page>)
    ensures 1 <= |pages| <= 2 && pages[0] == SectionPage(capture(SplitReport(result).main))
    ensures |pages| == 2 <==> TrendRendered(SplitReport(result))
    ensures |pages| == 2 ==> pages[1] == SectionPage(capture(SplitReport(result).trend.value))
  {
    var r := SplitReport(result);
    [SectionPage(capture(r.main))] + (if TrendRendered(r) then [SectionPage(capture(r.trend.value))] else [])
  }

  /** One page per rendered section, main first and then the trend section:
      two pages exactly when the trend section is rendered, so an answer without a marker, or ending in
      its first marker, exports one page. */
  lemma {:induction false} ReportPageCount(result: string, capture: string -> Canvas)
    ensures 1 <= |ReportPages(result, capture)| <= 2
    ensures |ReportPages(result, capture)| == 2 <==> TrendRendered(SplitReport(result))
    ensures ReportPages(result, capture)[0] == SectionPage(capture(SplitReport(result).main))
    ensures |ReportPages(result, capture)| == 2 ==>
      ReportPages(result, capture)[1] == SectionPage(capture(SplitReport(result).trend.value))
    ensures !Includes(result, NewPageMarker) ==> ReportPages(result, capture) == [SectionPage(capture(result))]
    ensures IndexOf(result, NewPageMarker) >= 0 && IndexOf(result, NewPageMarker) + |NewPageMarker| == |result| ==>
      |ReportPages(result, capture)| == 1
  {
    SplitNoMarker(result);
    var m := NewPageMarker;
    if IndexOf(result, m) >= 0 && IndexOf(result, m) + |m| == |result| {
      var a := result[..|result| - |m|];
      assert result[|a|..|a| + |m|] == m;
      assert result == a + m;
      SplitTrailingMarker(a);
    }
  }

  /** `downloadPdf`: nothing is exported while the main section is not
      mounted; otherwise the main section's page, then the trend section's
      page when that section is rendered, saved as "Purus-Report.pdf". */
  method DownloadPdf(result: string, mainMounted: bool, capture: string -> Canvas) returns (saved: Option<SavedPdf>)
    ensures !mainMounted ==> saved.None?
    ensures mainMounted ==> saved == Some(SavedPdf(ReportFileName, ReportPages(result, capture)))
  {
    if !mainMounted {
      return None;
    }
    var r := SplitReport(result);
    var mainCanvas := capture(r.main);
    var pdf := new PdfDocument("portrait", mainCanvas.width, mainCanvas.height);
    pdf.AddImage(mainCanvas.image, "PNG", 0, 0, mainCanvas.width, mainCanvas.height);
    assert pdf.pages[0] == SectionPage(mainCanvas);
    assert pdf.pages == [SectionPage(mainCanvas)];
    if TrendRendered(r) {
      var trendCanvas := capture(r.trend.value);
      pdf.AddPage(trendCanvas.width, trendCanvas.height, "portrait");
      pdf.AddImage(trendCanvas.image, "PNG", 0, 0, trendCanvas.width, trendCanvas.height);
      assert pdf.pages[0] == SectionPage(mainCanvas);
      assert pdf.pages[1] == SectionPage(trendCanvas);
      assert pdf.pages == [SectionPage(mainCanvas), SectionPage(trendCanvas)];
    }
    assert pdf.pages == ReportPages(result, capture);
    var s := pdf.Save(ReportFileName);
    saved := Some(s);
  }
}
