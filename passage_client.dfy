/**
 * The web view client of the reader's page loads
 * (module/PassageWebViewClient.kt). When a thread page has loaded it switches
 * to the "thread starter only" view, then runs three scripts (content html,
 * last page number, title) and reports the result through `onFinished`; a
 * main-frame error is reported at once as a failure.
 *
 * The `hasErrorOccurred` flag keeps a load from reporting anything after its
 * failure. The script results, and what `JSON.parse` makes of them, are
 * inputs; the chain of script callbacks is a queue of finished loads whose
 * results are still due. `onFinished` calls go to a log.
 */
module PassageClient {
  import opened Base

  // ---------------------------------------------------------------------------
  // Script results

  /** What `JSON.parse` does with a script result. */
  datatype JsonOutcome =
    | JsonString(value: string)  // the result is a JSON string
    | JsonNonString              // any other JSON value, `as? String` gives null
    | JsonSyntaxError            // a `JSONException`
    | JsonOtherFailure           // any other exception

  /** A result wrapped in double quotes. */
  predicate Quoted(s: string) {
    |s| >= 2 && StartsWith(s, "\"") && EndsWith(s, "\"")
  }

  /**
   * `unescapeJsResult`: null (absent or the text `null`) gives the empty
   * string, a JSON string gives its value, another JSON value the empty
   * string; text JSON rejects loses its outer quotes when it has them and is
   * otherwise kept, as it is after any other failure.
   */
  function UnescapeJsResult(jsString: Option<string>, parse: JsonOutcome): (r: string)
    ensures jsString.None? || jsString == Some("null") ==> r == ""
    ensures jsString.Some? && jsString != Some("null") && !parse.JsonString? ==> |r| <= |jsString.value|
    ensures jsString.Some? && jsString != Some("null") && parse.JsonSyntaxError? && Quoted(jsString.value) ==>
              jsString.value == "\"" + r + "\""
  {
    if jsString.None? || jsString.value == "null" then ""
    else
      match parse
      case JsonString(v) => v
      case JsonNonString => ""
      case JsonSyntaxError =>
        var s := jsString.value;
        if |s| >= 2 && StartsWith(s, "\"") && EndsWith(s, "\"") then s[1..|s| - 1] else s
      case JsonOtherFailure => jsString.value
  }

  /** A quoted text that JSON rejects comes back as the text between the quotes. */
  lemma UnquoteRoundTrip(t: string)
    ensures UnescapeJsResult(Some("\"" + t + "\""), JsonSyntaxError) == t
  {
    var s := "\"" + t + "\"";
    assert s != "null";
    assert Quoted(s);
    assert s[1..|s| - 1] == t;
  }

  /** Text JSON rejects that is not quoted, or fails otherwise, comes back unchanged. */
  lemma UnquotedKept(s: string, parse: JsonOutcome)
    requires s != "null"
    requires parse.JsonOtherFailure? || (parse.JsonSyntaxError? && !Quoted(s))
    ensures UnescapeJsResult(Some(s), parse) == s
  {
  }

  /** `maxPageString.toIntOrNull() ?: 1`. */
  function MaxPageOf(maxPageString: string): (r: int)
    ensures IsInt32(r)
    ensures r == 1 || ToIntOrNull(maxPageString) == Some(r)
  {
    match ToIntOrNull(maxPageString)
    case Some(n) => n
    case None => 1
  }

  /** Any page number the script returns as decimal text is reported as that number. */
  lemma MaxPageRoundTrip(n: int)
    requires IsInt32(n)
    ensures MaxPageOf(IntToString(n, 10)) == n
  {
    IntToStringRoundTrip(n);
  }

  // ---------------------------------------------------------------------------
  // Reports

  /** One `onFinished(success, contentHtml, url, maxPage, title)` call. */
  datatype Report = Report(success: bool, contentHtml: string, url: Option<string>, maxPage: int, title: Option<string>)

  /** `WebResourceRequest`: whether it is for the main frame, and its url. */
  datatype Request = Request(isForMainFrame: bool, url: string)

  /** The page a failed load reports. */
  function ErrorHtml(detail: string): string {
    "<html><body>[Error] 页面加载失败: " + detail + "</body></html>"
  }

  /** A nullable value in a Kotlin string template: its text, or `null`. */
  function DescriptionText(description: Option<string>): string {
    match description
    case Some(d) => d
    case None => "null"
  }

  function StatusText(statusCode: Option<int>): string {
    match statusCode
    case Some(c) => IntToString(c, 10)
    case None => "null"
  }

  /** The report of a main-frame failure: the error page for the request's url, one page, no title. */
  function FailureReport(request: Request, detail: string): (r: Report)
    ensures !r.success && r.url == Some(request.url) && r.maxPage == 1 && r.title.None?
    ensures StartsWith(r.contentHtml, "<html><body>[Error] ")
  {
    Report(false, ErrorHtml(detail), Some(request.url), 1, None)
  }

  /** The report of a load whose scripts have returned: the content wrapped in `<html>`, the page count, the title. */
  function SuccessReport(url: Option<string>, contentResult: Option<string>, contentParse: JsonOutcome,
                         maxPageResult: Option<string>, maxPageParse: JsonOutcome,
                         titleResult: Option<string>, titleParse: JsonOutcome): (r: Report)
    ensures r.success && r.url == url && r.title.Some?
    ensures StartsWith(r.contentHtml, "<html>") && EndsWith(r.contentHtml, "</html>")
    ensures |r.contentHtml| == |UnescapeJsResult(contentResult, contentParse)| + 13
    ensures r.contentHtml[6..|r.contentHtml| - 7] == UnescapeJsResult(contentResult, contentParse)
    ensures r.maxPage == match ToIntOrNull(UnescapeJsResult(maxPageResult, maxPageParse))
                         case Some(n) => n
                         case None => 1
  {
    var contentHtml := "<html>" + UnescapeJsResult(contentResult, contentParse) + "</html>";
    var maxPage := MaxPageOf(UnescapeJsResult(maxPageResult, maxPageParse));
    var title := UnescapeJsResult(titleResult, titleParse);
    assert contentHtml[..6] == "<html>";
    assert contentHtml[|contentHtml| - 7..] == "</html>";
    Report(true, contentHtml, url, maxPage, Some(title))
  }

  /**
   * The reports of one load, from its `onPageStarted` on: every report but
   * the last is a success, and the error flag is set exactly when the last
   * one is a failure.
   */
  predicate LoadOk(hasErrorOccurred: bool, rs: seq<Report>) {
    (forall i :: 0 <= i < |rs| - 1 ==> rs[i].success) &&
    (hasErrorOccurred <==> rs != [] && !rs[|rs| - 1].success)
  }

  /** The failures among some reports. */
  function Failures(rs: seq<Report>): nat {
    if rs == [] then 0 else Failures(rs[..|rs| - 1]) + (if rs[|rs| - 1].success then 0 else 1)
  }

  lemma {:induction false} AllSuccessNoFailures(rs: seq<Report>)
    requires forall i :: 0 <= i < |rs| ==> rs[i].success
    ensures Failures(rs) == 0
    decreases |rs|
  {
    if rs != [] {
      AllSuccessNoFailures(rs[..|rs| - 1]);
    }
  }

  /** A load reports at most one failure, and it is reported once the flag is set. */
  lemma LoadOkOneFailure(hasErrorOccurred: bool, rs: seq<Report>)
    requires LoadOk(hasErrorOccurred, rs)
    ensures Failures(rs) == if hasErrorOccurred then 1 else 0
  {
    if rs != [] {
      AllSuccessNoFailures(rs[..|rs| - 1]);
    }
  }

  /** In a load that is still fine, a failure can be reported, and then nothing more. */
  lemma FailureEndsLoad(rs: seq<Report>, failure: Report)
    requires LoadOk(false, rs) && !failure.success
    ensures LoadOk(true, rs + [failure])
    ensures forall r: Report :: !LoadOk(true, rs + [failure, r]) && !LoadOk(false, rs + [failure, r])
  {
    forall r: Report ensures !LoadOk(true, rs + [failure, r]) && !LoadOk(false, rs + [failure, r]) {
      var t := rs + [failure, r];
      assert t[|rs|] == failure;
    }
  }

  // ---------------------------------------------------------------------------
  // The client

  class PassageWebViewClient {
    var hasErrorOccurred: bool
    /** `onFinished` calls, oldest first. */
    var reports: seq<Report>
    /** Urls on which the "thread starter only" button was clicked. */
    var starterClicks: seq<string>
    /** Finished loads whose scripts have not returned yet, by url, oldest first. */
    var pending: seq<Option<string>>
    /** The reports since the last `onPageStarted`. */
    ghost var sinceStart: seq<Report>

    ghost predicate Valid()
      reads this`hasErrorOccurred, this`sinceStart
    {
      LoadOk(hasErrorOccurred, sinceStart)
    }

    constructor()
      ensures !hasErrorOccurred && reports == [] && starterClicks == [] && pending == [] && sinceStart == []
      ensures Valid()
    {
      hasErrorOccurred := false;
      reports := [];
      starterClicks := [];
      pending := [];
      sinceStart := [];
    }

    /** `onPageStarted`: a new load, no error yet. */
    method OnPageStarted(url: Option<string>)
      modifies this`hasErrorOccurred, this`sinceStart
      ensures !hasErrorOccurred && sinceStart == []
      ensures Valid()
    {
      hasErrorOccurred := false;
      sinceStart := [];
    }

    /**
     * `onPageFinished`: nothing after an error; on the "all posters" view a
     * click on "thread starter only" and no report; otherwise the scripts
     * are started and their results become due.
     */
    method OnPageFinished(url: Option<string>)
      modifies this`starterClicks, this`pending
      ensures hasErrorOccurred ==> starterClicks == old(starterClicks) && pending == old(pending)
      ensures !hasErrorOccurred && url.Some? && !Contains(url.value, "authorid") ==>
                starterClicks == old(starterClicks) + [url.value] && pending == old(pending)
      ensures !hasErrorOccurred && (url.None? || Contains(url.value, "authorid")) ==>
                starterClicks == old(starterClicks) && pending == old(pending) + [url]
    {
      if hasErrorOccurred {
        return;
      }
      if url.Some? && !Contains(url.value, "authorid") {
        starterClicks := starterClicks + [url.value];
        return;
      }
      pending := pending + [url];
    }

    /** The last of the three scripts of the oldest pending load has returned. */
    method OnScriptsReturned(contentResult: Option<string>, contentParse: JsonOutcome,
                             maxPageResult: Option<string>, maxPageParse: JsonOutcome,
                             titleResult: Option<string>, titleParse: JsonOutcome)
      requires pending != []
      modifies this`pending, this`reports, this`sinceStart
      ensures pending == old(pending[1..])
      ensures hasErrorOccurred ==> reports == old(reports) && sinceStart == old(sinceStart)
      ensures !hasErrorOccurred ==>
        var r := SuccessReport(old(pending[0]), contentResult, contentParse, maxPageResult, maxPageParse,
                               titleResult, titleParse);
        reports == old(reports) + [r] && sinceStart == old(sinceStart) + [r]
      ensures old(Valid()) ==> Valid()
    {
      var url := pending[0];
      pending := pending[1..];
      var contentHtml := "<html>" + UnescapeJsResult(contentResult, contentParse) + "</html>";
      var maxPage := MaxPageOf(UnescapeJsResult(maxPageResult, maxPageParse));
      var title := UnescapeJsResult(titleResult, titleParse);
      if !hasErrorOccurred {
        var r := Report(true, contentHtml, url, maxPage, Some(title));
        reports := reports + [r];
        sinceStart := sinceStart + [r];
      }
    }

    /** `onReceivedError`. */
    method OnReceivedError(request: Option<Request>, description: Option<string>)
      modifies this`hasErrorOccurred, this`reports, this`sinceStart
      ensures ReportedOnce(request, DescriptionText(description), old(hasErrorOccurred), old(reports), old(sinceStart))
      ensures old(Valid()) ==> Valid()
    {
      ReportMainFrameError(request, DescriptionText(description));
    }

    /** `onReceivedHttpError`. */
    method OnReceivedHttpError(request: Option<Request>, statusCode: Option<int>)
      modifies this`hasErrorOccurred, this`reports, this`sinceStart
      ensures ReportedOnce(request, StatusText(statusCode), old(hasErrorOccurred), old(reports), old(sinceStart))
      ensures old(Valid()) ==> Valid()
    {
      ReportMainFrameError(request, StatusText(statusCode));
    }

    /**
     * The new state after an error: only a main-frame error of a load without
     * an earlier one sets the flag and reports a failure.
     */
    ghost predicate ReportedOnce(request: Option<Request>, detail: string, hadError: bool,
                                 oldReports: seq<Report>, oldSinceStart: seq<Report>)
      reads this`hasErrorOccurred, this`reports, this`sinceStart
    {
      if request.Some? && request.value.isForMainFrame && !hadError then
        hasErrorOccurred &&
        reports == oldReports + [FailureReport(request.value, detail)] &&
        sinceStart == oldSinceStart + [FailureReport(request.value, detail)]
      else
        hasErrorOccurred == hadError && reports == oldReports && sinceStart == oldSinceStart
    }

    method ReportMainFrameError(request: Option<Request>, detail: string)
      modifies this`hasErrorOccurred, this`reports, this`sinceStart
      ensures ReportedOnce(request, detail, old(hasErrorOccurred), old(reports), old(sinceStart))
      ensures old(Valid()) ==> Valid()
    {
      if request.Some? && request.value.isForMainFrame {
        if hasErrorOccurred {
          return;
        }
        ghost var before := sinceStart;
        hasErrorOccurred := true;
        var r := Report(false, ErrorHtml(detail), Some(request.value.url), 1, None);
        reports := reports + [r];
        sinceStart := sinceStart + [r];
        if LoadOk(false, before) {
          FailureEndsLoad(before, r);
        }
      }
    }
  }
}
