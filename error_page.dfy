/** The error page (custom-redirect.js:9-109): which copy a failure gets,
    whether the report button is offered, and how the details are written
    into the HTML template. */
module ErrorPage {
  import opened Wrappers
  import opened Js
  import opened Text
  import opened Config

  /** What `getErrorDetails` is called with: the string "MAINTENANCE" or a
      numeric status. */
  datatype Code = MaintenanceCode | StatusCode(n: int)

  /** The copy a numeric code is shown with. */
  datatype Category = GenericCategory | ContainerCategory | BoxCategory | TunnelCategory

  /** The object `getErrorDetails` returns. */
  datatype Details = Details(errorCode: string, copy: Copy, enableReportError: bool, report: ReportCopy)

  /** `(list || []).includes(n)`: strict equality, so a code written as the
      string "502" does not list the status 502. */
  predicate Lists(codes: Option<seq<JsValue>>, n: int) {
    JNum(n) in codes.GetOr([])
  }

  /** Container codes first, then box codes, then tunnel codes. */
  function CategoryOf(env: Env, n: int): Category {
    if Lists(env.containerCodes, n) then ContainerCategory
    else if Lists(env.boxCodes, n) then BoxCategory
    else if Lists(env.tunnelCodes, n) then TunnelCategory
    else GenericCategory
  }

  /** A code gets the copy of the first list it appears in, and the generic
      copy exactly when no list holds it. */
  lemma CategoryPrecedence(env: Env, n: int)
    ensures Lists(env.containerCodes, n) ==> CategoryOf(env, n) == ContainerCategory
    ensures CategoryOf(env, n) == BoxCategory <==> !Lists(env.containerCodes, n) && Lists(env.boxCodes, n)
    ensures CategoryOf(env, n) == TunnelCategory <==>
              !Lists(env.containerCodes, n) && !Lists(env.boxCodes, n) && Lists(env.tunnelCodes, n)
    ensures CategoryOf(env, n) == GenericCategory <==>
              !Lists(env.containerCodes, n) && !Lists(env.boxCodes, n) && !Lists(env.tunnelCodes, n)
  {
  }

  function CopyFor(env: Env, c: Category): Copy {
    match c
    case GenericCategory => env.generic
    case ContainerCategory => env.container
    case BoxCategory => env.box
    case TunnelCategory => env.tunnel
  }

  /** getErrorDetails(cfCode, env). */
  function GetErrorDetails(code: Code, env: Env): (d: Details)
    // the maintenance page: 503, maintenance copy, never a report button
    ensures code == MaintenanceCode ==>
              d.errorCode == IntToString(503) && ParseInt(d.errorCode) == Some(503) && d.copy == env.maintenance && !d.enableReportError && d.report == BlankReport
    // otherwise the code reads back as the status, 500 standing in for a falsy 0
    ensures code.StatusCode? ==> d.errorCode == IntToString(if code.n == 0 then 500 else code.n)
    ensures code.StatusCode? ==> ParseInt(d.errorCode) == Some(if code.n == 0 then 500 else code.n)
    // the report texts are the configured ones exactly when reporting is on, and all blank otherwise
    ensures code.StatusCode? ==> (d.enableReportError <==> EnvIsTrue(env.enableReportError))
    ensures code.StatusCode? ==> d.report == (if d.enableReportError then env.report else BlankReport)
    ensures code.StatusCode? ==> d.copy == CopyFor(env, CategoryOf(env, code.n))
  {
    match code
    case MaintenanceCode =>
      ParseIntOfIntToString(503);
      Details(IntToString(503), env.maintenance, false, BlankReport)
    case StatusCode(n) =>
      // "500" when the code is falsy, which is the text of 500
      var errorCode := IntToString(if n == 0 then 500 else n);
      ParseIntOfIntToString(if n == 0 then 500 else n);
      var enableReport := env.enableReportError == Some(JBool(true)) || env.enableReportError == Some(JStr("true"));
      Details(errorCode, CopyFor(env, CategoryOf(env, n)), enableReport,
              if enableReport then env.report else BlankReport)
  }

  /** The thirteen placeholders for the fields, in the order they are
      replaced. */
  const FieldPlaceholders: seq<string> := [
    "ERROR_CODE", "ERROR_TYPE", "ERROR_MESSAGE", "ERROR_GIF", "ENABLE_REPORT_ERROR",
    "REPORT_ERROR_BUTTON_TEXT", "REPORT_ERROR_MODAL_HEADER_TEXT", "REPORT_ERROR_LABEL_PLACEHOLDER",
    "REPORT_ERROR_MODAL_NAME_PLACEHOLDER", "REPORT_ERROR_CANCEL_BUTTON_TEXT",
    "REPORT_ERROR_SUBMIT_BUTTON_TEXT", "REPORT_ERROR_SUCCESS_MESSAGE",
    "REPORT_ERROR_FAILURE_MESSAGE"]

  /** All fourteen: the error code is written once more, last. */
  const Placeholders: seq<string> := FieldPlaceholders + ["REPORT_ERROR_CODE"]

  /** What each field placeholder receives. */
  function FieldValues(d: Details): (vs: seq<string>)
    ensures |vs| == |FieldPlaceholders|
    ensures vs[0] == d.errorCode && vs[4] == BoolText(d.enableReportError)
  {
    [d.errorCode, d.copy.errorType, d.copy.errorMessage, d.copy.errorGif, BoolText(d.enableReportError),
     d.report.buttonText, d.report.modalHeaderText, d.report.labelPlaceholder, d.report.modalNamePlaceholder,
     d.report.cancelButtonText, d.report.submitButtonText, d.report.successMessage, d.report.failureMessage]
  }

  function Values(d: Details): seq<string> {
    FieldValues(d) + [d.errorCode]
  }

  /** The chain `.replace(p0, v0).replace(p1, v1)...`: each step replaces the
      first occurrence in the text the previous steps produced. */
  function ReplaceEach(t: string, pats: seq<string>, reps: seq<string>): string
    requires |pats| == |reps|
    decreases |pats|
  {
    if pats == [] then t else ReplaceEach(ReplaceFirst(t, pats[0], reps[0]), pats[1..], reps[1..])
  }

  /** A text containing none of the patterns comes through unchanged. */
  lemma {:induction false} ReplaceEachWithoutPatterns(t: string, pats: seq<string>, reps: seq<string>)
    requires |pats| == |reps|
    requires forall k, i :: 0 <= k < |pats| ==> !OccursAt(t, pats[k], i)
    ensures ReplaceEach(t, pats, reps) == t
    decreases |pats|
  {
    if pats != [] {
      assert ReplaceFirst(t, pats[0], reps[0]) == t;
      assert forall k, i :: 0 <= k < |pats[1..]| ==> !OccursAt(t, pats[1..][k], i) by {
        forall k, i | 0 <= k < |pats[1..]| ensures !OccursAt(t, pats[1..][k], i) {
          assert pats[1..][k] == pats[k + 1];
        }
      }
      ReplaceEachWithoutPatterns(t, pats[1..], reps[1..]);
    }
  }

  /** Replacing in sequence is replacing the first pattern, then the rest. */
  lemma {:induction false} ReplaceEachAppend(t: string, pats: seq<string>, reps: seq<string>, p: string, v: string)
    requires |pats| == |reps|
    ensures ReplaceEach(t, pats + [p], reps + [v]) == ReplaceFirst(ReplaceEach(t, pats, reps), p, v)
    decreases |pats|
  {
    if pats == [] {
      assert ([] + [p])[1..] == [] && ([] + [v])[1..] == [];
    } else {
      assert (pats + [p])[1..] == pats[1..] + [p];
      assert (reps + [v])[1..] == reps[1..] + [v];
      ReplaceEachAppend(ReplaceFirst(t, pats[0], reps[0]), pats[1..], reps[1..], p, v);
    }
  }

  /** generateErrorPage(details) on the given template. */
  function GenerateErrorPage(template: string, d: Details): string {
    ReplaceEach(template, Placeholders, Values(d))
  }

  /** A template with no placeholder is served as it is. */
  lemma NoPlaceholderPageUnchanged(template: string, d: Details)
    requires forall k, i :: 0 <= k < |Placeholders| ==> !OccursAt(template, Placeholders[k], i)
    ensures GenerateErrorPage(template, d) == template
  {
    ReplaceEachWithoutPatterns(template, Placeholders, Values(d));
  }

  /** The last step writes the error code over the first REPORT_ERROR_CODE
      that the thirteen field steps leave. */
  lemma ReportCodeWrittenLast(template: string, d: Details)
    ensures GenerateErrorPage(template, d) ==
              ReplaceFirst(ReplaceEach(template, FieldPlaceholders, FieldValues(d)), "REPORT_ERROR_CODE", d.errorCode)
  {
    ReplaceEachAppend(template, FieldPlaceholders, FieldValues(d), "REPORT_ERROR_CODE", d.errorCode);
  }

  /** "ERROR_CODE" is replaced first and also occurs inside
      "REPORT_ERROR_CODE": wherever the longer placeholder comes before any
      standalone "ERROR_CODE" in the template, the first step writes the
      code into it. */
  lemma ErrorCodeStepHitsReportPlaceholder(pre: string, rest: string, code: string)
    requires forall j :: !OccursAt(pre + "REPORT_", "ERROR_CODE", j)
    ensures ReplaceFirst(pre + "REPORT_ERROR_CODE" + rest, "ERROR_CODE", code) == pre + "REPORT_" + code + rest
  {
    var s := pre + "REPORT_ERROR_CODE" + rest;
    var n := |pre|;
    assert s[n..n + 17] == "REPORT_ERROR_CODE";
    assert s[..n + 7] == pre + "REPORT_";
    assert OccursAt(s, "ERROR_CODE", n + 7);
    forall j | 0 <= j < n + 7 ensures !OccursAt(s, "ERROR_CODE", j) {
      if j + 10 <= n + 7 {
        var t := pre + "REPORT_";
        assert !OccursAt(t, "ERROR_CODE", j);
        assert s[j..j + 10] == s[..n + 7][j..j + 10] == t[j..j + 10];
      } else if j < n {
        // a match would start in `pre` and run into "REPORT_"
        var k := n + 1 - j;
        assert k == 2 || k == 3;
        assert s[n + 1] == s[n..n + 17][1] == 'E';
        assert s[j..j + 10][k] == s[n + 1] != "ERROR_CODE"[k];
      } else {
        assert s[j..j + 10][0] == s[j] == "REPORT_ERROR_CODE"[j - n];
        assert s[j..j + 10][1] == s[j + 1] == "REPORT_ERROR_CODE"[j - n + 1];
      }
    }
    assert s[..n + 7] + code + s[n + 17..] == pre + "REPORT_" + code + rest;
  }

  /** The headers `makeResponse` sets, with names in lower case. */
  const PageHeaders := map["content-type" := "text/html", "x-worker-handled" := "true"]

  /** Whether a response with this status may carry a body: every status
      but the null-body ones, 204, 205 and 304. */
  predicate MayCarryBody(n: int) {
    n != 204 && n != 205 && n != 304
  }

  /** makeResponse(content, statusCode): `None` where the Response
      constructor throws, with a RangeError for a status that is NaN or
      outside 200-599, and with a TypeError for a null-body status, since the
      page is always a body. */
  function MakeResponse(content: string, statusCode: string): (r: Option<Response>)
    ensures r.Some? <==> ParseInt(statusCode).Some? && 200 <= ParseInt(statusCode).value <= 599 &&
                         MayCarryBody(ParseInt(statusCode).value)
    ensures r.Some? ==> r.value == Response(ParseInt(statusCode).value, PageHeaders, content)
  {
    match ParseInt(statusCode)
    case Some(n) =>
      if 200 <= n <= 599 && MayCarryBody(n) then Some(Response(n, PageHeaders, content)) else None
    case None => None
  }

  /** The codes `c_redirect` passes: the maintenance marker or a status in
      200-599 that may carry a body (502, 504, or an upstream status of at
      least 500). */
  predicate ValidCode(code: Code) {
    code.StatusCode? ==> 200 <= code.n <= 599 && MayCarryBody(code.n)
  }

  /** `makeResponse(generateErrorPage(details), details.errorCode)` for
      `details = getErrorDetails(code, env)`. */
  function ErrorResponse(env: Env, template: string, code: Code): (r: Response)
    requires ValidCode(code)
    ensures r.status == (if code.StatusCode? then code.n else 503)
    ensures r.headers == PageHeaders
    ensures r.body == GenerateErrorPage(template, GetErrorDetails(code, env))
  {
    var d := GetErrorDetails(code, env);
    var n := if code.StatusCode? then code.n else 503;
    var page := GenerateErrorPage(template, d);
    MakeResponseOfBodyStatus(page, d.errorCode, n);
    MakeResponse(page, d.errorCode).value
  }

  /** A status text that reads as a status which may carry a body gives a
      response with that status. */
  lemma MakeResponseOfBodyStatus(content: string, statusCode: string, n: int)
    requires ParseInt(statusCode) == Some(n) && 200 <= n <= 599 && MayCarryBody(n)
    ensures MakeResponse(content, statusCode) == Some(Response(n, PageHeaders, content))
  {
  }
}
