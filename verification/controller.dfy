/**
 * The REST controller: the classify endpoint (validation, then the service),
 * the handler that turns validation failures into a field-to-message map,
 * and the download endpoint that renders a response as a plain-text report.
 */
module Controller {
  import opened JavaLang
  import opened Request
  import opened Response
  import Service

  // ---------------------------------------------------------------------
  // POST /api/classify

  /** What the classify endpoint answers: 200 with the response, or 400 with the field errors. */
  datatype ClassifyOutcome =
    | Ok(response: ClassificationResponse)
    | BadRequest(errors: map<string, string>)
  {
    function Status(): int {
      if Ok? then 200 else 400
    }
  }

  /** The message of the last error reported against `field`, or null if there is none. */
  function LastMessage(errors: seq<FieldError>, field: string): Nullable<string>
    decreases |errors|
  {
    if errors == [] then Null
    else if errors[|errors| - 1].field == field then NonNull(errors[|errors| - 1].message)
    else LastMessage(errors[..|errors| - 1], field)
  }

  /** An error that no later error on the same field follows is the one LastMessage finds. */
  lemma {:induction false} LastMessageComplete(errors: seq<FieldError>, field: string, i: nat)
    requires i < |errors| && errors[i].field == field
    requires forall j :: i < j < |errors| ==> errors[j].field != field
    ensures LastMessage(errors, field) == NonNull(errors[i].message)
    decreases |errors|
  {
    var n := |errors| - 1;
    if i < n {
      LastMessageComplete(errors[..n], field, i);
    }
  }

  /** What LastMessage finds is the message of such an error. */
  lemma {:induction false} LastMessageSound(errors: seq<FieldError>, field: string) returns (i: nat)
    requires LastMessage(errors, field).NonNull?
    ensures i < |errors| && errors[i] == FieldError(field, LastMessage(errors, field).value)
    ensures forall j :: i < j < |errors| ==> errors[j].field != field
    decreases |errors|
  {
    var n := |errors| - 1;
    if errors[n].field == field {
      i := n;
    } else {
      i := LastMessageSound(errors[..n], field);
      assert errors[i] == errors[..n][i];
    }
  }

  /** LastMessage finds the message of an error that no later error on the same field follows. */
  lemma LastMessageIsLastReported(errors: seq<FieldError>, field: string, message: string)
    ensures LastMessage(errors, field) == NonNull(message) <==>
      exists i :: 0 <= i < |errors| && errors[i] == FieldError(field, message)
        && forall j :: i < j < |errors| ==> errors[j].field != field
  {
    if exists i :: 0 <= i < |errors| && errors[i] == FieldError(field, message)
         && forall j :: i < j < |errors| ==> errors[j].field != field {
      var i :| 0 <= i < |errors| && errors[i] == FieldError(field, message)
               && forall j :: i < j < |errors| ==> errors[j].field != field;
      LastMessageComplete(errors, field, i);
    }
    if LastMessage(errors, field) == NonNull(message) {
      var i := LastMessageSound(errors, field);
    }
  }

  /** LastMessage finds something exactly for the fields some error was reported against. */
  lemma {:induction false} LastMessageFound(errors: seq<FieldError>, field: string)
    ensures LastMessage(errors, field).NonNull? <==> exists e :: e in errors && e.field == field
    decreases |errors|
  {
    if errors != [] {
      var n := |errors| - 1;
      LastMessageFound(errors[..n], field);
      assert errors == errors[..n] + [errors[n]];
    }
  }

  /**
   * handleValidationExceptions: puts each field error into a map, so that a
   * later error on a field replaces an earlier one.
   */
  method HandleValidationExceptions(errors: seq<FieldError>) returns (body: map<string, string>)
    ensures body.Keys == set e | e in errors :: e.field
    ensures forall field :: field in body ==> LastMessage(errors, field) == NonNull(body[field])
  {
    body := map[];
    var i := 0;
    while i < |errors|
      invariant 0 <= i <= |errors|
      invariant body.Keys == set e | e in errors[..i] :: e.field
      invariant forall field :: field in body ==> LastMessage(errors[..i], field) == NonNull(body[field])
    {
      var error := errors[i];
      body := body[error.field := error.message];
      assert errors[..i + 1][..i] == errors[..i];
      assert errors[..i + 1] == errors[..i] + [error];
      i := i + 1;
    }
    assert errors[..|errors|] == errors;
  }

  /**
   * classify: a request that breaks a constraint is answered 400 with the
   * error map; any other request is passed to the service and its response
   * returned with 200.
   */
  method Classify(request: ClassificationRequest) returns (outcome: ClassifyOutcome)
    ensures var errors := ConstraintViolations(request.GetSystemName(), request.GetSystemPurpose());
      && (outcome.Status() == 200 <==> errors == [])
      && (outcome.BadRequest? ==>
            outcome.errors.Keys == (set e | e in errors :: e.field)
            && forall field :: field in outcome.errors ==> LastMessage(errors, field) == NonNull(outcome.errors[field]))
      && (outcome.Ok? ==>
            fresh(outcome.response)
            && outcome.response.Snapshot()
               == Service.Classification(request.GetSystemName(), request.GetSystemPurpose().value))
  {
    var errors := ConstraintViolations(request.GetSystemName(), request.GetSystemPurpose());
    if errors != [] {
      var body := HandleValidationExceptions(errors);
      return BadRequest(body);
    }
    var response := Service.Classify(request);
    return Ok(response);
  }

  // ---------------------------------------------------------------------
  // POST /api/classify/download

  const DefaultFileName: string := "EUAIAct_Results.txt"
  const DispositionPrefix: string := "attachment; filename=\""

  /** What the download endpoint answers: 200 with a header and a text body, or 500 with no body. */
  datatype DownloadOutcome =
    | Attachment(contentDisposition: string, body: string)
    | InternalServerError
  {
    function Status(): int {
      if Attachment? then 200 else 500
    }
  }

  /**
   * The request parameter falls back to its default when absent or empty:
   * the attachment always has a name, the one given whenever one was given.
   */
  function EffectiveFileName(fileName: Nullable<string>): (name: string)
    ensures name != []
    ensures fileName.NonNull? && fileName.value != [] ==> name == fileName.value
    ensures name == DefaultFileName || fileName == NonNull(name)
  {
    if fileName.Null? || fileName.value == "" then DefaultFileName else fileName.value
  }

  /**
   * The Content-Disposition value: an attachment whose quoted file name is
   * the name inserted verbatim, without escaping.
   */
  function ContentDisposition(fileName: string): (header: string)
    ensures |header| == |DispositionPrefix| + |fileName| + 1
    ensures header[..|DispositionPrefix|] == DispositionPrefix
    ensures header[|DispositionPrefix|..|header| - 1] == fileName
    ensures header[|header| - 1] == '"'
  {
    DispositionPrefix + fileName + "\""
  }

  /** Reads the file name back out of a Content-Disposition value of the form above. */
  function FileNameOf(disposition: string): Nullable<string> {
    if |disposition| > |DispositionPrefix| && DispositionPrefix <= disposition
       && disposition[|disposition| - 1] == '"'
    then NonNull(disposition[|DispositionPrefix|..|disposition| - 1])
    else Null
  }

  /** Whatever the name holds, quotes included, it is carried verbatim. */
  lemma ContentDispositionCarriesFileName(fileName: string)
    ensures FileNameOf(ContentDisposition(fileName)) == NonNull(fileName)
  {
    var d := ContentDisposition(fileName);
    assert d[..|DispositionPrefix|] == DispositionPrefix;
    assert d[|DispositionPrefix|..|d| - 1] == fileName;
  }

  // The report, as the lines it is made of.

  /** One line of the report: its text and the newline written after it. */
  function Line(text: string): string {
    text + "\n"
  }

  /** Lines, each followed by a newline. */
  function JoinLines(lines: seq<string>): string
    decreases |lines|
  {
    if lines == [] then "" else Line(lines[0]) + JoinLines(lines[1..])
  }

  lemma {:induction false} JoinLinesAppend(a: seq<string>, b: seq<string>)
    ensures JoinLines(a + b) == JoinLines(a) + JoinLines(b)
    decreases |a|
  {
    if a == [] {
      assert a + b == b;
    } else {
      assert (a + b)[0] == a[0] && (a + b)[1..] == a[1..] + b;
      JoinLinesAppend(a[1..], b);
    }
  }

  /** Writing one more line extends the text by that line. */
  lemma JoinLinesSnoc(lines: seq<string>, text: string)
    ensures JoinLines(lines + [text]) == JoinLines(lines) + Line(text)
  {
    JoinLinesAppend(lines, [text]);
    assert [text][1..] == [];
  }

  /** The position of the first newline, or the length of the text if there is none. */
  function NewlineIndex(text: string): (i: nat)
    ensures i <= |text|
    ensures forall j :: 0 <= j < i ==> text[j] != '\n'
    ensures i < |text| ==> text[i] == '\n'
  {
    if text == [] || text[0] == '\n' then 0 else 1 + NewlineIndex(text[1..])
  }

  /** Cuts a text into its lines, as a reader of the downloaded file does. */
  function SplitLines(text: string): seq<string>
    decreases |text|
  {
    if text == [] then []
    else
      var i := NewlineIndex(text);
      if i == |text| then [text] else [text[..i]] + SplitLines(text[i + 1..])
  }

  predicate NoNewline(text: string) {
    forall j :: 0 <= j < |text| ==> text[j] != '\n'
  }

  /** Lines without newlines are read back exactly as they were written. */
  lemma {:induction false} SplitJoinLines(lines: seq<string>)
    requires forall k :: 0 <= k < |lines| ==> NoNewline(lines[k])
    ensures SplitLines(JoinLines(lines)) == lines
    decreases |lines|
  {
    if lines != [] {
      var text := JoinLines(lines);
      var first, rest := lines[0], JoinLines(lines[1..]);
      assert text == first + "\n" + rest;
      var i := NewlineIndex(text);
      assert text[|first|] == '\n';
      assert i == |first|;
      assert text[..i] == first;
      assert text[i + 1..] == rest;
      SplitJoinLines(lines[1..]);
    }
  }

  const Rule: string := "================================================="

  const HeaderLines: seq<string> := [Rule, "EU AI ACT RISK CLASSIFICATION ASSESSMENT", Rule, ""]

  function SystemInformationLines(name: string, purpose: string): seq<string> {
    ["SYSTEM INFORMATION", "-----------------", "System Name: " + name, "System Purpose: " + purpose, ""]
  }

  function ClassificationResultLines(category: string): seq<string> {
    ["CLASSIFICATION RESULT", "-------------------", "EU AI Act Classification: " + category, ""]
  }

  const HighRiskExplanation: seq<string> := [
    "High-risk AI systems require substantial compliance measures ",
    "under the EU AI Act, including risk assessments, technical ",
    "documentation, and human oversight."]
  const LimitedRiskExplanation: seq<string> := [
    "Limited risk AI systems must meet specific transparency ",
    "obligations, such as notifying users they are interacting ",
    "with an AI system or that content is artificially generated."]
  const MinimalRiskExplanation: seq<string> := [
    "Minimal risk AI systems have few regulatory obligations ",
    "under the EU AI Act, though voluntary codes of conduct ",
    "are encouraged."]
  const ProhibitedExplanation: seq<string> := [
    "This AI system falls under prohibited practices according to the EU AI Act.",
    "Consider consulting with a legal expert specializing in AI regulation."]

  /** The explanation block, chosen by exact match on the category; other strings get none. */
  function ExplanationLines(category: string): seq<string> {
    if category == HighRisk then HighRiskExplanation
    else if category == LimitedRisk then LimitedRiskExplanation
    else if category == MinimalRisk then MinimalRiskExplanation
    else if category == Prohibited then ProhibitedExplanation
    else []
  }

  function ExplanationSectionLines(category: string): seq<string> {
    ["Risk Category Explanation:"] + ExplanationLines(category) + ["", ""]
  }

  /** The line for the recommendation numbered `n`: "n. text". */
  function NumberedLine(n: nat, text: string): string {
    NatToString(n) + ". " + text
  }

  /** The recommendations, one per line, numbered from 1 in list order. */
  function NumberedLines(recommendations: seq<string>): seq<string> {
    seq(|recommendations|, i requires 0 <= i < |recommendations| => NumberedLine(i + 1, recommendations[i]))
  }

  function RecommendationSectionLines(recommendations: seq<string>): seq<string> {
    ["COMPLIANCE RECOMMENDATIONS", "-------------------------"] + NumberedLines(recommendations) + [""]
  }

  const DisclaimerLines: seq<string> := [
    Rule,
    "DISCLAIMER: This assessment is provided for informational purposes only ",
    "and should not be considered legal advice. Consult with legal experts ",
    "for a comprehensive compliance assessment with the EU AI Act.",
    Rule]

  /** The lines of the report, section by section. */
  function ReportLines(name: string, purpose: string, category: string, recommendations: seq<string>): seq<string> {
    HeaderLines
    + SystemInformationLines(name, purpose)
    + ClassificationResultLines(category)
    + ExplanationSectionLines(category)
    + RecommendationSectionLines(recommendations)
    + DisclaimerLines
  }

  /** The report's line count: 24 fixed lines, the explanation and one line per recommendation. */
  lemma ReportLength(name: string, purpose: string, category: string, recommendations: seq<string>)
    ensures |ReportLines(name, purpose, category, recommendations)|
         == 24 + |ExplanationLines(category)| + |recommendations|
  {
  }

  /** Lines 7, 8 and 12 of the report carry the name, the purpose and the category. */
  lemma ReportFieldLines(name: string, purpose: string, category: string, recommendations: seq<string>)
    ensures var lines := ReportLines(name, purpose, category, recommendations);
      |lines| > 11
      && lines[6] == "System Name: " + name
      && lines[7] == "System Purpose: " + purpose
      && lines[11] == "EU AI Act Classification: " + category
  {
    var front := HeaderLines + SystemInformationLines(name, purpose) + ClassificationResultLines(category);
    var lines := ReportLines(name, purpose, category, recommendations);
    assert |front| == 13 && lines[..13] == front;
  }

  /** The explanation starts on line 15. */
  lemma ReportExplanationLines(name: string, purpose: string, category: string, recommendations: seq<string>)
    ensures var lines := ReportLines(name, purpose, category, recommendations);
      var e := |ExplanationLines(category)|;
      |lines| > 14 + e && lines[14..14 + e] == ExplanationLines(category)
  {
    var front := HeaderLines + SystemInformationLines(name, purpose) + ClassificationResultLines(category);
    var section := ExplanationSectionLines(category);
    var lines := ReportLines(name, purpose, category, recommendations);
    var e := |ExplanationLines(category)|;
    assert |front| == 13;
    assert lines == front + section + RecommendationSectionLines(recommendations) + DisclaimerLines;
    assert lines[13..13 + |section|] == section;
    assert section[1..1 + e] == ExplanationLines(category);
  }

  /** Recommendation k (from 0) is written, numbered k + 1, three lines after the explanation ends. */
  lemma ReportRecommendationLines(name: string, purpose: string, category: string, recommendations: seq<string>)
    ensures var lines := ReportLines(name, purpose, category, recommendations);
      var e := |ExplanationLines(category)|;
      |lines| > 18 + e + |recommendations|
      && forall k :: 0 <= k < |recommendations| ==>
           lines[18 + e + k] == NatToString(k + 1) + ". " + recommendations[k]
  {
    var lines := ReportLines(name, purpose, category, recommendations);
    var e := |ExplanationLines(category)|;
    var front := HeaderLines + SystemInformationLines(name, purpose) + ClassificationResultLines(category)
                 + ExplanationSectionLines(category);
    var section := RecommendationSectionLines(recommendations);
    assert |front| == 16 + e;
    assert lines == front + section + DisclaimerLines;
    forall k | 0 <= k < |recommendations|
      ensures lines[18 + e + k] == NatToString(k + 1) + ". " + recommendations[k]
    {
      assert lines[18 + e + k] == section[2 + k];
    }
  }

  /** The explanation is empty exactly for strings outside the four documented categories. */
  lemma ExplanationOnlyForDocumentedCategories(category: string)
    ensures ExplanationLines(category) != [] <==> category in AllowableRiskCategories
  {
  }

  /**
   * What downloadResults answers for a response: a null category (the switch
   * dereferences it) or null recommendations (the loop dereferences them)
   * end in 500; a null name or purpose is written as "null".
   */
  function DownloadResponse(v: ResponseValue, fileName: Nullable<string>): DownloadOutcome {
    if v.riskCategory.Null? || v.recommendations.Null? then InternalServerError
    else
      Attachment(
        ContentDisposition(EffectiveFileName(fileName)),
        JoinLines(ReportLines(StringValueOf(v.systemName), StringValueOf(v.systemPurpose),
                              v.riskCategory.value, v.recommendations.value)))
  }

  // Writing a few lines after what is already in the buffer.

  lemma WriteOne(out: string, a: string)
    ensures out + JoinLines([a]) == out + Line(a)
  {
    assert [a][1..] == [];
    assert Line(a) + "" == Line(a);
  }

  lemma WriteTwo(out: string, a: string, b: string)
    ensures out + JoinLines([a, b]) == out + Line(a) + Line(b)
  {
    assert [a, b][1..] == [b];
    WriteOne("", b);
    assert "" + JoinLines([b]) == JoinLines([b]);
  }

  lemma WriteThree(out: string, a: string, b: string, c: string)
    ensures out + JoinLines([a, b, c]) == out + Line(a) + Line(b) + Line(c)
  {
    assert [a, b, c][1..] == [b, c];
    WriteTwo("", b, c);
    assert "" + JoinLines([b, c]) == JoinLines([b, c]);
  }

  lemma WriteFour(out: string, a: string, b: string, c: string, d: string)
    ensures out + JoinLines([a, b, c, d]) == out + Line(a) + Line(b) + Line(c) + Line(d)
  {
    assert [a, b, c, d][1..] == [b, c, d];
    WriteThree("", b, c, d);
    assert "" + JoinLines([b, c, d]) == JoinLines([b, c, d]);
  }

  lemma WriteFive(out: string, a: string, b: string, c: string, d: string, e: string)
    ensures out + JoinLines([a, b, c, d, e]) == out + Line(a) + Line(b) + Line(c) + Line(d) + Line(e)
  {
    assert [a, b, c, d, e][1..] == [b, c, d, e];
    WriteFour("", b, c, d, e);
    assert "" + JoinLines([b, c, d, e]) == JoinLines([b, c, d, e]);
  }

  method WriteHeader(out: string) returns (result: string)
    ensures result == out + JoinLines(HeaderLines)
  {
    result := out + Line(Rule);
    result := result + Line("EU AI ACT RISK CLASSIFICATION ASSESSMENT");
    result := result + Line(Rule);
    result := result + Line("");
    WriteFour(out, Rule, "EU AI ACT RISK CLASSIFICATION ASSESSMENT", Rule, "");
  }

  method WriteSystemInformation(out: string, name: string, purpose: string) returns (result: string)
    ensures result == out + JoinLines(SystemInformationLines(name, purpose))
  {
    result := out + Line("SYSTEM INFORMATION");
    result := result + Line("-----------------");
    result := result + Line("System Name: " + name);
    result := result + Line("System Purpose: " + purpose);
    result := result + Line("");
    WriteFive(out, "SYSTEM INFORMATION", "-----------------", "System Name: " + name, "System Purpose: " + purpose, "");
  }

  method WriteClassificationResult(out: string, category: string) returns (result: string)
    ensures result == out + JoinLines(ClassificationResultLines(category))
  {
    result := out + Line("CLASSIFICATION RESULT");
    result := result + Line("-------------------");
    result := result + Line("EU AI Act Classification: " + category);
    result := result + Line("");
    WriteFour(out, "CLASSIFICATION RESULT", "-------------------", "EU AI Act Classification: " + category, "");
  }

  /** The switch on the category: one block per documented value, nothing for any other string. */
  method WriteExplanation(out: string, category: string) returns (result: string)
    ensures result == out + JoinLines(ExplanationLines(category))
  {
    result := out;
    if category == HighRisk {
      result := result + Line(HighRiskExplanation[0]);
      result := result + Line(HighRiskExplanation[1]);
      result := result + Line(HighRiskExplanation[2]);
      WriteThree(out, HighRiskExplanation[0], HighRiskExplanation[1], HighRiskExplanation[2]);
    } else if category == LimitedRisk {
      result := result + Line(LimitedRiskExplanation[0]);
      result := result + Line(LimitedRiskExplanation[1]);
      result := result + Line(LimitedRiskExplanation[2]);
      WriteThree(out, LimitedRiskExplanation[0], LimitedRiskExplanation[1], LimitedRiskExplanation[2]);
    } else if category == MinimalRisk {
      result := result + Line(MinimalRiskExplanation[0]);
      result := result + Line(MinimalRiskExplanation[1]);
      result := result + Line(MinimalRiskExplanation[2]);
      WriteThree(out, MinimalRiskExplanation[0], MinimalRiskExplanation[1], MinimalRiskExplanation[2]);
    } else if category == Prohibited {
      result := result + Line(ProhibitedExplanation[0]);
      result := result + Line(ProhibitedExplanation[1]);
      WriteTwo(out, ProhibitedExplanation[0], ProhibitedExplanation[1]);
    } else {
      assert out + "" == out;
    }
  }

  /** The numbered list: the loop counts from 1 and writes "count. text" per entry. */
  method WriteRecommendations(out: string, recommendations: seq<string>) returns (result: string)
    ensures result == out + JoinLines(NumberedLines(recommendations))
  {
    result := out;
    var count := 1;
    var i := 0;
    assert NumberedLines(recommendations[..0]) == [];
    while i < |recommendations|
      invariant 0 <= i <= |recommendations| && count == i + 1
      invariant result == out + JoinLines(NumberedLines(recommendations[..i]))
    {
      result := result + Line(NatToString(count) + ". " + recommendations[i]);
      JoinLinesSnoc(NumberedLines(recommendations[..i]), NumberedLine(count, recommendations[i]));
      assert NumberedLines(recommendations[..i + 1])
          == NumberedLines(recommendations[..i]) + [NumberedLine(count, recommendations[i])];
      count := count + 1;
      i := i + 1;
    }
    assert recommendations[..i] == recommendations;
  }

  method WriteDisclaimer(out: string) returns (result: string)
    ensures result == out + JoinLines(DisclaimerLines)
  {
    result := out + Line(Rule);
    result := result + Line("DISCLAIMER: This assessment is provided for informational purposes only ");
    result := result + Line("and should not be considered legal advice. Consult with legal experts ");
    result := result + Line("for a comprehensive compliance assessment with the EU AI Act.");
    result := result + Line(Rule);
    WriteFive(out, DisclaimerLines[0], DisclaimerLines[1], DisclaimerLines[2], DisclaimerLines[3], DisclaimerLines[4]);
  }

  /**
   * downloadResults: writes the report section by section into a buffer;
   * a null category or null recommendations abort the write with 500.
   */
  method DownloadResults(response: ClassificationResponse, fileName: Nullable<string>) returns (outcome: DownloadOutcome)
    ensures outcome == DownloadResponse(response.Snapshot(), fileName)
  {
    var name := StringValueOf(response.GetSystemName());
    var purpose := StringValueOf(response.GetSystemPurpose());
    var out := WriteHeader("");
    out := WriteSystemInformation(out, name, purpose);
    out := WriteClassificationResult(out, StringValueOf(response.GetRiskCategory()));

    out := out + Line("Risk Category Explanation:");
    if response.GetRiskCategory().Null? {
      return InternalServerError;
    }
    var category := response.GetRiskCategory().value;
    out := WriteExplanation(out, category);
    out := out + Line("") + Line("");

    out := out + Line("COMPLIANCE RECOMMENDATIONS") + Line("-------------------------");
    if response.GetRecommendations().Null? {
      return InternalServerError;
    }
    var recommendations := response.GetRecommendations().value;
    out := WriteRecommendations(out, recommendations);
    out := out + Line("");
    out := WriteDisclaimer(out);

    ReportText(name, purpose, category, recommendations);
    outcome := Attachment(ContentDisposition(EffectiveFileName(fileName)), out);
  }

  /** Six consecutive blocks of lines are written as six consecutive pieces of text. */
  lemma JoinLinesOfSix(a: seq<string>, b: seq<string>, c: seq<string>, d: seq<string>, e: seq<string>, f: seq<string>)
    ensures JoinLines(a + b + c + d + e + f)
         == JoinLines(a) + JoinLines(b) + JoinLines(c) + JoinLines(d) + JoinLines(e) + JoinLines(f)
  {
    JoinLinesAppend(a, b);
    JoinLinesAppend(a + b, c);
    JoinLinesAppend(a + b + c, d);
    JoinLinesAppend(a + b + c + d, e);
    JoinLinesAppend(a + b + c + d + e, f);
  }

  /** A block with one line before it and two after it. */
  lemma JoinLinesFramed(first: string, middle: seq<string>, after1: string, after2: string)
    ensures JoinLines([first] + middle + [after1, after2])
         == Line(first) + JoinLines(middle) + Line(after1) + Line(after2)
  {
    JoinLinesAppend([first], middle);
    JoinLinesAppend([first] + middle, [after1, after2]);
    WriteOne("", first);
    WriteTwo("", after1, after2);
    assert "" + JoinLines([first]) == JoinLines([first]);
    assert "" + JoinLines([after1, after2]) == JoinLines([after1, after2]);
  }

  /** A block with two lines before it and one after it. */
  lemma JoinLinesTitled(title: string, underline: string, middle: seq<string>, after: string)
    ensures JoinLines([title, underline] + middle + [after])
         == Line(title) + Line(underline) + JoinLines(middle) + Line(after)
  {
    JoinLinesAppend([title, underline], middle);
    JoinLinesAppend([title, underline] + middle, [after]);
    WriteTwo("", title, underline);
    WriteOne("", after);
    assert "" + JoinLines([title, underline]) == JoinLines([title, underline]);
    assert "" + JoinLines([after]) == JoinLines([after]);
  }

  /** The layout of a report in general: six sections, the fourth and fifth framed by fixed lines. */
  lemma JoinLinesOfReport(header: seq<string>, system: seq<string>, result: seq<string>,
                          explanationTitle: string, explanation: seq<string>,
                          listTitle: string, listRule: string, list: seq<string>, disclaimer: seq<string>)
    ensures JoinLines(header + system + result + ([explanationTitle] + explanation + ["", ""])
                      + ([listTitle, listRule] + list + [""]) + disclaimer)
         == "" + JoinLines(header) + JoinLines(system) + JoinLines(result)
            + Line(explanationTitle) + JoinLines(explanation) + Line("") + Line("")
            + Line(listTitle) + Line(listRule) + JoinLines(list) + Line("")
            + JoinLines(disclaimer)
  {
    var es := [explanationTitle] + explanation + ["", ""];
    var ls := [listTitle, listRule] + list + [""];
    JoinLinesOfSix(header, system, result, es, ls, disclaimer);
    JoinLinesFramed(explanationTitle, explanation, "", "");
    JoinLinesTitled(listTitle, listRule, list, "");
    assert "" + JoinLines(header) == JoinLines(header);
    var before := JoinLines(header) + JoinLines(system) + JoinLines(result);
    var withExplanation := before + JoinLines(es);
    AppendFour(before, Line(explanationTitle), JoinLines(explanation), Line(""), Line(""));
    assert withExplanation
        == before + Line(explanationTitle) + JoinLines(explanation) + Line("") + Line("");
    AppendFour(withExplanation, Line(listTitle), Line(listRule), JoinLines(list), Line(""));
  }

  lemma AppendFour(prefix: string, a: string, b: string, c: string, d: string)
    ensures prefix + (a + b + c + d) == prefix + a + b + c + d
  {
  }

  /** The report text, section by section, as the writer produces it. */
  lemma ReportText(name: string, purpose: string, category: string, recommendations: seq<string>)
    ensures JoinLines(ReportLines(name, purpose, category, recommendations))
         == "" + JoinLines(HeaderLines)
            + JoinLines(SystemInformationLines(name, purpose))
            + JoinLines(ClassificationResultLines(category))
            + Line("Risk Category Explanation:") + JoinLines(ExplanationLines(category)) + Line("") + Line("")
            + Line("COMPLIANCE RECOMMENDATIONS") + Line("-------------------------")
            + JoinLines(NumberedLines(recommendations)) + Line("")
            + JoinLines(DisclaimerLines)
  {
    JoinLinesOfReport(HeaderLines, SystemInformationLines(name, purpose), ClassificationResultLines(category),
                      "Risk Category Explanation:", ExplanationLines(category),
                      "COMPLIANCE RECOMMENDATIONS", "-------------------------", NumberedLines(recommendations),
                      DisclaimerLines);
  }

  /** The endpoint fails exactly when the category or the recommendation list is missing. */
  lemma DownloadFailsIff(v: ResponseValue, fileName: Nullable<string>)
    ensures DownloadResponse(v, fileName).Status() == 500
        <==> v.riskCategory.Null? || v.recommendations.Null?
  {
  }

  /**
   * A response produced by classify, sent back as JSON, downloads: the
   * report names its category, explains it, and lists every recommendation.
   */
  lemma ClassifiedResponseDownloads(name: Nullable<string>, purpose: string, fileName: Nullable<string>)
    ensures var v := Service.Classification(name, purpose);
      var outcome := DownloadResponse(FromJson(ToJson(v)), fileName);
      outcome.Status() == 200
      && outcome.contentDisposition == ContentDisposition(EffectiveFileName(fileName))
      && var lines := ReportLines(StringValueOf(name), purpose, v.riskCategory.value, v.recommendations.value);
         outcome.body == JoinLines(lines)
         && lines[11] == "EU AI Act Classification: " + v.riskCategory.value
         && ExplanationLines(v.riskCategory.value) != []
         && |lines| == 24 + |ExplanationLines(v.riskCategory.value)| + |v.recommendations.value|
  {
    var v := Service.Classification(name, purpose);
    JsonRoundTrip(v);
    Service.ClassificationWellFormed(name, purpose);
    Service.ClassificationEchoesRequest(name, purpose);
    var category, recommendations := v.riskCategory.value, v.recommendations.value;
    ExplanationOnlyForDocumentedCategories(category);
    ReportFieldLines(StringValueOf(name), purpose, category, recommendations);
    ReportLength(StringValueOf(name), purpose, category, recommendations);
  }

  /** Without a file name, or with an empty one, the attachment is EUAIAct_Results.txt. */
  lemma DefaultFileNameUsed(fileName: Nullable<string>)
    requires fileName.Null? || fileName == NonNull("")
    ensures FileNameOf(ContentDisposition(EffectiveFileName(fileName))) == NonNull(DefaultFileName)
  {
    ContentDispositionCarriesFileName(DefaultFileName);
  }
}
