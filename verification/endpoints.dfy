/** The five HTTP endpoints of the backend (backend/main.py): which status
    and which body each answers with, for every request that passes the
    web framework's own validation and every outcome of the calls it
    makes. The PDF reader, the language model and the pattern searches are
    inputs: each endpoint receives what they would have produced. */
module Endpoints {
  import opened Types
  import opened Text
  import opened ResumeAnalysis
  import opened QAParsing
  import opened CoverLetter
  import opened JobLinks

  /** One field of a JSON request body: absent, a string, or some other
      JSON value (a number, a list, null). */
  datatype JsonField = Absent | Str(value: string) | NotAString

  /** `payload.get(key, "").strip()`: an absent field reads as the empty
      text; `None` when the value is not a string and `.strip()` raises. */
  function FieldText(f: JsonField): (r: Option<string>)
    ensures f.NotAString? <==> r.None?
    ensures f.Absent? ==> r == Some([])
    ensures f.Str? ==> r == Some(Strip(f.value))
  {
    match f
    case Absent => Some([])
    case Str(v) => Some(Strip(v))
    case NotAString => None
  }

  /** A body the endpoint sends. `Detail` is an error whose `detail` text is
      fixed by the code; `DetailAfter` is an error whose text is `prefix`
      followed by the text of an exception raised inside a library, which
      is not part of this model. */

  /** The text of an `HTTPException` that an endpoint raises and then
      catches itself: the status, a colon and a space, then the detail. */
  function CaughtText(status: nat, detail: string): (t: string)
    ensures StartsWith(t, NatToString(status) + ": ")
    ensures EndsWith(t, detail)
  {
    NatToString(status) + ": " + detail
  }
  datatype Body =
    | Detail(text: string)
    | DetailAfter(prefix: string)
    | AnalysisBody(analysis: Analysis)
    | TextBody(text: string, score: seq<int>)
    | LetterBody(letter: string)
    | PairsBody(pairs: seq<QAPair>)
    | ModelJson(json: string)
    | LinksBody(answer: LinksAnswer)
    | NullBody

  datatype Response = Response(status: nat, body: Body)

  const OnlyPdf := "Only PDF files are supported"
  const MissingInput := "Missing resume or job description"
  const NoApiKey := "GROQ API key not configured"
  const NoInterviewChoices := "Failed to get AI response for interview questions"
  const CoverLetterFailed := "Failed to generate cover letter: "
  const ResumeRequired := "Resume content is required"
  const ReadFailed := "Failed to read PDF: "
  const ProcessFailed := "Failed to process resume: "

  /** What the PDF reader makes of the uploaded bytes: the text of each page
      in order, or an error. */
  datatype PdfRead = Pages(pages: seq<string>) | Unreadable

  /** `extract_text_from_pdf` on readable bytes: the pages' texts, joined
      and stripped. */
  function PdfText(pages: seq<string>): (r: string)
    ensures NonSpace(r) == NonSpace(Concat(pages))
    ensures r == [] || (!IsSpace(r[0]) && !IsSpace(r[|r| - 1]))
  {
    StripKeepsText(Concat(pages));
    StripMeaning(Concat(pages));
    Strip(Concat(pages))
  }

  /** The page loop of `extract_text_from_pdf`. */
  method ExtractText(pages: seq<string>) returns (text: string)
    ensures text == PdfText(pages)
  {
    var acc := "";
    var i := 0;
    while i < |pages|
      invariant 0 <= i <= |pages|
      invariant acc == Concat(pages[..i])
    {
      ConcatSnoc(pages[..i], pages[i]);
      assert pages[..i + 1] == pages[..i] + [pages[i]];
      acc := acc + pages[i];
      i := i + 1;
    }
    assert pages[..i] == pages;
    text := Strip(acc);
  }

  /** `POST /upload-resume`: a file whose name does not end in ".pdf" is
      refused with 400 before anything is read; unreadable bytes give 500;
      otherwise 200 with the analysis of the extracted text. */
  function UploadResume(filename: string, pdf: PdfRead, apiKey: Option<string>, reply: FeedbackReply): (resp: Response)
    ensures !EndsWith(filename, ".pdf") ==> resp == Response(400, Detail(OnlyPdf))
    ensures EndsWith(filename, ".pdf") && pdf.Unreadable? ==>
      resp == Response(500, DetailAfter(ProcessFailed + ReadFailed))
    ensures EndsWith(filename, ".pdf") && pdf.Pages? ==>
      resp == Response(200, AnalysisBody(AnalysisOf(PdfText(pdf.pages), apiKey, reply)))
  {
    if !EndsWith(filename, ".pdf") then Response(400, Detail(OnlyPdf))
    else match pdf
      case Unreadable => Response(500, DetailAfter(ProcessFailed + ReadFailed))
      case Pages(pages) => Response(200, AnalysisBody(AnalysisOf(PdfText(pages), apiKey, reply)))
  }

  /** `POST /extract-resume`: the same filename check, then the extracted
      text with an empty score list. */
  function ExtractResume(filename: string, pdf: PdfRead): (resp: Response)
    ensures resp.status == 200 <==> EndsWith(filename, ".pdf") && pdf.Pages?
    ensures resp.status == 200 ==> resp.body == TextBody(PdfText(pdf.pages), [])
    ensures !EndsWith(filename, ".pdf") ==> resp == Response(400, Detail(OnlyPdf))
    ensures EndsWith(filename, ".pdf") && pdf.Unreadable? ==> resp == Response(500, DetailAfter(ReadFailed))
  {
    if !EndsWith(filename, ".pdf") then Response(400, Detail(OnlyPdf))
    else match pdf
      case Unreadable => Response(500, DetailAfter(ReadFailed))
      case Pages(pages) => Response(200, TextBody(PdfText(pages), []))
  }

  /** The two upload endpoints agree: both refuse the same file names and
      fail on the same bytes, the analysis endpoint's failure detail being
      the extraction endpoint's, prefixed; when both succeed, the analysis
      is the analysis of the extracted text. */
  lemma UploadAgreesWithExtract(filename: string, pdf: PdfRead, apiKey: Option<string>, reply: FeedbackReply)
    ensures var u := UploadResume(filename, pdf, apiKey, reply);
            var e := ExtractResume(filename, pdf);
      && u.status == e.status
      && (e.status == 400 ==> u == e)
      && (e.status == 500 ==> u.body.prefix == ProcessFailed + e.body.prefix)
      && (e.status == 200 ==> u.body.analysis == AnalysisOf(e.body.text, apiKey, reply))
  {
  }

  /** What asking the model for a cover letter produced: the call raised,
      the answer held no choices, or a letter, given as the text after the
      collapse of blank-line runs. */
  datatype LetterReply = LetterRaised | LetterNoChoices | Letter(collapsed: string)

  /** `POST /generate-cover-letter`. Every failure, the missing input
      included, is caught by the endpoint's own handler and answered with
      500; a failure inside the letter generator carries its prefix twice. */
  function GenerateCoverLetter(resume: JsonField, job: JsonField, reply: LetterReply): (resp: Response)
    ensures resp.status == 200 <==>
      && FieldText(resume).Some? && FieldText(resume).value != []
      && FieldText(job).Some? && FieldText(job).value != []
      && reply.Letter?
    ensures resp.status == 200 ==> resp.body == LetterBody(CleanCoverLetter(reply.collapsed))
    ensures FieldText(resume).None? || FieldText(job).None? ==> resp == Response(500, DetailAfter(CoverLetterFailed))
    ensures FieldText(resume).Some? && FieldText(job).Some? && (FieldText(resume).value == [] || FieldText(job).value == []) ==>
      resp == Response(500, Detail(CoverLetterFailed + CaughtText(400, MissingInput)))
    ensures resp.status != 200 ==>
      && resp.status == 500
      && ((resp.body.DetailAfter? && StartsWith(resp.body.prefix, CoverLetterFailed)) ||
          (resp.body.Detail? && StartsWith(resp.body.text, CoverLetterFailed)))
  {
    var r := FieldText(resume);
    var j := FieldText(job);
    if r.None? || j.None? then Response(500, DetailAfter(CoverLetterFailed))
    else if r.value == [] || j.value == [] then Response(500, Detail(CoverLetterFailed + CaughtText(400, MissingInput)))
    else match reply
      case Letter(collapsed) => Response(200, LetterBody(CleanCoverLetter(collapsed)))
      case _ => Response(500, DetailAfter(CoverLetterFailed + CoverLetterFailed))
  }

  /** What the interview call produced: the request raised, or an HTTP
      status and a body. */
  datatype InterviewReply = InterviewRaised | Answered(status: nat, json: InterviewJson)

  /** The body of a 200 answer: not readable as expected, without choices,
      or the content with the matches of the Q#:/A#: pattern in it. */
  datatype InterviewJson = JsonUnreadable | JsonNoChoices | JsonContent(content: string, matches: seq<RawMatch>)

  /** `POST /interview-trainer`. Its own HTTP errors pass through unchanged;
      any other exception becomes 500 with the exception's text. */
  function InterviewTrainer(resume: JsonField, job: JsonField, apiKey: Option<string>, reply: InterviewReply): (resp: Response)
    ensures FieldText(resume).None? || FieldText(job).None? ==> resp == Response(500, DetailAfter([]))
    ensures FieldText(resume) == Some([]) && FieldText(job).Some? ==> resp == Response(400, Detail(MissingInput))
    ensures FieldText(resume).Some? && FieldText(job) == Some([]) ==> resp == Response(400, Detail(MissingInput))
    ensures resp.status == 200 <==>
      && FieldText(resume).Some? && FieldText(resume).value != []
      && FieldText(job).Some? && FieldText(job).value != []
      && apiKey.Some? && apiKey.value != []
      && reply.Answered? && reply.status == 200 && reply.json.JsonContent?
      && ParsedPairs(reply.json.content, reply.json.matches).Success?
    ensures resp.status == 200 ==> resp.body == PairsBody(ParsedPairs(reply.json.content, reply.json.matches).value)
    ensures resp.status != 200 ==> resp.status in {400, 500}
  {
    var r := FieldText(resume);
    var j := FieldText(job);
    if r.None? || j.None? then Response(500, DetailAfter([]))
    else if r.value == [] || j.value == [] then Response(400, Detail(MissingInput))
    else if apiKey.None? || apiKey.value == [] then Response(500, Detail(NoApiKey))
    else match reply
      case InterviewRaised => Response(500, DetailAfter([]))
      case Answered(status, json) =>
        if status != 200 then Response(500, Detail("GROQ API error: " + NatToString(status)))
        else match json
          case JsonUnreadable => Response(500, DetailAfter([]))
          case JsonNoChoices => Response(500, Detail(NoInterviewChoices))
          case JsonContent(content, matches) =>
            match ParsedPairs(content, matches)
            case Success(pairs) => Response(200, PairsBody(pairs))
            case Failure(message) => Response(500, Detail(message))
  }

  /** What the job-search call produced: the call raised, the answer held
      no choices, or content, which either parsed as JSON holding
      "search_links" (kept as it came) or did not. */
  datatype LinksReply = LinksRaised | LinksNoChoices | LinksJson(json: string) | NotLinksJson

  /** What the title and location patterns found in the resume text. */
  datatype ResumeMatches = ResumeMatches(titleMatches: seq<string>, possibleTitles: seq<string>, locationMatches: seq<string>)

  /** `POST /generate-links`. A missing or blank resume raises a 400 that
      the endpoint's own handler turns into 500; once past that check the
      answer is always 200: the model's JSON, links built from the resume,
      the fixed fallback links when the call raised, or `null` when the
      answer held no choices. `encode` stands for `quote_plus`. */
  function GenerateLinks(resume: JsonField, reply: LinksReply, found: ResumeMatches, encode: string -> string): (resp: Response)
    ensures resp.status == 500 <==> FieldText(resume).None? || FieldText(resume) == Some([])
    ensures resp.status != 500 ==> resp.status == 200
    ensures FieldText(resume).None? ==> resp == Response(500, DetailAfter([]))
    ensures FieldText(resume) == Some([]) ==> resp == Response(500, Detail(CaughtText(400, ResumeRequired)))
    ensures resp.status == 200 && reply.LinksRaised? ==> resp.body == LinksBody(FailureAnswer())
    ensures resp.status == 200 && reply.LinksNoChoices? ==> resp.body == NullBody
    ensures resp.status == 200 && reply.LinksJson? ==> resp.body == ModelJson(reply.json)
    ensures resp.status == 200 && reply.NotLinksJson? ==>
      resp.body == LinksBody(BuiltAnswer(found.titleMatches, found.possibleTitles, found.locationMatches, encode))
  {
    var r := FieldText(resume);
    if r.None? then Response(500, DetailAfter([]))
    else if r.value == [] then Response(500, Detail(CaughtText(400, ResumeRequired)))
    else match reply
      case LinksRaised => Response(200, LinksBody(FailureAnswer()))
      case LinksNoChoices => Response(200, NullBody)
      case LinksJson(json) => Response(200, ModelJson(json))
      case NotLinksJson =>
        Response(200, LinksBody(BuiltAnswer(found.titleMatches, found.possibleTitles, found.locationMatches, encode)))
  }

  /** A resume that is missing or only whitespace is answered differently
      by the three endpoints that take one, whatever the models would have
      said: 400 by the interview endpoint, 500 by the other two, whose
      handlers catch their own 400 and send its text as the detail. */
  lemma BlankResumeStatuses(resume: JsonField, job: JsonField, apiKey: Option<string>,
                            interview: InterviewReply, letter: LetterReply,
                            links: LinksReply, found: ResumeMatches, encode: string -> string)
    requires resume.Absent? || (resume.Str? && AllSpace(resume.value))
    requires job.Str?
    ensures InterviewTrainer(resume, job, apiKey, interview) == Response(400, Detail(MissingInput))
    ensures GenerateCoverLetter(resume, job, letter) == Response(500, Detail(CoverLetterFailed + CaughtText(400, MissingInput)))
    ensures GenerateLinks(resume, links, found, encode) == Response(500, Detail(CaughtText(400, ResumeRequired)))
  {
    if resume.Str? {
      StripMeaning(resume.value);
    }
  }
}
