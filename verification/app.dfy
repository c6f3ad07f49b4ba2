/** The workflow controller of the frontend (frontend/src/App.tsx): the
    state the page keeps and the handlers that change it. Each request
    handler is two steps: `Start…` runs its guard, sets its loading flag
    and clears what it will refill; `Finish…` receives what the request
    gave and stores it, clearing the flag as its `finally` block does.
    What happens between the two steps (the request itself) is an input. */
module App {
  import opened Types
  import Navigation
  import Notification
  import InterviewSection
  import ResumeAnalysis
  import Endpoints

  /** The file the user picked; its bytes travel to the backend and are not
      part of this model. */
  datatype UploadedFile = UploadedFile(name: string)

  /** What `await fetch(…)` followed by `await res.json()` gives a handler:
      a rejection (the request failed or the body is not JSON) or the
      parsed body. An HTTP error status is not a rejection. */
  datatype Fetched<+T> = Rejected | Parsed(data: T)

  /** The parts of a parsed body each handler reads. A field that is absent,
      or holds a falsy value, reads as the empty text. */
  datatype ExtractData = ExtractData(text: string)
  /** `searchLinks` is present when `data?.search_links` is an array. */
  datatype LinksData = LinksData(searchLinks: Option<seq<Job>>)
  /** `scores` is present when `data.scores` is truthy. */
  datatype FeedbackData = FeedbackData(feedback: string, error: string, scores: Option<map<string, int>>)
  /** `pairs` is present when `data.pairs` is an array. */
  datatype PairsData = PairsData(pairs: Option<seq<QAPair>>)
  datatype LetterData = LetterData(letter: string, error: string)

  /** JavaScript's `a || b` on two texts where an absent text reads as "":
      the first when it is not empty, else the second. */
  function Or(a: string, b: string): (r: string)
    ensures r == [] <==> a == [] && b == []
    ensures r == a || r == b
  {
    if a != [] then a else b
  }

  const LetterFailed := "\U{274C} Failed to generate cover letter"

  /** Every state field of the page at one moment. */
  datatype Snapshot = Snapshot(
    file: Option<UploadedFile>, resumeText: string, jobPost: string,
    feedback: string, resumeScore: map<string, int>, coverLetter: string,
    qaPairs: seq<QAPair>, qaExpanded: seq<bool>, jobMatches: seq<Job>,
    showNotification: string,
    isFeedbackLoading: bool, isCoverLetterLoading: bool, isExtractingResume: bool,
    isGeneratingLinks: bool, qaLoading: bool)

  /** The state on first render: nothing picked, every text empty, every
      list empty, no flag set. */
  const Initial := Snapshot(None, "", "", "", map[], "", [], [], [], "", false, false, false, false, false)

  class Workflow {
    var file: Option<UploadedFile>
    var resumeText: string
    var jobPost: string
    var feedback: string
    var resumeScore: map<string, int>
    var coverLetter: string
    var qaPairs: seq<QAPair>
    var qaExpanded: seq<bool>
    var jobMatches: seq<Job>
    var showNotification: string
    var isFeedbackLoading: bool
    var isCoverLetterLoading: bool
    var isExtractingResume: bool
    var isGeneratingLinks: bool
    var qaLoading: bool

    function Now(): Snapshot
      reads this
    {
      Snapshot(file, resumeText, jobPost, feedback, resumeScore, coverLetter, qaPairs, qaExpanded,
               jobMatches, showNotification, isFeedbackLoading, isCoverLetterLoading,
               isExtractingResume, isGeneratingLinks, qaLoading)
    }

    /** One expansion flag per pair. */
    predicate Valid()
      reads this
    {
      |qaExpanded| == |qaPairs|
    }

    constructor()
      ensures Now() == Initial
      ensures Valid()
    {
      file, resumeText, jobPost, feedback, resumeScore, coverLetter := None, "", "", "", map[], "";
      qaPairs, qaExpanded, jobMatches, showNotification := [], [], [], "";
      isFeedbackLoading, isCoverLetterLoading, isExtractingResume, isGeneratingLinks, qaLoading :=
        false, false, false, false, false;
    }

    /** Typing in the job description box. */
    method SetJobPost(text: string)
      modifies this
      ensures Now() == old(Now()).(jobPost := text)
    {
      jobPost := text;
    }

    /** `handleFileUpload`, up to the request: records the file, sets the
        extracting flag and empties the resume text and the job matches,
        leaving the feedback, the letter and the pairs as they were. With
        the resume text empty, every section button but Home is gated. */
    method StartFileUpload(uploaded: UploadedFile)
      modifies this
      ensures Now() == old(Now()).(file := Some(uploaded), isExtractingResume := true, resumeText := "", jobMatches := [])
      ensures forall s :: s != Navigation.Home ==> Navigation.Click(s, resumeText, jobPost).Notify?
    {
      file := Some(uploaded);
      isExtractingResume := true;
      resumeText := "";
      jobMatches := [];
    }

    /** `handleFileUpload`, after the request: the extracted text when the
        body was read (empty when it has none), the text as it was when the
        request was rejected; the flag is cleared either way. */
    method FinishFileUpload(result: Fetched<ExtractData>)
      modifies this
      ensures Now() == old(Now()).(isExtractingResume := false,
                                   resumeText := if result.Parsed? then result.data.text else old(resumeText))
    {
      if result.Parsed? {
        resumeText := result.data.text;
      }
      isExtractingResume := false;
    }

    /** `generateLinks`, up to the request: nothing happens without resume
        text; otherwise only the flag is set; the old matches stay. */
    method StartLinks() returns (started: bool)
      modifies this
      ensures started <==> old(resumeText) != ""
      ensures Now() == if started then old(Now()).(isGeneratingLinks := true) else old(Now())
    {
      if resumeText == "" {
        return false;
      }
      isGeneratingLinks := true;
      started := true;
    }

    /** `generateLinks`, after the request: the links when the body holds
        an array of them, none otherwise; a rejection keeps the old ones. */
    method FinishLinks(result: Fetched<LinksData>)
      modifies this
      ensures Now() == old(Now()).(isGeneratingLinks := false,
                                   jobMatches := if result.Parsed? then result.data.searchLinks.GetOr([]) else old(jobMatches))
    {
      if result.Parsed? {
        jobMatches := result.data.searchLinks.GetOr([]);
      }
      isGeneratingLinks := false;
    }

    /** `getFeedback`, up to the request: nothing happens without a file;
        otherwise the flag is set and the feedback and scores emptied. */
    method StartFeedback() returns (started: bool)
      modifies this
      ensures started <==> old(file).Some?
      ensures Now() == if started then old(Now()).(isFeedbackLoading := true, feedback := "", resumeScore := map[])
                       else old(Now())
    {
      if file.None? {
        return false;
      }
      isFeedbackLoading := true;
      feedback := "";
      resumeScore := map[];
      started := true;
    }

    /** `getFeedback`, after the request: the feedback text, or the error
        text when there is none; the scores when present. */
    method FinishFeedback(result: Fetched<FeedbackData>)
      modifies this
      ensures result.Rejected? ==> Now() == old(Now()).(isFeedbackLoading := false)
      ensures result.Parsed? ==>
        Now() == old(Now()).(isFeedbackLoading := false,
                             feedback := Or(result.data.feedback, result.data.error),
                             resumeScore := result.data.scores.GetOr(old(resumeScore)))
    {
      if result.Parsed? {
        feedback := Or(result.data.feedback, result.data.error);
        if result.data.scores.Some? {
          resumeScore := result.data.scores.value;
        }
      }
      isFeedbackLoading := false;
    }

    /** `generateInterviewQAPairs`, up to the request: nothing happens
        unless both the resume text and the job description are there;
        otherwise the flag is set and the pairs and their flags emptied. */
    method StartInterview() returns (started: bool)
      modifies this
      ensures started <==> old(resumeText) != "" && old(jobPost) != ""
      ensures Now() == if started then old(Now()).(qaLoading := true, qaPairs := [], qaExpanded := [])
                       else old(Now())
      ensures started ==> Valid()
    {
      if resumeText == "" || jobPost == "" {
        return false;
      }
      qaLoading := true;
      qaPairs := [];
      qaExpanded := [];
      started := true;
    }

    /** `generateInterviewQAPairs`, after the request: an array of pairs
        replaces the list, each pair starting collapsed; anything else
        leaves the list as it was. One flag per pair is kept. */
    method FinishInterview(result: Fetched<PairsData>)
      requires Valid()
      modifies this
      ensures Valid()
      ensures result.Parsed? && result.data.pairs.Some? ==>
        Now() == old(Now()).(qaLoading := false, qaPairs := result.data.pairs.value,
                             qaExpanded := seq(|result.data.pairs.value|, _ => false))
      ensures !(result.Parsed? && result.data.pairs.Some?) ==> Now() == old(Now()).(qaLoading := false)
      ensures forall i: nat :: !InterviewSection.Shown(qaExpanded, i) || InterviewSection.Shown(old(qaExpanded), i)
    {
      if result.Parsed? && result.data.pairs.Some? {
        qaPairs := result.data.pairs.value;
        qaExpanded := seq(|qaPairs|, _ => false);
      }
      qaLoading := false;
    }

    /** `generateCoverLetter`, up to the request: the same guard as the
        interview; the flag is set and the letter emptied. */
    method StartCoverLetter() returns (started: bool)
      modifies this
      ensures started <==> old(resumeText) != "" && old(jobPost) != ""
      ensures Now() == if started then old(Now()).(isCoverLetterLoading := true, coverLetter := "")
                       else old(Now())
    {
      if resumeText == "" || jobPost == "" {
        return false;
      }
      isCoverLetterLoading := true;
      coverLetter := "";
      started := true;
    }

    /** `generateCoverLetter`, after the request: the letter, or the error
        text when there is none; a rejection leaves a fixed failure text
        rather than an empty letter. */
    method FinishCoverLetter(result: Fetched<LetterData>)
      modifies this
      ensures Now() == old(Now()).(isCoverLetterLoading := false,
                                   coverLetter := if result.Parsed? then Or(result.data.letter, result.data.error)
                                                  else LetterFailed)
      ensures coverLetter != ""
              <==> result.Rejected? || result.data.letter != "" || result.data.error != ""
    {
      if result.Parsed? {
        coverLetter := Or(result.data.letter, result.data.error);
      } else {
        coverLetter := LetterFailed;
      }
      isCoverLetterLoading := false;
    }

    /** A "Show Answer" button: the button of pair `index` flips that
        pair's flag and no other. */
    method ToggleAnswer(index: nat)
      requires Valid()
      requires index < |qaPairs|
      modifies this
      ensures Valid()
      ensures Now() == old(Now()).(qaExpanded := InterviewSection.Toggled(old(qaExpanded), index))
      ensures InterviewSection.Shown(qaExpanded, index) == !InterviewSection.Shown(old(qaExpanded), index)
      ensures forall j: nat :: j != index ==>
        InterviewSection.Shown(qaExpanded, j) == InterviewSection.Shown(old(qaExpanded), j)
    {
      qaExpanded := InterviewSection.Toggled(qaExpanded, index);
    }

    /** A click on a navigation button: a gated section raises its
        message in the banner, which shows it as an error; a permitted
        click changes no state (it only scrolls). */
    method NavClick(s: Navigation.Section)
      modifies this
      ensures var outcome := Navigation.Click(s, old(resumeText), old(jobPost));
        Now() == if outcome.Notify? then old(Now()).(showNotification := outcome.message) else old(Now())
      ensures Navigation.Click(s, resumeText, jobPost).Notify? ==>
        Notification.Render(showNotification, showNotification != "") ==
          Some(Notification.Style(Notification.ErrorColor, Notification.ErrorColor))
    {
      var outcome := Navigation.Click(s, resumeText, jobPost);
      if outcome.Notify? {
        Navigation.GateMessagesAreErrors(Navigation.RequiresResume(s), Navigation.RequiresJob(s), resumeText, jobPost);
        showNotification := outcome.message;
      }
    }

    /** The banner's timer running out: the message is cleared and the
        banner renders nothing. */
    method DismissNotification()
      modifies this
      ensures Now() == old(Now()).(showNotification := "")
      ensures Notification.Render(showNotification, showNotification != "").None?
    {
      showNotification := "";
    }
  }

  /** What `handleFileUpload` reads from the extraction endpoint's answer:
      the text of a success, and no text from an error body. */
  function ExtractDataOf(resp: Endpoints.Response): ExtractData
  {
    if resp.body.TextBody? then ExtractData(resp.body.text) else ExtractData("")
  }

  /** After a file that is not a PDF, or one that cannot be read, the
      resume text the page stores is empty, so every gate stays closed;
      after a readable PDF it is the extracted text. */
  lemma ExtractErrorLeavesNoResume(filename: string, pdf: Endpoints.PdfRead)
    ensures var resp := Endpoints.ExtractResume(filename, pdf);
      && (resp.status != 200 ==> ExtractDataOf(resp).text == "")
      && (resp.status == 200 ==> ExtractDataOf(resp).text == Endpoints.PdfText(pdf.pages))
  {
  }

  /** The score record the frontend receives: each category under its
      name. */
  function ScoreRecord(scores: map<ResumeAnalysis.Category, int>): (r: map<string, int>)
    ensures forall c :: c in scores ==> c.Name() in r && r[c.Name()] == scores[c]
    ensures forall n :: n in r ==> exists c :: c in scores && c.Name() == n
  {
    map c | c in scores :: c.Name() := scores[c]
  }

  /** What `getFeedback` reads from the analysis endpoint's answer. Error
      bodies carry `detail`; no body of the backend has an `error` field. */
  function FeedbackDataOf(resp: Endpoints.Response): FeedbackData
  {
    if resp.body.AnalysisBody? then
      FeedbackData(resp.body.analysis.feedback, "", Some(ScoreRecord(resp.body.analysis.scores)))
    else FeedbackData("", "", None)
  }

  /** A refused or failed upload leaves the feedback empty and the scores
      as they were: the error's text is never shown, because the page
      looks for an `error` field and the backend sends `detail`. A
      success shows the analysis and its scores. */
  lemma UploadErrorShowsNoFeedback(filename: string, pdf: Endpoints.PdfRead, apiKey: Option<string>,
                                    reply: ResumeAnalysis.FeedbackReply)
    ensures var resp := Endpoints.UploadResume(filename, pdf, apiKey, reply);
            var data := FeedbackDataOf(resp);
      && (resp.status != 200 ==> Or(data.feedback, data.error) == "" && data.scores.None?)
      && (resp.status == 200 ==>
            Or(data.feedback, data.error) == resp.body.analysis.feedback
            && data.scores == Some(ScoreRecord(resp.body.analysis.scores)))
  {
  }

  /** What `generateCoverLetter` reads from the letter endpoint's answer. */
  function LetterDataOf(resp: Endpoints.Response): LetterData
  {
    if resp.body.LetterBody? then LetterData(resp.body.letter, "") else LetterData("", "")
  }

  /** A failed letter request that still returns a body leaves the letter
      empty (the fixed failure text appears only when the request itself
      is rejected); a success stores the cleaned letter. */
  lemma CoverLetterErrorShowsNothing(resume: Endpoints.JsonField, job: Endpoints.JsonField, reply: Endpoints.LetterReply)
    ensures var resp := Endpoints.GenerateCoverLetter(resume, job, reply);
            var data := LetterDataOf(resp);
      && (resp.status != 200 ==> Or(data.letter, data.error) == "")
      && (resp.status == 200 ==> Or(data.letter, data.error) == resp.body.letter)
  {
  }

  /** What `generateInterviewQAPairs` reads from the interview endpoint's
      answer. */
  function PairsDataOf(resp: Endpoints.Response): PairsData
  {
    if resp.body.PairsBody? then PairsData(Some(resp.body.pairs)) else PairsData(None)
  }

  /** Every error of the interview endpoint leaves the list as the start
      step left it; a success replaces it with the parsed pairs. */
  lemma InterviewErrorKeepsNoPairs(resume: Endpoints.JsonField, job: Endpoints.JsonField, apiKey: Option<string>,
                                   reply: Endpoints.InterviewReply)
    ensures var resp := Endpoints.InterviewTrainer(resume, job, apiKey, reply);
      PairsDataOf(resp).pairs.Some? <==> resp.status == 200
  {
  }

  /** What `generateLinks` reads from the links endpoint's answer;
      `modelLinks` is what the model's own JSON holds under
      `search_links`, when that is an array. */
  function LinksDataOf(resp: Endpoints.Response, modelLinks: Option<seq<Job>>): LinksData
  {
    match resp.body
    case LinksBody(answer) => LinksData(Some(answer.searchLinks))
    case ModelJson(_) => LinksData(modelLinks)
    case _ => LinksData(None)
  }

  /** When the model's answer holds no choices the endpoint answers
      `null`, and the page empties its matches; when the call raised, the
      page shows the four fixed links; when links were built, the eight
      built ones. */
  lemma LinksAnswerShown(resume: Endpoints.JsonField, reply: Endpoints.LinksReply, found: Endpoints.ResumeMatches,
                         encode: string -> string, modelLinks: Option<seq<Job>>)
    requires Endpoints.GenerateLinks(resume, reply, found, encode).status == 200
    ensures var shown := LinksDataOf(Endpoints.GenerateLinks(resume, reply, found, encode), modelLinks).searchLinks.GetOr([]);
      && (reply.LinksNoChoices? ==> shown == [])
      && (reply.LinksRaised? ==> |shown| == 4)
      && (reply.NotLinksJson? ==> |shown| == 8)
  {
  }
}
