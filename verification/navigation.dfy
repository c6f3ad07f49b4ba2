/** The navigation bar's gate (frontend/src/components/Navigation.tsx): a
    click on a section button either scrolls to the section or raises an
    advisory message, depending on whether a resume and a job description
    are present. */
module Navigation {
  import Notification

  /** The five buttons of the navigation bar. */
  datatype Section = Home | ResumeFeedback | CoverLetter | InterviewTrainer | JobListings

  /** The two flags each button passes to the click handler. */
  function RequiresResume(s: Section): bool
  {
    s != Home
  }

  function RequiresJob(s: Section): bool
  {
    s == InterviewTrainer
  }

  /** The effect of one click: exactly one of the two callbacks runs. */
  datatype Outcome = Notify(message: string) | Scroll

  const BothMissing := "Please upload your resume and add a job description first"
  const ResumeMissing := "Please upload your resume first"
  const JobMissing := "Please add a job description first"

  /** When the handler lets a click through: nothing is required, or the
      resume is present and, if the job is required as well, so is the job
      description. A job requirement on its own is never checked. */
  predicate Permitted(requiresResume: bool, requiresJob: bool, resumeText: string, jobPost: string)
  {
    !requiresResume || (resumeText != "" && (!requiresJob || jobPost != ""))
  }

  /** `handleNavClick`: scrolls exactly when the click is permitted, and
      otherwise names what is missing. */
  function HandleNavClick(requiresResume: bool, requiresJob: bool, resumeText: string, jobPost: string): (r: Outcome)
    ensures r.Scroll? <==> Permitted(requiresResume, requiresJob, resumeText, jobPost)
    ensures requiresResume && requiresJob && resumeText == "" && jobPost == "" ==> r == Notify(BothMissing)
    ensures requiresResume && requiresJob && resumeText == "" && jobPost != "" ==> r == Notify(ResumeMissing)
    ensures requiresResume && requiresJob && resumeText != "" && jobPost == "" ==> r == Notify(JobMissing)
    ensures requiresResume && !requiresJob && resumeText == "" ==> r == Notify(ResumeMissing)
    ensures !requiresResume ==> r == Scroll
  {
    if requiresResume && requiresJob then
      if resumeText == "" && jobPost == "" then Notify(BothMissing)
      else if resumeText == "" then Notify(ResumeMissing)
      else if jobPost == "" then Notify(JobMissing)
      else Scroll
    else if requiresResume && resumeText == "" then Notify(ResumeMissing)
    else Scroll
  }

  /** A click on the button of section `s`: Home always scrolls, the
      interview button needs both inputs, every other button the resume;
      a refused click carries one of the three advisory texts. */
  function Click(s: Section, resumeText: string, jobPost: string): (r: Outcome)
    ensures r.Scroll? <==> s == Home || (resumeText != "" && (s != InterviewTrainer || jobPost != ""))
    ensures r.Notify? ==> r.message == BothMissing || r.message == ResumeMissing || r.message == JobMissing
  {
    HandleNavClick(RequiresResume(s), RequiresJob(s), resumeText, jobPost)
  }

  /** The inline style of a button: Home has none (fully opaque, pointer);
      the interview button is dimmed when either input is missing, the
      other three when the resume is missing. */
  datatype ButtonStyle = ButtonStyle(opacity: real, notAllowed: bool)

  function Style(s: Section, resumeText: string, jobPost: string): (r: ButtonStyle)
    ensures r.opacity == (if r.notAllowed then 0.5 else 1.0)
    ensures r.notAllowed <==> s != Home && (resumeText == "" || (s == InterviewTrainer && jobPost == ""))
  {
    match s
    case Home => ButtonStyle(1.0, false)
    case InterviewTrainer =>
      var dim := resumeText == "" || jobPost == "";
      ButtonStyle(if dim then 0.5 else 1.0, dim)
    case _ =>
      var dim := resumeText == "";
      ButtonStyle(if dim then 0.5 else 1.0, dim)
  }

  /** The dimming mirrors the gate: a button is drawn at half opacity with
      a not-allowed cursor exactly when a click on it would be refused. */
  lemma DimmedIffBlocked(s: Section, resumeText: string, jobPost: string)
    ensures Style(s, resumeText, jobPost).opacity == 0.5 <==> Click(s, resumeText, jobPost).Notify?
    ensures Style(s, resumeText, jobPost).notAllowed <==> Click(s, resumeText, jobPost).Notify?
  {
  }

  /** Home always scrolls. */
  lemma HomeAlwaysScrolls(resumeText: string, jobPost: string)
    ensures Click(Home, resumeText, jobPost) == Scroll
  {
  }

  /** The resume-only buttons ignore the job description: with a resume
      they scroll, without one they ask for it. */
  lemma ResumeOnlyButtons(s: Section, resumeText: string, jobPost: string)
    requires s in {ResumeFeedback, CoverLetter, JobListings}
    ensures resumeText != "" ==> Click(s, resumeText, jobPost) == Scroll
    ensures resumeText == "" ==> Click(s, resumeText, jobPost) == Notify(ResumeMissing)
  {
  }

  /** Each of the three advisory texts opens with "Please". */
  lemma GateMessagesStartWithPlease()
    ensures BothMissing == "Please" + BothMissing[6..]
    ensures ResumeMissing == "Please" + ResumeMissing[6..]
    ensures JobMissing == "Please" + JobMissing[6..]
  {
  }

  /** Every message the gate can raise is shown by the banner as an error. */
  lemma GateMessagesAreErrors(requiresResume: bool, requiresJob: bool, resumeText: string, jobPost: string)
    ensures HandleNavClick(requiresResume, requiresJob, resumeText, jobPost).Notify? ==>
              Notification.IsError(HandleNavClick(requiresResume, requiresJob, resumeText, jobPost).message)
  {
    var r := HandleNavClick(requiresResume, requiresJob, resumeText, jobPost);
    if r.Notify? {
      GateMessagesStartWithPlease();
      Notification.PleaseMessageIsError(r.message[6..]);
    }
  }
}
