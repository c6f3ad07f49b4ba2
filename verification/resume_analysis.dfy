/** Resume scoring in the backend (backend/main.py, `analyze_resume` and
    `_generate_fallback_analysis`): a keyword-based fallback used whenever
    no model is configured or the model fails, and the model's feedback
    with scores read out of it otherwise. */
module ResumeAnalysis {
  import opened Types
  import opened Text

  /** The keys of the score dictionary; `Name` gives the key as sent. */
  datatype Category = Format | Content | Skills | Impact | Overall {
    function Name(): string
    {
      match this
      case Format => "Format"
      case Content => "Content"
      case Skills => "Skills"
      case Impact => "Impact"
      case Overall => "Overall"
    }
  }

  /** The result: markdown feedback and one score per category. */
  datatype Analysis = Analysis(feedback: string, scores: map<Category, int>)

  /** The score categories, in the order of the score dictionary. */
  const Categories: seq<Category> := [Format, Content, Skills, Impact, Overall]
  const ScoreKeys: set<Category> := {Format, Content, Skills, Impact, Overall}

  const ContactKeywords: seq<string> := ["email", "phone", "@", "linkedin"]
  const ExperienceKeywords: seq<string> := ["experience", "work", "job", "position"]
  const EducationKeywords: seq<string> := ["education", "degree", "university", "college"]
  const SkillsKeywords: seq<string> := ["skills", "programming", "software", "technical"]
  const ImpactKeywords: seq<string> := ["achieved", "improved", "increased", "developed"]
  /** The feedback's "action words" line checks one keyword fewer than the
      Impact score does: "developed" is missing. */
  const ActionWordKeywords: seq<string> := ["achieved", "improved", "increased"]

  /** `keyword in text.lower()`. */
  predicate Mentions(text: string, keyword: string)
  {
    Contains(Lower(text), keyword)
  }

  /** One of `keywords` is mentioned in `text`. */
  predicate MentionsSome(text: string, keywords: seq<string>)
  {
    exists k :: k in keywords && Mentions(text, k)
  }

  /** `any(keyword in text.lower() for keyword in keywords)`, scanning the
      keywords in order: true exactly when one of them is mentioned. */
  function MentionsAny(text: string, keywords: seq<string>): (r: bool)
    ensures r <==> MentionsSome(text, keywords)
  {
    if keywords == [] then false
    else if Mentions(text, keywords[0]) then true
    else
      var rest := MentionsAny(text, keywords[1..]);
      assert forall k :: k in keywords ==> k == keywords[0] || k in keywords[1..];
      rest
  }

  /** What the fallback reads from the resume text: its word count and
      which keyword groups it mentions. */
  datatype Signals = Signals(wordCount: nat, contact: bool, experience: bool, education: bool,
                             skills: bool, impact: bool, actionWords: bool)

  function ReadSignals(text: string): (g: Signals)
    ensures g.wordCount == |Words(text)|
    ensures g.contact <==> MentionsSome(text, ContactKeywords)
    ensures g.experience <==> MentionsSome(text, ExperienceKeywords)
    ensures g.education <==> MentionsSome(text, EducationKeywords)
    ensures g.skills <==> MentionsSome(text, SkillsKeywords)
    ensures g.impact <==> MentionsSome(text, ImpactKeywords)
    ensures g.actionWords <==> MentionsSome(text, ActionWordKeywords)
  {
    Signals(WordCount(text), MentionsAny(text, ContactKeywords), MentionsAny(text, ExperienceKeywords),
            MentionsAny(text, EducationKeywords), MentionsAny(text, SkillsKeywords),
            MentionsAny(text, ImpactKeywords), MentionsAny(text, ActionWordKeywords))
  }

  /** The score dictionary built from the signals: exactly the five
      categories, each score between 5 and 8. */
  function ScoresFor(g: Signals): (scores: map<Category, int>)
    ensures scores.Keys == ScoreKeys
    ensures forall k :: k in scores ==> 5 <= scores[k] <= 8
    ensures scores[Format] == if g.wordCount > 200 then 8 else 6
    ensures scores[Content] == if g.experience && g.education then 8 else 6
    ensures scores[Skills] == if g.skills then 8 else 5
    ensures scores[Impact] == if g.impact then 7 else 5
    ensures scores[Overall] == 7
  {
    map[
      Format := if g.wordCount > 200 then 8 else 6,
      Content := if g.experience && g.education then 8 else 6,
      Skills := if g.skills then 8 else 5,
      Impact := if g.impact then 7 else 5,
      Overall := 7
    ]
  }

  /** The fallback scores. */
  function FallbackScores(text: string): map<Category, int>
  {
    ScoresFor(ReadSignals(text))
  }

  /** What each fallback score means: exactly the five categories, each
      between 5 and 8; Format 8 for more than 200 words and 6 otherwise;
      Content 8 when an experience word and an education word both occur,
      6 otherwise; Skills 8 or 5 and Impact 7 or 5 on their keywords;
      Overall always 7. */
  lemma FallbackScoresMeaning(text: string)
    ensures FallbackScores(text).Keys == ScoreKeys
    ensures forall k :: k in FallbackScores(text) ==> 5 <= FallbackScores(text)[k] <= 8
    ensures FallbackScores(text)[Format] == if |Words(text)| > 200 then 8 else 6
    ensures FallbackScores(text)[Content] ==
      if MentionsSome(text, ExperienceKeywords) && MentionsSome(text, EducationKeywords)
      then 8 else 6
    ensures FallbackScores(text)[Skills] == if MentionsSome(text, SkillsKeywords) then 8 else 5
    ensures FallbackScores(text)[Impact] == if MentionsSome(text, ImpactKeywords) then 7 else 5
    ensures FallbackScores(text)[Overall] == 7
  {
    var g := ReadSignals(text);
  }

  /** The fallback report text, up to the overall score. */
  function ReportBody(g: Signals): string
  {
    "**Resume Analysis Report**\n\n**Strengths:**\n- Resume contains " + NatToString(g.wordCount)
    + (if g.wordCount > 200 then " words, which is adequate\n- " else " words, which is could be expanded\n- ")
    + (if g.contact then "Contact information is present\n- "
       else "Consider adding complete contact information\n- ")
    + (if g.experience then "Work experience section is included\n- "
       else "Work experience needs to be added\n- ")
    + (if g.education then "Education background is mentioned\n\n**Areas for Improvement:**\n- "
       else "Education section should be included\n\n**Areas for Improvement:**\n- ")
    + (if g.skills then "Skills section looks good\n- "
       else "Add a dedicated skills section with relevant technical and soft skills\n- ")
    + (if g.actionWords then "Good use of action words and achievements" + ReportAdvice
       else "Include more quantifiable achievements and action words" + ReportAdvice)
  }

  /** The fixed advice that follows the strengths and improvements. */
  const ReportAdvice := "\n- Consider using bullet points for better readability\n- Ensure consistent formatting throughout the document\n\n**Recommendations:**\n1. Use action verbs to start bullet points (e.g., \"Developed\", \"Managed\", \"Achieved\")\n2. Include quantifiable results where possible (e.g., \"Increased sales by 25%\")\n3. Tailor your resume to match the job description\n4. Keep the format clean and professional\n5. Proofread for any spelling or grammatical errors\n\n**"

  const ReportClosing := "**\nYour resume has a solid foundation. Focus on adding more specific achievements and quantifiable results to make it stand out to employers."

  /** The line that reports the overall score. */
  function ScoreLine(overall: nat): string
  {
    "Overall Score: " + NatToString(overall) + "/10"
  }

  /** For the fallback's overall score of 7 the line reads
      "Overall Score: 7/10". */
  lemma ScoreLineSeven()
    ensures ScoreLine(7) == "Overall Score: 7/10"
  {
    assert NatToString(7) == "7";
  }

  /** The whole fallback report. */
  function Report(g: Signals, overall: nat): string
  {
    ReportBody(g) + ScoreLine(overall) + ReportClosing
  }

  /** Whatever the signals, the report carries its score line. */
  lemma ReportShowsScore(g: Signals, overall: nat)
    ensures Contains(Report(g, overall), ScoreLine(overall))
  {
    ContainsInfix(ReportBody(g), ScoreLine(overall), ReportClosing);
  }

  /** `_generate_fallback_analysis`: the keyword scores, and a report that
      carries the score line for the overall score, which is 7. */
  function FallbackAnalysis(text: string): (r: Analysis)
    ensures r.scores == FallbackScores(text)
    ensures r.scores[Overall] == 7
    ensures Contains(r.feedback, ScoreLine(7))
  {
    var scores := FallbackScores(text);
    ReportShowsScore(ReadSignals(text), 7);
    Analysis(Report(ReadSignals(text), scores[Overall]), scores)
  }

  /** A resume that mentions "developed" but none of "achieved",
      "improved" and "increased" earns the higher Impact score, yet its
      report still asks for more action words: the report's check leaves
      out "developed". */
  lemma DevelopedOnlyImpact(text: string)
    requires Mentions(text, "developed")
    requires !Mentions(text, "achieved") && !Mentions(text, "improved") && !Mentions(text, "increased")
    ensures FallbackScores(text)[Impact] == 7
    ensures !ReadSignals(text).actionWords
  {
    assert "developed" in ImpactKeywords;
    assert forall k :: k in ActionWordKeywords ==> k == "achieved" || k == "improved" || k == "increased";
  }

  /** One such resume. */
  lemma DevelopedOnlyExample()
    ensures Mentions("developed", "developed")
    ensures !Mentions("developed", "achieved") && !Mentions("developed", "improved")
    ensures !Mentions("developed", "increased")
  {
    var t := "developed";
    LowerOfLower(t);
    assert "developed" <= t;
    AbsentHeadNotContained(t, "achieved");
    AbsentHeadNotContained(t, "improved");
    AbsentHeadNotContained(t, "increased");
  }

  /** The scores the model-backed path starts from, before any are read
      out of the model's feedback. */
  const DefaultScores: map<Category, int> :=
    map[Format := 8, Content := 7, Skills := 8, Impact := 7, Overall := 7]

  /** How many score patterns each category has (format, content, skills,
      impact, overall). */
  const PatternCounts: seq<nat> := [3, 2, 2, 2, 3]

  /** What the regular-expression search over the feedback found for
      pattern `p` of category `c`: the number it captured, if it matched.
      The searches themselves are not part of this model. */
  type PatternHits = (nat, nat) -> Option<nat>

  /** The number captured by the first of patterns `p`, `p+1`, ... of
      category `c` that matched. */
  function FirstHit(hits: PatternHits, c: nat, p: nat): Option<nat>
    requires c < |PatternCounts|
    decreases PatternCounts[c] - p
  {
    if p >= PatternCounts[c] then None
    else if hits(c, p).Some? then hits(c, p)
    else FirstHit(hits, c, p + 1)
  }

  /** The score of category `c` after the overrides. */
  function OverriddenScore(hits: PatternHits, c: nat): int
    requires c < |Categories|
  {
    match FirstHit(hits, c, 0)
    case Some(n) => n
    case None => DefaultScores[Categories[c]]
  }

  lemma {:induction false} FirstHitFinds(hits: PatternHits, c: nat, from: nat, p: nat)
    requires c < |PatternCounts| && from <= p < PatternCounts[c]
    requires hits(c, p).Some?
    requires forall q :: from <= q < p ==> hits(c, q).None?
    ensures FirstHit(hits, c, from) == hits(c, p)
    decreases p - from
  {
    if from < p {
      FirstHitFinds(hits, c, from + 1, p);
    }
  }

  lemma {:induction false} FirstHitMisses(hits: PatternHits, c: nat, from: nat)
    requires c < |PatternCounts|
    requires forall q :: from <= q < PatternCounts[c] ==> hits(c, q).None?
    ensures FirstHit(hits, c, from).None?
    decreases PatternCounts[c] - from
  {
    if from < PatternCounts[c] {
      FirstHitMisses(hits, c, from + 1);
    }
  }

  /** A category's score is the number captured by the first of its
      patterns that matched, and its default when none matched. */
  lemma OverrideTakesFirstMatch(hits: PatternHits, c: nat, p: nat)
    requires c < |Categories|
    ensures p < PatternCounts[c] && hits(c, p).Some? && (forall q :: 0 <= q < p ==> hits(c, q).None?) ==>
      OverriddenScore(hits, c) == hits(c, p).value
    ensures (forall q :: 0 <= q < PatternCounts[c] ==> hits(c, q).None?) ==>
      OverriddenScore(hits, c) == DefaultScores[Categories[c]]
  {
    if p < PatternCounts[c] && hits(c, p).Some? && (forall q :: 0 <= q < p ==> hits(c, q).None?) {
      FirstHitFinds(hits, c, 0, p);
    }
    if forall q :: 0 <= q < PatternCounts[c] ==> hits(c, q).None? {
      FirstHitMisses(hits, c, 0);
    }
  }

  /** The scores after the overrides: each category takes the number
      captured by its first matching pattern and keeps its default when
      none matches; the set of categories does not change. */
  function OverriddenScores(hits: PatternHits): (scores: map<Category, int>)
    ensures scores.Keys == ScoreKeys
    ensures forall c :: 0 <= c < |Categories| ==> scores[Categories[c]] == OverriddenScore(hits, c)
  {
    map[Format := OverriddenScore(hits, 0), Content := OverriddenScore(hits, 1), Skills := OverriddenScore(hits, 2),
        Impact := OverriddenScore(hits, 3), Overall := OverriddenScore(hits, 4)]
  }

  /** The loop over the score patterns. */
  method ApplyScoreOverrides(hits: PatternHits) returns (scores: map<Category, int>)
    ensures scores == OverriddenScores(hits)
  {
    scores := DefaultScores;
    var c := 0;
    while c < |Categories|
      invariant 0 <= c <= |Categories|
      invariant scores.Keys == ScoreKeys
      invariant forall k :: 0 <= k < c ==> scores[Categories[k]] == OverriddenScore(hits, k)
      invariant forall k :: c <= k < |Categories| ==> scores[Categories[k]] == DefaultScores[Categories[k]]
    {
      var p := 0;
      while p < PatternCounts[c]
        invariant 0 <= p <= PatternCounts[c]
        invariant FirstHit(hits, c, 0) == FirstHit(hits, c, p)
        invariant scores.Keys == ScoreKeys
        invariant forall k :: 0 <= k < c ==> scores[Categories[k]] == OverriddenScore(hits, k)
        invariant forall k :: c <= k < |Categories| ==> scores[Categories[k]] == DefaultScores[Categories[k]]
      {
        var hit := hits(c, p);
        if hit.Some? {
          scores := scores[Categories[c] := hit.value];
          break;
        }
        p := p + 1;
      }
      c := c + 1;
    }
    assert forall k :: k in ScoreKeys ==> k == Categories[0] || k == Categories[1] || k == Categories[2] || k == Categories[3] || k == Categories[4];
  }

  /** The outcome of asking the model for feedback: the call (or reading
      its answer) raised, the answer held no choices, or a first choice
      with its text and what the score patterns found in it. */
  datatype FeedbackReply = CallFailed | NoChoices | Reply(content: string, hits: PatternHits)

  /** `analyze_resume`: without an API key, or when the call raises or
      yields no choices, the keyword fallback; otherwise the model's text
      with the default scores overridden by what the patterns found. */
  function AnalysisOf(text: string, apiKey: Option<string>, reply: FeedbackReply): (r: Analysis)
    ensures apiKey.None? || apiKey == Some("") || !reply.Reply? ==> r == FallbackAnalysis(text)
    ensures apiKey.Some? && apiKey.value != "" && reply.Reply? ==>
      r.feedback == reply.content && r.scores.Keys == ScoreKeys &&
      forall c :: 0 <= c < |Categories| ==> r.scores[Categories[c]] == OverriddenScore(reply.hits, c)
  {
    if apiKey.None? || apiKey == Some("") || !reply.Reply? then FallbackAnalysis(text)
    else Analysis(reply.content, OverriddenScores(reply.hits))
  }

  /** The analysis, computed with the override loop. */
  method AnalyzeResume(text: string, apiKey: Option<string>, reply: FeedbackReply) returns (r: Analysis)
    ensures r == AnalysisOf(text, apiKey, reply)
  {
    if apiKey.None? || apiKey == Some("") || !reply.Reply? {
      r := FallbackAnalysis(text);
    } else {
      var scores := ApplyScoreOverrides(reply.hits);
      r := Analysis(reply.content, scores);
    }
  }
}
