/** The interview Q&A section (frontend/src/components/InterviewSection.tsx):
    which prompt it shows, how the pairs are grouped and expanded, and the
    plain text that "Copy All" and "Save as .txt" produce. */
module InterviewSection {
  import opened Types
  import opened Text
  import Navigation

  /** Whether the answer of pair `i` is shown: the truthiness of
      `qaExpanded[i]`. A slot past the end of the array reads as
      `undefined`, so its answer is hidden. */
  predicate Shown(expanded: seq<bool>, i: nat)
  {
    i < |expanded| && expanded[i]
  }

  /** `toggleAnswer(index)`: a copy of the flags in which slot `index` is
      flipped and every other slot reads as before. Within bounds the copy
      has the same length and differs from the input at `index` only;
      beyond the end the copy is extended up to `index`, the new slots in
      between reading as hidden. */
  function Toggled(expanded: seq<bool>, index: nat): (r: seq<bool>)
    ensures |r| == if index < |expanded| then |expanded| else index + 1
    ensures Shown(r, index) == !Shown(expanded, index)
    ensures forall j: nat :: j != index ==> Shown(r, j) == Shown(expanded, j)
    ensures index < |expanded| ==> r[index] == !expanded[index]
    ensures index < |expanded| ==> forall j :: 0 <= j < |r| && j != index ==> r[j] == expanded[j]
  {
    if index < |expanded| then expanded[index := !expanded[index]]
    else expanded + seq(index - |expanded|, _ => false) + [true]
  }

  /** Toggling the same answer twice restores what is shown everywhere, and
      within bounds restores the array itself. */
  lemma ToggleTwice(expanded: seq<bool>, index: nat)
    ensures forall j: nat :: Shown(Toggled(Toggled(expanded, index), index), j) == Shown(expanded, j)
    ensures index < |expanded| ==> Toggled(Toggled(expanded, index), index) == expanded
  {
    var once := Toggled(expanded, index);
    var twice := Toggled(once, index);
    if index < |expanded| {
      assert |twice| == |expanded|;
      forall j | 0 <= j < |expanded|
        ensures twice[j] == expanded[j]
      {
      }
    }
  }

  /** `qaPairs.slice(0, 5)`: the questions based on the resume. */
  function ResumeGroup(pairs: seq<QAPair>): (r: seq<QAPair>)
    ensures r <= pairs
    ensures |r| == if |pairs| < 5 then |pairs| else 5
  {
    pairs[..if |pairs| < 5 then |pairs| else 5]
  }

  /** `qaPairs.slice(5)`: the questions based on the job description. */
  function JobGroup(pairs: seq<QAPair>): (r: seq<QAPair>)
    ensures |r| == if |pairs| < 5 then 0 else |pairs| - 5
    ensures forall idx :: 0 <= idx < |r| ==> r[idx] == pairs[idx + 5]
  {
    pairs[if |pairs| < 5 then |pairs| else 5..]
  }

  /** The two groups split the list: together, in order, they are the
      whole list; the first holds at most five pairs; item `idx` of the
      second group is pair `idx + 5`; ten pairs split five and five. */
  lemma GroupsPartition(pairs: seq<QAPair>)
    ensures ResumeGroup(pairs) + JobGroup(pairs) == pairs
    ensures |ResumeGroup(pairs)| <= 5
    ensures JobGroup(pairs) != [] ==> |ResumeGroup(pairs)| == 5
    ensures forall idx :: 0 <= idx < |JobGroup(pairs)| ==> JobGroup(pairs)[idx] == pairs[idx + 5]
    ensures |pairs| == 10 ==> |ResumeGroup(pairs)| == 5 && |JobGroup(pairs)| == 5
  {
  }

  /** One rendered question: its text, its answer when expanded, and the
      index its "Show Answer" button toggles. */
  datatype Item = Item(question: string, answer: Option<string>, toggles: nat)

  function RenderGroup(group: seq<QAPair>, offset: nat, expanded: seq<bool>): seq<Item>
  {
    seq(|group|, idx requires 0 <= idx < |group| =>
      Item(group[idx].question,
           if Shown(expanded, idx + offset) then Some(group[idx].answer) else None,
           idx + offset))
  }

  /** The list block: absent when there are no pairs, otherwise the first
      group rendered with offset 0 followed by the second with offset 5. */
  function QAList(pairs: seq<QAPair>, expanded: seq<bool>): (r: Option<seq<Item>>)
    ensures r.None? <==> pairs == []
    ensures r.Some? ==> |r.value| == |pairs|
  {
    if |pairs| == 0 then None
    else Some(RenderGroup(ResumeGroup(pairs), 0, expanded) + RenderGroup(JobGroup(pairs), 5, expanded))
  }

  /** The rendered list shows every pair exactly once, in order; the
      button of item `k` toggles index `k`, so it flips the answer of the
      very pair it stands under, and that answer is visible exactly when
      flag `k` is set. */
  lemma {:induction false} QAListShowsEachPair(pairs: seq<QAPair>, expanded: seq<bool>)
    ensures QAList(pairs, expanded).None? <==> pairs == []
    ensures QAList(pairs, expanded).Some? ==>
      var items := QAList(pairs, expanded).value;
      |items| == |pairs| &&
      forall k :: 0 <= k < |pairs| ==>
        && items[k].toggles == k
        && items[k].question == pairs[k].question
        && items[k].answer == (if Shown(expanded, k) then Some(pairs[k].answer) else None)
  {
    if pairs != [] {
      GroupsPartition(pairs);
      var first := RenderGroup(ResumeGroup(pairs), 0, expanded);
      var second := RenderGroup(JobGroup(pairs), 5, expanded);
      var items := first + second;
      forall k | 0 <= k < |pairs|
        ensures items[k].toggles == k
        ensures items[k].question == pairs[k].question
        ensures items[k].answer == (if Shown(expanded, k) then Some(pairs[k].answer) else None)
      {
        if k < |first| {
          assert items[k] == first[k];
        } else {
          assert items[k] == second[k - 5];
        }
      }
    }
  }

  /** What the section shows above the list. */
  datatype Prompt = UploadPrompt | JobPrompt | GenerateButton

  /** The three-way gate: the upload prompt without a resume, the
      job-description prompt with a resume but no job description, and the
      generate button only when both are present. */
  function Display(resumeText: string, jobPost: string): (r: Prompt)
    ensures r == UploadPrompt <==> resumeText == ""
    ensures r == JobPrompt <==> resumeText != "" && jobPost == ""
    ensures r == GenerateButton <==> resumeText != "" && jobPost != ""
  {
    if resumeText == "" then UploadPrompt
    else if jobPost == "" then JobPrompt
    else GenerateButton
  }

  /** The section's own gate agrees with the navigation bar: the generate
      button is shown exactly when a click on the interview button
      scrolls, and the button's `disabled` condition never holds while it
      is shown. */
  lemma DisplayAgreesWithNavigation(resumeText: string, jobPost: string)
    ensures Display(resumeText, jobPost) == GenerateButton <==>
            Navigation.Click(Navigation.InterviewTrainer, resumeText, jobPost) == Navigation.Scroll
    ensures Display(resumeText, jobPost) == GenerateButton ==> !(resumeText == "" || jobPost == "")
  {
  }

  /** Entry `i` of the export: `"{i+1}. {question}\nAnswer: {answer}"`. */
  function Entry(i: nat, p: QAPair): string
  {
    NatToString(i + 1) + ". " + p.question + "\nAnswer: " + p.answer
  }

  /** One entry per pair, numbered from one. */
  function ExportEntries(pairs: seq<QAPair>): (r: seq<string>)
    ensures |r| == |pairs|
    ensures forall i :: 0 <= i < |pairs| ==> r[i] == Entry(i, pairs[i])
  {
    seq(|pairs|, i requires 0 <= i < |pairs| => Entry(i, pairs[i]))
  }

  /** The entries separated by blank lines. */
  function ExportText(pairs: seq<QAPair>): (r: string)
    ensures r == [] <==> pairs == []
  {
    Join(ExportEntries(pairs), "\n\n")
  }

  /** Adding a pair at the end adds a blank line and its entry, numbered
      one past the pairs before it, and leaves the earlier text as it was. */
  lemma ExportTextSnoc(pairs: seq<QAPair>, p: QAPair)
    ensures ExportText(pairs + [p]) ==
      if pairs == [] then Entry(0, p) else ExportText(pairs) + "\n\n" + Entry(|pairs|, p)
  {
    assert ExportEntries(pairs + [p]) == ExportEntries(pairs) + [Entry(|pairs|, p)];
    if pairs != [] {
      JoinSnoc(ExportEntries(pairs), Entry(|pairs|, p), "\n\n");
    }
  }

  /** Each entry opens with its number and ". ", and that number reads back
      as its one-based position. */
  lemma ExportEntriesNumbered(pairs: seq<QAPair>, i: nat)
    requires i < |pairs|
    ensures StartsWith(ExportEntries(pairs)[i], NatToString(i + 1) + ". ")
    ensures ParseDigits(NatToString(i + 1)) == i + 1
  {
    NatToStringRoundTrip(i + 1);
  }

  /** `handleCopyAll`: the text written to the clipboard. */
  function CopyAllText(pairs: seq<QAPair>): string
  {
    ExportText(pairs)
  }

  /** The file offered by "Save as .txt". */
  datatype Download = Download(filename: string, mimeType: string, content: string)

  /** `handleSaveAsFile`: a plain-text download named
      `interview_answers.txt` whose content is the very text "Copy All"
      puts on the clipboard. */
  function SaveAsFile(pairs: seq<QAPair>): (d: Download)
    ensures d.filename == "interview_answers.txt"
    ensures d.content == CopyAllText(pairs)
  {
    Download("interview_answers.txt", "text/plain;charset=utf-8", ExportText(pairs))
  }
}
