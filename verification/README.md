# AI Job & Resume Coach — a Dafny model

The AI Job & Resume Coach is a single web page backed by a small HTTP service. A user uploads a PDF resume and pastes a job description. The page then asks the service for:

- resume feedback with scores;
- a cover letter;
- interview questions and answers;
- job-search links.

This project models the deterministic core of both halves and proves what it promises.

**Backend** (`backend/main.py`):

- the keyword-based fallback analysis and its report;
- the score overrides read out of the model's feedback;
- the filter over the question/answer pattern matches, and the line-based fallback parser with its cap of ten pairs;
- the whitespace cleanup of a cover letter;
- the job-title, location and link construction, including the Wellfound slug, and the fixed fallback links;
- the five endpoints: for every request that passes the web framework's own validation, and every outcome of the calls each one makes, which HTTP status it answers with and which body.

**Frontend:**

- the workflow controller (`frontend/src/App.tsx`), as a class whose fields are the page's state and whose methods are the handlers, each split into a start step and a finish step;
- the navigation gate and button dimming (`Navigation.tsx`);
- the interview section's expand/collapse, grouping and export text (`InterviewSection.tsx`);
- the banner's error classifier (`Notification.tsx`).

A set of bridge lemmas connects the two halves: they state what the page stores after each endpoint's answer.

The PDF reader, the language model, the network and the regular-expression searches are not modelled. Each appears as an input: the endpoint or the parser receives what the call or the search would have returned.

Files, one module each:

- `types.dfy`: `Option`, `Result`, the `QAPair` and `Job` records.
- `text.dfy`: Python/JavaScript string operations (`strip`, `split`, `lower`, `in`, `join`, `str(n)`).
- `resume_analysis.dfy`: `analyze_resume` and `_generate_fallback_analysis`.
- `qa_parsing.dfy`: question/answer parsing in `interview_trainer`.
- `cover_letter.dfy`: the cover-letter cleanup.
- `job_links.dfy`: link construction in `generate_links`.
- `endpoints.dfy`: the five HTTP endpoints.
- `navigation.dfy`, `notification.dfy`, `interview_section.dfy`: the three components.
- `app.dfy`: the workflow controller and the bridge lemmas.

## Model

| member | source | states |
|---|---|---|
| Text.Lower | backend/main.py:136-140 | Lowercasing keeps the length, and each character is mapped on its own (ASCII letters to lower case, all else unchanged). |
| Text.ContainsIffOccurs | backend/main.py:136 | The substring test `t in s` holds exactly when `t` occurs at some position of `s`. |
| Text.StripMeaning | backend/main.py:48 | `strip()` returns a contiguous block of the input that neither starts nor ends with whitespace, with only whitespace cut off on either side. The result is empty exactly when the input is all whitespace. |
| Text.SplitOn | backend/main.py:386 | `split('\n')` gives at least one piece, no piece holds a newline, and joining the pieces with newlines gives back the input. |
| Text.Strip | backend/main.py:48 | `strip()` never lengthens the text (what it keeps is stated by `Text.StripMeaning`). |
| Text.Words | backend/main.py:135 | `split()` gives non-empty words, none holding whitespace. Where each word sits is stated by `Text.WordsEmptyIff` and `Text.WordsAtBoundaries`. |
| Text.WordsEmptyIff | backend/main.py:135 | `split()` gives no words exactly when the text is all whitespace. |
| Text.WordsAtBoundaries | backend/main.py:135 | For a text with words, the first word is the whole run of non-whitespace right after the leading whitespace, ending at the end of the text or at whitespace. The other words are the words of the rest. Applied again to the rest, this places every word at a maximal run, as `split()` does. |
| Text.WordCountCountsStarts | backend/main.py:135 | `len(text.split())` is the number of word starts: positions holding a non-whitespace character that open the text or follow whitespace. |
| Text.WordsKeepText | backend/main.py:135 | The words, put back together, hold exactly the non-whitespace characters of the text, in order. |
| Text.NatToString | backend/main.py:172 | Decimal notation is digits only, with no leading zero unless the number is 0. |
| Text.NatToStringRoundTrip | backend/main.py:172 | Reading the decimal notation back gives the number. |
| Text.JoinSnoc | frontend/src/components/InterviewSection.tsx:30 | Joining one more part appends the separator and that part. |
| Text.ConcatSnoc | backend/main.py:44-46 | Concatenating one more page appends its text. |
| ResumeAnalysis.MentionsAny | backend/main.py:136-139 | `any(k in text.lower() for k in keywords)` holds exactly when some keyword of the list occurs in the lowercased text. |
| ResumeAnalysis.ReadSignals | backend/main.py:135-139 | The word count is the number of whitespace-separated words. Each flag holds exactly when its keyword group is mentioned. |
| ResumeAnalysis.ScoresFor | backend/main.py:142-148 | Exactly the five categories, each score within 5..8. Format is 8/6 on more than 200 words, Content 8/6 on experience and education, Skills 8/5, Impact 7/5, Overall 7. |
| ResumeAnalysis.FallbackScoresMeaning | backend/main.py:135-148 | The same per-category meaning, stated directly on the resume text: the word count and which keywords it mentions. |
| ResumeAnalysis.ScoreLineSeven | backend/main.py:172 | The fallback's score line reads "Overall Score: 7/10". |
| ResumeAnalysis.ReportShowsScore | backend/main.py:151-173 | Whatever the signals, the report contains the line for its overall score. |
| ResumeAnalysis.FallbackAnalysis | backend/main.py:131-175 | The fallback's scores are the keyword scores, Overall is 7, and the feedback contains "Overall Score: 7/10". |
| ResumeAnalysis.DevelopedOnlyImpact | backend/main.py:146 | A resume whose only achievement word is "developed" earns the higher Impact score. Its report still asks for action words, because the report's check (line 161) leaves "developed" out. |
| ResumeAnalysis.DevelopedOnlyExample | backend/main.py:161 | Such a resume exists: the text "developed" itself. |
| ResumeAnalysis.OverrideTakesFirstMatch | backend/main.py:116-124 | A category's score is the number captured by the first of its patterns that matched, or its default when none matched. |
| ResumeAnalysis.OverriddenScores | backend/main.py:99-124 | The overridden scores keep exactly the five categories, each with its first-match score. |
| ResumeAnalysis.ApplyScoreOverrides | backend/main.py:116-124 | The nested loop with its `break` computes exactly the overridden scores. |
| ResumeAnalysis.AnalysisOf | backend/main.py:52-129 | Without an API key, or when the call fails or yields no choices, the answer is the fallback analysis. Otherwise it is the model's text with the overridden scores. |
| ResumeAnalysis.AnalyzeResume | backend/main.py:52-129 | The imperative analysis equals `AnalysisOf`. |
| QAParsing.Capped | backend/main.py:382 | `pairs[:10]` is a prefix of at most ten elements: the whole list when it is short, exactly ten otherwise. |
| QAParsing.Keeps | backend/main.py:368-371 | A match is kept when its stripped question is longer than 5 characters and its stripped answer longer than 10 (a definition; its consequences are stated by `QAParsing.KeptPairsAreClean`). |
| QAParsing.Kept | backend/main.py:366-376 | The stripped pairs of the kept matches, in order (a definition; `QAParsing.KeptIsOrderedFilter` states what it keeps). |
| QAParsing.KeptSourcesComplete | backend/main.py:366-376 | The positions of the kept matches ascend, and every match that passes the filter is among them. |
| QAParsing.KeptIsOrderedFilter | backend/main.py:366-376 | The filter keeps exactly the matches that pass it, stripped, in their original order. |
| QAParsing.KeptPairsAreClean | backend/main.py:368-371 | Every kept question is longer than 5 characters and every kept answer longer than 10. Neither begins or ends with whitespace. |
| QAParsing.FilterMatches | backend/main.py:366-376 | The loop over the matches builds exactly the filtered list. |
| QAParsing.LinePairs | backend/main.py:389-400 | The pairs the line fallback finds, in line order (a definition; `QAParsing.LinePairsAreAdjacentLines` states which lines yield them). |
| QAParsing.LineSourcesComplete | backend/main.py:389-400 | The question lines that yield a pair ascend, and every qualifying question line is among them. |
| QAParsing.LinePairsAreAdjacentLines | backend/main.py:389-400 | Each fallback pair comes from a question line immediately followed by an answer line, in line order, with both parts non-empty. Every such line pair yields its pair. |
| QAParsing.OutcomeShape | backend/main.py:381-404 | The outcome fails with the fixed message exactly when both lists are empty. Otherwise it holds 1..10 pairs drawn from them. |
| QAParsing.ParseLineFallback | backend/main.py:384-404 | The fallback loop over the lines gives exactly the fallback outcome. |
| QAParsing.ParsePairs | backend/main.py:366-404 | The parser gives the filtered matches when any survive, and the line fallback otherwise. |
| QAParsing.KeptEmptyIff | backend/main.py:366-381 | The filter keeps nothing exactly when no match passes it. |
| QAParsing.LinePairsEmptyIff | backend/main.py:389-401 | The line fallback finds nothing exactly when no question line is followed by a qualifying answer line. |
| QAParsing.FoundPairsNonEmpty | backend/main.py:366-400 | Every pair either path produces has a non-empty question and answer. |
| QAParsing.ParsedPairsBounds | backend/main.py:381-404 | Parsing either fails with "Could not parse interview questions from AI response" or yields 1..10 pairs, all non-empty. |
| QAParsing.ParsedPairsFailsIff | backend/main.py:366-404 | Parsing fails exactly when no match passes the filter and no line pair qualifies. |
| CoverLetter.BlankRun | backend/main.py:225 | A run of blanks is measured up to the first character that is not a space or tab. |
| CoverLetter.CollapseBlanks | backend/main.py:225 | After `re.sub(r'[ \t]+', ' ', …)` the text holds no tab and no two adjacent spaces. It is empty only if the input was, starts with a space exactly when the input started with a blank, and is no longer than the input. |
| CoverLetter.CollapseKeepsAllButBlanks | backend/main.py:225 | The collapse touches only spaces and tabs: every other character, line breaks included, comes out as it went in, in order. |
| CoverLetter.CollapseRun | backend/main.py:225 | A non-empty run made only of spaces and tabs becomes exactly one space. |
| CoverLetter.CollapseAppend | backend/main.py:225 | Where two texts meet outside a run of blanks, collapsing their concatenation collapses each apart. With `CoverLetter.CollapseRun`, this fixes the result: one space per maximal run of blanks, every other character unchanged. |
| CoverLetter.CollapseKeepsText | backend/main.py:225 | The collapse changes whitespace only: the other characters come out in order. |
| CoverLetter.StripKeepsText | backend/main.py:226 | Stripping changes whitespace only. |
| CoverLetter.CleanCoverLetter | backend/main.py:224-226 | The cleaned letter is never longer than the text the cleanup starts from. |
| CoverLetter.CleanCoverLetterIsClean | backend/main.py:224-226 | The cleaned letter has no tab, no double space, no whitespace at either end, and every other character in order. |
| JobLinks.JobTitle | backend/main.py:509-515 | The first title match stripped. Otherwise the first capitalised phrase, unstripped. Otherwise "software engineer". |
| JobLinks.Location | backend/main.py:518-519 | The first location match stripped, or "remote". |
| JobLinks.WellfoundSlug | backend/main.py:523 | The slug has the title's length and holds no space. Each space became a hyphen and every other character is lowercased. |
| JobLinks.BuiltLinks | backend/main.py:526-535 | Eight links for the eight platforms, in the listed order. |
| JobLinks.BuiltLinksCarryTitle | backend/main.py:526-535 | Every link but Wellfound's carries the encoded title. Wellfound's carries the slug. The first three also carry the encoded location. |
| JobLinks.BuiltAnswer | backend/main.py:537-542 | The built answer's title, location and links are the ones computed above. |
| JobLinks.FailureAnswer | backend/main.py:547-558 | The fallback answer has four links, title "software engineer" and location "remote". |
| JobLinks.FailureAnswerPlatforms | backend/main.py:547-558 | The fallback links name the first four platforms in order, under the default title and location the built answer falls back to. |
| Endpoints.FieldText | backend/main.py:266-267 | `payload.get(key, "").strip()` reads an absent field as "" and strips a string. It raises exactly when the value is not a string. |
| Endpoints.PdfText | backend/main.py:40-50 | The extracted text keeps every non-whitespace character of the pages, in order, and neither begins nor ends with whitespace. |
| Endpoints.ExtractText | backend/main.py:44-48 | The page loop computes exactly the stripped concatenation. |
| Endpoints.UploadResume | backend/main.py:234-247 | A name not ending in ".pdf" gives 400 "Only PDF files are supported". Unreadable bytes give 500 with the nested read-failure prefix. Otherwise 200 with the analysis of the extracted text. |
| Endpoints.ExtractResume | backend/main.py:249-260 | 200 exactly for a ".pdf" name with readable bytes, with the extracted text. The 200 body is the extracted text with an empty score list. 400 and 500 otherwise. |
| Endpoints.UploadAgreesWithExtract | backend/main.py:234-260 | Both upload endpoints answer with the same status. Their 400 bodies are equal, the upload's 500 detail is the extraction's prefixed, and the upload's analysis is of the extracted text. |
| Endpoints.GenerateCoverLetter | backend/main.py:262-276 | 200 exactly when both fields are non-blank strings and the model produced a letter, and the body is the cleaned letter. Every other case gives 500 with a "Failed to generate cover letter: " detail. A blank field next to a string one gives exactly "Failed to generate cover letter: 400: Missing resume or job description", the text of the endpoint's own caught 400. |
| Endpoints.InterviewTrainer | backend/main.py:278-414 | A non-string field gives 500, and a blank field gives 400 when the other field is absent or a string. 200 exactly when the inputs, the key, the reply status and the parse all succeed, with the parsed pairs. Every other status is 400 or 500. |
| Endpoints.GenerateLinks | backend/main.py:416-561 | 500 exactly for a missing, blank or non-string resume. A missing or blank one gets exactly "400: Resume content is required", the text of its own caught 400. Otherwise 200 with the model's JSON, the built links, the fixed links, or null, according to the call's outcome. |
| Endpoints.BlankResumeStatuses | backend/main.py:262-423 | With a string job description, a blank resume gets 400 from the interview endpoint but 500 from the cover-letter and links endpoints, with the exact texts of their caught 400s. |
| Navigation.HandleNavClick | frontend/src/components/Navigation.tsx:27-53 | A click scrolls exactly when permitted. Otherwise it names what is missing: both, the resume or the job description. |
| Navigation.Click | frontend/src/components/Navigation.tsx:74-115 | Home always scrolls. The interview button scrolls exactly when both inputs are present, every other button exactly when the resume is. A refused click carries one of the three advisory texts. |
| Navigation.Style | frontend/src/components/Navigation.tsx:80-115 | The opacity is 0.5 exactly when the cursor is not-allowed, and 1 otherwise. The interview button is dimmed when either input is missing, the other section buttons when the resume is missing, and Home never. |
| Navigation.DimmedIffBlocked | frontend/src/components/Navigation.tsx:80-115 | A button is at half opacity with a not-allowed cursor exactly when a click on it would be refused. |
| Navigation.HomeAlwaysScrolls | frontend/src/components/Navigation.tsx:75 | Home always scrolls. |
| Navigation.ResumeOnlyButtons | frontend/src/components/Navigation.tsx:45-52 | Resume-only buttons ignore the job description. |
| Navigation.GateMessagesAreErrors | frontend/src/components/Navigation.tsx:27-53 | Every gate message is styled by the banner as an error. |
| Notification.Render | frontend/src/components/Notification.tsx:6-38 | Nothing is rendered when the banner is hidden. Otherwise text and border share one colour, red exactly when the message is an error and green otherwise. |
| Notification.IsError | frontend/src/components/Notification.tsx:10-13 | A message is an error when its lowercased form contains "please", "upload", "add" or "first" (a definition; its properties are the next two rows). |
| Notification.IsErrorIgnoresCase | frontend/src/components/Notification.tsx:10-13 | A message and its lowercased form are classified alike. |
| Notification.PleaseMessageIsError | frontend/src/components/Notification.tsx:10-13 | Any message opening with "Please" is an error. |
| InterviewSection.Toggled | frontend/src/components/InterviewSection.tsx:45-49 | Within bounds the copy has the same length and differs only at `index`, which is negated. Past the end, the slots in between read as hidden. |
| InterviewSection.ToggleTwice | frontend/src/components/InterviewSection.tsx:45-49 | Toggling twice restores what is shown, and within bounds the array itself. |
| InterviewSection.ResumeGroup | frontend/src/components/InterviewSection.tsx:164 | `slice(0, 5)` is a prefix of the pairs holding five of them, or all when there are fewer. |
| InterviewSection.JobGroup | frontend/src/components/InterviewSection.tsx:195 | `slice(5)` holds the pairs past the fifth: item `idx` is pair `idx+5`, and it is empty when there are at most five. |
| InterviewSection.GroupsPartition | frontend/src/components/InterviewSection.tsx:164-201 | `slice(0,5)` and `slice(5)` concatenate back to the pairs. Item `idx` of the second group is pair `idx+5`. |
| InterviewSection.QAList | frontend/src/components/InterviewSection.tsx:146-215 | The list block is absent exactly when there are no pairs, and otherwise renders one item per pair. |
| InterviewSection.QAListShowsEachPair | frontend/src/components/InterviewSection.tsx:146-215 | Every pair is rendered once, in order. The button under pair `k` toggles index `k`, and the answer is visible exactly when flag `k` is set. |
| InterviewSection.Display | frontend/src/components/InterviewSection.tsx:73-123 | The upload prompt appears without a resume, the job prompt without a job description, and the generate button only with both. |
| InterviewSection.DisplayAgreesWithNavigation | frontend/src/components/InterviewSection.tsx:73-123 | The generate button shows exactly when the interview nav button scrolls. |
| InterviewSection.ExportEntries | frontend/src/components/InterviewSection.tsx:30 | One entry per pair, entry `i` numbered `i+1`. |
| InterviewSection.ExportText | frontend/src/components/InterviewSection.tsx:30 | The exported text is empty exactly when there are no pairs. |
| InterviewSection.ExportTextSnoc | frontend/src/components/InterviewSection.tsx:30 | One more pair appends a blank line and its numbered entry, leaving the earlier text unchanged. |
| InterviewSection.ExportEntriesNumbered | frontend/src/components/InterviewSection.tsx:30 | Each entry starts with its number and ". ", and that number reads back as its position. |
| InterviewSection.SaveAsFile | frontend/src/components/InterviewSection.tsx:34-43 | The download is `interview_answers.txt`, with exactly the text "Copy All" produces. |
| App.Or | frontend/src/App.tsx:245 | JavaScript's logical or on two texts is empty exactly when both are, and is one of them. |
| App.Workflow.constructor | frontend/src/App.tsx:22-37 | The initial state: nothing picked, all texts and lists empty, no flag set. |
| App.Workflow.SetJobPost | frontend/src/App.tsx:403 | Only the job description changes. |
| App.Workflow.StartFileUpload | frontend/src/App.tsx:183-187 | Records the file, sets the extracting flag and empties only the resume text and matches. Every section but Home is then gated. |
| App.Workflow.FinishFileUpload | frontend/src/App.tsx:198-206 | Stores the extracted text (empty when absent), or keeps the text on rejection. The flag is cleared either way. |
| App.Workflow.StartLinks | frontend/src/App.tsx:209-211 | Starts exactly when there is resume text, setting only the flag. Otherwise nothing changes. |
| App.Workflow.FinishLinks | frontend/src/App.tsx:212-225 | Stores the links when the body holds an array, [] for any other body, and the old links on rejection. The flag is cleared. |
| App.Workflow.StartFeedback | frontend/src/App.tsx:228-233 | Starts exactly when a file is set, and empties feedback and scores. |
| App.Workflow.FinishFeedback | frontend/src/App.tsx:235-256 | Stores the feedback, else the error text, and the scores when present. The flag is cleared. |
| App.Workflow.StartInterview | frontend/src/App.tsx:259-264 | Starts exactly when both inputs are there, and empties the pairs and their flags. |
| App.Workflow.FinishInterview | frontend/src/App.tsx:266-285 | An array of pairs replaces the list, all collapsed. Otherwise the list stays. One flag per pair is kept, and no answer becomes visible. |
| App.Workflow.StartCoverLetter | frontend/src/App.tsx:288-292 | Starts exactly when both inputs are there, and empties the letter. |
| App.Workflow.FinishCoverLetter | frontend/src/App.tsx:294-311 | Stores the letter, else the error text, or the fixed failure text on rejection. The letter is non-empty exactly when one of those is. |
| App.Workflow.ToggleAnswer | frontend/src/App.tsx:418 | Flips the flag of that pair and no other, keeping one flag per pair. |
| App.Workflow.NavClick | frontend/src/App.tsx:361 | A gated click puts its message in the banner, which shows it as an error. A permitted click changes no state. |
| App.Workflow.DismissNotification | frontend/src/App.tsx:160-167 | Clearing the message hides the banner. |
| App.ExtractErrorLeavesNoResume | frontend/src/App.tsx:199-201 | After a refused or unreadable file the stored resume text is empty, so every gate stays closed. After a readable PDF it is the extracted text. |
| App.ScoreRecord | frontend/src/App.tsx:247-248 | Each category's score arrives under its name, and nothing else does. |
| App.UploadErrorShowsNoFeedback | frontend/src/App.tsx:245-249 | After an upload error the page shows empty feedback and no scores: it reads an `error` field, and the service sends `detail`. After a success it shows the analysis. |
| App.CoverLetterErrorShowsNothing | frontend/src/App.tsx:305 | After an error answer from the letter endpoint the letter is empty. After a success it is the cleaned letter. |
| App.InterviewErrorKeepsNoPairs | frontend/src/App.tsx:275-278 | The page receives pairs exactly when the interview endpoint answers 200. |
| App.LinksAnswerShown | frontend/src/App.tsx:220 | A null answer empties the matches. The raised-call answer shows four links, and built links show eight. |

## Left out

- The PDF reader, the language-model calls and the network are not modelled. Each appears as an input: the pages read or a read error; the model's reply or the failure of the call. The prompts sent to the model are not modelled.
- The regular-expression searches are inputs:
  - the question/answer pattern, as its list of matches;
  - the score patterns, as what each one captured;
  - the title, capitalised-phrase and location patterns, as their match lists.
  - The collapse of blank-line runs in the cover letter is also an input: the cleanup starts from its output.
- JobLinks.FailureAnswerPlatforms: relates the fallback links to the built ones by platform, title and location only. Their URLs are not the built ones, because the fixed LinkedIn and Glassdoor links write the space as "%20" where `quote_plus` gives "+", and the first three fixed links carry no location where the built ones do.
- JobLinks.BuiltLinks: `quote_plus` is a parameter, so the link texts are stated in terms of whatever it returns.
- Lowercasing (`lower()`, `toLowerCase()`) is modelled for ASCII letters only.
- The text of exceptions raised by libraries (`str(e)`) is not modelled. `DetailAfter` records only the fixed prefix the code puts before it. An `HTTPException` that an endpoint raises and catches itself is modelled exactly, as Starlette renders it: the status, ": ", then the detail (`Endpoints.CaughtText`).
- The file name of an upload is a string. An upload without a name, which makes the name check itself raise, is not modelled.
- JavaScript `undefined` stored into a text field is modelled as the empty text. Every reader of those fields tests truthiness only.
- App.Workflow: the handlers are modelled one step at a time, with nothing running between a start and its finish. Overlapping requests and React's batching of state updates are not modelled.
- The page's scroll handling (`scrollTo`, the `isScrolled` threshold), the style injection, the backend greeting fetched on load and the health-check route `/` are not modelled.
- App.Workflow.DismissNotification models the effect of the 3000 ms timer, not the timer itself.
- Clipboard access, Blob and object-URL downloads, and the cover letter's "Save as .txt" are not modelled. The interview export is modelled as the text it writes.
- `frontend/src/services/api.ts` and the presentational components (FeedbackSection, CoverLetterSection, JobMatchingSection, HomeSection, ResumeScoreChart) are not part of this model.
- Request validation done by FastAPI before a handler runs is not modelled. A request that fails it gets 422 from the framework, for example an upload without its `file` part (`File(...)`) or a body that is not JSON.
- Logging (`print`, `console.log`) is not modelled.
