/** The job-search links the backend builds itself (backend/main.py,
    `generate_links`) when the model's answer is not JSON with
    `search_links`, and the fixed links it answers with when asking the
    model raises. */
module JobLinks {
  import opened Types
  import opened Text

  const DefaultTitle := "software engineer"
  const DefaultLocation := "remote"

  /** The body of a successful answer built here: the title and location
      used, a skills list, and the links. */
  datatype LinksAnswer = LinksAnswer(jobTitle: string, location: string, skills: seq<string>, searchLinks: seq<Job>)

  /** The job title: the first match of the "Position/Title/Role/..."
      pattern, stripped; without one, the first capitalised phrase as
      found (not stripped); without either, "software engineer". The
      pattern searches themselves are not part of this model. */
  function JobTitle(titleMatches: seq<string>, possibleTitles: seq<string>): (r: string)
    ensures titleMatches != [] ==> r == Strip(titleMatches[0])
    ensures titleMatches == [] && possibleTitles != [] ==> r == possibleTitles[0]
    ensures titleMatches == [] && possibleTitles == [] ==> r == DefaultTitle
  {
    if titleMatches != [] then Strip(titleMatches[0])
    else if possibleTitles != [] then possibleTitles[0]
    else DefaultTitle
  }

  /** The location: the first match of the "Location/Based in/..." pattern,
      stripped, or "remote". */
  function Location(locationMatches: seq<string>): (r: string)
    ensures locationMatches != [] ==> r == Strip(locationMatches[0])
    ensures locationMatches == [] ==> r == DefaultLocation
  {
    if locationMatches != [] then Strip(locationMatches[0]) else DefaultLocation
  }

  /** `title.replace(' ', '-').lower()`: the path segment of the Wellfound
      link. It has the title's length and holds no space; each space of the
      title became a hyphen and every other character was lowercased. */
  function WellfoundSlug(title: string): (r: string)
    ensures |r| == |title|
    ensures ' ' !in r
    ensures forall i :: 0 <= i < |title| ==>
      r[i] == (if title[i] == ' ' then '-' else LowerChar(title[i]))
  {
    Lower(seq(|title|, i requires 0 <= i < |title| => if title[i] == ' ' then '-' else title[i]))
  }

  /** The eight platforms of the built links, in the order they are
      listed. */
  const Platforms: seq<string> :=
    ["LinkedIn", "Indeed", "Google Jobs", "Glassdoor", "WeWorkRemotely", "RemoteOK", "Wellfound", "Upwork"]

  /** The fixed start of each platform's search link. */
  const LinkedInSearch := "https://www.linkedin.com/jobs/search/?keywords="
  const IndeedSearch := "https://www.indeed.com/jobs?q="
  const GoogleSearch := "https://www.google.com/search?q="
  const GlassdoorSearch := "https://www.glassdoor.com/Job/jobs.htm?sc.keyword="
  const WeWorkRemotelySearch := "https://weworkremotely.com/remote-jobs/search?term="
  const RemoteOkSearch := "https://remoteok.io/?search="
  const WellfoundRole := "https://wellfound.com/role/"
  const UpworkSearch := "https://www.upwork.com/freelance-jobs/search/?q="

  /** The links built from a title and a location. `encode` stands for
      `urllib.parse.quote_plus`, which is not part of this model. */
  function BuiltLinks(title: string, location: string, encode: string -> string): (r: seq<Job>)
    ensures |r| == |Platforms|
    ensures forall k :: 0 <= k < |r| ==> r[k].platform == Platforms[k]
  {
    var t := encode(title);
    var l := encode(location);
    [
      Job("LinkedIn", LinkedInSearch + t + "&location=" + l),
      Job("Indeed", IndeedSearch + t + "&l=" + l),
      Job("Google Jobs", GoogleSearch + t + "+jobs+" + l),
      Job("Glassdoor", GlassdoorSearch + t),
      Job("WeWorkRemotely", WeWorkRemotelySearch + t),
      Job("RemoteOK", RemoteOkSearch + t),
      Job("Wellfound", WellfoundRole + WellfoundSlug(title)),
      Job("Upwork", UpworkSearch + t)
    ]
  }

  /** Every built link searches for the title: the Wellfound link carries
      the slug, every other link the encoded title; the first three also
      carry the encoded location. */
  lemma BuiltLinksCarryTitle(title: string, location: string, encode: string -> string)
    ensures var r := BuiltLinks(title, location, encode);
      && (forall k :: 0 <= k < |r| && k != 6 ==> Contains(r[k].url, encode(title)))
      && Contains(r[6].url, WellfoundSlug(title))
      && (forall k :: 0 <= k < 3 ==> Contains(r[k].url, encode(location)))
  {
    var t := encode(title);
    var l := encode(location);
    ContainsSuffix(LinkedInSearch, t);
    ContainsAppend(LinkedInSearch + t, "&location=", t);
    ContainsAppend(LinkedInSearch + t + "&location=", l, t);
    ContainsSuffix(LinkedInSearch + t + "&location=", l);
    ContainsSuffix(IndeedSearch, t);
    ContainsAppend(IndeedSearch + t, "&l=", t);
    ContainsAppend(IndeedSearch + t + "&l=", l, t);
    ContainsSuffix(IndeedSearch + t + "&l=", l);
    ContainsSuffix(GoogleSearch, t);
    ContainsAppend(GoogleSearch + t, "+jobs+", t);
    ContainsAppend(GoogleSearch + t + "+jobs+", l, t);
    ContainsSuffix(GoogleSearch + t + "+jobs+", l);
    ContainsSuffix(GlassdoorSearch, t);
    ContainsSuffix(WeWorkRemotelySearch, t);
    ContainsSuffix(RemoteOkSearch, t);
    ContainsSuffix(WellfoundRole, WellfoundSlug(title));
    ContainsSuffix(UpworkSearch, t);
  }

  /** The answer built from the resume when the model's text is not JSON
      with `search_links`. */
  function BuiltAnswer(titleMatches: seq<string>, possibleTitles: seq<string>, locationMatches: seq<string>,
                       encode: string -> string): (a: LinksAnswer)
    ensures a.jobTitle == JobTitle(titleMatches, possibleTitles)
    ensures a.location == Location(locationMatches)
    ensures a.searchLinks == BuiltLinks(a.jobTitle, a.location, encode)
  {
    var title := JobTitle(titleMatches, possibleTitles);
    var location := Location(locationMatches);
    LinksAnswer(title, location, ["extracted from resume"], BuiltLinks(title, location, encode))
  }

  /** The fixed answer given when asking the model raises. */
  function FailureAnswer(): (a: LinksAnswer)
    ensures |a.searchLinks| == 4
    ensures a.jobTitle == DefaultTitle && a.location == DefaultLocation
  {
    LinksAnswer(DefaultTitle, DefaultLocation, ["programming", "software development"], [
      Job("LinkedIn", LinkedInSearch + "software%20engineer"),
      Job("Indeed", IndeedSearch + "software+engineer"),
      Job("Google Jobs", GoogleSearch + "software+engineer+jobs"),
      Job("Glassdoor", GlassdoorSearch + "software%20engineer")
    ])
  }

  /** The fixed answer lists the first four platforms of the built links,
      in the same order, under the title and location the built answer
      falls back to when nothing was found. Its URLs are not the built
      ones: two write the space as "%20", and none carries a location. */
  lemma FailureAnswerPlatforms()
    ensures forall k :: 0 <= k < 4 ==> FailureAnswer().searchLinks[k].platform == Platforms[k]
    ensures JobTitle([], []) == FailureAnswer().jobTitle
    ensures Location([]) == FailureAnswer().location
  {
  }
}
