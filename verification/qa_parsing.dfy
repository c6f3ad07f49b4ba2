/** Turning the model's interview answer into question/answer pairs
    (backend/main.py, `interview_trainer`): the filter applied to the
    matches of the Q#/A# pattern, the cap at ten pairs, and the line-based
    fallback used when no match survives the filter. */
module QAParsing {
  import opened Types
  import opened Text

  /** The most pairs the endpoint returns. */
  const MaxPairs := 10

  const ParseFailure := "Could not parse interview questions from AI response"

  /** `pairs[:10]`: the first ten elements, or all of them when there are
      fewer. */
  function Capped<T>(s: seq<T>): (r: seq<T>)
    ensures |r| <= MaxPairs
    ensures r <= s
    ensures |s| <= MaxPairs ==> r == s
    ensures |s| > MaxPairs ==> |r| == MaxPairs
  {
    if |s| <= MaxPairs then s else s[..MaxPairs]
  }

  /** One match of the Q#/A# pattern: the number and the raw question and
      answer text it captured. The pattern search itself is not part of
      this model. */
  datatype RawMatch = RawMatch(number: string, question: string, answer: string)

  /** The pair a match yields once both parts are stripped. */
  function Cleaned(m: RawMatch): QAPair
  {
    QAPair(Strip(m.question), Strip(m.answer))
  }

  /** A match is kept when its stripped question is longer than five
      characters and its stripped answer longer than ten. */
  predicate Keeps(m: RawMatch)
  {
    var q := Strip(m.question);
    var a := Strip(m.answer);
    q != "" && a != "" && |q| > 5 && |a| > 10
  }

  /** The pairs the filter keeps from the first `n` matches, in order. */
  function Kept(matches: seq<RawMatch>, n: nat): seq<QAPair>
    requires n <= |matches|
  {
    if n == 0 then []
    else Kept(matches, n - 1) + (if Keeps(matches[n - 1]) then [Cleaned(matches[n - 1])] else [])
  }

  /** The positions of the kept matches among the first `n`, ascending. */
  function KeptSources(matches: seq<RawMatch>, n: nat): seq<nat>
    requires n <= |matches|
  {
    if n == 0 then []
    else KeptSources(matches, n - 1) + (if Keeps(matches[n - 1]) then [n - 1] else [])
  }

  /** Elements of `src` are ascending positions below `n`. */
  predicate AscendingBelow(src: seq<nat>, n: nat)
  {
    && (forall k :: 0 <= k < |src| ==> src[k] < n)
    && (forall j, k :: 0 <= j < k < |src| ==> src[j] < src[k])
  }

  /** The positions of the kept matches ascend, and every passing match
      has its position among them. */
  lemma {:induction false} KeptSourcesComplete(matches: seq<RawMatch>, n: nat)
    requires n <= |matches|
    ensures AscendingBelow(KeptSources(matches, n), n)
    ensures forall i :: 0 <= i < n && Keeps(matches[i]) ==> i in KeptSources(matches, n)
  {
    if n > 0 {
      KeptSourcesComplete(matches, n - 1);
      var src0 := KeptSources(matches, n - 1);
      var src := KeptSources(matches, n);
      if Keeps(matches[n - 1]) {
        assert src == src0 + [n - 1];
        AscendingSnoc(src0, n - 1);
      } else {
        assert src == src0;
      }
      forall i | 0 <= i < n && Keeps(matches[i])
        ensures i in src
      {
        if i < n - 1 {
          assert i in src0;
        }
      }
    }
  }

  /** Appending the next position keeps a list ascending, one bound
      higher, and adds that position. */
  lemma AscendingSnoc(src: seq<nat>, n: nat)
    requires AscendingBelow(src, n)
    ensures AscendingBelow(src + [n], n + 1)
    ensures forall i :: i in src + [n] <==> i in src || i == n
  {
  }

  /** The filter keeps exactly the matches that pass it, cleaned, in the
      order they were found: pair `k` comes from match `KeptSources[k]`,
      whose positions ascend and include every passing match. */
  lemma {:induction false} KeptIsOrderedFilter(matches: seq<RawMatch>, n: nat)
    requires n <= |matches|
    ensures var r := Kept(matches, n);
      var src := KeptSources(matches, n);
      && |r| == |src|
      && AscendingBelow(src, n)
      && (forall k :: 0 <= k < |src| ==> Keeps(matches[src[k]]) && r[k] == Cleaned(matches[src[k]]))
      && (forall i :: 0 <= i < n && Keeps(matches[i]) ==> i in src)
  {
    KeptSourcesComplete(matches, n);
    if n > 0 {
      KeptIsOrderedFilter(matches, n - 1);
      var r0 := Kept(matches, n - 1);
      var src0 := KeptSources(matches, n - 1);
      var r := Kept(matches, n);
      var src := KeptSources(matches, n);
      if Keeps(matches[n - 1]) {
        assert r == r0 + [Cleaned(matches[n - 1])];
        assert src == src0 + [n - 1];
        forall k | 0 <= k < |src|
          ensures Keeps(matches[src[k]]) && r[k] == Cleaned(matches[src[k]])
        {
          if k < |src0| {
            assert src[k] == src0[k] && r[k] == r0[k];
          }
        }
      } else {
        assert r == r0 && src == src0;
      }
    }
  }

  /** A pair that meets the length bounds, neither of whose parts begins
      or ends with whitespace. */
  predicate CleanPair(p: QAPair)
  {
    && |p.question| > 5 && |p.answer| > 10
    && !IsSpace(p.question[0]) && !IsSpace(p.question[|p.question| - 1])
    && !IsSpace(p.answer[0]) && !IsSpace(p.answer[|p.answer| - 1])
  }

  /** A match the filter keeps yields a clean pair. */
  lemma CleanedIsClean(m: RawMatch)
    requires Keeps(m)
    ensures CleanPair(Cleaned(m))
  {
    StripEnds(m.question);
    StripEnds(m.answer);
  }

  /** Every kept pair meets the length bounds, and neither of its parts
      begins or ends with whitespace. */
  lemma {:induction false} KeptPairsAreClean(matches: seq<RawMatch>, n: nat)
    requires n <= |matches|
    ensures forall p :: p in Kept(matches, n) ==> CleanPair(p)
  {
    if n > 0 {
      KeptPairsAreClean(matches, n - 1);
      var m := matches[n - 1];
      if Keeps(m) {
        CleanedIsClean(m);
        assert Kept(matches, n) == Kept(matches, n - 1) + [Cleaned(m)];
      } else {
        assert Kept(matches, n) == Kept(matches, n - 1);
      }
    }
  }

  /** The loop over the matches: strips both parts of each and appends the
      pair when it passes the filter. */
  method FilterMatches(matches: seq<RawMatch>) returns (pairs: seq<QAPair>)
    ensures pairs == Kept(matches, |matches|)
  {
    pairs := [];
    var i := 0;
    while i < |matches|
      invariant 0 <= i <= |matches|
      invariant pairs == Kept(matches, i)
    {
      var question := Strip(matches[i].question);
      var answer := Strip(matches[i].answer);
      if question != "" && answer != "" && |question| > 5 && |answer| > 10 {
        pairs := pairs + [QAPair(question, answer)];
      }
      i := i + 1;
    }
  }

  /** A line that opens a question: stripped, it starts with 'Q', and it
      holds a colon somewhere. */
  predicate IsQuestionLine(line: string)
  {
    StartsWith(Strip(line), "Q") && ':' in line
  }

  /** A line that opens an answer: stripped, it starts with 'A', and it
      holds a colon somewhere. */
  predicate IsAnswerLine(line: string)
  {
    StartsWith(Strip(line), "A") && ':' in line
  }

  /** `line.split(':', 1)[1].strip()`: what follows the first colon,
      stripped (only ever asked of a line that holds a colon). */
  function AfterColon(line: string): string
  {
    if ':' in line then Strip(line[IndexOf(line, ':') + 1..]) else []
  }

  /** Line `i` is a question line, line `i + 1` an answer line, and both
      have something after their colon. */
  predicate PairsAt(lines: seq<string>, i: nat)
  {
    && i + 1 < |lines|
    && IsQuestionLine(lines[i])
    && IsAnswerLine(lines[i + 1])
    && AfterColon(lines[i]) != ""
    && AfterColon(lines[i + 1]) != ""
  }

  /** The pair read from lines `i` and `i + 1`. */
  function PairAt(lines: seq<string>, i: nat): QAPair
    requires i + 1 < |lines|
  {
    QAPair(AfterColon(lines[i]), AfterColon(lines[i + 1]))
  }

  /** The pairs the fallback reads from lines `0 .. n - 1`, in line order. */
  function LinePairs(lines: seq<string>, n: nat): seq<QAPair>
    requires n <= |lines|
  {
    if n == 0 then []
    else LinePairs(lines, n - 1) + (if PairsAt(lines, n - 1) then [PairAt(lines, n - 1)] else [])
  }

  /** Which lines open a pair: flag `i` is set when line `i` does. */
  function PairFlags(lines: seq<string>): (r: seq<bool>)
    ensures |r| == |lines|
    ensures forall i :: 0 <= i < |lines| ==> r[i] == PairsAt(lines, i)
  {
    seq(|lines|, i requires 0 <= i < |lines| => PairsAt(lines, i))
  }

  /** The positions among `0 .. n - 1` whose flag is set, ascending. */
  function Positions(flags: seq<bool>, n: nat): seq<nat>
    requires n <= |flags|
  {
    if n == 0 then []
    else Positions(flags, n - 1) + (if flags[n - 1] then [n - 1] else [])
  }

  /** The positions ascend, and every set flag below `n` is among them. */
  lemma {:induction false} PositionsComplete(flags: seq<bool>, n: nat)
    requires n <= |flags|
    ensures AscendingBelow(Positions(flags, n), n)
    ensures forall i :: 0 <= i < n && flags[i] ==> i in Positions(flags, n)
  {
    if n > 0 {
      PositionsComplete(flags, n - 1);
      var src0 := Positions(flags, n - 1);
      if flags[n - 1] {
        assert Positions(flags, n) == src0 + [n - 1];
        AscendingSnoc(src0, n - 1);
      } else {
        assert Positions(flags, n) == src0;
      }
    }
  }

  /** The question lines among `0 .. n - 1` that yield a pair, ascending. */
  function LineSources(lines: seq<string>, n: nat): seq<nat>
    requires n <= |lines|
  {
    Positions(PairFlags(lines), n)
  }

  /** The question lines that yield a pair ascend, and every qualifying
      question line is among them. */
  lemma LineSourcesComplete(lines: seq<string>, n: nat)
    requires n <= |lines|
    ensures AscendingBelow(LineSources(lines, n), n)
    ensures forall i :: 0 <= i < n && PairsAt(lines, i) ==> i in LineSources(lines, n)
  {
    PositionsComplete(PairFlags(lines), n);
  }

  /** The fallback pairs a question line only with the line right after
      it: pair `k` is read from lines `LineSources[k]` and the one after,
      those positions ascend, both parts are non-empty, and every question
      line followed by an answer line with non-empty parts yields its
      pair. */
  lemma {:induction false} LinePairsAreAdjacentLines(lines: seq<string>, n: nat)
    requires n <= |lines|
    ensures var r := LinePairs(lines, n);
      var src := LineSources(lines, n);
      && |r| == |src|
      && AscendingBelow(src, n)
      && (forall k :: 0 <= k < |src| ==>
            PairsAt(lines, src[k]) && r[k] == PairAt(lines, src[k]) &&
            r[k].question != "" && r[k].answer != "")
      && (forall i :: 0 <= i < n && PairsAt(lines, i) ==> i in src)
  {
    LineSourcesComplete(lines, n);
    if n > 0 {
      LinePairsAreAdjacentLines(lines, n - 1);
      var r0 := LinePairs(lines, n - 1);
      var src0 := LineSources(lines, n - 1);
      var r := LinePairs(lines, n);
      var src := LineSources(lines, n);
      if PairsAt(lines, n - 1) {
        assert r == r0 + [PairAt(lines, n - 1)];
        assert src == src0 + [n - 1];
        forall k | 0 <= k < |src|
          ensures PairsAt(lines, src[k]) && r[k] == PairAt(lines, src[k])
          ensures r[k].question != "" && r[k].answer != ""
        {
          if k < |src0| {
            assert src[k] == src0[k] && r[k] == r0[k];
          }
        }
      } else {
        assert r == r0 && src == src0;
      }
    }
  }

  /** What the endpoint answers, given the pairs the filter kept and the
      pairs the line fallback found: the kept pairs when there are any,
      else the fallback's pairs when there are any, else the parse
      failure; pairs are capped at ten. */
  function Outcome(kept: seq<QAPair>, found: seq<QAPair>): Result<seq<QAPair>, string>
  {
    if |kept| >= 1 then Success(Capped(kept))
    else if found != [] then Success(Capped(found))
    else Failure(ParseFailure)
  }

  /** An outcome is a failure with the fixed message, or one to ten pairs
      taken from the list it came from; it fails exactly when both lists
      are empty. */
  lemma OutcomeShape(kept: seq<QAPair>, found: seq<QAPair>)
    ensures var r := Outcome(kept, found);
      && (r.Failure? <==> kept == [] && found == [])
      && (r.Failure? ==> r.error == ParseFailure)
      && (r.Success? ==> 1 <= |r.value| <= MaxPairs)
      && (r.Success? ==> forall p :: p in r.value ==> p in kept || p in found)
  {
    var r := Outcome(kept, found);
    if r.Success? {
      var all := if |kept| >= 1 then kept else found;
      forall p | p in r.value
        ensures p in all
      {
        var k :| 0 <= k < |r.value| && r.value[k] == p;
        assert all[k] == p;
      }
    }
  }

  /** The pairs the line fallback finds in the model's text. */
  function FallbackPairs(content: string): seq<QAPair>
  {
    var lines := SplitOn(content, '\n');
    LinePairs(lines, |lines|)
  }

  /** The fallback's verdict on the model's text: up to ten pairs, or the
      parse failure when no pair was found. */
  function FallbackOutcome(content: string): Result<seq<QAPair>, string>
  {
    Outcome([], FallbackPairs(content))
  }

  /** The fallback loop over the lines of the model's text. */
  method ParseLineFallback(content: string) returns (r: Result<seq<QAPair>, string>)
    ensures r == FallbackOutcome(content)
  {
    var lines := SplitOn(content, '\n');
    var fallbackPairs: seq<QAPair> := [];
    var i := 0;
    while i < |lines|
      invariant 0 <= i <= |lines|
      invariant fallbackPairs == LinePairs(lines, i)
    {
      var line := lines[i];
      if StartsWith(Strip(line), "Q") && ':' in line {
        var question := AfterColon(line);
        if i + 1 < |lines| && StartsWith(Strip(lines[i + 1]), "A") && ':' in lines[i + 1] {
          var answer := AfterColon(lines[i + 1]);
          if question != "" && answer != "" {
            fallbackPairs := fallbackPairs + [QAPair(question, answer)];
          }
        }
      }
      i := i + 1;
    }
    if fallbackPairs != [] {
      r := Success(Capped(fallbackPairs));
    } else {
      r := Failure(ParseFailure);
    }
  }

  /** The pairs the endpoint answers with: the filtered matches, capped at
      ten, when at least one survives; the line fallback otherwise. */
  function ParsedPairs(content: string, matches: seq<RawMatch>): Result<seq<QAPair>, string>
  {
    Outcome(Kept(matches, |matches|), FallbackPairs(content))
  }

  method ParsePairs(content: string, matches: seq<RawMatch>) returns (r: Result<seq<QAPair>, string>)
    ensures r == ParsedPairs(content, matches)
  {
    var pairs := FilterMatches(matches);
    if |pairs| >= 1 {
      r := Success(Capped(pairs));
    } else {
      r := ParseLineFallback(content);
    }
  }

  /** No match passes the filter. */
  predicate NoneKept(matches: seq<RawMatch>)
  {
    forall i :: 0 <= i < |matches| ==> !Keeps(matches[i])
  }

  /** No line opens a pair. */
  predicate NoLinePair(lines: seq<string>)
  {
    forall i :: 0 <= i < |lines| ==> !PairsAt(lines, i)
  }

  /** The filter keeps nothing exactly when no match passes it. */
  lemma KeptEmptyIff(matches: seq<RawMatch>)
    ensures Kept(matches, |matches|) == [] <==> NoneKept(matches)
  {
    KeptIsOrderedFilter(matches, |matches|);
    var src := KeptSources(matches, |matches|);
    if Kept(matches, |matches|) != [] {
      assert Keeps(matches[src[0]]);
    }
  }

  /** The fallback finds nothing exactly when no line qualifies. */
  lemma LinePairsEmptyIff(lines: seq<string>)
    ensures LinePairs(lines, |lines|) == [] <==> NoLinePair(lines)
  {
    LinePairsAreAdjacentLines(lines, |lines|);
    var src := LineSources(lines, |lines|);
    if LinePairs(lines, |lines|) != [] {
      assert PairsAt(lines, src[0]);
    }
  }

  /** Every pair the filter keeps, and every pair the fallback finds, has
      a non-empty question and a non-empty answer. */
  lemma FoundPairsNonEmpty(matches: seq<RawMatch>, lines: seq<string>)
    ensures forall p :: p in Kept(matches, |matches|) ==> p.question != "" && p.answer != ""
    ensures forall p :: p in LinePairs(lines, |lines|) ==> p.question != "" && p.answer != ""
  {
    KeptPairsAreClean(matches, |matches|);
    LinePairsAreAdjacentLines(lines, |lines|);
    var found := LinePairs(lines, |lines|);
    forall p | p in found
      ensures p.question != "" && p.answer != ""
    {
      var k :| 0 <= k < |found| && found[k] == p;
    }
  }

  /** Whatever the model said, parsing either fails with the fixed message
      or yields between one and ten pairs, each with a non-empty question
      and a non-empty answer. */
  lemma ParsedPairsBounds(content: string, matches: seq<RawMatch>)
    ensures var r := ParsedPairs(content, matches);
      && (r.Failure? ==> r.error == ParseFailure)
      && (r.Success? ==>
            1 <= |r.value| <= MaxPairs &&
            forall p :: p in r.value ==> p.question != "" && p.answer != "")
  {
    var lines := SplitOn(content, '\n');
    FoundPairsNonEmpty(matches, lines);
    OutcomeShape(Kept(matches, |matches|), LinePairs(lines, |lines|));
  }

  /** Parsing fails exactly when no match passes the filter and no
      question line is followed by an answer line with text after both
      colons. */
  lemma ParsedPairsFailsIff(content: string, matches: seq<RawMatch>)
    ensures ParsedPairs(content, matches).Failure? <==>
      NoneKept(matches) && NoLinePair(SplitOn(content, '\n'))
  {
    var lines := SplitOn(content, '\n');
    KeptEmptyIff(matches);
    LinePairsEmptyIff(lines);
    OutcomeShape(Kept(matches, |matches|), LinePairs(lines, |lines|));
  }
}
