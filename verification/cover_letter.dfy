/** The whitespace cleanup applied to a generated cover letter
    (backend/main.py, `generate_cover_letter`): every run of spaces and
    tabs becomes one space, then the letter is stripped. The collapse of
    runs of blank lines that comes first is not part of this model: the
    cleanup starts from its output. */
module CoverLetter {
  import opened Text

  /** The characters of the class `[ \t]`. */
  predicate IsBlank(c: char)
  {
    c == ' ' || c == '\t'
  }

  /** Length of the run of blanks that starts `s`. */
  function BlankRun(s: string): (n: nat)
    ensures n <= |s|
    ensures forall i :: 0 <= i < n ==> IsBlank(s[i])
    ensures n < |s| ==> !IsBlank(s[n])
    decreases |s|
  {
    if |s| > 0 && IsBlank(s[0]) then 1 + BlankRun(s[1..]) else 0
  }

  /** Two spaces stand side by side somewhere in `s`. */
  predicate HasDoubleSpace(s: string)
  {
    exists i :: 0 <= i < |s| - 1 && s[i] == ' ' && s[i + 1] == ' '
  }

  /** `re.sub(r'[ \t]+', ' ', s)`: every maximal run of spaces and tabs
      replaced by one space. The result holds no tab and no two adjacent
      spaces, begins with a space exactly when `s` begins with a blank,
      and is empty exactly when `s` is. */
  function CollapseBlanks(s: string): (r: string)
    ensures '\t' !in r
    ensures !HasDoubleSpace(r)
    ensures r == [] <==> s == []
    ensures r != [] ==> (r[0] == ' ' <==> IsBlank(s[0]))
    ensures |r| <= |s|
    decreases |s|
  {
    if s == [] then []
    else if IsBlank(s[0]) then [' '] + CollapseBlanks(s[BlankRun(s)..])
    else [s[0]] + CollapseBlanks(s[1..])
  }

  /** The collapse changes whitespace only: the other characters come out
      as they went in, in order. */
  lemma {:induction false} CollapseKeepsText(s: string)
    ensures NonSpace(CollapseBlanks(s)) == NonSpace(s)
    decreases |s|
  {
    if s != [] {
      if IsBlank(s[0]) {
        var n := BlankRun(s);
        CollapseKeepsText(s[n..]);
        assert s == s[..n] + s[n..];
        NonSpaceAppend(s[..n], s[n..]);
        NonSpaceOfAllSpace(s[..n]);
        NonSpaceAppend([' '], CollapseBlanks(s[n..]));
      } else {
        CollapseKeepsText(s[1..]);
        NonSpaceAppend([s[0]], CollapseBlanks(s[1..]));
        NonSpaceAppend([s[0]], s[1..]);
        assert s == [s[0]] + s[1..];
      }
    }
  }

  /** `s` without its spaces and tabs; every other character, line breaks
      included, in order. */
  function Unblanked(s: string): string
  {
    if s == [] then [] else (if IsBlank(s[0]) then [] else [s[0]]) + Unblanked(s[1..])
  }

  lemma {:induction false} UnblankedAppend(a: string, b: string)
    ensures Unblanked(a + b) == Unblanked(a) + Unblanked(b)
    decreases |a|
  {
    if a == [] {
      assert a + b == b;
    } else {
      assert (a + b)[1..] == a[1..] + b;
      UnblankedAppend(a[1..], b);
    }
  }

  lemma {:induction false} UnblankedOfBlanks(s: string)
    requires forall i :: 0 <= i < |s| ==> IsBlank(s[i])
    ensures Unblanked(s) == []
    decreases |s|
  {
    if s != [] {
      UnblankedOfBlanks(s[1..]);
    }
  }

  /** The collapse touches spaces and tabs only: every other character,
      line breaks included, comes out as it went in, in order. */
  lemma {:induction false} CollapseKeepsAllButBlanks(s: string)
    ensures Unblanked(CollapseBlanks(s)) == Unblanked(s)
    decreases |s|
  {
    if s != [] {
      if IsBlank(s[0]) {
        var n := BlankRun(s);
        CollapseKeepsAllButBlanks(s[n..]);
        assert s == s[..n] + s[n..];
        UnblankedAppend(s[..n], s[n..]);
        UnblankedOfBlanks(s[..n]);
        UnblankedAppend([' '], CollapseBlanks(s[n..]));
      } else {
        CollapseKeepsAllButBlanks(s[1..]);
        UnblankedAppend([s[0]], CollapseBlanks(s[1..]));
      }
    }
  }

  /** The run of blanks at the front of `x + y` ends inside `x` unless `x`
      is all blanks, and then it goes on into `y`. */
  lemma {:induction false} BlankRunAppend(x: string, y: string)
    ensures BlankRun(x + y) == if BlankRun(x) < |x| then BlankRun(x) else |x| + BlankRun(y)
    decreases |x|
  {
    if x == [] {
      assert x + y == y;
    } else if IsBlank(x[0]) {
      assert (x + y)[1..] == x[1..] + y;
      BlankRunAppend(x[1..], y);
    }
  }

  /** A non-empty run of spaces and tabs becomes one space. */
  lemma CollapseRun(s: string)
    requires s != [] && forall i :: 0 <= i < |s| ==> IsBlank(s[i])
    ensures CollapseBlanks(s) == [' ']
  {
    assert BlankRun(s) == |s|;
  }

  /** The collapse works run by run: where `x` and `y` meet outside a run
      of blanks (one of the two characters at the seam is not a blank),
      collapsing `x + y` collapses `x` and `y` apart. With `CollapseRun`
      and the single characters kept as they are, this fixes the result
      on every text: one space per maximal run of blanks, every other
      character unchanged. */
  lemma {:induction false} CollapseAppend(x: string, y: string)
    requires x == [] || y == [] || !IsBlank(x[|x| - 1]) || !IsBlank(y[0])
    ensures CollapseBlanks(x + y) == CollapseBlanks(x) + CollapseBlanks(y)
    decreases |x|, 1
  {
    if x == [] {
      assert x + y == y;
    } else if y == [] {
      assert x + y == x;
    } else if IsBlank(x[0]) {
      CollapseAppendAtRun(x, y);
    } else {
      assert (x + y)[1..] == x[1..] + y;
      if |x| > 1 {
        CollapseAppend(x[1..], y);
      } else {
        assert x[1..] == [];
      }
    }
  }

  /** `CollapseAppend` when `x` opens with a run of blanks. */
  lemma {:induction false} CollapseAppendAtRun(x: string, y: string)
    requires x != [] && y != [] && IsBlank(x[0])
    requires !IsBlank(x[|x| - 1]) || !IsBlank(y[0])
    ensures CollapseBlanks(x + y) == CollapseBlanks(x) + CollapseBlanks(y)
    decreases |x|, 0
  {
    var m := BlankRun(x);
    BlankRunAppend(x, y);
    if m == |x| {
      assert (x + y)[m..] == y;
      assert x[m..] == [];
    } else {
      assert (x + y)[m..] == x[m..] + y;
      CollapseAppend(x[m..], y);
    }
  }

  /** Stripping changes whitespace only. */
  lemma StripKeepsText(s: string)
    ensures NonSpace(Strip(s)) == NonSpace(s)
  {
    StripCutsSpace(s);
    var i := LeadingSpace(s);
    var r := Strip(s);
    assert s == s[..i] + r + s[i + |r|..];
    NonSpaceAppend(s[..i] + r, s[i + |r|..]);
    NonSpaceAppend(s[..i], r);
    NonSpaceOfAllSpace(s[..i]);
    NonSpaceOfAllSpace(s[i + |r|..]);
  }

  /** A slice of a text without tabs and double spaces has neither. */
  lemma SliceStaysCollapsed(c: string, a: nat, b: nat)
    requires a <= b <= |c|
    requires '\t' !in c && !HasDoubleSpace(c)
    ensures '\t' !in c[a..b] && !HasDoubleSpace(c[a..b])
  {
    forall j | 0 <= j < b - a - 1
      ensures !(c[a..b][j] == ' ' && c[a..b][j + 1] == ' ')
    {
      assert c[a..b][j] == c[a + j] && c[a..b][j + 1] == c[a + j + 1];
    }
  }

  /** Stripping a text without tabs and double spaces leaves neither. */
  lemma StripStaysCollapsed(c: string)
    requires '\t' !in c && !HasDoubleSpace(c)
    ensures '\t' !in Strip(c) && !HasDoubleSpace(Strip(c))
  {
    StripBlock(c);
    var i := LeadingSpace(c);
    SliceStaysCollapsed(c, i, i + |Strip(c)|);
  }

  /** The letter after cleanup, given the text the blank-line collapse
      produced. */
  function CleanCoverLetter(collapsed: string): (r: string)
    ensures |r| <= |collapsed|
  {
    Strip(CollapseBlanks(collapsed))
  }

  /** After cleanup the letter holds no tab and no two adjacent spaces,
      neither begins nor ends with whitespace, and keeps every other
      character of the text in order. */
  lemma CleanCoverLetterIsClean(collapsed: string)
    ensures var r := CleanCoverLetter(collapsed);
      && '\t' !in r
      && !HasDoubleSpace(r)
      && (r == [] || (!IsSpace(r[0]) && !IsSpace(r[|r| - 1])))
      && NonSpace(r) == NonSpace(collapsed)
  {
    var c := CollapseBlanks(collapsed);
    StripStaysCollapsed(c);
    StripEnds(c);
    StripKeepsText(c);
    CollapseKeepsText(collapsed);
  }
}
