/** String operations that the backend (Python `str`) and the frontend
    (JavaScript `String`) rely on, written out over `seq<char>`. */
module Text {

  /** Python's `str.isspace()`: the characters that `str.split()` with no
      argument separates on and that `str.strip()` removes. */
  predicate IsSpace(c: char)
  {
    || ('\t' <= c <= '\r')
    || ('\U{1C}' <= c <= ' ')
    || c == '\U{85}' || c == '\U{A0}' || c == '\U{1680}'
    || ('\U{2000}' <= c <= '\U{200A}')
    || c == '\U{2028}' || c == '\U{2029}' || c == '\U{202F}' || c == '\U{205F}' || c == '\U{3000}'
  }

  predicate NoSpace(s: string)
  {
    forall i :: 0 <= i < |s| ==> !IsSpace(s[i])
  }

  predicate AllSpace(s: string)
  {
    forall i :: 0 <= i < |s| ==> IsSpace(s[i])
  }

  /** Case folding of one character, ASCII letters only. */
  function LowerChar(c: char): (r: char)
    ensures !('A' <= r <= 'Z')
    ensures !('A' <= c <= 'Z') ==> r == c
  {
    if 'A' <= c <= 'Z' then (c as int + 32) as char else c
  }

  /** `s.lower()` / `s.toLowerCase()`, ASCII letters only. */
  function Lower(s: string): (r: string)
    ensures |r| == |s|
    ensures forall i :: 0 <= i < |s| ==> r[i] == LowerChar(s[i])
  {
    seq(|s|, i requires 0 <= i < |s| => LowerChar(s[i]))
  }

  /** Lowering a text with no upper-case ASCII letter changes nothing. */
  lemma LowerOfLower(s: string)
    requires forall i :: 0 <= i < |s| ==> !('A' <= s[i] <= 'Z')
    ensures Lower(s) == s
  {
  }

  predicate StartsWith(s: string, prefix: string)
  {
    prefix <= s
  }

  predicate EndsWith(s: string, suffix: string)
  {
    |suffix| <= |s| && s[|s| - |suffix|..] == suffix
  }

  /** `t in s` (Python) / `s.includes(t)` (JavaScript): `t` occurs in `s`
      as a contiguous block. */
  predicate Contains(s: string, t: string)
    decreases |s|
  {
    t <= s || (|s| > 0 && Contains(s[1..], t))
  }

  /** `t` occurs in `s` starting at position `i`. */
  predicate OccursAt(s: string, t: string, i: int)
  {
    0 <= i <= |s| - |t| && s[i..i + |t|] == t
  }

  /** `Contains` holds exactly when `t` occurs at some position of `s`. */
  lemma {:induction false} ContainsIffOccurs(s: string, t: string)
    ensures Contains(s, t) <==> exists i :: OccursAt(s, t, i)
    decreases |s|
  {
    if t <= s {
      assert OccursAt(s, t, 0);
    } else if |s| > 0 {
      ContainsIffOccurs(s[1..], t);
      if Contains(s[1..], t) {
        var i :| OccursAt(s[1..], t, i);
        assert s[i + 1..i + 1 + |t|] == s[1..][i..i + |t|];
        assert OccursAt(s, t, i + 1);
      } else {
        forall i | OccursAt(s, t, i)
          ensures false
        {
          if i > 0 {
            assert OccursAt(s[1..], t, i - 1);
          }
        }
      }
    }
  }

  /** Whatever stands before and after it, a block is contained in the
      whole. */
  lemma {:induction false} ContainsInfix(a: string, t: string, b: string)
    ensures Contains(a + t + b, t)
    decreases |a|
  {
    if a == [] {
      assert a + t + b == t + b;
      assert t <= t + b;
    } else {
      assert (a + t + b)[1..] == a[1..] + t + b;
      ContainsInfix(a[1..], t, b);
    }
  }

  /** A block is contained in anything that ends with it. */
  lemma {:induction false} ContainsSuffix(a: string, t: string)
    ensures Contains(a + t, t)
    decreases |a|
  {
    if a == [] {
      assert a + t == t;
    } else {
      assert (a + t)[1..] == a[1..] + t;
      ContainsSuffix(a[1..], t);
    }
  }

  /** Appending text keeps every block already contained. */
  lemma {:induction false} ContainsAppend(a: string, b: string, t: string)
    requires Contains(a, t)
    ensures Contains(a + b, t)
    decreases |a|
  {
    if !(t <= a) {
      assert (a + b)[1..] == a[1..] + b;
      ContainsAppend(a[1..], b, t);
    }
  }

  /** A block whose first character does not occur in `s` is not
      contained in `s`. */
  lemma {:induction false} AbsentHeadNotContained(s: string, t: string)
    requires t != [] && t[0] !in s
    ensures !Contains(s, t)
    decreases |s|
  {
    if |s| > 0 {
      assert s[0] != t[0];
      AbsentHeadNotContained(s[1..], t);
    }
  }

  /** Characters skipped by `lstrip()`: the number of leading whitespace
      characters (see `LeadingSpaceMeaning`). */
  function LeadingSpace(s: string): (n: nat)
    ensures n <= |s|
    decreases |s|
  {
    if |s| > 0 && IsSpace(s[0]) then 1 + LeadingSpace(s[1..]) else 0
  }

  /** `LeadingSpace` counts whitespace characters, and stops at the first
      character that is not one. */
  lemma {:induction false} LeadingSpaceMeaning(s: string)
    ensures AllSpace(s[..LeadingSpace(s)])
    ensures LeadingSpace(s) < |s| ==> !IsSpace(s[LeadingSpace(s)])
    decreases |s|
  {
    if |s| > 0 && IsSpace(s[0]) {
      LeadingSpaceMeaning(s[1..]);
      assert s[..LeadingSpace(s)] == [s[0]] + s[1..][..LeadingSpace(s[1..])];
    }
  }

  /** Characters removed by `rstrip()`: the number of trailing whitespace
      characters (see `TrailingSpaceMeaning`). */
  function TrailingSpace(s: string): (n: nat)
    ensures n <= |s|
    decreases |s|
  {
    if |s| > 0 && IsSpace(s[|s| - 1]) then 1 + TrailingSpace(s[..|s| - 1]) else 0
  }

  /** `TrailingSpace` counts whitespace characters from the end, and stops
      at the last character that is not one. */
  lemma {:induction false} TrailingSpaceMeaning(s: string)
    ensures AllSpace(s[|s| - TrailingSpace(s)..])
    ensures TrailingSpace(s) < |s| ==> !IsSpace(s[|s| - TrailingSpace(s) - 1])
    decreases |s|
  {
    if |s| > 0 && IsSpace(s[|s| - 1]) {
      var t := s[..|s| - 1];
      var k := TrailingSpace(t);
      assert TrailingSpace(s) == k + 1;
      TrailingSpaceMeaning(t);
      var tail := t[|t| - k..];
      var w := tail + [s[|s| - 1]];
      assert s[|s| - (k + 1)..] == w;
      forall i | 0 <= i < |w|
        ensures IsSpace(w[i])
      {
        if i < |tail| {
          assert w[i] == tail[i];
        }
      }
      if k + 1 < |s| {
        assert s[|s| - (k + 1) - 1] == t[|t| - k - 1];
      }
    }
  }

  /** Python's `s.strip()`: `s` without its leading and trailing
      whitespace (see `StripMeaning`). */
  function Strip(s: string): (r: string)
    ensures |r| <= |s|
  {
    var rest := s[LeadingSpace(s)..];
    rest[..|rest| - TrailingSpace(rest)]
  }

  /** `Strip` keeps a block of `s` that neither begins nor ends with
      whitespace, everything cut off on either side is whitespace, and the
      result is empty exactly when `s` is all whitespace. */
  lemma StripMeaning(s: string)
    ensures var r := Strip(s);
      var i := LeadingSpace(s);
      && i + |r| <= |s| && r == s[i..i + |r|]
      && AllSpace(s[..i]) && AllSpace(s[i + |r|..])
      && (r == [] || (!IsSpace(r[0]) && !IsSpace(r[|r| - 1])))
      && (r == [] <==> AllSpace(s))
  {
    StripCutsSpace(s);
    StripEnds(s);
  }

  /** `Strip` keeps the block after the leading whitespace, and what
      follows that block is the trailing whitespace of the rest. */
  lemma {:induction false} StripBlock(s: string)
    ensures var r := Strip(s);
      var i := LeadingSpace(s);
      var rest := s[i..];
      && i + |r| <= |s| && r == s[i..i + |r|]
      && s[i + |r|..] == rest[|rest| - TrailingSpace(rest)..]
  {
    var i := LeadingSpace(s);
    var rest := s[i..];
    var n := |rest| - TrailingSpace(rest);
    assert Strip(s) == rest[..n] == s[i..i + n];
    assert s[i + n..] == rest[n..];
  }

  /** What `Strip` cuts off on either side is whitespace. */
  lemma StripCutsSpace(s: string)
    ensures var r := Strip(s);
      var i := LeadingSpace(s);
      && i + |r| <= |s| && r == s[i..i + |r|]
      && AllSpace(s[..i]) && AllSpace(s[i + |r|..])
  {
    StripBlock(s);
    LeadingSpaceMeaning(s);
    TrailingSpaceMeaning(s[LeadingSpace(s)..]);
  }

  /** `Strip` neither begins nor ends with whitespace, and it is empty
      exactly when `s` is all whitespace. */
  lemma StripEnds(s: string)
    ensures var r := Strip(s);
      && (r == [] || (!IsSpace(r[0]) && !IsSpace(r[|r| - 1])))
      && (r == [] <==> AllSpace(s))
  {
    var i := LeadingSpace(s);
    var rest := s[i..];
    var j := TrailingSpace(rest);
    LeadingSpaceMeaning(s);
    if rest == [] {
      assert s[..i] == s;
    } else {
      assert rest[0] == s[i] && !IsSpace(s[i]);
      StripEndsInText(rest, j);
      assert Strip(s) == rest[..|rest| - j];
    }
  }

  /** When a non-empty text starts with a non-space character, cutting
      its trailing whitespace keeps that character, the last one kept is
      not whitespace, and the text is not all whitespace. */
  lemma StripEndsInText(rest: string, j: nat)
    requires rest != [] && !IsSpace(rest[0])
    requires j == TrailingSpace(rest)
    ensures j < |rest|
    ensures !IsSpace(rest[|rest| - j - 1])
    ensures !AllSpace(rest)
  {
    TrailingSpaceMeaning(rest);
  }

  /** Position of the first occurrence of `c` in `s`. */
  function IndexOf(s: string, c: char): (i: nat)
    requires c in s
    ensures i < |s| && s[i] == c && c !in s[..i]
  {
    if s[0] == c then 0 else
      assert s == [s[0]] + s[1..];
      var k := IndexOf(s[1..], c);
      assert s[..k + 1] == [s[0]] + s[1..][..k];
      k + 1
  }

  /** Python's `sep.join(parts)` / JavaScript's `parts.join(sep)`. */
  function Join(parts: seq<string>, sep: string): (r: string)
    ensures parts == [] ==> r == []
    ensures |parts| == 1 ==> r == parts[0]
    decreases |parts|
  {
    if parts == [] then []
    else if |parts| == 1 then parts[0]
    else parts[0] + sep + Join(parts[1..], sep)
  }

  /** Joining one more part adds the separator and that part at the end. */
  lemma {:induction false} JoinSnoc(parts: seq<string>, last: string, sep: string)
    requires parts != []
    ensures Join(parts + [last], sep) == Join(parts, sep) + sep + last
    decreases |parts|
  {
    if |parts| == 1 {
      assert (parts + [last])[1..] == [last];
    } else {
      assert (parts + [last])[1..] == parts[1..] + [last];
      JoinSnoc(parts[1..], last, sep);
    }
  }

  /** Python's `s.split(sep)` for a one-character separator: the pieces
      between separators, none of which holds the separator, and which
      joined with it give back `s`. */
  function SplitOn(s: string, sep: char): (r: seq<string>)
    ensures |r| >= 1
    ensures forall k :: 0 <= k < |r| ==> sep !in r[k]
    ensures Join(r, [sep]) == s
    decreases |s|
  {
    if sep !in s then [s]
    else
      var i := IndexOf(s, sep);
      var tail := SplitOn(s[i + 1..], sep);
      assert s == s[..i] + [sep] + s[i + 1..];
      [s[..i]] + tail
  }

  /** The length of the first word of `s` when `s` starts with one: the
      characters up to the first whitespace character. */
  function WordEnd(s: string): (n: nat)
    ensures n <= |s|
    ensures NoSpace(s[..n])
    ensures n < |s| ==> IsSpace(s[n])
    decreases |s|
  {
    if |s| == 0 || IsSpace(s[0]) then 0 else 1 + WordEnd(s[1..])
  }

  /** Python's `s.split()`: the maximal runs of non-whitespace characters,
      in order. */
  function Words(s: string): (r: seq<string>)
    ensures forall k :: 0 <= k < |r| ==> r[k] != [] && NoSpace(r[k])
    decreases |s|
  {
    var t := s[LeadingSpace(s)..];
    if t == [] then []
    else
      LeadingSpaceMeaning(s);
      var n := WordEnd(t);
      [t[..n]] + Words(t[n..])
  }

  /** The number of positions of `s` where a word starts: a
      non-whitespace character at the front of `s` or right after a
      whitespace character. `afterSpace` says whether the front of `s`
      itself counts as following whitespace (it does for a whole text). */
  function WordStarts(s: string, afterSpace: bool): nat
    decreases |s|
  {
    if s == [] then 0
    else (if afterSpace && !IsSpace(s[0]) then 1 else 0) + WordStarts(s[1..], IsSpace(s[0]))
  }

  /** Leading whitespace holds no word start. */
  lemma {:induction false} WordStartsSkipSpace(s: string, k: nat)
    requires k <= |s| && AllSpace(s[..k])
    ensures WordStarts(s, true) == WordStarts(s[k..], true)
    decreases k
  {
    if k > 0 {
      assert IsSpace(s[..k][0]);
      WordStartsSkipSpace(s[1..], k - 1);
      assert s[1..][k - 1..] == s[k..];
    }
  }

  /** A run of `n > 0` non-whitespace characters holds one word start, at
      its front, and only when the front follows whitespace. */
  lemma {:induction false} WordStartsSkipWord(t: string, n: nat, afterSpace: bool)
    requires 0 < n <= |t| && NoSpace(t[..n])
    ensures WordStarts(t, afterSpace) == (if afterSpace then 1 else 0) + WordStarts(t[n..], false)
    decreases n
  {
    assert !IsSpace(t[..n][0]);
    if n > 1 {
      WordStartsSkipWord(t[1..], n - 1, false);
      assert t[1..][n - 1..] == t[n..];
    }
  }

  /** `Words` yields exactly one word per word start, so
      `len(s.split())` counts the non-whitespace characters that begin `s`
      or follow whitespace. */
  lemma {:induction false} WordCountCountsStarts(s: string)
    ensures |Words(s)| == WordStarts(s, true)
    decreases |s|
  {
    var i := LeadingSpace(s);
    LeadingSpaceMeaning(s);
    var t := s[i..];
    WordStartsSkipSpace(s, i);
    if t != [] {
      assert t[0] == s[i];
      var n := WordEnd(t);
      assert Words(s) == [t[..n]] + Words(t[n..]);
      WordStartsSkipWord(t, n, true);
      WordCountCountsStarts(t[n..]);
    }
  }

  /** There are no words exactly when `s` is all whitespace. */
  lemma {:induction false} WordsEmptyIff(s: string)
    ensures Words(s) == [] <==> AllSpace(s)
  {
    var i := LeadingSpace(s);
    LeadingSpaceMeaning(s);
    if i == |s| {
      assert s[..i] == s;
    } else {
      assert !IsSpace(s[i]);
    }
  }

  /** The first word is the run of non-whitespace characters right after
      the leading whitespace, and it ends at the end of `s` or at a
      whitespace character. */
  lemma {:induction false} FirstWordPlace(s: string)
    requires Words(s) != []
    ensures var i := LeadingSpace(s);
      var w := Words(s)[0];
      && i + |w| <= |s|
      && s[i..i + |w|] == w
      && (i + |w| == |s| || IsSpace(s[i + |w|]))
  {
    var i := LeadingSpace(s);
    var t := s[i..];
    var n := WordEnd(t);
    assert Words(s)[0] == t[..n] == s[i..i + n];
    if i + n < |s| {
      assert s[i + n] == t[n];
    }
  }

  /** The words after the first are the words of what follows it. */
  lemma {:induction false} WordsAfterFirst(s: string)
    requires Words(s) != []
    ensures Words(s)[1..] == Words(s[LeadingSpace(s) + |Words(s)[0]|..])
  {
    var i := LeadingSpace(s);
    var t := s[i..];
    var n := WordEnd(t);
    assert Words(s) == [t[..n]] + Words(t[n..]);
    assert |Words(s)[0]| == n;
    assert t[n..] == s[i + n..];
  }

  /** Where the words sit in `s`: the first word is the whole run of
      non-whitespace characters after the leading whitespace, and the
      other words are the words of what follows it. Applied again to that
      rest, this fixes every word boundary. */
  lemma WordsAtBoundaries(s: string)
    requires Words(s) != []
    ensures var i := LeadingSpace(s);
      var w := Words(s)[0];
      && AllSpace(s[..i])
      && i + |w| <= |s|
      && s[i..i + |w|] == w
      && (i + |w| == |s| || IsSpace(s[i + |w|]))
      && Words(s)[1..] == Words(s[i + |w|..])
  {
    LeadingSpaceMeaning(s);
    FirstWordPlace(s);
    WordsAfterFirst(s);
  }

  /** `len(s.split())`. */
  function WordCount(s: string): nat
  {
    |Words(s)|
  }

  /** The characters of `s` that are not whitespace, in order. */
  function NonSpace(s: string): string
  {
    if s == [] then [] else (if IsSpace(s[0]) then [] else [s[0]]) + NonSpace(s[1..])
  }

  function Concat(parts: seq<string>): string
  {
    if parts == [] then [] else parts[0] + Concat(parts[1..])
  }

  /** Concatenating one more part appends it. */
  lemma {:induction false} ConcatSnoc(parts: seq<string>, last: string)
    ensures Concat(parts + [last]) == Concat(parts) + last
    decreases |parts|
  {
    if parts == [] {
      assert Concat([last]) == last + Concat([]);
    } else {
      assert (parts + [last])[1..] == parts[1..] + [last];
      ConcatSnoc(parts[1..], last);
    }
  }

  lemma {:induction false} NonSpaceAppend(a: string, b: string)
    ensures NonSpace(a + b) == NonSpace(a) + NonSpace(b)
    decreases |a|
  {
    if a == [] {
      assert a + b == b;
    } else {
      assert (a + b)[1..] == a[1..] + b;
      NonSpaceAppend(a[1..], b);
    }
  }

  lemma {:induction false} NonSpaceOfAllSpace(s: string)
    requires AllSpace(s)
    ensures NonSpace(s) == []
    decreases |s|
  {
    if s != [] {
      NonSpaceOfAllSpace(s[1..]);
    }
  }

  lemma {:induction false} NonSpaceOfNoSpace(s: string)
    requires NoSpace(s)
    ensures NonSpace(s) == s
    decreases |s|
  {
    if s != [] {
      NonSpaceOfNoSpace(s[1..]);
    }
  }

  /** Leading whitespace contributes nothing to the non-whitespace text. */
  lemma NonSpaceSkipsLeading(s: string)
    ensures NonSpace(s) == NonSpace(s[LeadingSpace(s)..])
  {
    var i := LeadingSpace(s);
    LeadingSpaceMeaning(s);
    assert s == s[..i] + s[i..];
    NonSpaceAppend(s[..i], s[i..]);
    NonSpaceOfAllSpace(s[..i]);
  }

  /** A text's non-whitespace characters are its first word followed by
      those of the rest. */
  lemma NonSpaceSplitsAtWord(t: string)
    ensures NonSpace(t) == t[..WordEnd(t)] + NonSpace(t[WordEnd(t)..])
  {
    var n := WordEnd(t);
    assert t == t[..n] + t[n..];
    NonSpaceAppend(t[..n], t[n..]);
    NonSpaceOfNoSpace(t[..n]);
  }

  /** Splitting into words loses whitespace only: the words, put back
      together, hold exactly the non-whitespace characters of `s`. */
  lemma {:induction false} WordsKeepText(s: string)
    ensures Concat(Words(s)) == NonSpace(s)
    decreases |s|
  {
    var t := s[LeadingSpace(s)..];
    NonSpaceSkipsLeading(s);
    if t != [] {
      LeadingSpaceMeaning(s);
      var n := WordEnd(t);
      assert Words(s) == [t[..n]] + Words(t[n..]);
      NonSpaceSplitsAtWord(t);
      WordsKeepText(t[n..]);
    }
  }

  /** The decimal digit for `d`. */
  function DigitChar(d: nat): (c: char)
    requires d < 10
    ensures '0' <= c <= '9'
  {
    ('0' as int + d) as char
  }

  /** Decimal notation of a natural number, as produced by Python's
      `str(n)` and JavaScript's template literals: digits only, and no
      leading zero unless the number is zero. */
  function NatToString(n: nat): (r: string)
    ensures |r| >= 1
    ensures forall k :: 0 <= k < |r| ==> '0' <= r[k] <= '9'
    ensures r[0] == '0' ==> n == 0
  {
    if n < 10 then [DigitChar(n)] else NatToString(n / 10) + [DigitChar(n % 10)]
  }

  /** Reads a string of decimal digits. */
  function ParseDigits(s: string): nat
    requires forall k :: 0 <= k < |s| ==> '0' <= s[k] <= '9'
  {
    if s == [] then 0 else 10 * ParseDigits(s[..|s| - 1]) + (s[|s| - 1] as int - '0' as int)
  }

  /** Reading back the decimal notation gives the number. */
  lemma {:induction false} NatToStringRoundTrip(n: nat)
    ensures ParseDigits(NatToString(n)) == n
  {
    if n >= 10 {
      var prefix := NatToString(n / 10);
      var r := NatToString(n);
      assert r[..|r| - 1] == prefix;
      NatToStringRoundTrip(n / 10);
    }
  }
}
