/** The string operations the segmenter is built from: JavaScript's
    `trim()`, `split(/\s+/)` and `Array.prototype.join`, with whitespace
    taken as a character class. */
module Text {

  /** The ECMAScript WhiteSpace and LineTerminator code points: the
      characters `String.prototype.trim` removes and the regex class `\s`
      matches. */
  predicate IsWhitespace(c: char)
  {
    || c == '\t' || c == '\n' || c == '\U{000B}' || c == '\U{000C}' || c == '\r' || c == ' '
    || c == '\U{00A0}' || c == '\U{1680}' || ('\U{2000}' <= c <= '\U{200A}')
    || c == '\U{2028}' || c == '\U{2029}' || c == '\U{202F}' || c == '\U{205F}'
    || c == '\U{3000}' || c == '\U{FEFF}'
  }

  predicate NoWhitespace(s: string)
  {
    forall i :: 0 <= i < |s| ==> !IsWhitespace(s[i])
  }

  predicate AllWhitespace(s: string)
  {
    forall i :: 0 <= i < |s| ==> IsWhitespace(s[i])
  }

  /** A word: a non-empty run of non-whitespace characters. */
  predicate IsWord(w: string)
  {
    |w| > 0 && NoWhitespace(w)
  }

  predicate AllWords(ws: seq<string>)
  {
    forall i :: 0 <= i < |ws| ==> IsWord(ws[i])
  }

  predicate NoCarriageReturn(s: string)
  {
    forall i :: 0 <= i < |s| ==> s[i] != '\r'
  }

  /** True when s neither starts nor ends with whitespace. */
  predicate IsTrimmed(s: string)
  {
    s == [] || (!IsWhitespace(s[0]) && !IsWhitespace(s[|s| - 1]))
  }

  // ---------------------------------------------------------------------
  // trim()

  /** Length of the leading run of whitespace characters. */
  function SpacePrefixLen(s: string): (n: nat)
    ensures n <= |s|
    decreases |s|
  {
    if |s| == 0 || !IsWhitespace(s[0]) then 0 else 1 + SpacePrefixLen(s[1..])
  }

  /** The leading whitespace run is all whitespace. */
  lemma {:induction false} SpacePrefixIsWhitespace(s: string)
    ensures AllWhitespace(s[..SpacePrefixLen(s)])
    decreases |s|
  {
    if |s| > 0 && IsWhitespace(s[0]) {
      SpacePrefixIsWhitespace(s[1..]);
      var n := SpacePrefixLen(s);
      assert s[..n] == [s[0]] + s[1..][..n - 1];
    }
  }

  /** The leading whitespace run stops at the end or at a non-whitespace
      character. */
  lemma {:induction false} SpacePrefixLenEnd(s: string)
    ensures var n := SpacePrefixLen(s); n == |s| || !IsWhitespace(s[n])
    decreases |s|
  {
    if |s| > 0 && IsWhitespace(s[0]) {
      SpacePrefixLenEnd(s[1..]);
      var n := SpacePrefixLen(s);
      assert n == |s| || s[n] == s[1..][n - 1];
    }
  }

  /** Length of the trailing run of whitespace characters. */
  function SpaceSuffixLen(s: string): (n: nat)
    ensures n <= |s|
    decreases |s|
  {
    if |s| == 0 || !IsWhitespace(s[|s| - 1]) then 0 else 1 + SpaceSuffixLen(s[..|s| - 1])
  }

  /** The trailing whitespace run is all whitespace. */
  lemma {:induction false} SpaceSuffixIsWhitespace(s: string)
    ensures AllWhitespace(s[|s| - SpaceSuffixLen(s)..])
    decreases |s|
  {
    if |s| > 0 && IsWhitespace(s[|s| - 1]) {
      var u := s[..|s| - 1];
      SpaceSuffixIsWhitespace(u);
      var n := SpaceSuffixLen(s);
      assert s[|s| - n..] == u[|u| - (n - 1)..] + [s[|s| - 1]];
    }
  }

  /** The trailing whitespace run stops at the start or at a
      non-whitespace character. */
  lemma {:induction false} SpaceSuffixLenEnd(s: string)
    ensures var n := SpaceSuffixLen(s); n == |s| || !IsWhitespace(s[|s| - n - 1])
    decreases |s|
  {
    if |s| > 0 && IsWhitespace(s[|s| - 1]) {
      var u := s[..|s| - 1];
      SpaceSuffixLenEnd(u);
      var n := SpaceSuffixLen(s);
      assert n == |s| || s[|s| - n - 1] == u[|u| - (n - 1) - 1];
    }
  }

  /** `s` without its leading whitespace. */
  function TrimStart(s: string): string
  {
    s[SpacePrefixLen(s)..]
  }

  /** `s` without its trailing whitespace. */
  function TrimEnd(s: string): string
  {
    s[..|s| - SpaceSuffixLen(s)]
  }

  /** A string made of two all-whitespace parts is all whitespace. */
  lemma AllWhitespaceAppend(a: string, b: string)
    requires AllWhitespace(a) && AllWhitespace(b)
    ensures AllWhitespace(a + b)
  {
    assert forall i :: 0 <= i < |a + b| ==> (a + b)[i] == if i < |a| then a[i] else b[i - |a|];
  }

  /** `String.prototype.trim`: the part of `s` between its leading and
      its trailing whitespace runs, so it starts and ends with a
      non-whitespace character when it is not empty. */
  function Trim(s: string): (r: string)
    ensures IsTrimmed(r)
  {
    var i := SpacePrefixLen(s);
    var t := TrimStart(s);
    SpacePrefixLenEnd(s);
    SpaceSuffixLenEnd(t);
    var r := TrimEnd(t);
    assert r != [] ==> r[0] == s[i] && r[|r| - 1] == t[|t| - SpaceSuffixLen(t) - 1];
    r
  }

  /** Trimming leaves nothing exactly when `s` is all whitespace. */
  lemma TrimEmptyIff(s: string)
    ensures Trim(s) == [] <==> AllWhitespace(s)
  {
    var i := SpacePrefixLen(s);
    var t := TrimStart(s);
    if Trim(s) == [] {
      assert s == s[..i] + t[|t| - SpaceSuffixLen(t)..];
      SpacePrefixIsWhitespace(s);
      SpaceSuffixIsWhitespace(t);
      AllWhitespaceAppend(s[..i], t[|t| - SpaceSuffixLen(t)..]);
    }
    if AllWhitespace(s) {
      SpacePrefixLenEnd(s);
    }
  }

  /** The trimmed text is the part of `s` that follows its leading
      whitespace run. */
  lemma TrimIsSlice(s: string)
    ensures var i := SpacePrefixLen(s); var r := Trim(s);
      i + |r| <= |s| && r == s[i..i + |r|]
  {
  }

  /** What trimming removes, on either side, is whitespace. */
  lemma TrimRemovesWhitespace(s: string)
    ensures var i := SpacePrefixLen(s); var r := Trim(s);
      && i + |r| <= |s|
      && AllWhitespace(s[..i])
      && AllWhitespace(s[i + |r|..])
  {
    var i := SpacePrefixLen(s);
    var t := s[i..];
    SpacePrefixIsWhitespace(s);
    SpaceSuffixIsWhitespace(t);
    assert t[|t| - SpaceSuffixLen(t)..] == s[i + |Trim(s)|..];
  }

  lemma TrimOfTrimmed(s: string)
    requires IsTrimmed(s)
    ensures Trim(s) == s
  {
    assert SpacePrefixLen(s) == 0;
    assert s[0..] == s;
    assert SpaceSuffixLen(s) == 0;
  }

  // ---------------------------------------------------------------------
  // Maximal runs

  /** Length of the leading run of non-whitespace characters. */
  function WordPrefixLen(s: string): (n: nat)
    ensures n <= |s|
    decreases |s|
  {
    if |s| == 0 || IsWhitespace(s[0]) then 0 else 1 + WordPrefixLen(s[1..])
  }

  /** The leading run has no whitespace. */
  lemma {:induction false} WordPrefixNoWhitespace(s: string)
    ensures NoWhitespace(s[..WordPrefixLen(s)])
    decreases |s|
  {
    if |s| > 0 && !IsWhitespace(s[0]) {
      WordPrefixNoWhitespace(s[1..]);
      var n := WordPrefixLen(s);
      assert s[..n] == [s[0]] + s[1..][..n - 1];
    }
  }

  /** The leading run stops at the end or at a whitespace character. */
  lemma {:induction false} WordPrefixLenEnd(s: string)
    ensures var n := WordPrefixLen(s); n == |s| || IsWhitespace(s[n])
    decreases |s|
  {
    if |s| > 0 && !IsWhitespace(s[0]) {
      WordPrefixLenEnd(s[1..]);
      var n := WordPrefixLen(s);
      assert n == |s| || s[n] == s[1..][n - 1];
    }
  }

  /** The reference tokenisation: the maximal runs of non-whitespace
      characters of `s`, left to right. */
  function Words(s: string): seq<string>
    decreases |s|
  {
    if |s| == 0 then []
    else if IsWhitespace(s[0]) then Words(s[1..])
    else
      var n := WordPrefixLen(s);
      [s[..n]] + Words(s[n..])
  }

  /** Every piece of `Words(s)` is a word. */
  lemma {:induction false} WordsAreWords(s: string)
    ensures AllWords(Words(s))
    decreases |s|
  {
    if |s| > 0 {
      if IsWhitespace(s[0]) {
        WordsAreWords(s[1..]);
      } else {
        var n := WordPrefixLen(s);
        WordPrefixNoWhitespace(s);
        WordsAreWords(s[n..]);
      }
    }
  }

  /** `s.split(/\s+/)` as JavaScript evaluates it: the pieces between
      successive maximal whitespace runs, including an empty first or last
      piece when `s` starts or ends with whitespace, and `[""]` for `""`. */
  function SplitOnWhitespace(s: string): (parts: seq<string>)
    ensures |parts| >= 1
    decreases |s|
  {
    var i := WordPrefixLen(s);
    if i == |s| then [s]
    else
      WordPrefixLenEnd(s);
      assert s[i..][0] == s[i];
      var j := i + SpacePrefixLen(s[i..]);
      [s[..i]] + SplitOnWhitespace(s[j..])
  }

  // ---------------------------------------------------------------------
  // Facts about Words

  lemma {:induction false} WordsOfSpace(s: string)
    requires AllWhitespace(s)
    ensures Words(s) == []
    decreases |s|
  {
    if |s| > 0 {
      WordsOfSpace(s[1..]);
    }
  }

  /** Leading whitespace does not change the words. */
  lemma {:induction false} WordsSkipSpace(s: string, k: nat)
    requires k <= |s| && AllWhitespace(s[..k])
    ensures Words(s) == Words(s[k..])
    decreases k
  {
    if k > 0 {
      assert s[..k][0] == s[0];
      assert Words(s) == Words(s[1..]);
      var t := s[1..];
      assert t[..k - 1] == s[1..k];
      assert AllWhitespace(t[..k - 1]) by {
        forall j | 0 <= j < k - 1 ensures IsWhitespace(t[j]) {
          assert t[j] == s[..k][j + 1];
        }
      }
      WordsSkipSpace(t, k - 1);
      assert t[k - 1..] == s[k..];
    }
  }

  lemma {:induction false} WordPrefixLenAppend(u: string, w: string)
    requires w == [] || IsWhitespace(w[0])
    ensures WordPrefixLen(u + w) == WordPrefixLen(u)
    decreases |u|
  {
    if |u| == 0 {
      assert u + w == w;
    } else if !IsWhitespace(u[0]) {
      assert (u + w)[1..] == u[1..] + w;
      WordPrefixLenAppend(u[1..], w);
    }
  }

  /** Trailing whitespace does not change the words. */
  lemma {:induction false} WordsAppendSpace(u: string, w: string)
    requires AllWhitespace(w)
    ensures Words(u + w) == Words(u)
    decreases |u|
  {
    if |u| == 0 {
      assert u + w == w;
      WordsOfSpace(w);
    } else if IsWhitespace(u[0]) {
      assert (u + w)[1..] == u[1..] + w;
      WordsAppendSpace(u[1..], w);
    } else {
      WordPrefixLenAppend(u, w);
      var n := WordPrefixLen(u);
      assert (u + w)[..n] == u[..n];
      assert (u + w)[n..] == u[n..] + w;
      WordsAppendSpace(u[n..], w);
    }
  }

  /** Dropping leading whitespace does not change the words. */
  lemma WordsOfTrimStart(s: string)
    ensures Words(TrimStart(s)) == Words(s)
  {
    SpacePrefixIsWhitespace(s);
    WordsSkipSpace(s, SpacePrefixLen(s));
  }

  /** Dropping trailing whitespace does not change the words. */
  lemma WordsOfTrimEnd(t: string)
    ensures Words(TrimEnd(t)) == Words(t)
  {
    var k := |t| - SpaceSuffixLen(t);
    SpaceSuffixIsWhitespace(t);
    assert t == t[..k] + t[k..];
    WordsAppendSpace(t[..k], t[k..]);
  }

  /** Trimming a script does not change its words. */
  lemma WordsOfTrim(s: string)
    ensures Words(Trim(s)) == Words(s)
  {
    WordsOfTrimStart(s);
    WordsOfTrimEnd(TrimStart(s));
  }

  /** A script has no words exactly when it is all whitespace. */
  lemma {:induction false} WordsEmptyIff(s: string)
    ensures Words(s) == [] <==> AllWhitespace(s)
    decreases |s|
  {
    if AllWhitespace(s) {
      WordsOfSpace(s);
    } else if |s| > 0 && IsWhitespace(s[0]) {
      WordsEmptyIff(s[1..]);
      assert !AllWhitespace(s[1..]) by {
        var i :| 0 <= i < |s| && !IsWhitespace(s[i]);
        assert s[1..][i - 1] == s[i];
      }
    }
  }

  /** A whitespace run cannot swallow a string that ends in a non-space. */
  lemma {:induction false} SpaceRunStopsEarly(u: string)
    requires u != [] && !IsWhitespace(u[|u| - 1])
    ensures SpacePrefixLen(u) < |u|
    decreases |u|
  {
    if IsWhitespace(u[0]) {
      assert |u| > 1;
      assert u[1..][|u| - 2] == u[|u| - 1];
      SpaceRunStopsEarly(u[1..]);
    }
  }

  /** A suffix of a trimmed string that starts at a non-whitespace
      character is trimmed. */
  lemma TrimmedFrom(t: string, j: nat)
    requires IsTrimmed(t) && j < |t| && !IsWhitespace(t[j])
    ensures IsTrimmed(t[j..])
  {
    var v := t[j..];
    assert v[0] == t[j];
    assert v[|v| - 1] == t[|t| - 1];
  }

  /** In a trimmed string with a gap, the text after the first word and the
      gap that follows it is again non-empty and trimmed. */
  lemma TrimmedAfterGap(t: string)
    requires t != [] && IsTrimmed(t) && WordPrefixLen(t) < |t|
    ensures var i := WordPrefixLen(t); var g := SpacePrefixLen(t[i..]);
      0 < i && i + g < |t| && IsTrimmed(t[i + g..])
  {
    var i := WordPrefixLen(t);
    assert 0 < i;
    var u := t[i..];
    assert u[|u| - 1] == t[|t| - 1];
    SpaceRunStopsEarly(u);
    var g := SpacePrefixLen(u);
    SpacePrefixLenEnd(u);
    assert t[i + g] == u[g];
    TrimmedFrom(t, i + g);
  }

  /** On a non-empty trimmed string, JavaScript's `split(/\s+/)` yields
      exactly the maximal non-whitespace runs. */
  lemma {:induction false} SplitTrimmedIsWords(t: string)
    requires t != [] && IsTrimmed(t)
    ensures SplitOnWhitespace(t) == Words(t)
    decreases |t|
  {
    var i := WordPrefixLen(t);
    if i < |t| {
      var u := t[i..];
      var g := SpacePrefixLen(u);
      TrimmedAfterGap(t);
      assert u[g..] == t[i + g..];
      SpacePrefixIsWhitespace(u);
      SplitTrimmedIsWords(u[g..]);
      WordsSkipSpace(u, g);
    } else {
      assert t[..i] == t;
    }
  }

  /** The word count of `s` as the source computes it. */
  lemma SplitOfTrimIsWords(s: string)
    requires !AllWhitespace(s)
    ensures SplitOnWhitespace(Trim(s)) == Words(s)
  {
    TrimEmptyIff(s);
    SplitTrimmedIsWords(Trim(s));
    WordsOfTrim(s);
  }

  // ---------------------------------------------------------------------
  // Non-whitespace content

  /** The non-whitespace characters of `s`, in order. */
  function Strip(s: string): string
    decreases |s|
  {
    if |s| == 0 then [] else (if IsWhitespace(s[0]) then [] else [s[0]]) + Strip(s[1..])
  }

  lemma {:induction false} StripAppend(a: string, b: string)
    ensures Strip(a + b) == Strip(a) + Strip(b)
    decreases |a|
  {
    if |a| == 0 {
      assert a + b == b;
    } else {
      assert (a + b)[1..] == a[1..] + b;
      StripAppend(a[1..], b);
    }
  }

  lemma {:induction false} StripOfWord(s: string)
    requires NoWhitespace(s)
    ensures Strip(s) == s
    decreases |s|
  {
    if |s| > 0 {
      StripOfWord(s[1..]);
    }
  }

  // ---------------------------------------------------------------------
  // Concatenation and join

  function Concat<T>(xss: seq<seq<T>>): seq<T>
  {
    if |xss| == 0 then [] else xss[0] + Concat(xss[1..])
  }

  /** The words, concatenated, are the script's non-whitespace characters:
      tokenisation drops, duplicates and reorders nothing but whitespace. */
  lemma {:induction false} WordsCoverContent(s: string)
    ensures Concat(Words(s)) == Strip(s)
    decreases |s|
  {
    if |s| > 0 {
      if IsWhitespace(s[0]) {
        WordsCoverContent(s[1..]);
      } else {
        var n := WordPrefixLen(s);
        WordPrefixNoWhitespace(s);
        WordsCoverContent(s[n..]);
        assert s == s[..n] + s[n..];
        StripAppend(s[..n], s[n..]);
        StripOfWord(s[..n]);
        assert ([s[..n]] + Words(s[n..]))[1..] == Words(s[n..]);
      }
    }
  }

  /** `Array.prototype.join(sep)`: the elements separated by `sep`, and
      `""` for no elements. */
  function Join(xs: seq<string>, sep: string): string
  {
    if |xs| == 0 then "" else if |xs| == 1 then xs[0] else xs[0] + sep + Join(xs[1..], sep)
  }

  lemma {:induction false} JoinAppend(a: seq<string>, b: seq<string>, sep: string)
    requires |a| > 0 && |b| > 0
    ensures Join(a + b, sep) == Join(a, sep) + sep + Join(b, sep)
    decreases |a|
  {
    if |a| > 1 {
      assert (a + b)[1..] == a[1..] + b;
      JoinAppend(a[1..], b, sep);
    } else {
      assert (a + b)[1..] == b;
    }
  }

  /** Splitting a sentence joined with single spaces gives back its words. */
  lemma {:induction false} WordsOfJoin(ws: seq<string>)
    requires AllWords(ws)
    ensures Words(Join(ws, " ")) == ws
    decreases |ws|
  {
    if |ws| > 0 {
      var w := ws[0];
      WordPrefixLenEnd(w);
      assert w[..|w|] == w;
      assert w[|w|..] == [];
      if |ws| == 1 {
        WordPrefixLenAppend(w, []);
        assert w + [] == w;
      } else {
        var rest := " " + Join(ws[1..], " ");
        assert Join(ws, " ") == w + rest;
        WordPrefixLenAppend(w, rest);
        assert (w + rest)[..|w|] == w;
        assert (w + rest)[|w|..] == rest;
        assert rest[1..] == Join(ws[1..], " ");
        WordsOfJoin(ws[1..]);
      }
    }
  }

  /** Joining words with spaces gives a non-empty trimmed string with no
      carriage return in it. */
  lemma {:induction false} JoinOfWords(ws: seq<string>)
    requires AllWords(ws) && |ws| > 0
    ensures var s := Join(ws, " "); s != [] && IsTrimmed(s)
    ensures NoCarriageReturn(Join(ws, " "))
    decreases |ws|
  {
    if |ws| > 1 {
      JoinOfWords(ws[1..]);
      var s := Join(ws, " ");
      var t := Join(ws[1..], " ");
      assert s == ws[0] + " " + t;
      forall i | 0 <= i < |s|
        ensures s[i] != '\r'
      {
        if i < |ws[0]| {
          assert s[i] == ws[0][i];
        } else if i > |ws[0]| {
          assert s[i] == t[i - |ws[0]| - 1];
        }
      }
    }
  }

  /** Appending keeps a text free of carriage returns. */
  lemma AppendNoCarriageReturn(a: string, b: string)
    requires NoCarriageReturn(a) && NoCarriageReturn(b)
    ensures NoCarriageReturn(a + b)
  {
    forall i | |a| <= i < |a + b|
      ensures (a + b)[i] != '\r'
    {
      assert (a + b)[i] == b[i - |a|];
    }
  }

  /** Pieces free of carriage returns, joined by a separator free of them,
      give a text free of them. */
  lemma {:induction false} JoinNoCarriageReturn(xs: seq<string>, sep: string)
    requires forall k :: 0 <= k < |xs| ==> NoCarriageReturn(xs[k])
    requires NoCarriageReturn(sep)
    ensures NoCarriageReturn(Join(xs, sep))
    decreases |xs|
  {
    if |xs| > 1 {
      JoinNoCarriageReturn(xs[1..], sep);
      AppendNoCarriageReturn(xs[0], sep);
      AppendNoCarriageReturn(xs[0] + sep, Join(xs[1..], sep));
    }
  }

  /** A join begins with the first piece and ends with the last one. */
  lemma {:induction false} JoinEnds(xs: seq<string>, sep: string)
    requires |xs| > 0
    ensures |Join(xs, sep)| >= |xs[0]| && |Join(xs, sep)| >= |xs[|xs| - 1]|
    ensures Join(xs, sep)[..|xs[0]|] == xs[0]
    ensures var s := Join(xs, sep); s[|s| - |xs[|xs| - 1]|..] == xs[|xs| - 1]
    decreases |xs|
  {
    if |xs| > 1 {
      JoinEnds(xs[1..], sep);
      var t := Join(xs[1..], sep);
      var s := Join(xs, sep);
      assert s == xs[0] + sep + t;
      assert s[|s| - |t|..] == t;
      assert s[|s| - |xs[|xs| - 1]|..] == t[|t| - |xs[|xs| - 1]|..];
    }
  }
}
