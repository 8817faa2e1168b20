/** Splitting a string into words at its spaces, and gluing words together again. */
module Words {
  const SPACE: char := ' '
  const WORD_LIMIT: nat := 127

  // ---------- the words of a string ----------

  function Spoken(word: string): seq<string> {
    if word == [] then [] else [word]
  }

  /** The maximal runs of other characters than spaces; word is the run that s continues. */
  function Runs(word: string, s: string): seq<string>
    decreases |s|
  {
    if s == [] then Spoken(word)
    else if s[0] == SPACE then Spoken(word) + Runs([], s[1..])
    else Runs(word + [s[0]], s[1..])
  }

  function Truncated(word: string): (r: string)
    ensures |r| <= WORD_LIMIT && r <= word
  {
    if |word| <= WORD_LIMIT then word else word[..WORD_LIMIT]
  }

  function TruncatedAll(words: seq<string>): (r: seq<string>)
    ensures |r| == |words|
  {
    seq(|words|, i requires 0 <= i < |words| => Truncated(words[i]))
  }

  /** The words of a string. */
  function Split(s: string): seq<string> {
    TruncatedAll(Runs([], s))
  }

  ghost predicate AllSpaces(s: string, start: nat, end: nat)
    requires end <= |s|
  {
    forall i :: start <= i < end ==> s[i] == SPACE
  }

  lemma {:induction false} LeadingSpaces(s: string, n: nat)
    requires n <= |s| && AllSpaces(s, 0, n)
    ensures Runs([], s) == Runs([], s[n..])
  {
    if n > 0 {
      LeadingSpaces(s[1..], n - 1);
      assert s[1..][n - 1..] == s[n..];
    } else {
      assert s[0..] == s;
    }
  }

  lemma {:induction false} OnlySpaces(word: string, s: string)
    requires AllSpaces(s, 0, |s|)
    ensures Runs(word, s) == Spoken(word)
    decreases |s|
  {
    if s != [] {
      OnlySpaces([], s[1..]);
    }
  }

  lemma {:induction false} TrailingSpaces(word: string, s: string, n: nat)
    requires n <= |s| && AllSpaces(s, n, |s|)
    ensures Runs(word, s) == Runs(word, s[..n])
    decreases n
  {
    if n == 0 {
      assert s[0..] == s;
      OnlySpaces(word, s);
    } else {
      assert s[..n][1..] == s[1..][..n - 1];
      if s[0] == SPACE { TrailingSpaces([], s[1..], n - 1); } else { TrailingSpaces(word + [s[0]], s[1..], n - 1); }
    }
  }

  lemma TruncatedJoin(a: seq<string>, b: seq<string>)
    ensures TruncatedAll(a + b) == TruncatedAll(a) + TruncatedAll(b)
  {
  }

  /** The index of the first character that is not a space. */
  method StringLeftTrim(s: string) returns (i: nat)
    ensures i <= |s| && AllSpaces(s, 0, i)
    ensures i < |s| ==> s[i] != SPACE
  {
    i := 0;
    while i < |s|
      invariant i <= |s| && AllSpaces(s, 0, i)
    {
      if s[i] != SPACE { break; }
      i := i + 1;
    }
  }

  /** The index behind the last character that is not a space. */
  method StringRightTrim(s: string) returns (i: nat)
    ensures i <= |s| && AllSpaces(s, i, |s|)
    ensures i > 0 ==> s[i - 1] != SPACE
  {
    i := |s|;
    while i > 0
      invariant i <= |s| && AllSpaces(s, i, |s|)
    {
      if s[i - 1] != SPACE { break; }
      i := i - 1;
    }
  }

  /** The words of a string in which run has been begun. */
  function Following(run: string, s: string): seq<string> {
    TruncatedAll(Runs(run, s))
  }

  lemma FollowingStep(strList: seq<string>, run: string, s: string)
    requires s != []
    ensures s[0] == SPACE ==> strList + Following(run, s) == (strList + Spoken(Truncated(run))) + Following([], s[1..])
    ensures s[0] != SPACE ==> Following(run, s) == Following(run + [s[0]], s[1..])
  {
    TruncatedJoin(Spoken(run), Runs([], s[1..]));
    FollowingEnd(run);
  }

  lemma FollowingEnd(run: string)
    ensures Following(run, []) == TruncatedAll(Spoken(run)) == Spoken(Truncated(run))
  {
  }

  method FSplitString(s: string) returns (strList: seq<string>)
    ensures strList == Split(s)
  {
    strList := [];
    if |s| > 0 {
      var word := "";
      var left := StringLeftTrim(s);
      var right := StringRightTrim(s);
      ghost var run, rest := "", if left <= right then s[left..right] else [];
      Trimmed(s, left, right);
      while left < right
        invariant |rest| == if left <= right then right - left else 0
        invariant forall i :: 0 <= i < |rest| ==> rest[i] == s[left + i]
        invariant word == Truncated(run)
        invariant strList + Following(run, rest) == Split(s)
        decreases right - left
      {
        var ch := s[left];
        FollowingStep(strList, run, rest);
        if ch == SPACE {
          if |word| > 0 {
            strList := strList + [word];
            word := "";
          }
          run := "";
        } else {
          if |word| < WORD_LIMIT {
            word := word + [ch];
          }
          run := run + [ch];
        }
        rest := rest[1..];
        left := left + 1;
      }
      FollowingEnd(run);
      if |word| > 0 {
        strList := strList + [word];
      }
    }
  }

  lemma Trimmed(s: string, left: nat, right: nat)
    requires left <= |s| && AllSpaces(s, 0, left) && (left < |s| ==> s[left] != SPACE)
    requires right <= |s| && AllSpaces(s, right, |s|) && (right > 0 ==> s[right - 1] != SPACE)
    ensures Runs([], if left <= right then s[left..right] else []) == Runs([], s)
  {
    LeadingSpaces(s, left);
    if left <= right {
      TrailingSpaces([], s[left..], right - left);
      assert s[left..][..right - left] == s[left..right];
    } else {
      assert left == |s|;
    }
  }

  // ---------- gluing ----------

  function Glued(words: seq<string>): string {
    if |words| == 0 then ""
    else if |words| == 1 then words[0]
    else words[0] + [SPACE] + Glued(words[1..])
  }

  lemma {:induction false} GluedMore(words: seq<string>, word: string)
    requires |words| > 0
    ensures Glued(words + [word]) == Glued(words) + [SPACE] + word
  {
    if |words| == 1 {
      assert (words + [word])[1..] == [word];
    } else {
      GluedMore(words[1..], word);
      assert (words + [word])[1..] == words[1..] + [word];
      assert words[0] + [SPACE] + (Glued(words[1..]) + [SPACE] + word) == words[0] + [SPACE] + Glued(words[1..]) + [SPACE] + word;
    }
  }

  /** The words from the index, which counts from 1. */
  method PartialGlueString(strs: seq<string>, index: nat, count: nat) returns (str: string)
    requires 1 <= index && index - 1 + count <= |strs|
    ensures str == Glued(strs[index - 1..index - 1 + count])
  {
    str := "";
    if count > 0 {
      var i, limit := index - 1, index + count - 2;
      while i <= limit
        invariant index - 1 <= i <= limit + 1
        invariant str == Glued(strs[index - 1..i]) + if index - 1 < i <= limit then [SPACE] else []
        decreases limit + 1 - i
      {
        assert strs[index - 1..i + 1] == strs[index - 1..i] + [strs[i]];
        if i > index - 1 { GluedMore(strs[index - 1..i], strs[i]); }
        str := str + strs[i];
        if i < limit {
          str := str + [SPACE];
        }
        i := i + 1;
      }
    }
  }

  method FGlueStrings(strs: seq<string>) returns (str: string)
    ensures str == Glued(strs)
  {
    str := "";
    if |strs| > 0 {
      var limit := |strs| - 1;
      for i := 0 to |strs|
        invariant str == Glued(strs[..i]) + if 0 < i <= limit then [SPACE] else []
      {
        assert strs[..i + 1] == strs[..i] + [strs[i]];
        if i > 0 { GluedMore(strs[..i], strs[i]); }
        str := str + strs[i];
        if i < limit {
          str := str + [SPACE];
        }
      }
      assert strs[..|strs|] == strs;
    }
  }

  // ---------- there and back ----------

  predicate IsWord(w: string) {
    0 < |w| <= 127 && forall i :: 0 <= i < |w| ==> w[i] != ' '
  }

  /** A run of other characters than spaces is taken whole. */
  lemma {:induction false} RunTaken(word: string, w: string, s: string)
    requires forall i :: 0 <= i < |w| ==> w[i] != SPACE
    ensures Runs(word, w + s) == Runs(word + w, s)
    decreases |w|
  {
    if w == [] {
      assert w + s == s && word + w == word;
    } else {
      assert (w + s)[1..] == w[1..] + s;
      RunTaken(word + [w[0]], w[1..], s);
      assert word + [w[0]] + w[1..] == word + w;
    }
  }

  /** Gluing any words and splitting the result gives them back. */
  lemma {:induction false} SplitOfGlued(words: seq<string>)
    requires forall i :: 0 <= i < |words| ==> IsWord(words[i])
    ensures Split(Glued(words)) == words
  {
    RunsOfGlued(words);
  }

  lemma {:induction false} RunsOfGlued(words: seq<string>)
    requires forall i :: 0 <= i < |words| ==> IsWord(words[i])
    ensures Runs([], Glued(words)) == words
  {
    if |words| == 1 {
      assert words[0] + [] == words[0];
      RunTaken([], words[0], []);
      assert [] + words[0] == words[0];
    } else if |words| > 1 {
      var rest := [SPACE] + Glued(words[1..]);
      assert Glued(words) == words[0] + rest;
      RunTaken([], words[0], rest);
      assert [] + words[0] == words[0] && rest[1..] == Glued(words[1..]);
      RunsOfGlued(words[1..]);
    }
  }

  ghost predicate NoSpaces(w: string) {
    forall i :: 0 <= i < |w| ==> w[i] != SPACE
  }

  /** No space at either end and no two together. */
  ghost predicate Neat(s: string) {
    && (s != [] ==> s[0] != ' ' && s[|s| - 1] != ' ')
    && forall i :: 0 <= i < |s| - 1 ==> s[i] != ' ' || s[i + 1] != ' '
  }

  lemma {:induction false} RunsAreWords(word: string, s: string)
    requires NoSpaces(word)
    ensures forall i :: 0 <= i < |Runs(word, s)| ==> Runs(word, s)[i] != [] && NoSpaces(Runs(word, s)[i])
    decreases |s|
  {
    if s != [] {
      if s[0] == SPACE { RunsAreWords([], s[1..]); } else { RunsAreWords(word + [s[0]], s[1..]); }
    }
  }

  lemma {:induction false} GluedIsNeat(words: seq<string>)
    requires forall i :: 0 <= i < |words| ==> words[i] != [] && NoSpaces(words[i])
    ensures Neat(Glued(words)) && (words != [] ==> Glued(words) != [])
  {
    if |words| > 1 {
      GluedIsNeat(words[1..]);
    }
  }

  lemma {:induction false} NeatRuns(word: string, s: string)
    requires NoSpaces(word) && Neat(word + s)
    ensures Glued(Runs(word, s)) == word + s
    decreases |s|
  {
    if s == [] {
      assert word + s == word;
    } else if s[0] == SPACE {
      assert word + s == word + [SPACE] + s[1..];
      assert word != [] && s[1..] != [] by { assert (word + s)[0] != SPACE; }
      NeatTail(word, s);
      NeatRuns([], s[1..]);
      assert [] + s[1..] == s[1..];
      assert Runs([], s[1..]) != [];
    } else {
      assert word + s == word + [s[0]] + s[1..];
      NeatRuns(word + [s[0]], s[1..]);
    }
  }

  lemma NeatTail(word: string, s: string)
    requires word != [] && s != [] && s[0] == SPACE && Neat(word + s)
    ensures s[1..] != [] && Neat([] + s[1..])
  {
    var t := word + s;
    assert t[|t| - 1] == s[|s| - 1];
    forall i | 0 <= i < |s| - 1 ensures s[i] != SPACE || s[i + 1] != SPACE {
      assert t[|word| + i] == s[i] && t[|word| + i + 1] == s[i + 1];
    }
  }

  /** Splitting a string and gluing the words gives it back exactly when its words stand apart by one
      space each, with none at the ends, and no word was cut. */
  lemma GluedOfSplit(s: string)
    ensures Glued(Split(s)) == s <==> Neat(s) && forall w :: w in Runs([], s) ==> |w| <= 127
  {
    var runs := Runs([], s);
    RunsAreWords([], s);
    if Glued(Split(s)) == s {
      forall i | 0 <= i < |runs| ensures IsWord(Split(s)[i]) {
        assert Split(s)[i] == Truncated(runs[i]);
      }
      GluedIsNeat(Split(s));
      RunsOfGlued(Split(s));
    }
    if Neat(s) && forall w :: w in runs ==> |w| <= WORD_LIMIT {
      assert TruncatedAll(runs) == runs;
      assert [] + s == s;
      NeatRuns([], s);
    }
  }
}
