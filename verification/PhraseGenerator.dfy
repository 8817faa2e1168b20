/** The phrase generator: a table of phrases, and a cursor that walks through it. */
module PhraseGenerator {
  import opened Words
  import opened Phrases

  datatype Answer = Nil | Glue(phrase: string)

  class DSPhrase {
    /** element[length][start], the 16 rows of 16 one behind the other */
    const element: array<nat>
    /** The cursor: the length and the start to look at next. */
    var numOfWords: nat
    var x104: nat
    /** The phrase offered last. */
    var x108: nat
    var x10C: nat
    var words: seq<string>
    ghost var hits: seq<Phrase>

    function GetPhraseElem(in1: nat, in2: nat): nat
      requires element.Length == 256 && 16 * in1 + in2 < 256
      reads element
    {
      element[16 * in1 + in2]
    }

    ghost predicate Fits()
      reads `words
    {
      element.Length == 256 && |words| <= MAX_WORDS
    }

    /** The phrases from the cursor on. */
    ghost function Rest(): seq<Phrase>
      reads `words, `numOfWords, `x104
    {
      From(|words|, numOfWords, x104)
    }

    ghost predicate CursorValid()
      reads `words, `numOfWords, `x104
    {
      && numOfWords <= |words|
      && (numOfWords > 0 ==> 1 <= x104 && x104 + numOfWords <= |words| + 2)
    }

    /** The cell of a phrase tells whether a hit has blocked it. */
    ghost predicate Tells(p: Phrase)
      requires Fits() && InTriangle(|words|, p)
      reads `words, `hits, element
    {
      && (GetPhraseElem(p.length, p.start) == 4 <==> !Blocked(p, hits))
      && GetPhraseElem(p.length, p.start) in {1, 3, 4}
    }

    ghost predicate Valid()
      reads `words, `numOfWords, `x104, `hits, element
    {
      && Fits()
      && CursorValid()
      && (forall i :: 0 <= i < |hits| ==> InTriangle(|words|, hits[i]))
      // the phrases from the cursor on, and the single words
      && forall p :: InTriangle(|words|, p) && (Remains(numOfWords, x104, p) || p.length == 1) ==> Tells(p)
    }

    /** A row of PeekValidPhrase's scan.  It may run on past the end of the row. */
    method ScanRow(i: nat, start: nat) returns (found: bool, r6: nat)
      requires Valid() && 1 <= i <= |words| && 1 <= start && start + i <= |words| + 2
      requires i < numOfWords || (i == numOfWords && start >= x104)
      ensures found ==> r6 >= start && AllBlocked(|words|, hits, i, start, i, r6)
      ensures found && r6 + i <= |words| + 1 ==> !Blocked(Phrase(i, r6), hits)
      ensures !found ==> AllBlocked(|words|, hits, i, start, i - 1, 1)
    {
      var count := |words|;
      r6 := start;
      var j: nat := 1;
      while j + i <= count + 1
        invariant j >= 1 && r6 == start + j - 1 && j + i <= count + 2
        invariant AllBlocked(count, hits, i, start, i, r6)
        decreases count + 2 - j
      {
        assert r6 + i <= count + 1 ==> InTriangle(count, Phrase(i, r6)) && Tells(Phrase(i, r6));
        if GetPhraseElem(i, r6) == 4 {
          return true, r6;
        }
        j, r6 := j + 1, r6 + 1;
      }
      found := false;
    }

    method PeekValidPhrase() returns (r: nat)
      requires Valid() && numOfWords > 0
      modifies `numOfWords, `x104, `x108, `x10C
      ensures r == 4 || r == 0
      ensures AllBlocked(|words|, hits, old(numOfWords), old(x104), numOfWords, x104)
      ensures r == 0 ==> numOfWords == 0
      ensures r == 4 ==> 1 <= numOfWords <= old(numOfWords) && x104 >= 1 && x108 == numOfWords && x10C == x104
      ensures r == 4 && numOfWords == old(numOfWords) ==> x104 >= old(x104)
      ensures r == 4 && x104 + numOfWords <= |words| + 1 ==> !Blocked(Phrase(numOfWords, x104), hits)
    {
      var i: nat, from: nat := numOfWords, x104;
      while i > 0
        invariant i <= numOfWords == old(numOfWords) && x104 == old(x104)
        invariant from == if i == numOfWords then x104 else 1
        invariant AllBlocked(|words|, hits, numOfWords, x104, i, from)
      {
        var found, r6 := ScanRow(i, from);
        if found {
          numOfWords, x104, x108, x10C := i, r6, i, r6;
          return 4;
        }
        from := 1;
        i := i - 1;
      }
      numOfWords, x104, x108, x10C := 0, 0, 0, 0;
      return 0;
    }

    /** The loop of NextPhrase: move the cursor to a phrase that is not blocked. */
    method FindPhrase() returns (found: bool)
      requires Valid()
      modifies `numOfWords, `x104, `x108, `x10C
      ensures Valid()
      ensures AllBlocked(|words|, hits, old(numOfWords), old(x104), numOfWords, x104)
      ensures found ==> Remains(old(numOfWords), old(x104), Phrase(numOfWords, x104)) && AtFree(Phrase(numOfWords, x104))
      ensures !found ==> numOfWords == 0
    {
      while numOfWords > 0
        invariant Valid() && (numOfWords < old(numOfWords) || (numOfWords == old(numOfWords) && x104 == old(x104)))
        invariant AllBlocked(|words|, hits, old(numOfWords), old(x104), numOfWords, x104)
        decreases numOfWords
      {
        var peek := PeekValidPhrase();
        if peek != 4 { break; }
        if x104 + numOfWords <= |words| + 1 {
          return true;
        }
        x104 := 1;
        numOfWords := numOfWords - 1;
      }
      return false;
    }

    ghost predicate AtFree(p: Phrase)
      reads `words, `hits, `x108, `x10C
    {
      InTriangle(|words|, p) && !Blocked(p, hits) && p == Phrase(x108, x10C)
    }

    method GluePhrase() returns (aPhrase: string)
      requires InTriangle(|words|, Phrase(numOfWords, x104))
      ensures aPhrase == Glued(WordsOf(Phrase(numOfWords, x104)))
    {
      aPhrase := PartialGlueString(words, x104, numOfWords);
    }

    method NextPhrase() returns (answer: Answer)
      requires Valid()
      modifies `numOfWords, `x104, `x108, `x10C
      ensures Valid()
      ensures IsAnswer(answer, Skip(old(Rest()), hits))
    {
      ghost var length, start := numOfWords, x104;
      var found := FindPhrase();
      if found {
        var aPhrase := GluePhrase();
        ghost var p := Phrase(numOfWords, x104);
        FirstFree(|words|, hits, length, start, p);
        x104 := x104 + 1;
        answer := Glue(aPhrase);
        assert OfferedNow(p);
      } else {
        if length > 0 { SkipTo(|words|, hits, length, start, 0, x104); }
        answer := Nil;
      }
    }

    /** The answer when free are the phrases that may be offered: the first of them, and the cursor
        has moved behind it. */
    ghost predicate IsAnswer(answer: Answer, free: seq<Phrase>)
      reads `words, `numOfWords, `x104, `x108, `x10C
    {
      if free == [] then answer == Nil && numOfWords == 0
      else OfferedNow(free[0]) && Rest() == free[1..] && answer == Glue(Glued(WordsOf(free[0])))
    }

    ghost function WordsOf(p: Phrase): seq<string>
      requires InTriangle(|words|, p)
      reads `words
    {
      words[p.start - 1..p.start - 1 + p.length]
    }

    /** p is the phrase that was offered last, and the cursor stands behind it. */
    ghost predicate OfferedNow(p: Phrase)
      reads `words, `numOfWords, `x104, `x108, `x10C
    {
      InTriangle(|words|, p) && p == Phrase(x108, x10C) && numOfWords == x108 && x104 == x10C + 1
    }

    /** The words of which phrases are entered. */
    static function Entered(n: nat): nat {
      if n <= MAX_WORDS then n else MAX_WORDS
    }

    /** They are all of the phrases exactly when there are no more than 15 words. */
    static lemma AllEntered(n: nat)
      ensures (forall p :: InTriangle(n, p) ==> InTriangle(Entered(n), p)) <==> n <= 15
    {
      if n > MAX_WORDS {
        assert InTriangle(n, Phrase(n, 1));
      }
    }

    constructor ()
      ensures element.Length == 256
    {
      element := new nat[256];
      numOfWords, x104, x108, x10C, words, hits := 0, 0, 0, 0, [], [];
    }

    /** Start on a string.  Only the cells of the table that stand for phrases of the first 15 words are
        set; so with more words there are phrases whose cells keep what they held. */
    method IPhraseGenerator(str: string)
      requires element.Length == 256
      modifies this, element
      ensures words == Split(str) && hits == []
      ensures numOfWords == Entered(|words|) && x104 == 1
      ensures forall p :: InTriangle(numOfWords, p) ==> GetPhraseElem(p.length, p.start) == 4
      ensures forall p :: InTriangle(|words|, p) && !InTriangle(numOfWords, p) && 16 * p.length + p.start < 256 && p.start < 16
                ==> GetPhraseElem(p.length, p.start) == old(GetPhraseElem(p.length, p.start))
      ensures |words| <= 15 ==> Valid() && Rest() == From(|words|, |words|, 1)
    {
      words := FSplitString(str);
      hits := [];
      ghost var was := element[..];
      var count := |words|;
      if count > MAX_WORDS { count := MAX_WORDS; }
      for i := 1 to count + 1
        invariant words == Split(str) && hits == []
        invariant SetUpTo(count, was, i, 1)
      {
        var j := 1;
        while j <= count - (i - 1)
          invariant 1 <= j <= count - i + 2 && words == Split(str) && hits == []
          invariant SetUpTo(count, was, i, j)
        {
          element[16 * i + j] := 4;
          j := j + 1;
        }
      }
      numOfWords, x104, x108, x10C := count, 1, 0, 0;
    }

    /** The cells of phrases of count words in front of one are set, and the others as they were. */
    ghost predicate SetUpTo(count: nat, was: seq<nat>, i: nat, j: nat)
      requires element.Length == 256 && |was| == 256 && count <= MAX_WORDS
      reads element
    {
      forall length: nat, start: nat :: length < 16 && start < 16 ==>
        GetPhraseElem(length, start)
          == if InTriangle(count, Phrase(length, start)) && (length < i || (length == i && start < j)) then 4 else was[16 * length + start]
    }

    /** The cells that PhraseHit has looked at when it comes to column r of row i. */
    ghost predicate Swept(hit: Phrase, i: int, r: int, p: Phrase) {
      && p.length <= hit.length
      && (p.length == hit.length ==> p.start >= hit.start - 1)
      && (p.length > i || (p.length == i && p.start < r))
    }

    /** What PhraseHit does to a cell: a 4 in the way of the hit becomes a 3. */
    ghost predicate Marks(hit: Phrase, i: int, r: int, was: seq<nat>, p: Phrase)
      requires Fits() && |was| == 256 && InTriangle(|words|, p)
      reads `words, element
    {
      var k := 16 * p.length + p.start;
      element[k] == if Swept(hit, i, r, p) && was[k] == 4 && Meets(hit, p) then 3 else was[k]
    }

    /** A row of PhraseHit's sweep. */
    method HitRow(in1: nat, in2: nat, i: nat, start: nat, ghost was: seq<nat>) returns (r7: nat)
      requires Fits() && |was| == 256 && InTriangle(|words|, Phrase(in1, in2)) && 1 <= i <= in1
      requires start == if i == in1 && in2 > 1 then in2 - 1 else 1
      requires forall p :: InTriangle(|words|, p) ==> Marks(Phrase(in1, in2), i, start, was, p)
      modifies element
      ensures forall p :: InTriangle(|words|, p) ==> Marks(Phrase(in1, in2), i - 1, 1, was, p)
    {
      ghost var hit := Phrase(in1, in2);
      r7 := start;
      var j := 1;
      while j <= |words| - (i - 1)
        invariant 1 <= j <= |words| - i + 2 && r7 == start + j - 1
        invariant forall p :: InTriangle(|words|, p) ==> Marks(hit, i, r7, was, p)
      {
        if GetPhraseElem(i, r7) == 4 && IntervalIntersectionP(in1, in2, i, r7) {
          element[16 * i + r7] := 3;
        }
        j, r7 := j + 1, r7 + 1;
      }
    }

    method PhraseHit(in1: nat, in2: nat)
      requires Fits() && InTriangle(|words|, Phrase(in1, in2))
      modifies element
      ensures forall p :: InTriangle(|words|, p) && p != Phrase(in1, in2) ==> Marks(Phrase(in1, in2), 0, 0, old(element[..]), p)
      ensures GetPhraseElem(in1, in2) == 1
    {
      ghost var hit, was := Phrase(in1, in2), element[..];
      var r7 := in2 - 1;
      if r7 == 0 { r7 := 1; }
      var i: nat := in1;
      while i > 0
        invariant i <= in1 && r7 == if i == in1 && in2 > 1 then in2 - 1 else 1
        invariant forall p :: InTriangle(|words|, p) ==> Marks(hit, i, r7, was, p)
      {
        r7 := HitRow(in1, in2, i, r7, was);
        i, r7 := i - 1, 1;
      }
      element[16 * in1 + in2] := 1;
    }

    /** The phrase offered last was recognised. */
    method PhraseHitExt(ghost p: Phrase)
      requires Valid() && OfferedNow(p)
      modifies element, `hits
      ensures Valid() && hits == old(hits) + [p]
    {
      PhraseHit(x108, x10C);
      hits := hits + [p];
      forall q | InTriangle(|words|, q) && (Remains(numOfWords, x104, q) || q.length == 1) ensures Tells(q) {
        BlockedMore(old(hits), p, q);
        assert old(Tells(q));
        if q != p {
          assert Marks(p, 0, 0, old(element[..]), q);
        }
      }
    }

    /** The words that no hit covers. */
    method UnmatchedWords() returns (unmatched: seq<string>)
      requires Valid()
      ensures unmatched == Unmatched(|words|)
    {
      unmatched := [];
      var i, count := 1, |words|;
      while i <= count
        invariant 1 <= i <= count + 1 && unmatched == Unmatched(i - 1)
      {
        var elem := GetPhraseElem(1, i);
        assert Tells(Phrase(1, i));
        CoveredIsBlocked(hits, i);
        if elem != 1 && elem != 3 {
          var word := PartialGlueString(words, i, 1);
          unmatched := unmatched + [word];
        }
        i := i + 1;
      }
    }

    /** The first n words without those that a hit covers. */
    ghost function Unmatched(n: nat): seq<string>
      requires n <= |words|
      reads `words, `hits
    {
      if n == 0 then [] else Unmatched(n - 1) + if Covered(hits, n) then [] else [words[n - 1]]
    }

    /** A turn of FIAatWork's loop: if the phrase is recognised it is a hit; go on to the next. */
    method TakeAndNext(recognised: Phrase -> bool, ghost free: seq<Phrase>) returns (ghost next: seq<Phrase>, aPhrase: Answer)
      requires Valid() && free != [] && OfferedNow(free[0]) && Rest() == free[1..]
      modifies element, `hits, `numOfWords, `x104, `x108, `x10C
      ensures Valid() && hits == if recognised(free[0]) then old(hits) + [free[0]] else old(hits)
      ensures next == Skip(free[1..], hits) && IsAnswer(aPhrase, next)
    {
      if recognised(Phrase(x108, x10C)) {
        PhraseHitExt(free[0]);
      }
      next := Skip(Rest(), hits);
      aPhrase := NextPhrase();
    }

    /** The loop of FIAatWork. */
    method OfferAll(recognised: Phrase -> bool) returns (phrases: seq<string>, ghost offered: seq<Phrase>)
      requires Valid() && hits == []
      modifies element, `hits, `numOfWords, `x104, `x108, `x10C
      ensures Valid()
      ensures offered == Offers(old(Rest()), recognised, []) && hits == Hits(old(Rest()), recognised, [])
      ensures AreSpoken(words, phrases, offered)
    {
      phrases, offered := [], [];
      ghost var all := Rest();
      Starts(recognised, all);
      ghost var free := Skip(all, []);
      var aPhrase := NextPhrase();
      while aPhrase != Nil
        invariant Valid()
        invariant IsAnswer(aPhrase, free)
        invariant Continues(offered, free, hits, recognised, all)
        invariant AreSpoken(words, phrases, offered)
        decreases |free|
      {
        GoesOn(offered, free, hits, recognised, all);
        assert IsSpoken(words, aPhrase.phrase, free[0]);
        phrases, offered := phrases + [aPhrase.phrase], offered + [free[0]];
        free, aPhrase := TakeAndNext(recognised, free);
      }
    }

    /** A whole run over a string: offer phrases until there are no more, and take those that are
        recognised for hits. */
    method FIAatWork(str: string, recognised: Phrase -> bool)
      returns (phrases: seq<string>, unmatched: seq<string>, ghost offered: seq<Phrase>)
      requires element.Length == 256 && |Split(str)| <= 15
      modifies this, element
      ensures Valid() && words == Split(str)
      ensures offered == Offers(From(|words|, |words|, 1), recognised, [])
      ensures hits == Hits(From(|words|, |words|, 1), recognised, [])
      ensures AreSpoken(words, phrases, offered)
      ensures unmatched == Unmatched(|words|)
    {
      IPhraseGenerator(str);
      phrases, offered := OfferAll(recognised);
      unmatched := UnmatchedWords();
    }
  }
}
