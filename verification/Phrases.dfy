/** The phrases of an utterance, longest first and then leftmost, without those that overlap a phrase
    that was recognised before. */
module Phrases {
  import opened Words

  /** length words from the start-th, which counts from 1 */
  datatype Phrase = Phrase(length: nat, start: nat)

  const MAX_WORDS: nat := 15

  /** Is p a phrase of n words? */
  predicate InTriangle(n: nat, p: Phrase) {
    1 <= p.length <= n && 1 <= p.start && p.start + p.length <= n + 1
  }

  /** A word of both. */
  ghost predicate Overlap(p: Phrase, q: Phrase) {
    exists w: nat :: Covers(p, w) && Covers(q, w)
  }

  predicate Covers(p: Phrase, w: nat) {
    p.start <= w < p.start + p.length
  }

  predicate IntervalIntersectionP(in1: int, in2: int, in3: int, in4: int) {
    var r0, r2 := in1 + in2, in3 + in4;
    || (in1 == in3 && in2 == in4)
    || (in2 < r2 && in4 < r0)
    || (in4 < r0 && in2 < r2)
  }

  /** The test for intersection means having a word in common. */
  lemma IntersectionIsOverlap(p: Phrase, q: Phrase)
    requires p.length > 0 && q.length > 0
    ensures IntervalIntersectionP(p.length, p.start, q.length, q.start) <==> Overlap(p, q)
  {
    var w := if p.start < q.start then q.start else p.start;
    if IntervalIntersectionP(p.length, p.start, q.length, q.start) {
      assert Covers(p, w) && Covers(q, w);
    }
  }

  predicate Meets(p: Phrase, q: Phrase) {
    IntervalIntersectionP(p.length, p.start, q.length, q.start)
  }

  predicate Blocked(p: Phrase, hits: seq<Phrase>) {
    exists i :: 0 <= i < |hits| && Meets(hits[i], p)
  }

  lemma BlockedMore(hits: seq<Phrase>, hit: Phrase, p: Phrase)
    ensures Blocked(p, hits + [hit]) <==> Blocked(p, hits) || Meets(hit, p)
  {
    if Blocked(p, hits) {
      var i :| 0 <= i < |hits| && Meets(hits[i], p);
      assert (hits + [hit])[i] == hits[i];
    }
    assert (hits + [hit])[|hits|] == hit;
  }

  /** The phrases of n words from a length and a start on, in order. */
  function From(n: nat, length: nat, start: nat): (ps: seq<Phrase>)
    decreases length, n + 2 - start
  {
    if length == 0 then []
    else if start + length > n + 1 then From(n, length - 1, 1)
    else [Phrase(length, start)] + From(n, length, start + 1)
  }

  /** The phrases that remain when a blocked beginning is dropped. */
  function Skip(ps: seq<Phrase>, hits: seq<Phrase>): (r: seq<Phrase>)
    ensures |r| <= |ps|
    ensures r != [] ==> !Blocked(r[0], hits)
  {
    if ps == [] then [] else if Blocked(ps[0], hits) then Skip(ps[1..], hits) else ps
  }

  ghost predicate Covered(hits: seq<Phrase>, w: nat) {
    exists i :: 0 <= i < |hits| && Covers(hits[i], w)
  }

  lemma CoveredIsBlocked(hits: seq<Phrase>, w: nat)
    ensures Covered(hits, w) <==> Blocked(Phrase(1, w), hits)
  {
    forall i | 0 <= i < |hits| ensures Covers(hits[i], w) <==> Meets(hits[i], Phrase(1, w)) {
    }
  }

  /** Does p come at the given length and start, or later? */
  predicate Remains(length: nat, start: nat, p: Phrase) {
    p.length < length || (p.length == length && p.start >= start)
  }

  /** Every phrase of n words from one place up to another is blocked. */
  ghost predicate AllBlocked(n: nat, hits: seq<Phrase>, length: nat, start: nat, toLength: nat, toStart: nat) {
    forall p :: InTriangle(n, p) && Remains(length, start, p) && !Remains(toLength, toStart, p) ==> Blocked(p, hits)
  }

  /** If they are, dropping the blocked ones leads there. */
  lemma {:induction false} SkipTo(n: nat, hits: seq<Phrase>, length: nat, start: nat, toLength: nat, toStart: nat)
    requires start >= 1 && length <= n
    requires toLength == 0 || toLength < length || (toLength == length && toStart >= start)
    requires AllBlocked(n, hits, length, start, toLength, toStart)
    requires toLength > 0 ==> (InTriangle(n, Phrase(toLength, toStart)) && !Blocked(Phrase(toLength, toStart), hits))
    ensures Skip(From(n, length, start), hits) == From(n, toLength, toStart)
    decreases length, n + 2 - start
  {
    if length > 0 && !(length == toLength && start == toStart) {
      if start + length > n + 1 {
        SkipTo(n, hits, length - 1, 1, toLength, toStart);
      } else {
        assert InTriangle(n, Phrase(length, start)) && !Remains(toLength, toStart, Phrase(length, start));
        SkipTo(n, hits, length, start + 1, toLength, toStart);
      }
    }
  }

  lemma FirstFree(n: nat, hits: seq<Phrase>, length: nat, start: nat, p: Phrase)
    requires start >= 1 && length <= n && Remains(length, start, p)
    requires AllBlocked(n, hits, length, start, p.length, p.start) && InTriangle(n, p) && !Blocked(p, hits)
    ensures var free := Skip(From(n, length, start), hits);
            free != [] && free[0] == p && free[1..] == From(n, p.length, p.start + 1)
  {
    SkipTo(n, hits, length, start, p.length, p.start);
  }

  // ---------- a whole run ----------

  /** Longer phrases come first, then those further left. */
  predicate Before(p: Phrase, q: Phrase) {
    p.length > q.length || (p.length == q.length && p.start < q.start)
  }

  ghost predicate Ordered(ps: seq<Phrase>) {
    forall i, j :: 0 <= i < j < |ps| ==> Before(ps[i], ps[j])
  }

  /** The phrases that are offered when those of which recognised holds become hits. */
  function Offers(ps: seq<Phrase>, recognised: Phrase -> bool, hits: seq<Phrase>): (r: seq<Phrase>) {
    if ps == [] then []
    else if Blocked(ps[0], hits) then Offers(ps[1..], recognised, hits)
    else [ps[0]] + Offers(ps[1..], recognised, if recognised(ps[0]) then hits + [ps[0]] else hits)
  }

  /** The hits in the end. */
  function Hits(ps: seq<Phrase>, recognised: Phrase -> bool, hits: seq<Phrase>): (r: seq<Phrase>) {
    if ps == [] then hits
    else Hits(ps[1..], recognised, if !Blocked(ps[0], hits) && recognised(ps[0]) then hits + [ps[0]] else hits)
  }

  lemma {:induction false} SkipIsIdle(ps: seq<Phrase>, recognised: Phrase -> bool, hits: seq<Phrase>)
    ensures Offers(ps, recognised, hits) == Offers(Skip(ps, hits), recognised, hits)
    ensures Hits(ps, recognised, hits) == Hits(Skip(ps, hits), recognised, hits)
  {
    if ps != [] && Blocked(ps[0], hits) {
      SkipIsIdle(ps[1..], recognised, hits);
    }
  }

  /** offered came already; the run goes on with the phrases free, and ends as one over all does. */
  ghost predicate Continues(offered: seq<Phrase>, free: seq<Phrase>, hits: seq<Phrase>, recognised: Phrase -> bool, all: seq<Phrase>) {
    && free == Skip(free, hits)
    && offered + Offers(free, recognised, hits) == Offers(all, recognised, [])
    && Hits(free, recognised, hits) == Hits(all, recognised, [])
  }

  lemma Starts(recognised: Phrase -> bool, all: seq<Phrase>)
    ensures Continues([], Skip(all, []), [], recognised, all)
  {
    SkipIsIdle(all, recognised, []);
    SkipTwice(all, []);
  }

  lemma SkipTwice(ps: seq<Phrase>, hits: seq<Phrase>)
    ensures Skip(Skip(ps, hits), hits) == Skip(ps, hits)
  {
  }

  lemma GoesOn(offered: seq<Phrase>, free: seq<Phrase>, hits: seq<Phrase>, recognised: Phrase -> bool, all: seq<Phrase>)
    requires Continues(offered, free, hits, recognised, all) && free != []
    ensures var now := if recognised(free[0]) then hits + [free[0]] else hits;
            Continues(offered + [free[0]], Skip(free[1..], now), now, recognised, all)
  {
    var now := if recognised(free[0]) then hits + [free[0]] else hits;
    assert !Blocked(free[0], hits);
    SkipIsIdle(free[1..], recognised, now);
    SkipTwice(free[1..], now);
    assert offered + Offers(free, recognised, hits) == offered + [free[0]] + Offers(free[1..], recognised, now);
  }

  /** The phrases, in words. */
  ghost predicate AreSpoken(words: seq<string>, phrases: seq<string>, ps: seq<Phrase>) {
    |phrases| == |ps| && forall i :: 0 <= i < |ps| ==> IsSpoken(words, phrases[i], ps[i])
  }

  ghost predicate IsSpoken(words: seq<string>, phrase: string, p: Phrase) {
    InTriangle(|words|, p) && phrase == Glued(words[p.start - 1..p.start - 1 + p.length])
  }

  /** From lists the phrases of n words that have not come yet, in order. */
  lemma {:induction false} FromIs(n: nat, length: nat, start: nat)
    requires 1 <= start
    ensures Ordered(From(n, length, start))
    ensures forall p :: p in From(n, length, start) ==>
              1 <= p.length <= length && 1 <= p.start && p.start + p.length <= n + 1 && (p.length == length ==> p.start >= start)
    ensures forall p: Phrase :: 1 <= p.length <= length && 1 <= p.start && p.start + p.length <= n + 1 && (p.length == length ==> p.start >= start)
              ==> p in From(n, length, start)
    decreases length, n + 2 - start
  {
    if length > 0 {
      if start + length > n + 1 {
        FromIs(n, length - 1, 1);
      } else {
        FromIs(n, length, start + 1);
        var rest := From(n, length, start + 1);
        forall j | 0 <= j < |rest| ensures Before(Phrase(length, start), rest[j]) {
          assert rest[j] in rest;
        }
      }
    }
  }

  ghost predicate AllBefore(hits: seq<Phrase>, ps: seq<Phrase>) {
    forall i, j :: 0 <= i < |hits| && 0 <= j < |ps| ==> Before(hits[i], ps[j])
  }

  /** A hit that comes before p and has a word in common with it. */
  ghost predicate Precluded(p: Phrase, hits: seq<Phrase>) {
    exists h :: h in hits && Before(h, p) && Meets(h, p)
  }

  lemma {:induction false} HitsGrow(ps: seq<Phrase>, recognised: Phrase -> bool, hits: seq<Phrase>)
    ensures hits <= Hits(ps, recognised, hits)
    ensures forall h :: h in Hits(ps, recognised, hits) ==> h in hits || h in ps
  {
    if ps != [] {
      HitsGrow(ps[1..], recognised, if !Blocked(ps[0], hits) && recognised(ps[0]) then hits + [ps[0]] else hits);
    }
  }

  /** A phrase is offered exactly when no earlier hit has a word of it, and it is a hit exactly when
      it was offered and recognised. */
  lemma {:induction false} OffersAre(ps: seq<Phrase>, recognised: Phrase -> bool, hits: seq<Phrase>)
    requires Ordered(ps) && AllBefore(hits, ps)
    ensures var final := Hits(ps, recognised, hits);
            forall p :: p in Offers(ps, recognised, hits) <==> p in ps && !Precluded(p, final)
    ensures forall p :: p in Hits(ps, recognised, hits) <==> p in hits || (p in Offers(ps, recognised, hits) && recognised(p))
    ensures Ordered(Offers(ps, recognised, hits))
  {
    if ps != [] {
      var first := ps[0];
      var final := Hits(ps, recognised, hits);
      var now := if !Blocked(first, hits) && recognised(first) then hits + [first] else hits;
      OffersAre(ps[1..], recognised, now);
      HitsGrow(ps[1..], recognised, now);
      assert Precluded(first, final) <==> Blocked(first, hits) by {
        if Blocked(first, hits) {
          var i :| 0 <= i < |hits| && Meets(hits[i], first);
          assert hits[i] in final;
        }
        if Precluded(first, final) {
          var h :| h in final && Before(h, first) && Meets(h, first);
          assert h in hits;
        }
      }
      forall p | p in Offers(ps[1..], recognised, now) ensures Before(first, p) {
        assert p in ps[1..];
      }
    }
  }

  /** Hits never have a word in common. */
  ghost predicate Apart(hits: seq<Phrase>) {
    forall i, j :: 0 <= i < j < |hits| ==> !Meets(hits[i], hits[j])
  }

  lemma {:induction false} HitsApart(ps: seq<Phrase>, recognised: Phrase -> bool, hits: seq<Phrase>)
    requires Apart(hits)
    ensures Apart(Hits(ps, recognised, hits))
  {
    if ps != [] {
      HitsApart(ps[1..], recognised, if !Blocked(ps[0], hits) && recognised(ps[0]) then hits + [ps[0]] else hits);
    }
  }

  /** Over a whole run, whichever phrases are recognised: phrases come longest first and then
      leftmost, each at most once; a phrase comes exactly when it has no word in common with a hit
      that came before it; and no two hits have a word in common. */
  lemma WholeRun(n: nat, recognised: Phrase -> bool)
    ensures var offers, hits := Offers(From(n, n, 1), recognised, []), Hits(From(n, n, 1), recognised, []);
            && Ordered(offers)
            && (forall p :: p in offers <==> InTriangle(n, p) && !exists h :: h in hits && Before(h, p) && Overlap(h, p))
            && (forall p :: p in hits <==> p in offers && recognised(p))
            && (forall i, j :: 0 <= i < j < |hits| ==> !Overlap(hits[i], hits[j]))
  {
    FromIs(n, n, 1);
    OffersAre(From(n, n, 1), recognised, []);
    HitsApart(From(n, n, 1), recognised, []);
    var offers, hits := Offers(From(n, n, 1), recognised, []), Hits(From(n, n, 1), recognised, []);
    forall p, h | InTriangle(n, p) && h in hits ensures Meets(h, p) <==> Overlap(h, p) {
      IntersectionIsOverlap(h, p);
    }
    forall i, j | 0 <= i < j < |hits| ensures !Overlap(hits[i], hits[j]) {
      assert hits[i] in hits && hits[j] in hits;
    }
    forall p ensures p in offers <==> InTriangle(n, p) && !exists h :: h in hits && Before(h, p) && Overlap(h, p) {
      assert p in From(n, n, 1) <==> InTriangle(n, p);
      assert InTriangle(n, p) ==> (Precluded(p, hits) <==> exists h :: h in hits && Before(h, p) && Overlap(h, p));
    }
  }
}
