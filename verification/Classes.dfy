/** The class of a tagged phrase: the nearest class that all its tags descend from. */
module Classes {
  datatype Ref = Nil | Frame(id: int) | Symbol(name: int) | Other(value: int)

  /** Frames' isa slots, and what symbols stand for as global variables and as assist frames. */
  datatype World = World(isa: map<int, Ref>, globals: map<int, Ref>, assistFrames: map<int, Ref>)

  datatype Outcome<T> = Done(value: T) | Thrown

  datatype Array = NilArray | Elements(slots: seq<int>)

  function MapSymToFrame(w: World, sym: int): Ref {
    var global := if sym in w.globals then w.globals[sym] else Nil;
    if global != Nil then global else if sym in w.assistFrames then w.assistFrames[sym] else Nil
  }

  /** A symbol stands for the global variable of its name, if that is not nil; else for the assist frame of its
      name, if there is one. */
  lemma SymbolStandsFor(w: World, sym: int)
    ensures sym in w.globals && w.globals[sym] != Nil ==> Resolve(w, Symbol(sym)) == w.globals[sym]
    ensures !(sym in w.globals && w.globals[sym] != Nil) && sym in w.assistFrames ==> Resolve(w, Symbol(sym)) == w.assistFrames[sym]
    ensures !(sym in w.globals && w.globals[sym] != Nil) && sym !in w.assistFrames ==> Resolve(w, Symbol(sym)) == Nil
    ensures forall r: Ref :: !r.Symbol? ==> Resolve(w, r) == r
  {
  }

  function Resolve(w: World, r: Ref): Ref {
    if r.Symbol? then MapSymToFrame(w, r.name) else r
  }

  function Isa(w: World, frame: int): Ref {
    if frame in w.isa then w.isa[frame] else Nil
  }

  /** Is the isa of a frame another frame? */
  predicate HasSuper(w: World, frame: int) {
    Isa(w, frame) != Nil && Resolve(w, Isa(w, frame)).Frame?
  }

  function Super(w: World, frame: int): int
    requires HasSuper(w, frame)
  {
    Resolve(w, Isa(w, frame)).id
  }

  /** The isa slots form no cycle: a rank falls along them. */
  ghost predicate Acyclic(w: World, rank: int -> nat) {
    forall f :: HasSuper(w, f) ==> rank(Super(w, f)) < rank(f)
  }

  /** A frame and the frames above it. */
  function Chain(w: World, ghost rank: int -> nat, f: int): (chain: seq<int>)
    requires Acyclic(w, rank)
    ensures chain != [] && chain[0] == f
    decreases rank(f)
  {
    if HasSuper(w, f) then [f] + Chain(w, rank, Super(w, f)) else [f]
  }

  /** The chain ends with a frame that has no isa, not with an isa that is no frame. */
  predicate Sound(w: World, ghost rank: int -> nat, f: int)
    requires Acyclic(w, rank)
    decreases rank(f)
  {
    if HasSuper(w, f) then Sound(w, rank, Super(w, f)) else Isa(w, f) == Nil
  }

  // ---------- the code ----------

  function PathOf(w: World, ghost rank: int -> nat, r: Ref): Outcome<Array>
    requires Acyclic(w, rank)
  {
    var element := Resolve(w, r);
    if element == Nil then Done(NilArray)
    else if element.Frame? && Sound(w, rank, element.id) then Done(Elements(Chain(w, rank, element.id)))
    else Thrown
  }

  method PathToRoot(w: World, r: Ref, ghost rank: int -> nat) returns (result: Outcome<Array>)
    requires Acyclic(w, rank)
    ensures result == PathOf(w, rank, r)
  {
    var element := Resolve(w, r);
    if element == Nil { return Done(NilArray); }
    if !element.Frame? { return Thrown; }
    var path := [element.id];
    ghost var first := element.id;
    while Isa(w, element.id) != Nil
      invariant element.Frame?
      invariant path + Chain(w, rank, element.id)[1..] == Chain(w, rank, first)
      invariant Sound(w, rank, element.id) == Sound(w, rank, first)
      decreases rank(element.id)
    {
      var up := Resolve(w, Isa(w, element.id));
      // the next GetFrameSlot throws
      if !up.Frame? { return Thrown; }
      assert Chain(w, rank, element.id)[1..] == [up.id] + Chain(w, rank, up.id)[1..];
      element := up;
      path := path + [element.id];
    }
    assert path + [] == path;
    return Done(Elements(path));
  }

  function Copies(x: int, b: seq<int>): seq<int> {
    if b == [] then [] else Copies(x, b[..|b| - 1]) + if b[|b| - 1] == x then [x] else []
  }

  /** The elements of a that are in b, as often as they are. */
  function Meet(a: seq<int>, b: seq<int>): seq<int> {
    if a == [] then [] else Meet(a[..|a| - 1], b) + Copies(a[|a| - 1], b)
  }

  /** CheezyIntersect's loops, over the longer array outside and the shorter inside. */
  method Intersect(a1: seq<int>, a2: seq<int>) returns (intersection: seq<int>)
    ensures intersection == Meet(a1, a2)
  {
    intersection := [];
    for i := 0 to |a1|
      invariant intersection == Meet(a1[..i], a2)
    {
      ghost var before := intersection;
      for j := 0 to |a2|
        invariant intersection == before + Copies(a1[i], a2[..j])
      {
        assert a2[..j + 1][..j] == a2[..j];
        if a1[i] == a2[j] {
          intersection := intersection + [a1[i]];
        }
      }
      assert a2[..|a2|] == a2 && a1[..i + 1][..i] == a1[..i];
    }
    assert a1[..|a1|] == a1;
  }

  method CheezyIntersect(inArray1: Array, inArray2: Array) returns (result: Array)
    ensures result ==
      if inArray1 == NilArray || inArray2 == NilArray || inArray1.slots == [] || inArray2.slots == [] then NilArray
      else if |inArray1.slots| > |inArray2.slots| then Elements(Meet(inArray1.slots, inArray2.slots))
      else Elements(Meet(inArray2.slots, inArray1.slots))
  {
    if inArray1 != NilArray && inArray2 != NilArray && |inArray1.slots| > 0 && |inArray2.slots| > 0 {
      var a1, a2 := inArray2.slots, inArray1.slots;
      if |inArray1.slots| > |inArray2.slots| {
        a1, a2 := inArray1.slots, inArray2.slots;
      }
      var intersection := Intersect(a1, a2);
      return Elements(intersection);
    }
    return NilArray;
  }

  method CommonAncestors(w: World, r1: Ref, r2: Ref, ghost rank: int -> nat) returns (result: Outcome<Array>)
    requires Acyclic(w, rank)
    ensures !Fine(w, rank, r1) || !Fine(w, rank, r2) ==> result == Thrown
    ensures Fine(w, rank, r1) && Fine(w, rank, r2) ==>
      var common := Shared(Line(w, rank, r1), Line(w, rank, r2));
      result == Done(if common == [] then NilArray else Elements(common))
  {
    var path1 := PathToRoot(w, r1, rank);
    var path2 := PathToRoot(w, r2, rank);
    if path1 == Thrown || path2 == Thrown { return Thrown; }
    var ancestors := CheezyIntersect(path1.value, path2.value);
    LinesMeet(w, rank, r1, r2);
    if ancestors != NilArray && |ancestors.slots| > 0 { return Done(ancestors); }
    return Done(NilArray);
  }

  method CompositeClass(w: World, phrase: seq<Ref>, ghost rank: int -> nat) returns (result: Outcome<Ref>)
    requires Acyclic(w, rank)
    ensures |phrase| == 0 ==> result == Thrown
    ensures |phrase| == 1 ==> result == Done(phrase[0])
    ensures |phrase| >= 2 ==> Composes(w, rank, phrase, result)
  {
    var count := |phrase|;
    if count == 0 { return Thrown; }
    if count == 1 { return Done(phrase[0]); }
    var ancestors := CommonAncestors(w, phrase[0], phrase[1], rank);
    if ancestors == Thrown {
      assert phrase[..1] == [phrase[0]];
      ThrownAt(w, rank, phrase, if Fine(w, rank, phrase[0]) then 1 else 0);
      return Thrown;
    }
    FirstPair(w, rank, phrase[..2]);
    if ancestors.value == NilArray {
      NilAfter(w, rank, phrase, 2);
      return Done(Nil);
    }
    for i := 2 to count
      invariant AllFine(w, rank, phrase[..i]) && ancestors.Done? && ancestors.value.Elements? && ancestors.value.slots != []
      invariant IsNearest(w, rank, phrase[..i], ancestors.value.slots[0])
    {
      ghost var c := ancestors.value.slots[0];
      ancestors := CommonAncestors(w, Frame(ancestors.value.slots[0]), phrase[i], rank);
      if ancestors == Thrown {
        NearestIsCommon(w, rank, phrase[..i], c);
        ThrownAt(w, rank, phrase, i);
        return Thrown;
      }
      NextTag(w, rank, phrase, i, c);
      if ancestors.value == NilArray {
        NilAfter(w, rank, phrase, i + 1);
        return Done(Nil);
      }
    }
    FrameInTheEnd(w, rank, phrase, ancestors.value.slots[0]);
    return Done(Frame(ancestors.value.slots[0]));
  }

  /** What is to come of two or more tags.  If all are fine, the nearest class of all, or nil; if not, nil if the
      tags in front of the first that is not fine have no class in common, and else an exception. */
  ghost predicate Composes(w: World, rank: int -> nat, phrase: seq<Ref>, result: Outcome<Ref>)
    requires Acyclic(w, rank)
  {
    && (AllFine(w, rank, phrase) ==> IsComposite(w, rank, phrase, result))
    && forall k :: 0 <= k < |phrase| && AllFine(w, rank, phrase[..k]) && !Fine(w, rank, phrase[k]) ==>
         result == if k >= 2 && NoneCommon(w, rank, phrase[..k]) then Done(Nil) else Thrown
  }

  lemma NearestIsCommon(w: World, rank: int -> nat, tags: seq<Ref>, c: int)
    requires Acyclic(w, rank) && IsNearest(w, rank, tags, c)
    ensures !NoneCommon(w, rank, tags)
  {
  }

  lemma NextTag(w: World, rank: int -> nat, phrase: seq<Ref>, i: nat, c: int)
    requires Acyclic(w, rank) && i < |phrase| && AllFine(w, rank, phrase[..i]) && Fine(w, rank, phrase[i])
    requires IsNearest(w, rank, phrase[..i], c)
    ensures AllFine(w, rank, phrase[..i + 1])
    ensures var common := Shared(Chain(w, rank, c), Line(w, rank, phrase[i]));
            if common == [] then NoneCommon(w, rank, phrase[..i + 1]) else IsNearest(w, rank, phrase[..i + 1], common[0])
  {
    OneMore(w, rank, phrase[..i], c, phrase[i]);
    assert phrase[..i + 1] == phrase[..i] + [phrase[i]];
  }

  lemma FrameInTheEnd(w: World, rank: int -> nat, phrase: seq<Ref>, c: int)
    requires Acyclic(w, rank) && AllFine(w, rank, phrase[..|phrase|]) && IsNearest(w, rank, phrase[..|phrase|], c)
    ensures Composes(w, rank, phrase, Done(Frame(c)))
  {
    assert phrase[..|phrase|] == phrase;
    NearestIsCommon(w, rank, phrase, c);
  }

  lemma ThrownAt(w: World, rank: int -> nat, phrase: seq<Ref>, i: nat)
    requires Acyclic(w, rank) && i < |phrase| && AllFine(w, rank, phrase[..i]) && !Fine(w, rank, phrase[i])
    requires i < 2 || !NoneCommon(w, rank, phrase[..i])
    ensures Composes(w, rank, phrase, Thrown)
  {
    FirstBroken(w, rank, phrase, i);
  }

  lemma NilAfter(w: World, rank: int -> nat, phrase: seq<Ref>, n: nat)
    requires Acyclic(w, rank) && 2 <= n <= |phrase| && AllFine(w, rank, phrase[..n]) && NoneCommon(w, rank, phrase[..n])
    ensures Composes(w, rank, phrase, Done(Nil))
  {
    NoneCommonEver(w, rank, phrase, n);
    BrokenLater(w, rank, phrase, n);
  }

  lemma FineBefore(w: World, rank: int -> nat, phrase: seq<Ref>, n: nat)
    requires Acyclic(w, rank) && n <= |phrase| && AllFine(w, rank, phrase[..n])
    ensures forall k :: 0 <= k < n ==> Fine(w, rank, phrase[k])
  {
    forall k | 0 <= k < n ensures Fine(w, rank, phrase[k]) {
      assert phrase[..n][k] == phrase[k];
    }
  }

  lemma BrokenBefore(w: World, rank: int -> nat, phrase: seq<Ref>, i: nat)
    requires Acyclic(w, rank) && i < |phrase| && !Fine(w, rank, phrase[i])
    ensures forall k :: i < k <= |phrase| ==> !AllFine(w, rank, phrase[..k])
  {
    forall k | i < k <= |phrase| ensures !AllFine(w, rank, phrase[..k]) {
      assert phrase[..k][i] == phrase[i];
    }
  }

  lemma BrokenLater(w: World, rank: int -> nat, phrase: seq<Ref>, n: nat)
    requires Acyclic(w, rank) && n <= |phrase| && AllFine(w, rank, phrase[..n])
    ensures forall k :: 0 <= k < |phrase| && !Fine(w, rank, phrase[k]) ==> k >= n
  {
    FineBefore(w, rank, phrase, n);
  }

  /** There is but one first tag that is not fine. */
  lemma FirstBroken(w: World, rank: int -> nat, phrase: seq<Ref>, i: nat)
    requires Acyclic(w, rank) && i < |phrase| && AllFine(w, rank, phrase[..i]) && !Fine(w, rank, phrase[i])
    ensures forall k :: 0 <= k < |phrase| && AllFine(w, rank, phrase[..k]) && !Fine(w, rank, phrase[k]) ==> k == i
    ensures !AllFine(w, rank, phrase)
  {
    FineBefore(w, rank, phrase, i);
    BrokenBefore(w, rank, phrase, i);
  }

  // ---------- what they compute ----------

  /** The tag stands for nothing, or for a frame with a sound chain. */
  predicate Fine(w: World, ghost rank: int -> nat, r: Ref)
    requires Acyclic(w, rank)
  {
    var element := Resolve(w, r);
    element == Nil || (element.Frame? && Sound(w, rank, element.id))
  }

  /** The frame a tag stands for, and those above it; nothing if it stands for none. */
  function Line(w: World, ghost rank: int -> nat, r: Ref): (line: seq<int>)
    requires Acyclic(w, rank)
  {
    var element := Resolve(w, r);
    if element.Frame? then Chain(w, rank, element.id) else []
  }

  ghost predicate AllFine(w: World, rank: int -> nat, phrase: seq<Ref>)
    requires Acyclic(w, rank)
  {
    forall i :: 0 <= i < |phrase| ==> Fine(w, rank, phrase[i])
  }

  /** A class of every tag. */
  ghost predicate IsCommon(w: World, rank: int -> nat, phrase: seq<Ref>, c: int)
    requires Acyclic(w, rank)
  {
    forall i :: 0 <= i < |phrase| ==> c in Line(w, rank, phrase[i])
  }

  ghost predicate NoneCommon(w: World, rank: int -> nat, phrase: seq<Ref>)
    requires Acyclic(w, rank)
  {
    !exists c :: IsCommon(w, rank, phrase, c)
  }

  /** c is a class of every tag, and every class of all of them is c or above it. */
  ghost predicate IsNearest(w: World, rank: int -> nat, phrase: seq<Ref>, c: int)
    requires Acyclic(w, rank)
  {
    && IsCommon(w, rank, phrase, c)
    && Sound(w, rank, c)
    && forall d :: IsCommon(w, rank, phrase, d) ==> d in Chain(w, rank, c)
  }

  ghost predicate IsComposite(w: World, rank: int -> nat, phrase: seq<Ref>, result: Outcome<Ref>)
    requires Acyclic(w, rank)
  {
    && result.Done?
    && (result.value == Nil <==> NoneCommon(w, rank, phrase))
    && (result.value != Nil ==> result.value.Frame? && IsNearest(w, rank, phrase, result.value.id))
  }

  /** The rest of a from its first element that is in b. */
  function Shared(a: seq<int>, b: seq<int>): (r: seq<int>) {
    if a == [] || a[0] in b then a else Shared(a[1..], b)
  }

  // ---------- chains ----------

  /** The chain of a frame in a chain is the rest of it. */
  lemma {:induction false} ChainTail(w: World, rank: int -> nat, f: int, i: nat)
    requires Acyclic(w, rank) && i < |Chain(w, rank, f)|
    ensures Chain(w, rank, f)[i..] == Chain(w, rank, Chain(w, rank, f)[i])
    ensures Sound(w, rank, Chain(w, rank, f)[i]) == Sound(w, rank, f)
    ensures i > 0 ==> rank(Chain(w, rank, f)[i]) < rank(f)
    decreases rank(f)
  {
    if i > 0 {
      ChainTail(w, rank, Super(w, f), i - 1);
      assert Chain(w, rank, f)[i..] == Chain(w, rank, Super(w, f))[i - 1..];
    }
  }

  lemma ChainDistinct(w: World, rank: int -> nat, f: int, i: nat, j: nat)
    requires Acyclic(w, rank) && i < j < |Chain(w, rank, f)|
    ensures Chain(w, rank, f)[i] != Chain(w, rank, f)[j]
  {
    ChainTail(w, rank, f, i);
    ChainTail(w, rank, Chain(w, rank, f)[i], j - i);
  }

  ghost predicate Distinct(b: seq<int>) {
    forall i, j :: 0 <= i < j < |b| ==> b[i] != b[j]
  }

  lemma {:induction false} CopiesOfDistinct(x: int, b: seq<int>)
    requires Distinct(b)
    ensures Copies(x, b) == if x in b then [x] else []
  {
    if b != [] {
      CopiesOfDistinct(x, b[..|b| - 1]);
      assert b == b[..|b| - 1] + [b[|b| - 1]];
    }
  }

  /** If b has the end of a from i on, and nothing in front, that is what they share. */
  lemma {:induction false} MeetIs(a: seq<int>, b: seq<int>, i: nat)
    requires Distinct(b) && i <= |a|
    requires forall k :: 0 <= k < |a| ==> (a[k] in b <==> k >= i)
    ensures Meet(a, b) == a[i..]
  {
    if a != [] {
      CopiesOfDistinct(a[|a| - 1], b);
      if i < |a| {
        MeetIs(a[..|a| - 1], b, i);
        assert a[i..] == a[..|a| - 1][i..] + [a[|a| - 1]];
      } else {
        MeetIs(a[..|a| - 1], b, i - 1);
      }
    }
  }

  lemma {:induction false} SharedIs(a: seq<int>, b: seq<int>, i: nat)
    requires i <= |a| && (forall k :: 0 <= k < i ==> a[k] !in b) && (i < |a| ==> a[i] in b)
    ensures Shared(a, b) == a[i..]
  {
    if i > 0 {
      SharedIs(a[1..], b, i - 1);
      assert a[1..][i - 1..] == a[i..];
    }
  }

  /** The first place in f's chain that g's chain has too, and with it all that follow. */
  lemma {:induction false} FirstShared(w: World, rank: int -> nat, f: int, b: seq<int>, g: int) returns (i: nat)
    requires Acyclic(w, rank) && b == Chain(w, rank, g)
    ensures i <= |Chain(w, rank, f)|
    ensures forall k :: 0 <= k < |Chain(w, rank, f)| ==> (Chain(w, rank, f)[k] in b <==> k >= i)
    decreases rank(f)
  {
    var a := Chain(w, rank, f);
    if f in b {
      i := 0;
      forall k | 0 <= k < |a| ensures a[k] in b {
        var j :| 0 <= j < |b| && b[j] == f;
        ChainTail(w, rank, g, j);
        assert b[j..][k] == a[k];
      }
    } else if HasSuper(w, f) {
      i := FirstShared(w, rank, Super(w, f), b, g);
      i := i + 1;
    } else {
      i := 1;
    }
  }

  lemma ChainIsDistinct(w: World, rank: int -> nat, f: int)
    requires Acyclic(w, rank)
    ensures Distinct(Chain(w, rank, f))
  {
    forall i, j | 0 <= i < j < |Chain(w, rank, f)| ensures Chain(w, rank, f)[i] != Chain(w, rank, f)[j] {
      ChainDistinct(w, rank, f, i, j);
    }
  }

  /** Wherever a and b have an element in common they go on alike. */
  ghost predicate GoOnAlike(a: seq<int>, b: seq<int>) {
    forall k, m :: 0 <= k < |a| && 0 <= m < |b| && a[k] == b[m] ==> a[k..] == b[m..]
  }

  lemma SameRest(a: seq<int>, b: seq<int>, i: nat, j: nat)
    requires GoOnAlike(a, b) && i <= |a| && j <= |b|
    requires forall k :: 0 <= k < |a| ==> (a[k] in b <==> k >= i)
    requires forall k :: 0 <= k < |b| ==> (b[k] in a <==> k >= j)
    ensures a[i..] == b[j..]
  {
    assert forall x :: x in a && x in b ==> i < |a| && j < |b|;
    assert i < |a| ==> a[i] in b;
    assert j < |b| ==> b[j] in a;
    if i < |a| {
      var m :| 0 <= m < |b| && b[m] == a[i];
      assert b[m] in a;
      var n :| 0 <= n < |a| && a[n] == b[j];
      assert a[n] in b;
      assert |a[n..]| == |b[j..]| && |a[i..]| == |b[m..]|;
    }
  }

  /** Where two chains meet they go on together. */
  lemma ChainsGoOnAlike(w: World, rank: int -> nat, f: int, g: int)
    requires Acyclic(w, rank)
    ensures GoOnAlike(Chain(w, rank, f), Chain(w, rank, g))
  {
    var a, b := Chain(w, rank, f), Chain(w, rank, g);
    forall k, m | 0 <= k < |a| && 0 <= m < |b| && a[k] == b[m] ensures a[k..] == b[m..] {
      ChainTail(w, rank, f, k);
      ChainTail(w, rank, g, m);
    }
  }

  lemma ChainsMeet(w: World, rank: int -> nat, f: int, g: int)
    requires Acyclic(w, rank)
    ensures var a, b := Chain(w, rank, f), Chain(w, rank, g);
            Meet(a, b) == Shared(a, b) && Meet(b, a) == Shared(a, b)
  {
    var a, b := Chain(w, rank, f), Chain(w, rank, g);
    ChainIsDistinct(w, rank, f);
    ChainIsDistinct(w, rank, g);
    var i := FirstShared(w, rank, f, b, g);
    var j := FirstShared(w, rank, g, a, f);
    MeetIs(a, b, i);
    MeetIs(b, a, j);
    SharedIs(a, b, i);
    ChainsGoOnAlike(w, rank, f, g);
    SameRest(a, b, i, j);
  }

  lemma LinesMeet(w: World, rank: int -> nat, r1: Ref, r2: Ref)
    requires Acyclic(w, rank) && Fine(w, rank, r1) && Fine(w, rank, r2)
    ensures var a, b := Line(w, rank, r1), Line(w, rank, r2);
            && (a != [] && b != [] ==> Meet(a, b) == Shared(a, b) && Meet(b, a) == Shared(a, b))
            && (b == [] ==> Shared(a, b) == [])
  {
    var a, b := Line(w, rank, r1), Line(w, rank, r2);
    if a != [] && b != [] {
      ChainsMeet(w, rank, Resolve(w, r1).id, Resolve(w, r2).id);
    } else {
      SharedIs(a, b, |a|);
    }
  }

  lemma OneMore(w: World, rank: int -> nat, tags: seq<Ref>, c: int, tag: Ref)
    requires Acyclic(w, rank) && IsNearest(w, rank, tags, c) && Fine(w, rank, tag)
    ensures var common := Shared(Chain(w, rank, c), Line(w, rank, tag));
            if common == [] then NoneCommon(w, rank, tags + [tag]) else IsNearest(w, rank, tags + [tag], common[0])
  {
    var a, b, more := Chain(w, rank, c), Line(w, rank, tag), tags + [tag];
    var i: nat := |a|;
    if b != [] {
      i := FirstShared(w, rank, c, b, Resolve(w, tag).id);
    }
    SharedIs(a, b, i);
    forall d ensures IsCommon(w, rank, more, d) <==> d in a && d in b {
      CommonToMore(w, rank, tags, c, tag, d);
    }
    if i < |a| {
      ChainTail(w, rank, c, i);
    }
  }

  lemma CommonToMore(w: World, rank: int -> nat, tags: seq<Ref>, c: int, tag: Ref, d: int)
    requires Acyclic(w, rank) && IsNearest(w, rank, tags, c)
    ensures IsCommon(w, rank, tags + [tag], d) <==> d in Chain(w, rank, c) && d in Line(w, rank, tag)
  {
    var more := tags + [tag];
    if IsCommon(w, rank, more, d) {
      assert more[|tags|] == tag;
      forall i | 0 <= i < |tags| ensures d in Line(w, rank, tags[i]) {
        assert more[i] == tags[i];
      }
    }
    if d in Chain(w, rank, c) {
      forall i | 0 <= i < |tags| ensures d in Line(w, rank, tags[i]) {
        InBoth(w, rank, Resolve(w, tags[i]).id, c, d);
      }
    }
  }

  lemma InBoth(w: World, rank: int -> nat, f: int, c: int, d: int)
    requires Acyclic(w, rank) && c in Chain(w, rank, f) && d in Chain(w, rank, c)
    ensures d in Chain(w, rank, f)
  {
    var i :| 0 <= i < |Chain(w, rank, f)| && Chain(w, rank, f)[i] == c;
    ChainTail(w, rank, f, i);
  }

  lemma FirstPair(w: World, rank: int -> nat, pair: seq<Ref>)
    requires Acyclic(w, rank) && |pair| == 2 && AllFine(w, rank, pair)
    ensures var common := Shared(Line(w, rank, pair[0]), Line(w, rank, pair[1]));
            if common == [] then NoneCommon(w, rank, pair) else IsNearest(w, rank, pair, common[0])
  {
    if Line(w, rank, pair[0]) != [] {
      var f := Resolve(w, pair[0]).id;
      forall d | IsCommon(w, rank, [pair[0]], d) ensures d in Chain(w, rank, f) {
        assert [pair[0]][0] == pair[0];
      }
      OneMore(w, rank, [pair[0]], f, pair[1]);
      assert [pair[0]] + [pair[1]] == pair;
    }
  }

  lemma NoneCommonEver(w: World, rank: int -> nat, phrase: seq<Ref>, n: nat)
    requires Acyclic(w, rank) && n <= |phrase| && NoneCommon(w, rank, phrase[..n])
    ensures NoneCommon(w, rank, phrase)
    ensures forall k :: n <= k <= |phrase| ==> NoneCommon(w, rank, phrase[..k])
  {
    forall k | n <= k <= |phrase| ensures NoneCommon(w, rank, phrase[..k]) {
      forall c | IsCommon(w, rank, phrase[..k], c) ensures IsCommon(w, rank, phrase[..n], c) {
        forall i | 0 <= i < n ensures c in Line(w, rank, phrase[..n][i]) {
          assert phrase[..k][i] == phrase[..n][i];
        }
      }
    }
    assert phrase[..|phrase|] == phrase;
  }
}
