/** The 32-bit object graph of a package part, the order in which a depth-first walk that
    marks before it descends first meets its objects, and the objects a reference reaches. */
module ObjectGraph {
  import opened Memory
  import opened Refs

  /** One 32-bit object.  objClass and slots are raw (big-endian) words, size is the size field
      in host order; slots are those a slotted object has room for, data what follows the
      header of a binary one. */
  datatype SrcObject = SrcObject(size: nat, flags: bv8, objClass: Ref32, slots: seq<Ref32>, data: seq<Byte>) {
    predicate Slotted() { flags & K_OBJ_SLOTTED != 0 }

    predicate Valid() {
      && HEADER_32 <= size
      && (if Slotted() then |slots| == (size - HEADER_32) / 4 else |data| == size - HEADER_32)
    }

    /** The raw references the converter follows, in the order it follows them. */
    function Targets(): seq<Ref32> {
      [objClass] + if Slotted() then slots else []
    }

    /** The size of the 64-bit object made from this one. */
    function NewSize(): nat
      requires Valid()
    {
      if Slotted() then HEADER_64 + 8 * |slots| else size - HEADER_32 + HEADER_64
    }
  }

  /** Objects by their host-order reference (offset from the start of the package, tagged). */
  type Part = map<Ref32, SrcObject>

  /** A raw reference that is a pointer points into the part. */
  predicate Resolves(part: Part, raw: Ref32) {
    IsRealPtr(Swap32(raw)) ==> Swap32(raw) in part
  }

  ghost predicate ClosedObject(part: Part, obj: SrcObject) {
    obj.Valid() && forall raw :: raw in obj.Targets() ==> Resolves(part, raw)
  }

  ghost predicate Closed(part: Part) {
    forall r {:trigger ClosedObject(part, part[r])} :: r in part ==> ClosedObject(part, part[r])
  }

  ghost function Elems(s: seq<Ref32>): set<Ref32> { set x | x in s }

  predicate NoDuplicates(s: seq<Ref32>) { forall i, j :: 0 <= i < j < |s| ==> s[i] != s[j] }

  // ---------- the visiting order ----------

  /** The objects first met when following raw with the objects in seen already marked. */
  ghost function Visit(part: Part, raw: Ref32, seen: set<Ref32>): seq<Ref32>
    decreases part.Keys - seen, 0
  {
    var r := Swap32(raw);
    if IsRealPtr(r) && r in part && r !in seen then
      [r] + VisitAll(part, part[r].Targets(), seen + {r})
    else
      []
  }

  ghost function VisitAll(part: Part, raws: seq<Ref32>, seen: set<Ref32>): seq<Ref32>
    decreases part.Keys - seen, |raws|
  {
    if raws == [] then [] else
      var first := Visit(part, raws[0], seen);
      assert part.Keys - (seen + Elems(first)) <= part.Keys - seen;
      first + VisitAll(part, raws[1..], seen + Elems(first))
  }

  lemma ElemsAppend(a: seq<Ref32>, b: seq<Ref32>)
    ensures Elems(a + b) == Elems(a) + Elems(b)
  {
    forall x ensures x in Elems(a + b) <==> x in Elems(a) + Elems(b) {
      assert x in a + b <==> x in a || x in b;
    }
  }

  /** Every object met is new, is in the part, and is met once; what raw points to is marked afterwards. */
  lemma {:induction false} VisitFresh(part: Part, raw: Ref32, seen: set<Ref32>)
    ensures var order := Visit(part, raw, seen);
            && NoDuplicates(order)
            && Elems(order) <= part.Keys - seen
            && (IsRealPtr(Swap32(raw)) && Swap32(raw) in part ==> Swap32(raw) in seen + Elems(order))
    decreases part.Keys - seen, 0
  {
    var r := Swap32(raw);
    if IsRealPtr(r) && r in part && r !in seen {
      VisitAllFresh(part, part[r].Targets(), seen + {r});
      ElemsAppend([r], VisitAll(part, part[r].Targets(), seen + {r}));
      assert r in Elems([r]);
      var rest := VisitAll(part, part[r].Targets(), seen + {r});
      forall i | 0 <= i < |rest| ensures rest[i] != r {
        assert rest[i] in Elems(rest);
      }
    }
  }

  lemma {:induction false} VisitAllFresh(part: Part, raws: seq<Ref32>, seen: set<Ref32>)
    ensures var order := VisitAll(part, raws, seen);
            && NoDuplicates(order)
            && Elems(order) <= part.Keys - seen
            && forall raw :: raw in raws && IsRealPtr(Swap32(raw)) && Swap32(raw) in part ==> Swap32(raw) in seen + Elems(order)
    decreases part.Keys - seen, |raws|
  {
    if raws != [] {
      var first := Visit(part, raws[0], seen);
      VisitFresh(part, raws[0], seen);
      assert part.Keys - (seen + Elems(first)) <= part.Keys - seen;
      VisitAllFresh(part, raws[1..], seen + Elems(first));
      var rest := VisitAll(part, raws[1..], seen + Elems(first));
      ElemsAppend(first, rest);
      forall i, j | 0 <= i < |first| && 0 <= j < |rest| ensures first[i] != rest[j] {
        assert first[i] in Elems(first) && rest[j] in Elems(rest);
      }
      forall raw | raw in raws && IsRealPtr(Swap32(raw)) && Swap32(raw) in part
        ensures Swap32(raw) in seen + Elems(VisitAll(part, raws, seen))
      {
        assert raw == raws[0] || raw in raws[1..];
      }
    }
  }

  // ---------- reachability ----------

  ghost function Children(part: Part, r: Ref32): set<Ref32>
    requires r in part
  {
    set raw | raw in part[r].Targets() && IsRealPtr(Swap32(raw)) :: Swap32(raw)
  }

  ghost predicate IsPath(part: Part, path: seq<Ref32>) {
    && path != []
    && (forall i :: 0 <= i < |path| ==> path[i] in part)
    && forall i :: 0 <= i < |path| - 1 ==> path[i + 1] in Children(part, path[i])
  }

  ghost predicate Reaches(part: Part, from: Ref32, to: Ref32) {
    exists path :: IsPath(part, path) && path[0] == from && path[|path| - 1] == to
  }

  lemma ReachesThroughChild(part: Part, r: Ref32, child: Ref32, x: Ref32)
    requires r in part && child in Children(part, r) && Reaches(part, child, x)
    ensures Reaches(part, r, x)
  {
    var path :| IsPath(part, path) && path[0] == child && path[|path| - 1] == x;
    var longer := [r] + path;
    forall i | 0 <= i < |longer| - 1 ensures longer[i + 1] in Children(part, longer[i]) {
      if i > 0 { assert path[i - 1 + 1] in Children(part, path[i - 1]); }
    }
    assert IsPath(part, longer) && longer[0] == r && longer[|longer| - 1] == x;
  }

  /** Everything met is reachable from where the walk started. */
  lemma {:induction false} VisitSound(part: Part, raw: Ref32, seen: set<Ref32>, x: Ref32)
    requires x in Visit(part, raw, seen)
    ensures Swap32(raw) in part && IsRealPtr(Swap32(raw)) && Reaches(part, Swap32(raw), x)
    decreases part.Keys - seen, 0
  {
    var r := Swap32(raw);
    if x == r {
      var path := [r];
      assert IsPath(part, path) && path[0] == r && path[|path| - 1] == x;
    } else {
      var target := VisitAllSound(part, part[r].Targets(), seen + {r}, x);
      assert Swap32(target) in Children(part, r);
      ReachesThroughChild(part, r, Swap32(target), x);
    }
  }

  lemma {:induction false} VisitAllSound(part: Part, raws: seq<Ref32>, seen: set<Ref32>, x: Ref32) returns (target: Ref32)
    requires x in VisitAll(part, raws, seen)
    ensures target in raws && Swap32(target) in part && IsRealPtr(Swap32(target)) && Reaches(part, Swap32(target), x)
    decreases part.Keys - seen, |raws|
  {
    var first := Visit(part, raws[0], seen);
    if x in first {
      VisitSound(part, raws[0], seen, x);
      target := raws[0];
    } else {
      assert part.Keys - (seen + Elems(first)) <= part.Keys - seen;
      target := VisitAllSound(part, raws[1..], seen + Elems(first), x);
    }
  }

  /** The children of everything met are marked once the walk is over. */
  lemma {:induction false} VisitClosed(part: Part, raw: Ref32, seen: set<Ref32>)
    requires Closed(part)
    ensures forall x :: x in Visit(part, raw, seen) ==> x in part && Children(part, x) <= seen + Elems(Visit(part, raw, seen))
    decreases part.Keys - seen, 0
  {
    var r := Swap32(raw);
    if IsRealPtr(r) && r in part && r !in seen {
      var rest := VisitAll(part, part[r].Targets(), seen + {r});
      VisitAllClosed(part, part[r].Targets(), seen + {r});
      VisitAllFresh(part, part[r].Targets(), seen + {r});
      ElemsAppend([r], rest);
      assert r in Elems([r]);
      forall c | c in Children(part, r) ensures c in seen + Elems([r] + rest) {
        var target :| target in part[r].Targets() && IsRealPtr(Swap32(target)) && c == Swap32(target);
        assert ClosedObject(part, part[r]) && Resolves(part, target);
      }
    }
  }

  lemma {:induction false} VisitAllClosed(part: Part, raws: seq<Ref32>, seen: set<Ref32>)
    requires Closed(part)
    ensures forall x :: x in VisitAll(part, raws, seen) ==> x in part && Children(part, x) <= seen + Elems(VisitAll(part, raws, seen))
    decreases part.Keys - seen, |raws|
  {
    if raws != [] {
      var first := Visit(part, raws[0], seen);
      VisitClosed(part, raws[0], seen);
      assert part.Keys - (seen + Elems(first)) <= part.Keys - seen;
      VisitAllClosed(part, raws[1..], seen + Elems(first));
      ElemsAppend(first, VisitAll(part, raws[1..], seen + Elems(first)));
    }
  }

  /** The walk from an empty mark set meets exactly the reachable objects. */
  lemma VisitMeetsExactlyReachable(part: Part, raw: Ref32)
    requires Closed(part)
    requires IsRealPtr(Swap32(raw)) && Swap32(raw) in part
    ensures forall x :: x in Visit(part, raw, {}) <==> Reaches(part, Swap32(raw), x)
  {
    var order := Visit(part, raw, {});
    forall x | Reaches(part, Swap32(raw), x) ensures x in order {
      var path :| IsPath(part, path) && path[0] == Swap32(raw) && path[|path| - 1] == x;
      VisitFresh(part, raw, {});
      PathStaysMet(part, raw, path, |path| - 1);
    }
    forall x | x in order ensures Reaches(part, Swap32(raw), x) {
      VisitSound(part, raw, {}, x);
    }
  }

  lemma {:induction false} PathStaysMet(part: Part, raw: Ref32, path: seq<Ref32>, i: nat)
    requires Closed(part)
    requires IsRealPtr(Swap32(raw)) && Swap32(raw) in part
    requires IsPath(part, path) && path[0] == Swap32(raw) && i < |path|
    ensures path[i] in Visit(part, raw, {})
  {
    if i > 0 {
      PathStaysMet(part, raw, path, i - 1);
      VisitClosed(part, raw, {});
      assert path[i - 1 + 1] in Children(part, path[i - 1]);
    }
  }

  // ---------- how much room the copies need ----------

  /** The room the 64-bit copy of an object takes. */
  function Room(part: Part, r: Ref32): nat {
    if r in part && part[r].Valid() then LongAlign(part[r].NewSize()) else 0
  }

  /** The bytes the 64-bit copies of the first count objects in order occupy, one after the other. */
  ghost function ExtentTo(part: Part, order: seq<Ref32>, count: nat): nat
    requires count <= |order|
  {
    if count == 0 then 0 else ExtentTo(part, order, count - 1) + Room(part, order[count - 1])
  }

  ghost function Extent(part: Part, order: seq<Ref32>): nat {
    ExtentTo(part, order, |order|)
  }

  lemma {:induction false} ExtentAligned(part: Part, order: seq<Ref32>, count: nat)
    requires count <= |order|
    ensures ExtentTo(part, order, count) % 4 == 0
  {
    if count != 0 {
      ExtentAligned(part, order, count - 1);
      var last := order[count - 1];
      if last in part && part[last].Valid() { LongAlignRounds(part[last].NewSize()); }
    }
  }

  lemma AlignSum(part: Part, n: nat, order: seq<Ref32>)
    ensures LongAlign(n + Extent(part, order)) == LongAlign(n) + Extent(part, order)
  {
    ExtentAligned(part, order, |order|);
    LongAlignShift(n, Extent(part, order));
  }

  lemma {:induction false} ExtentToAppend(part: Part, a: seq<Ref32>, b: seq<Ref32>, count: nat)
    requires count <= |a + b|
    ensures ExtentTo(part, a + b, count)
         == if count <= |a| then ExtentTo(part, a, count) else Extent(part, a) + ExtentTo(part, b, count - |a|)
  {
    if count != 0 {
      ExtentToAppend(part, a, b, count - 1);
    }
  }

  lemma ExtentAppend(part: Part, a: seq<Ref32>, b: seq<Ref32>)
    ensures Extent(part, a + b) == Extent(part, a) + Extent(part, b)
  {
    ExtentToAppend(part, a, b, |a + b|);
    if b == [] { assert a + b == a; }
  }

  lemma {:induction false} ExtentMonotone(part: Part, order: seq<Ref32>, i: nat, j: nat)
    requires i <= j <= |order|
    ensures ExtentTo(part, order, i) <= ExtentTo(part, order, j)
    decreases j
  {
    if i < j { ExtentMonotone(part, order, i, j - 1); }
  }

  /** A walk along a nonempty list, and the marks and the room it needs. */
  lemma VisitAllCons(part: Part, first: Ref32, rest: seq<Ref32>, seen: set<Ref32>)
    requires Closed(part)
    ensures var a := Visit(part, first, seen);
            var b := VisitAll(part, rest, seen + Elems(a));
            && VisitAll(part, [first] + rest, seen) == a + b
            && Elems(a) <= part.Keys && Elems(b) <= part.Keys
            && Elems(a + b) == Elems(a) + Elems(b)
            && Extent(part, a + b) == Extent(part, a) + Extent(part, b)
  {
    var a := Visit(part, first, seen);
    var b := VisitAll(part, rest, seen + Elems(a));
    assert ([first] + rest)[1..] == rest;
    VisitFresh(part, first, seen);
    VisitAllFresh(part, rest, seen + Elems(a));
    ElemsAppend(a, b);
    ExtentAppend(part, a, b);
  }

  /** The walk from an object: its class first, then its slots if it has any. */
  lemma VisitTargets(part: Part, obj: SrcObject, seen: set<Ref32>)
    requires Closed(part)
    ensures var first := Visit(part, obj.objClass, seen);
            var rest := if obj.Slotted() then VisitAll(part, obj.slots, seen + Elems(first)) else [];
            && VisitAll(part, obj.Targets(), seen) == first + rest
            && Elems(first) <= part.Keys && Elems(rest) <= part.Keys
            && Extent(part, first + rest) == Extent(part, first) + Extent(part, rest)
  {
    var others := if obj.Slotted() then obj.slots else [];
    VisitAllCons(part, obj.objClass, others, seen);
    assert obj.Targets() == [obj.objClass] + others;
  }

  /** The walk along what is left of a list. */
  lemma VisitSuffix(part: Part, raws: seq<Ref32>, i: nat, seen: set<Ref32>)
    requires Closed(part) && i < |raws|
    ensures var first := Visit(part, raws[i], seen);
            var rest := VisitAll(part, raws[i + 1..], seen + Elems(first));
            && VisitAll(part, raws[i..], seen) == first + rest
            && Elems(first) <= part.Keys && Elems(rest) <= part.Keys
            && Elems(VisitAll(part, raws[i..], seen)) == Elems(first) + Elems(rest)
            && Extent(part, VisitAll(part, raws[i..], seen)) == Extent(part, first) + Extent(part, rest)
  {
    VisitAllCons(part, raws[i], raws[i + 1..], seen);
    assert [raws[i]] + raws[i + 1..] == raws[i..];
  }

  lemma WalkFromNothing(part: Part, raw: Ref32)
    ensures Elems([]) == {} && [] + Visit(part, raw, Elems([])) == Visit(part, raw, {})
  {
    var none: seq<Ref32> := [];
    assert Elems(none) == {};
  }

  /** The same, told of an order that already lists what is marked. */
  lemma ExtendOrder(part: Part, order: seq<Ref32>, raws: seq<Ref32>, i: nat)
    requires Closed(part) && i < |raws|
    ensures var first := Visit(part, raws[i], Elems(order));
            && Elems(order + first) == Elems(order) + Elems(first)
            && order + VisitAll(part, raws[i..], Elems(order)) == order + first + VisitAll(part, raws[i + 1..], Elems(order + first))
  {
    var first := Visit(part, raws[i], Elems(order));
    VisitSuffix(part, raws, i, Elems(order));
    ElemsAppend(order, first);
    assert order + (first + VisitAll(part, raws[i + 1..], Elems(order + first)))
        == order + first + VisitAll(part, raws[i + 1..], Elems(order + first));
  }

  lemma ExtendOrderTargets(part: Part, order: seq<Ref32>, obj: SrcObject)
    requires Closed(part)
    ensures var first := Visit(part, obj.objClass, Elems(order));
            var rest := if obj.Slotted() then VisitAll(part, obj.slots, Elems(order + first)) else [];
            order + VisitAll(part, obj.Targets(), Elems(order)) == order + first + rest
  {
    var first := Visit(part, obj.objClass, Elems(order));
    VisitTargets(part, obj, Elems(order));
    ElemsAppend(order, first);
    var rest := if obj.Slotted() then VisitAll(part, obj.slots, Elems(order + first)) else [];
    assert order + (first + rest) == order + first + rest;
  }

  /** The marks and the room for an object and everything first met below it. */
  lemma VisitObject(part: Part, r: Ref32, seen: set<Ref32>)
    requires Closed(part) && r in part && r !in seen
    ensures var rest := VisitAll(part, part[r].Targets(), seen + {r});
            && Elems(rest) <= part.Keys && Elems([r] + rest) <= part.Keys && r !in rest
            && Elems([r] + rest) == {r} + Elems(rest)
            && Extent(part, [r] + rest) == Room(part, r) + Extent(part, rest)
  {
    assert ClosedObject(part, part[r]);
    var rest := VisitAll(part, part[r].Targets(), seen + {r});
    VisitAllFresh(part, part[r].Targets(), seen + {r});
    assert r in Elems(rest) <==> r in rest;
    assert Elems([r]) == {r};
    ElemsAppend([r], rest);
    ExtentAppend(part, [r], rest);
    assert Extent(part, [r]) == ExtentTo(part, [r], 0) + Room(part, r);
  }
}
