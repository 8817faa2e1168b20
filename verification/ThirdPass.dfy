/** The third pass: from slot 0 of the root on, every pointer is looked up in the forwarding map once
    more, by its low 32 bits, as if it still were a reference of the package. */
module ThirdPass {
  import opened Memory
  import opened Refs
  import opened ObjectGraph
  import opened GraphCopy

  /** The test: a pointer whose low 32 bits are a reference that has been copied. */
  predicate IsKey(forwarding: RefMap, ref: Ref) {
    IsRealPtr64(ref) && Truncate(ref) in forwarding
  }

  /** The references an object holds: its class and, if it is slotted, its slots. */
  function Fields(obj: DstObject): nat {
    if obj.flags & K_OBJ_SLOTTED != 0 then 1 + |obj.slots| else 1
  }

  function Field(obj: DstObject, k: nat): Ref
    requires k < Fields(obj)
  {
    if k == 0 then obj.objClass else obj.slots[k - 1]
  }

  function SetField(obj: DstObject, k: nat, ref: Ref): DstObject
    requires k < Fields(obj)
  {
    if k == 0 then obj.(objClass := ref) else obj.(slots := obj.slots[k - 1 := ref])
  }

  /** The memory after the pass; whether it came to an end within the depth of recursion that there is room
      for; and whether it made a reference refer to another object. */
  datatype Outcome = Outcome(memory: map<int, DstObject>, ended: bool, redirected: bool)

  /** What the pass does to the k-th field of the object at address a. */
  function UpdateField(f: RefMap, m: map<int, DstObject>, a: int, k: nat, depth: nat): Outcome
    decreases depth, 0
  {
    if !(a in m && k < Fields(m[a]) && IsKey(f, Field(m[a], k))) then Outcome(m, true, false)
    else if depth == 0 then Outcome(m, false, false)
    else
      var was := Field(m[a], k);
      var ref := f[Truncate(was)];
      var m' := m[a := SetField(m[a], k, ref)];
      var n := if Address(ref) in m' then Fields(m'[Address(ref)]) else 0;
      var o := UpdateFields(f, m', Address(ref), 0, n, depth - 1);
      o.(redirected := o.redirected || ref != was)
  }

  /** What it does to n fields from the k-th on. */
  function UpdateFields(f: RefMap, m: map<int, DstObject>, a: int, k: nat, n: nat, depth: nat): Outcome
    decreases depth, 1, n
  {
    if n == 0 then Outcome(m, true, false)
    else
      var o := UpdateField(f, m, a, k, depth);
      if !o.ended then o
      else
        var p := UpdateFields(f, o.memory, a, k + 1, n - 1, depth);
        p.(redirected := p.redirected || o.redirected)
  }

  /** What a redirection before adds. */
  function Joined(o: Outcome, redirected: bool): Outcome {
    o.(redirected := o.redirected || redirected)
  }

  /** The same objects, with as many fields. */
  ghost predicate SameShape(m: map<int, DstObject>, m': map<int, DstObject>) {
    m'.Keys == m.Keys && forall a :: a in m ==> Fields(m'[a]) == Fields(m[a]) && |m'[a].slots| == |m[a].slots|
  }

  /** The pass leaves a reference alone, and all it looks up below it: the new reference does not look
      like one of the package, or it looks like the one it was made from and the same is true of what the
      object refers to, to the depth that there is room for. */
  ghost predicate LeftAlone(part: Part, f: RefMap, raw: Ref32, depth: nat)
    decreases depth, 0
  {
    var r := Swap32(raw);
    IsRealPtr(r) && r in f && Truncate(f[r]) in f ==>
      Truncate(f[r]) == r && r in part && depth > 0 && AllLeftAlone(part, f, part[r].Targets(), 0, depth - 1)
  }

  ghost predicate AllLeftAlone(part: Part, f: RefMap, raws: seq<Ref32>, k: nat, depth: nat)
    decreases depth, 1
  {
    forall i | k <= i < |raws| :: LeftAlone(part, f, raws[i], depth)
  }

  /** The k-th field of the object at a is the translation of raw. */
  ghost predicate Holds(f: RefMap, m: map<int, DstObject>, a: int, k: nat, raw: Ref32) {
    a in m && k < Fields(m[a]) && Forwarded(f, raw) && Field(m[a], k) == Translate(f, raw)
  }

  ghost predicate AllHeld(f: RefMap, m: map<int, DstObject>, a: int, raws: seq<Ref32>) {
    forall k :: 0 <= k < |raws| ==> Holds(f, m, a, k, raws[k])
  }

  ghost predicate AllCopied(part: Part, f: RefMap, m: map<int, DstObject>) {
    && (forall r {:trigger Copied(part, f, m, r)} :: r in f ==> Copied(part, f, m, r))
    && (forall r {:trigger IsRealPtr64(f[r])} :: r in f ==> IsRealPtr64(f[r]))
    && forall r, s :: SamePlace(f, r, s) ==> r == s
  }

  lemma FieldsOfCopy(part: Part, f: RefMap, m: map<int, DstObject>, r: Ref32)
    requires Copied(part, f, m, r)
    ensures Fields(m[Address(f[r])]) == |part[r].Targets()| && AllHeld(f, m, Address(f[r]), part[r].Targets())
  {
    var o := part[r];
    var a := Address(f[r]);
    assert (K_OBJ_READ_ONLY | (o.flags & K_OBJ_MASK)) & K_OBJ_SLOTTED == o.flags & K_OBJ_SLOTTED;
    forall k | 0 <= k < |o.Targets()| ensures Holds(f, m, a, k, o.Targets()[k]) {
      assert o.Targets()[k] in o.Targets();
    }
  }

  lemma ImmediateExtended(r: Ref32)
    requires !IsRealPtr(r)
    ensures !IsRealPtr64(Extend(r))
  {
    NumberTag(r.word, 32);
  }

  lemma SetSame(m: map<int, DstObject>, a: int, k: nat)
    requires a in m && k < Fields(m[a])
    ensures m[a := SetField(m[a], k, Field(m[a], k))] == m
  {
    if k > 0 {
      assert m[a].slots[k - 1 := m[a].slots[k - 1]] == m[a].slots;
    }
  }

  /** The pass ends and redirects nothing exactly when it leaves alone what the field refers to; and then
      the memory is as it was. */
  lemma {:induction false} FieldLeftAlone(part: Part, f: RefMap, m: map<int, DstObject>, a: int, k: nat, raw: Ref32, depth: nat)
    requires AllCopied(part, f, m) && Holds(f, m, a, k, raw)
    ensures var o := UpdateField(f, m, a, k, depth);
            (o.ended && !o.redirected <==> LeftAlone(part, f, raw, depth)) && (LeftAlone(part, f, raw, depth) ==> o.memory == m)
    decreases depth, 0
  {
    var r := Swap32(raw);
    if !IsRealPtr(r) {
      ImmediateExtended(r);
    } else {
      assert Copied(part, f, m, r) && IsRealPtr64(f[r]);
      if IsKey(f, f[r]) && depth > 0 {
        FieldsOfCopy(part, f, m, r);
        SetSame(m, a, k);
        if Truncate(f[r]) == r {
          FieldsLeftAlone(part, f, m, Address(f[r]), part[r].Targets(), 0, depth - 1);
        } else {
          assert !SamePlace(f, Truncate(f[r]), r);
        }
      }
    }
  }

  lemma FirstAndRest(part: Part, f: RefMap, raws: seq<Ref32>, k: nat, depth: nat)
    requires k < |raws|
    ensures AllLeftAlone(part, f, raws, k, depth) <==> LeftAlone(part, f, raws[k], depth) && AllLeftAlone(part, f, raws, k + 1, depth)
  {
  }

  lemma {:induction false} FieldsLeftAlone(part: Part, f: RefMap, m: map<int, DstObject>, a: int, raws: seq<Ref32>, k: nat, depth: nat)
    requires AllCopied(part, f, m) && AllHeld(f, m, a, raws) && k <= |raws|
    ensures var o := UpdateFields(f, m, a, k, |raws| - k, depth);
            (o.ended && !o.redirected <==> AllLeftAlone(part, f, raws, k, depth)) && (AllLeftAlone(part, f, raws, k, depth) ==> o.memory == m)
    decreases depth, 1, |raws| - k
  {
    if k < |raws| {
      FieldLeftAlone(part, f, m, a, k, raws[k], depth);
      FirstAndRest(part, f, raws, k, depth);
      if LeftAlone(part, f, raws[k], depth) {
        FieldsLeftAlone(part, f, m, a, raws, k + 1, depth);
      }
    }
  }

  // ---------- when there is nothing to patch ----------

  /** If no address in the block looks like a reference of the package, the pass changes nothing. */
  lemma BlockApart(part: Part, rootRef: Ref32, newRoot: int, raw: Ref32, depth: nat)
    requires Closed(part)
    requires forall a :: newRoot <= a < newRoot + Extent(part, Visit(part, rootRef, {})) ==> Truncate(MakePtr(a)) !in part
    ensures LeftAlone(part, NewPlaces(part, rootRef, newRoot), raw, depth)
  {
    var order := Visit(part, rootRef, {});
    var r := Swap32(raw);
    VisitFresh(part, rootRef, {});
    if r in order {
      assert r in Elems(order);
      var i := IndexOf(order, r);
      RoomPositive(part, order);
      ExtentMonotone(part, order, i + 1, |order|);
      assert ExtentTo(part, order, i + 1) == ExtentTo(part, order, i) + Room(part, order[i]);
      var ref := MakePtr(newRoot + ExtentTo(part, order, i));
      assert Truncate(ref) !in part;
      assert Truncate(ref) in order ==> Truncate(ref) in Elems(order);
    }
  }

  // ---------- where references go ----------

  type Step = Ref -> Ref

  /** What the pass does to a reference whenever it meets it. */
  function Following(f: RefMap): Step {
    (ref: Ref) => if IsKey(f, ref) then f[Truncate(ref)] else ref
  }

  function Follow(step: Step, n: nat, ref: Ref): Ref {
    if n == 0 then ref else step(Follow(step, n - 1, ref))
  }

  /** now is what a reference may have become. */
  ghost predicate Along(step: Step, was: Ref, now: Ref) {
    exists n: nat :: Follow(step, n, was) == now
  }

  /** And it was redirected. */
  ghost predicate Gone(step: Step, was: Ref, now: Ref) {
    step(was) != was && exists n: nat :: n > 0 && Follow(step, n, was) == now
  }

  /** No reference comes back once it is redirected. */
  ghost predicate NoReturn(step: Step) {
    forall ref: Ref :: !Gone(step, ref, ref)
  }

  lemma {:induction false} FollowOn(step: Step, n: nat, m: nat, ref: Ref)
    ensures Follow(step, n + m, ref) == Follow(step, m, Follow(step, n, ref))
  {
    if m > 0 {
      FollowOn(step, n, m - 1, ref);
    }
  }

  lemma {:induction false} FollowFixed(step: Step, n: nat, ref: Ref)
    requires step(ref) == ref
    ensures Follow(step, n, ref) == ref
  {
    if n > 0 {
      FollowFixed(step, n - 1, ref);
    }
  }

  lemma AlongStays(step: Step, ref: Ref)
    ensures Along(step, ref, ref) && Along(step, ref, step(ref)) && (step(ref) != ref ==> Gone(step, ref, step(ref)))
  {
    assert Follow(step, 0, ref) == ref;
    assert Follow(step, 1, ref) == step(ref);
  }

  lemma AlongOn(step: Step, a: Ref, b: Ref, c: Ref)
    requires Along(step, a, b) && Along(step, b, c)
    ensures Along(step, a, c)
    ensures Gone(step, a, b) || Gone(step, b, c) ==> Gone(step, a, c)
  {
    var n: nat :| Follow(step, n, a) == b;
    var m: nat :| Follow(step, m, b) == c;
    FollowOn(step, n, m, a);
    if Gone(step, a, b) {
      GoneThenAlong(step, a, b, c, m);
    } else if Gone(step, b, c) {
      AlongThenGone(step, a, b, c, n);
    }
  }

  lemma GoneThenAlong(step: Step, a: Ref, b: Ref, c: Ref, m: nat)
    requires Gone(step, a, b) && Follow(step, m, b) == c
    ensures Gone(step, a, c)
  {
    var n: nat :| n > 0 && Follow(step, n, a) == b;
    FollowOn(step, n, m, a);
  }

  lemma AlongThenGone(step: Step, a: Ref, b: Ref, c: Ref, n: nat)
    requires Follow(step, n, a) == b && Gone(step, b, c)
    ensures Gone(step, a, c)
  {
    var m: nat :| m > 0 && Follow(step, m, b) == c;
    FollowOn(step, n, m, a);
    if step(a) == a {
      FollowFixed(step, n, a);
    }
  }

  /** The k-th field of the object at a has become another one. */
  ghost predicate FieldAlong(step: Step, m: map<int, DstObject>, m': map<int, DstObject>, a: int, k: nat)
    requires SameShape(m, m')
  {
    a in m && k < Fields(m[a]) ==> Along(step, Field(m[a], k), Field(m'[a], k))
  }

  ghost predicate FieldGone(step: Step, m: map<int, DstObject>, m': map<int, DstObject>, a: int, k: nat)
    requires SameShape(m, m')
  {
    a in m && k < Fields(m[a]) && Gone(step, Field(m[a], k), Field(m'[a], k))
  }

  /** Every field has gone along, and some field is gone if there was a redirection. */
  ghost predicate Moved(step: Step, m: map<int, DstObject>, m': map<int, DstObject>, redirected: bool) {
    && SameShape(m, m')
    && (forall a, k: nat :: FieldAlong(step, m, m', a, k))
    && (redirected ==> exists a, k: nat :: FieldGone(step, m, m', a, k))
  }

  lemma NotMoved(step: Step, m: map<int, DstObject>)
    ensures Moved(step, m, m, false)
  {
    forall a, k: nat ensures FieldAlong(step, m, m, a, k) {
      if a in m && k < Fields(m[a]) {
        AlongStays(step, Field(m[a], k));
      }
    }
  }

  lemma FieldsAlongOn(step: Step, m: map<int, DstObject>, m': map<int, DstObject>, m'': map<int, DstObject>, a: int, k: nat)
    requires SameShape(m, m') && SameShape(m', m'') && FieldAlong(step, m, m', a, k) && FieldAlong(step, m', m'', a, k)
    ensures FieldAlong(step, m, m'', a, k)
    ensures FieldGone(step, m, m', a, k) || FieldGone(step, m', m'', a, k) ==> FieldGone(step, m, m'', a, k)
  {
    if a in m && k < Fields(m[a]) {
      AlongOn(step, Field(m[a], k), Field(m'[a], k), Field(m''[a], k));
    }
  }

  lemma MovedOn(step: Step, m: map<int, DstObject>, m': map<int, DstObject>, m'': map<int, DstObject>, before: bool, after: bool)
    requires Moved(step, m, m', before) && Moved(step, m', m'', after)
    ensures Moved(step, m, m'', before || after)
  {
    forall a, k: nat ensures FieldAlong(step, m, m'', a, k) {
      FieldsAlongOn(step, m, m', m'', a, k);
    }
    if before {
      var a, k: nat :| FieldGone(step, m, m', a, k);
      FieldsAlongOn(step, m, m', m'', a, k);
    } else if after {
      var a, k: nat :| FieldGone(step, m', m'', a, k);
      FieldsAlongOn(step, m, m', m'', a, k);
    }
  }

  lemma MovedOne(step: Step, m: map<int, DstObject>, a: int, k: nat)
    requires a in m && k < Fields(m[a])
    ensures var was := Field(m[a], k);
            Moved(step, m, m[a := SetField(m[a], k, step(was))], step(was) != was)
  {
    var was := Field(m[a], k);
    var m' := m[a := SetField(m[a], k, step(was))];
    assert SameShape(m, m');
    forall b, j: nat ensures FieldAlong(step, m, m', b, j) {
      if b in m && j < Fields(m[b]) {
        AlongStays(step, Field(m[b], j));
      }
    }
    AlongStays(step, was);
    assert step(was) != was ==> FieldGone(step, m, m', a, k);
  }

  /** The pass moves references along, and if it redirects one it is gone in the end. */
  lemma {:induction false} UpdateMoves(f: RefMap, m: map<int, DstObject>, a: int, k: nat, depth: nat)
    ensures var o := UpdateField(f, m, a, k, depth); Moved(Following(f), m, o.memory, o.redirected)
    decreases depth, 0
  {
    var step := Following(f);
    if a in m && k < Fields(m[a]) && IsKey(f, Field(m[a], k)) && depth > 0 {
      var was := Field(m[a], k);
      var ref := f[Truncate(was)];
      assert step(was) == ref;
      var m' := m[a := SetField(m[a], k, ref)];
      MovedOne(step, m, a, k);
      var n := if Address(ref) in m' then Fields(m'[Address(ref)]) else 0;
      UpdateAllMoves(f, m', Address(ref), 0, n, depth - 1);
      var o := UpdateFields(f, m', Address(ref), 0, n, depth - 1);
      MovedOn(step, m, m', o.memory, ref != was, o.redirected);
    } else {
      NotMoved(step, m);
    }
  }

  lemma {:induction false} UpdateAllMoves(f: RefMap, m: map<int, DstObject>, a: int, k: nat, n: nat, depth: nat)
    ensures var o := UpdateFields(f, m, a, k, n, depth); Moved(Following(f), m, o.memory, o.redirected)
    decreases depth, 1, n
  {
    var step := Following(f);
    if n == 0 {
      NotMoved(step, m);
    } else {
      var o := UpdateField(f, m, a, k, depth);
      UpdateMoves(f, m, a, k, depth);
      if o.ended {
        UpdateAllMoves(f, o.memory, a, k + 1, n - 1, depth);
        var p := UpdateFields(f, o.memory, a, k + 1, n - 1, depth);
        MovedOn(step, m, o.memory, p.memory, o.redirected, p.redirected);
      }
    }
  }

  lemma RedirectedDiffers(step: Step, m: map<int, DstObject>, m': map<int, DstObject>)
    requires Moved(step, m, m', true) && NoReturn(step)
    ensures m' != m
  {
    var a, k: nat :| FieldGone(step, m, m', a, k);
  }

  /** Where no reference comes back once it is redirected, the pass ends with the memory as it was exactly
      when it leaves alone what the field refers to. */
  lemma UpdateHarmless(part: Part, f: RefMap, m: map<int, DstObject>, a: int, k: nat, raw: Ref32, depth: nat)
    requires AllCopied(part, f, m) && Holds(f, m, a, k, raw) && NoReturn(Following(f))
    ensures var o := UpdateField(f, m, a, k, depth);
            o.ended && o.memory == m <==> LeftAlone(part, f, raw, depth)
  {
    var o := UpdateField(f, m, a, k, depth);
    FieldLeftAlone(part, f, m, a, k, raw, depth);
    UpdateMoves(f, m, a, k, depth);
    if o.redirected {
      RedirectedDiffers(Following(f), m, o.memory);
    }
  }

  /** And the field itself is in the end what it was exactly when its own reference is not redirected. */
  lemma FieldHarmless(f: RefMap, m: map<int, DstObject>, a: int, k: nat, depth: nat)
    requires a in m && k < Fields(m[a]) && NoReturn(Following(f)) && depth > 0
    ensures var o := UpdateField(f, m, a, k, depth);
            && SameShape(m, o.memory)
            && (Field(o.memory[a], k) == Field(m[a], k) <==> Following(f)(Field(m[a], k)) == Field(m[a], k))
  {
    var step, was := Following(f), Field(m[a], k);
    var o := UpdateField(f, m, a, k, depth);
    UpdateMoves(f, m, a, k, depth);
    if IsKey(f, was) {
      var m' := m[a := SetField(m[a], k, step(was))];
      MovedOne(step, m, a, k);
      var ref := step(was);
      var n := if Address(ref) in m' then Fields(m'[Address(ref)]) else 0;
      UpdateAllMoves(f, m', Address(ref), 0, n, depth - 1);
      assert FieldAlong(step, m', o.memory, a, k);
      FieldBack(step, was, Field(o.memory[a], k));
    }
  }

  lemma FieldBack(step: Step, was: Ref, now: Ref)
    requires NoReturn(step) && Along(step, step(was), now)
    ensures now == was <==> step(was) == was
  {
    var n: nat :| Follow(step, n, step(was)) == now;
    if step(was) == was {
      FollowFixed(step, n, was);
    } else {
      AlongStays(step, was);
      AlongOn(step, was, step(was), now);
      assert Gone(step, was, now);
    }
  }
}
