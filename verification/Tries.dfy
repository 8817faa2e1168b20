/** What the bytes of a lexical dictionary stand for: a tree of nodes, each with its terminal characters, a
    name, whether it accepts, an attribute, and its successors. */
module Tries {
  import opened Automaton

  datatype Trie = Trie(terminals: seq<Octet>, name: seq<Octet>, accepts: bool, attribute: nat, successors: seq<Trie>)

  // ---------- looking a string up ----------

  /** The first of the nodes that has the character. */
  function Among(ts: seq<Trie>, ch: nat): Option<Trie> {
    if ts == [] then None
    else if ch in ts[0].terminals then Some(ts[0])
    else Among(ts[1..], ch)
  }

  /** Where a string leads from a node. */
  function Found(t: Trie, str: seq<nat>): Option<Trie> {
    if str == [] then Some(t)
    else
      match Found(t, str[..|str| - 1])
      case None => None
      case Some(n) => Among(n.successors, str[|str| - 1])
  }

  /** 3: nowhere; 2: to a node without successors; else whether the node it leads to accepts. */
  function Answer(t: Trie, str: seq<nat>): nat {
    match Found(t, str)
    case None => 3
    case Some(n) => if n.successors == [] then 2 else if n.accepts then 1 else 0
  }

  /** next is the one character that all the nodes have alone, as a signed char, or -1 if there is none. */
  ghost predicate Told(ts: seq<Trie>, next: int) {
    && (forall c: Octet :: AllOnly(ts, c) ==> next == if c < 128 then c else c - 256)
    && ((forall c: Octet :: !AllOnly(ts, c)) ==> next == -1)
  }

  ghost predicate AllOnly(ts: seq<Trie>, c: Octet) {
    ts != [] && forall i :: 0 <= i < |ts| ==> ts[i].terminals == [c]
  }

  /** What a lookup of a string finds: the verdict on it, how many characters lead to a node, that node's
      attribute and name unless it is the root, and the character that leads on from there. */
  ghost predicate Describes(t: Trie, str: seq<nat>, i: nat, verdict: int, attribute: nat, name: seq<Octet>, next: int) {
    && verdict == Answer(t, str)
    && i <= |str| && (i < |str| ==> Found(t, str[..i + 1]) == None)
    && var end := Found(t, str[..i]);
       && end.Some?
       && (i > 0 ==> attribute == end.value.attribute && name == end.value.name)
       && Told(if verdict == 0 || verdict == 1 then end.value.successors else [], next)
  }

  // ---------- the bytes ----------

  function Big(b: seq<Octet>): nat {
    if b == [] then 0 else Big(b[..|b| - 1]) * 256 + b[|b| - 1]
  }

  /** Two bytes that tell a place. */
  function Pointer(b: seq<Octet>, at: nat): nat
    requires at + 2 <= |b|
  {
    256 * b[at] as nat + b[at + 1] as nat
  }

  /** The characters, none of which is 0, and a 0. */
  predicate StringAt(b: seq<Octet>, at: nat, s: seq<Octet>)
    decreases |s|
  {
    && at < |b|
    && if s == [] then b[at] == 0 else b[at] == s[0] != 0 && StringAt(b, at + 1, s[1..])
  }

  /** Only attributes of one, two or four bytes are read. */
  predicate AttributeIs(b: seq<Octet>, value: nat) {
    value == if |b| == 1 || |b| == 2 || |b| == 4 then Big(b) else 0
  }

  /** Two bytes tell where the terminals are, and the name behind them. */
  predicate NamesAt(b: seq<Octet>, at: nat, t: Trie) {
    && at + 2 <= |b| && t.terminals != []
    && var p := Pointer(b, at);
       var q := p + |t.terminals| + 1;
       StringAt(b, p, t.terminals) && StringAt(b, q, t.name)
  }

  /** The i-th successor is the last. */
  predicate Final(t: Trie, i: nat) { i + 1 == |t.successors| }

  function HeadSize(t: Trie): nat {
    if t.successors == [] then 3 else 5
  }

  /** A byte of flags: the node accepts, it has no successors, no sibling follows.  Then two bytes that tell
      where the first successor is, if there is one, and the attribute. */
  ghost predicate NodeAt(b: seq<Octet>, attrLen: nat, at: nat, t: Trie, last: bool)
    decreases t, 0
  {
    && at + HeadSize(t) + attrLen <= |b|
    && (b[at + 2] % 2 == 1 <==> t.accepts) && (b[at + 2] / 2 % 2 == 1 <==> t.successors == []) && (b[at + 2] / 4 % 2 == 1 <==> last)
    && AttributeIs(b[at + HeadSize(t)..at + HeadSize(t) + attrLen], t.attribute)
    && (t.successors != [] ==> SiblingsAt(b, attrLen, Pointer(b, at + 3), t, 0))
  }

  /** The successors of a node from the i-th on, one behind the other. */
  ghost predicate SiblingsAt(b: seq<Octet>, attrLen: nat, at: nat, t: Trie, i: nat)
    requires i < |t.successors|
    decreases t, 0, |t.successors| - i
  {
    var c, last := t.successors[i], Final(t, i);
    && ROOT < at && NamesAt(b, at, c) && NodeAt(b, attrLen, at, c, last)
    && (!last ==> var next := at + HeadSize(c) + attrLen; SiblingsAt(b, attrLen, next, t, i + 1))
  }

  /** The place p holds the node t. */
  ghost predicate Holds(b: seq<Octet>, attrLen: nat, p: nat, t: Trie) {
    NodeAt(b, attrLen, p, t, false) || NodeAt(b, attrLen, p, t, true)
  }

  /** The table of a trie: the root is at 2; what it says of terminals and siblings does not matter. */
  ghost predicate Encodes(b: seq<Octet>, attrLen: nat, t: Trie) {
    Holds(b, attrLen, 2, t)
  }

  // ---------- what is read there ----------

  lemma BigOfTwo(b: seq<Octet>, at: nat)
    requires at + 2 <= |b|
    ensures Big(b[at..at + 2]) == b[at] as nat * 256 + b[at + 1] as nat
  {
    var s := b[at..at + 2];
    assert s[..1][..0] == [] && Big(s[..1]) == Big(s[..1][..0]) * 256 + s[0];
  }

  lemma BigOfFour(b: seq<Octet>, at: nat)
    requires at + 4 <= |b|
    ensures Big(b[at..at + 4]) == b[at] as nat * 0x100_0000 + b[at + 1] as nat * 0x1_0000 + b[at + 2] as nat * 0x100 + b[at + 3] as nat
  {
    var s := b[at..at + 4];
    BigOfTwo(b, at);
    assert s[..3][..2] == b[at..at + 2];
    assert Big(s[..3]) == Big(b[at..at + 2]) * 256 + s[2];
  }

  lemma {:induction false} StringRead(b: seq<Octet>, at: nat, s: seq<Octet>)
    requires StringAt(b, at, s)
    ensures CString(b, at) == s && at + |s| < |b|
    decreases |s|
  {
    if s != [] {
      StringRead(b, at + 1, s[1..]);
    }
  }

  lemma NamesRead(b: seq<Octet>, at: nat, t: Trie)
    requires NamesAt(b, at, t)
    ensures Terminals(b, at) == t.terminals && TerminalsOffset(b, at) + |t.terminals| + 1 < |b|
    ensures NameOffset(b, at) < |b| && CString(b, NameOffset(b, at)) == t.name
  {
    PointersRead(b, at);
    var p := Pointer(b, at);
    var q := p + |t.terminals| + 1;
    StringRead(b, p, t.terminals);
    StringRead(b, q, t.name);
  }

  lemma PointersRead(b: seq<Octet>, at: nat)
    ensures at + 2 <= |b| ==> Pointer(b, at) == TerminalsOffset(b, at)
    ensures at + 5 <= |b| ==> Pointer(b, at + 3) == NextOffset(b, at)
  {
  }

  lemma NodeRead(b: seq<Octet>, attrLen: nat, at: nat, t: Trie, last: bool)
    requires NodeAt(b, attrLen, at, t, last)
    ensures IsLeaf(b, at) == (t.successors == []) && Accepts(b, at) == t.accepts && IsLast(b, at) == last
    ensures HeaderSize(b, at) == HeadSize(t) && Attribute(b, attrLen, at) == t.attribute
    ensures t.successors != [] ==> SiblingsAt(b, attrLen, NextOffset(b, at), t, 0)
  {
    AttributeRead(b, attrLen, at + HeadSize(t));
    PointersRead(b, at);
  }

  lemma AttributeRead(b: seq<Octet>, attrLen: nat, p: nat)
    requires p + attrLen <= |b|
    ensures AttributeIs(b[p..p + attrLen], AttributeAt(b, attrLen, p))
  {
    if attrLen == 1 {
      assert b[p..p + 1][..0] == [];
    } else if attrLen == 2 {
      BigOfTwo(b, p);
    } else if attrLen == 4 {
      BigOfFour(b, p);
    }
  }

  /** The place p holds the node t, which is a successor of another. */
  ghost predicate Stands(b: seq<Octet>, attrLen: nat, p: nat, t: Trie) {
    ROOT < p && NamesAt(b, p, t) && Holds(b, attrLen, p, t)
  }

  /** The places hold the nodes, one by one. */
  ghost predicate AllStand(b: seq<Octet>, attrLen: nat, places: seq<nat>, ts: seq<Trie>) {
    |places| == |ts| && forall k :: 0 <= k < |ts| ==> Stands(b, attrLen, places[k], ts[k])
  }

  lemma OneMoreStands(b: seq<Octet>, attrLen: nat, p: nat, places: seq<nat>, t: Trie, ts: seq<Trie>)
    requires Stands(b, attrLen, p, t) && AllStand(b, attrLen, places, ts)
    ensures AllStand(b, attrLen, [p] + places, [t] + ts)
  {
    forall k | 0 <= k < |ts| + 1 ensures Stands(b, attrLen, ([p] + places)[k], ([t] + ts)[k]) {
      assert k > 0 ==> ([p] + places)[k] == places[k - 1] && ([t] + ts)[k] == ts[k - 1];
    }
  }

  lemma SiblingRead(b: seq<Octet>, attrLen: nat, at: nat, t: Trie, i: nat)
    requires i < |t.successors| && SiblingsAt(b, attrLen, at, t, i)
    ensures Stands(b, attrLen, at, t.successors[i]) && at < |b|
    ensures IsLast(b, at) <==> Final(t, i)
    ensures i + 1 < |t.successors| ==> SiblingsAt(b, attrLen, SiblingOffset(b, attrLen, at), t, i + 1)
  {
    NodeRead(b, attrLen, at, t.successors[i], Final(t, i));
  }

  lemma LastSibling(b: seq<Octet>, attrLen: nat, at: nat)
    ensures at < |b| && IsLast(b, at) ==> Siblings(b, attrLen, at) == [at] + []
    ensures at < |b| && !IsLast(b, at) ==> Siblings(b, attrLen, at) == [at] + Siblings(b, attrLen, SiblingOffset(b, attrLen, at))
  {
  }

  lemma SuccessorsFrom(t: Trie, i: nat)
    requires i < |t.successors|
    ensures t.successors[i..] == [t.successors[i]] + t.successors[i + 1..]
  {
  }

  /** The siblings found in the bytes are the successors. */
  lemma {:induction false} SiblingsRead(b: seq<Octet>, attrLen: nat, at: nat, t: Trie, i: nat)
    requires i < |t.successors| && SiblingsAt(b, attrLen, at, t, i)
    ensures AllStand(b, attrLen, Siblings(b, attrLen, at), t.successors[i..])
    decreases |t.successors| - i
  {
    var next, rest := SiblingOffset(b, attrLen, at), t.successors[i + 1..];
    SiblingRead(b, attrLen, at, t, i);
    LastSibling(b, attrLen, at);
    SuccessorsFrom(t, i);
    if rest == [] {
      assert AllStand(b, attrLen, [], rest);
      OneMoreStands(b, attrLen, at, [], t.successors[i], rest);
    } else {
      SiblingsRead(b, attrLen, next, t, i + 1);
      OneMoreStands(b, attrLen, at, Siblings(b, attrLen, next), t.successors[i], rest);
    }
  }

  lemma SuccessorsRead(b: seq<Octet>, attrLen: nat, p: nat, t: Trie)
    requires Holds(b, attrLen, p, t)
    ensures AllStand(b, attrLen, Successors(b, attrLen, p), t.successors)
  {
    NodeRead(b, attrLen, p, t, NodeAt(b, attrLen, p, t, true));
    if t.successors != [] {
      SiblingsRead(b, attrLen, NextOffset(b, p), t, 0);
      assert t.successors[0..] == t.successors;
    }
  }

  /** A place is found exactly when a node is, and it is the node's. */
  ghost predicate Matches(b: seq<Octet>, attrLen: nat, place: Option<nat>, node: Option<Trie>) {
    match place
    case None => node == None
    case Some(p) => node.Some? && Stands(b, attrLen, p, node.value)
  }

  lemma {:induction false} FirstWithRead(b: seq<Octet>, attrLen: nat, s: seq<nat>, ts: seq<Trie>, ch: nat)
    requires AllStand(b, attrLen, s, ts)
    ensures Matches(b, attrLen, FirstWith(b, s, ch), Among(ts, ch))
  {
    if s != [] {
      assert Stands(b, attrLen, s[0], ts[0]);
      NamesRead(b, s[0], ts[0]);
      FirstWithRead(b, attrLen, s[1..], ts[1..], ch);
    }
  }

  lemma StepRead(b: seq<Octet>, attrLen: nat, p: nat, t: Trie, ch: nat)
    requires Holds(b, attrLen, p, t)
    ensures Matches(b, attrLen, Steps(b, attrLen)(p, ch), Among(t.successors, ch))
  {
    SuccessorsRead(b, attrLen, p, t);
    FirstWithRead(b, attrLen, Successors(b, attrLen, p), t.successors, ch);
  }

  /** The walk through the bytes comes to the place of the node that the string leads to. */
  lemma {:induction false} WalkRead(b: seq<Octet>, attrLen: nat, t: Trie, str: seq<nat>, i: nat)
    requires Encodes(b, attrLen, t) && i <= |str|
    ensures var place, node := Walk(Steps(b, attrLen), str, i), Found(t, str[..i]);
            && (place == None <==> node == None)
            && (place.Some? ==> Holds(b, attrLen, place.value, node.value))
            && (place.Some? && i > 0 ==> Stands(b, attrLen, place.value, node.value))
  {
    if i == 0 {
      assert str[..0] == [];
    } else {
      WalkRead(b, attrLen, t, str, i - 1);
      assert str[..i][..i - 1] == str[..i - 1];
      var place, node := Walk(Steps(b, attrLen), str, i - 1), Found(t, str[..i - 1]);
      if place.Some? {
        StepRead(b, attrLen, place.value, node.value, str[i - 1]);
      }
    }
  }

  /** In the bytes of a trie the verdict on any string is the trie's. */
  lemma VerdictRead(b: seq<Octet>, attrLen: nat, t: Trie, str: seq<nat>)
    requires Encodes(b, attrLen, t)
    ensures Verdict(b, attrLen, str) == Answer(t, str)
  {
    WalkRead(b, attrLen, t, str, |str|);
    assert str[..|str|] == str;
    var place, node := Walk(Steps(b, attrLen), str, |str|), Found(t, str);
    if place.Some? {
      NodeRead(b, attrLen, place.value, node.value, NodeAt(b, attrLen, place.value, node.value, true));
    }
  }

  /** And so are the attribute and the name of the node that a string leads to. */
  lemma PlaceRead(b: seq<Octet>, attrLen: nat, t: Trie, str: seq<nat>, i: nat)
    requires Encodes(b, attrLen, t) && 0 < i <= |str| && Walk(Steps(b, attrLen), str, i).Some?
    ensures var place, node := Walk(Steps(b, attrLen), str, i).value, Found(t, str[..i]);
            && node.Some? && Attribute(b, attrLen, place) == node.value.attribute
            && CString(b, NameOffset(b, place)) == node.value.name
  {
    WalkRead(b, attrLen, t, str, i);
    var place, node := Walk(Steps(b, attrLen), str, i).value, Found(t, str[..i]).value;
    NamesRead(b, place, node);
    NodeRead(b, attrLen, place, node, NodeAt(b, attrLen, place, node, true));
  }

  lemma AllRead(b: seq<Octet>, attrLen: nat, s: seq<nat>, ts: seq<Trie>, c: Octet)
    requires AllStand(b, attrLen, s, ts)
    ensures AllHave(b, s, c) <==> AllOnly(ts, c)
  {
    forall k | 0 <= k < |s| ensures Terminals(b, s[k]) == ts[k].terminals {
      assert Stands(b, attrLen, s[k], ts[k]);
      NamesRead(b, s[k], ts[k]);
    }
  }

  /** What is told of the successors of a node is what the trie says. */
  lemma ToldRead(b: seq<Octet>, attrLen: nat, p: nat, t: Trie, next: int)
    requires Holds(b, attrLen, p, t)
    ensures Tells(b, Successors(b, attrLen, p), next) <==> Told(t.successors, next)
  {
    SuccessorsRead(b, attrLen, p, t);
    forall c: Octet ensures AllHave(b, Successors(b, attrLen, p), c) <==> AllOnly(t.successors, c) {
      AllRead(b, attrLen, Successors(b, attrLen, p), t.successors, c);
    }
  }

  /** What the bytes of a trie tell of a string is what the trie says. */
  lemma LookupRead(b: seq<Octet>, attrLen: nat, t: Trie, str: seq<nat>, i: nat, place: nat, next: int)
    requires Encodes(b, attrLen, t) && i <= |str| && Walk(Steps(b, attrLen), str, i) == Some(place)
    requires i < |str| ==> Walk(Steps(b, attrLen), str, i + 1) == None
    requires var verdict := Verdict(b, attrLen, str);
             Tells(b, if verdict == 0 || verdict == 1 then Successors(b, attrLen, place) else [], next)
    ensures Describes(t, str, i, Verdict(b, attrLen, str), Attribute(b, attrLen, place), CString(b, NameOffset(b, place)), next)
  {
    VerdictRead(b, attrLen, t, str);
    WalkRead(b, attrLen, t, str, i);
    if i > 0 {
      PlaceRead(b, attrLen, t, str, i);
    }
    if i < |str| {
      WalkRead(b, attrLen, t, str, i + 1);
    }
    ToldRead(b, attrLen, place, Found(t, str[..i]).value, next);
    NoneTold(b, next);
  }

  lemma NoneTold(b: seq<Octet>, next: int)
    ensures Tells(b, [], next) ==> Told([], next)
  {
    if Tells(b, [], next) {
      assert forall c: Octet :: !AllHave(b, [], c);
    }
  }

  // ---------- the places of the nodes ----------

  /** Where the nodes of a trie stand. */
  ghost function Places(b: seq<Octet>, attrLen: nat, at: nat, t: Trie): set<nat>
    decreases t, 0
  {
    {at} + if t.successors == [] || at + 5 > |b| then {} else SiblingPlaces(b, attrLen, Pointer(b, at + 3), t, 0)
  }

  ghost function SiblingPlaces(b: seq<Octet>, attrLen: nat, at: nat, t: Trie, i: nat): set<nat>
    requires i < |t.successors|
    decreases t, 0, |t.successors| - i
  {
    var next := at + HeadSize(t.successors[i]) + attrLen;
    Places(b, attrLen, at, t.successors[i]) + if i + 1 < |t.successors| then SiblingPlaces(b, attrLen, next, t, i + 1) else {}
  }

  ghost predicate AllFormed(b: seq<Octet>, attrLen: nat, nodes: set<nat>, places: set<nat>) {
    forall n {:trigger NodeFormed(b, attrLen, nodes, n)} :: n in places ==> NodeFormed(b, attrLen, nodes, n)
  }

  lemma FirstPlace(b: seq<Octet>, attrLen: nat, at: nat, t: Trie, i: nat)
    requires i < |t.successors|
    ensures at in SiblingPlaces(b, attrLen, at, t, i)
  {
    assert at in Places(b, attrLen, at, t.successors[i]);
  }

  lemma {:induction false} NodePlaces(b: seq<Octet>, attrLen: nat, at: nat, t: Trie, last: bool, nodes: set<nat>)
    requires NodeAt(b, attrLen, at, t, last) && ROOT <= at && Places(b, attrLen, at, t) <= nodes
    requires at != ROOT ==> NamesAt(b, at, t) && (last || SiblingOffset(b, attrLen, at) in nodes)
    ensures AllFormed(b, attrLen, nodes, Places(b, attrLen, at, t))
    decreases t, 0
  {
    NodeRead(b, attrLen, at, t, last);
    if at != ROOT {
      NamesRead(b, at, t);
    }
    if t.successors != [] {
      var next := NextOffset(b, at);
      PointersRead(b, at);
      FirstPlace(b, attrLen, next, t, 0);
      SiblingsPlaced(b, attrLen, next, t, 0, nodes);
    }
    assert NodeFormed(b, attrLen, nodes, at);
  }

  lemma {:induction false} SiblingsPlaced(b: seq<Octet>, attrLen: nat, at: nat, t: Trie, i: nat, nodes: set<nat>)
    requires i < |t.successors| && SiblingsAt(b, attrLen, at, t, i) && SiblingPlaces(b, attrLen, at, t, i) <= nodes
    ensures ROOT < at && AllFormed(b, attrLen, nodes, SiblingPlaces(b, attrLen, at, t, i))
    decreases t, 0, |t.successors| - i
  {
    var c, last := t.successors[i], Final(t, i);
    NodeRead(b, attrLen, at, c, last);
    if !last {
      var next := SiblingOffset(b, attrLen, at);
      FirstPlace(b, attrLen, next, t, i + 1);
      SiblingsPlaced(b, attrLen, next, t, i + 1, nodes);
    }
    NodePlaces(b, attrLen, at, c, last, nodes);
  }

  /** The bytes of a trie are a well-formed table. */
  lemma EncodedFormed(b: seq<Octet>, attrLen: nat, t: Trie)
    requires Encodes(b, attrLen, t)
    ensures WellFormed(b, attrLen, Places(b, attrLen, ROOT, t))
  {
    NodePlaces(b, attrLen, ROOT, t, NodeAt(b, attrLen, ROOT, t, true), Places(b, attrLen, ROOT, t));
  }
}
