/** The automaton that the bytes of a lexical dictionary encode.  A node has two bytes for the place of
    its terminal characters, a byte of flags, two bytes for the place of its first successor unless it
    has none, and its attribute; the next sibling follows. */
module Automaton {
  type Octet = n: nat | n < 256

  datatype Option<T> = None | Some(value: T)

  const ROOT: nat := 2

  function ByteAt(trie: seq<Octet>, offset: nat): Octet {
    if offset < |trie| then trie[offset] else 0
  }

  function Flags(trie: seq<Octet>, node: nat): Octet { ByteAt(trie, node + 2) }

  predicate Accepts(trie: seq<Octet>, node: nat) { Flags(trie, node) % 2 == 1 }

  /** 0x02: no successors */
  predicate IsLeaf(trie: seq<Octet>, node: nat) { Flags(trie, node) / 2 % 2 == 1 }

  /** 0x04: no more siblings */
  predicate IsLast(trie: seq<Octet>, node: nat) { Flags(trie, node) / 4 % 2 == 1 }

  function TerminalsOffset(trie: seq<Octet>, node: nat): nat {
    ByteAt(trie, node) * 256 + ByteAt(trie, node + 1)
  }

  function NextOffset(trie: seq<Octet>, node: nat): nat {
    ByteAt(trie, node + 3) * 256 + ByteAt(trie, node + 4)
  }

  function HeaderSize(trie: seq<Octet>, node: nat): nat {
    if IsLeaf(trie, node) then 3 else 5
  }

  function SiblingOffset(trie: seq<Octet>, attrLen: nat, node: nat): nat {
    node + HeaderSize(trie, node) + attrLen
  }

  /** The bytes up to the next 0. */
  function CString(trie: seq<Octet>, offset: nat): (s: seq<Octet>)
    ensures forall i :: 0 <= i < |s| ==> s[i] != 0
    decreases |trie| - offset
  {
    if offset >= |trie| || trie[offset] == 0 then [] else [trie[offset]] + CString(trie, offset + 1)
  }

  function Terminals(trie: seq<Octet>, node: nat): seq<Octet> {
    CString(trie, TerminalsOffset(trie, node))
  }

  /** The attribute behind the header, of one, two or four bytes. */
  function Attribute(trie: seq<Octet>, attrLen: nat, node: nat): nat {
    AttributeAt(trie, attrLen, node + HeaderSize(trie, node))
  }

  function AttributeAt(trie: seq<Octet>, attrLen: nat, p: nat): nat {
    if attrLen == 1 then ByteAt(trie, p)
    else if attrLen == 2 then ByteAt(trie, p) * 0x100 + ByteAt(trie, p + 1)
    else if attrLen == 4 then
      ByteAt(trie, p) * 0x100_0000 + ByteAt(trie, p + 1) * 0x1_0000 + ByteAt(trie, p + 2) * 0x100 + ByteAt(trie, p + 3)
    else 0
  }

  /** The name of a node stands behind its terminals and their end. */
  function NameOffset(trie: seq<Octet>, node: nat): nat {
    TerminalsOffset(trie, node) + |Terminals(trie, node)| + 1
  }

  /** nodes are the places of nodes: all that they refer to is inside the table, and is a node where a
      node is meant.  All but the root have terminal characters. */
  ghost predicate WellFormed(trie: seq<Octet>, attrLen: nat, nodes: set<nat>) {
    && ROOT in nodes
    && forall n {:trigger NodeFormed(trie, attrLen, nodes, n)} :: n in nodes ==> NodeFormed(trie, attrLen, nodes, n)
  }

  ghost predicate NodeFormed(trie: seq<Octet>, attrLen: nat, nodes: set<nat>, n: nat) {
    && ROOT <= n && SiblingOffset(trie, attrLen, n) <= |trie|
    && (n != ROOT ==> Terminals(trie, n) != [] && TerminalsOffset(trie, n) + |Terminals(trie, n)| + 1 < |trie|)
    && (!IsLeaf(trie, n) ==> NextOffset(trie, n) in nodes && NextOffset(trie, n) != ROOT)
    && (!IsLast(trie, n) && n != ROOT ==> SiblingOffset(trie, attrLen, n) in nodes)
  }

  /** A node and the siblings behind it. */
  function Siblings(trie: seq<Octet>, attrLen: nat, node: nat): (r: seq<nat>)
    ensures r != [] && r[0] == node
    decreases |trie| - node
  {
    if IsLast(trie, node) || node >= |trie| then [node]
    else [node] + Siblings(trie, attrLen, SiblingOffset(trie, attrLen, node))
  }

  function Successors(trie: seq<Octet>, attrLen: nat, node: nat): seq<nat> {
    if IsLeaf(trie, node) then [] else Siblings(trie, attrLen, NextOffset(trie, node))
  }

  /** The first of the nodes that has the character among its terminals. */
  function FirstWith(trie: seq<Octet>, nodes: seq<nat>, ch: nat): Option<nat> {
    if nodes == [] then None
    else if ch in Terminals(trie, nodes[0]) then Some(nodes[0])
    else FirstWith(trie, nodes[1..], ch)
  }

  function Step(trie: seq<Octet>, attrLen: nat, node: nat, ch: nat): Option<nat> {
    FirstWith(trie, Successors(trie, attrLen, node), ch)
  }

  type Stepper = (nat, nat) -> Option<nat>

  function Steps(trie: seq<Octet>, attrLen: nat): Stepper {
    (node: nat, ch: nat) => Step(trie, attrLen, node, ch)
  }

  /** Where the first i characters of a string lead from the root. */
  function Walk(step: Stepper, str: seq<nat>, i: nat): Option<nat>
    requires i <= |str|
  {
    if i == 0 then Some(ROOT)
    else
      match Walk(step, str, i - 1)
      case None => None
      case Some(n) => step(n, str[i - 1])
  }

  /** 3: the string leads nowhere; 2: it leads to a node without successors; else whether the node it
      leads to accepts. */
  function Verdict(trie: seq<Octet>, attrLen: nat, str: seq<nat>): nat {
    VerdictOn(trie, Walk(Steps(trie, attrLen), str, |str|))
  }

  function VerdictOn(trie: seq<Octet>, end: Option<nat>): nat {
    match end
    case None => 3
    case Some(n) => if IsLeaf(trie, n) then 2 else if Accepts(trie, n) then 1 else 0
  }

  /** All successors have the one terminal character c. */
  ghost predicate AllHave(trie: seq<Octet>, nodes: seq<nat>, c: Octet) {
    nodes != [] && forall i :: 0 <= i < |nodes| ==> Terminals(trie, nodes[i]) == [c]
  }

  /** A string that leads on only by c. */
  ghost predicate Forces(step: Stepper, str: seq<nat>, c: Octet) {
    forall d: nat :: Known(step, str + [d]) <==> d == c
  }

  /** A string that leads somewhere. */
  predicate Known(step: Stepper, str: seq<nat>) {
    Walk(step, str, |str|) != None
  }

  /** A char, which is signed. */
  function SignedChar(c: Octet): int {
    if c < 128 then c else c - 256
  }

  /** next is the one character that all the nodes have, or -1 if there is none. */
  ghost predicate Tells(trie: seq<Octet>, nodes: seq<nat>, next: int) {
    && (forall c: Octet :: AllHave(trie, nodes, c) ==> next == SignedChar(c))
    && ((forall c: Octet :: !AllHave(trie, nodes, c)) ==> next == -1)
  }

  // ---------- lemmas ----------

  lemma FirstOfString(trie: seq<Octet>, offset: nat)
    requires offset + |CString(trie, offset)| + 1 < |trie| && CString(trie, offset) != []
    ensures trie[offset] == CString(trie, offset)[0]
    ensures trie[offset + 1] == 0 <==> CString(trie, offset) == [trie[offset]]
  {
    assert CString(trie, offset) == [trie[offset]] + CString(trie, offset + 1);
  }

  lemma NextSibling(trie: seq<Octet>, attrLen: nat, all: seq<nat>, i: nat)
    requires i < |all| && Siblings(trie, attrLen, all[i]) == all[i..] && all[i] < |trie|
    ensures IsLast(trie, all[i]) ==> i + 1 == |all|
    ensures !IsLast(trie, all[i]) ==> i + 1 < |all| && all[i + 1] == SiblingOffset(trie, attrLen, all[i])
                                      && Siblings(trie, attrLen, all[i + 1]) == all[i + 1..]
  {
    if !IsLast(trie, all[i]) {
      var next := SiblingOffset(trie, attrLen, all[i]);
      assert all[i..] == [all[i]] + Siblings(trie, attrLen, next);
      assert all[i + 1..] == all[i..][1..] == Siblings(trie, attrLen, next);
    }
  }

  /** Where a string leads to is a matter of its beginning. */
  lemma {:induction false} WalkOfPrefix(step: Stepper, a: seq<nat>, b: seq<nat>, i: nat)
    requires i <= |a| && i <= |b| && forall j :: 0 <= j < i ==> a[j] == b[j]
    ensures Walk(step, a, i) == Walk(step, b, i)
  {
    if i > 0 {
      WalkOfPrefix(step, a, b, i - 1);
    }
  }

  /** step goes from node to node as the table says. */
  ghost predicate IsStepper(step: Stepper, trie: seq<Octet>, attrLen: nat) {
    forall node: nat, ch: nat {:trigger Step(trie, attrLen, node, ch)} :: step(node, ch) == Step(trie, attrLen, node, ch)
  }

  lemma {:induction false} SameWalk(step: Stepper, trie: seq<Octet>, attrLen: nat, str: seq<nat>, i: nat)
    requires IsStepper(step, trie, attrLen) && i <= |str|
    ensures Walk(step, str, i) == Walk(Steps(trie, attrLen), str, i)
  {
    if i > 0 {
      SameWalk(step, trie, attrLen, str, i - 1);
    }
  }

  lemma WalkNext(step: Stepper, str: seq<nat>, i: nat, n: nat)
    requires i < |str| && Walk(step, str, i) == Some(n)
    ensures Walk(step, str, i + 1) == step(n, str[i])
  {
  }

  lemma WalkOfLonger(step: Stepper, str: seq<nat>, n: nat, d: nat)
    requires Walk(step, str, |str|) == Some(n)
    ensures Walk(step, str + [d], |str| + 1) == step(n, d)
  {
    WalkOfPrefix(step, str, str + [d], |str|);
  }

  /** A string that leads nowhere cannot be continued. */
  lemma {:induction false} Stuck(step: Stepper, str: seq<nat>, i: nat, j: nat)
    requires i <= j <= |str| && Walk(step, str, i) == None
    ensures Walk(step, str, j) == None
    decreases j
  {
    if i < j {
      Stuck(step, str, i, j - 1);
    }
  }

  lemma {:induction false} FirstWithNone(trie: seq<Octet>, nodes: seq<nat>, ch: nat)
    ensures FirstWith(trie, nodes, ch) == None <==> forall i :: 0 <= i < |nodes| ==> ch !in Terminals(trie, nodes[i])
  {
    if nodes != [] {
      FirstWithNone(trie, nodes[1..], ch);
      assert forall i :: 0 < i < |nodes| ==> nodes[i] == nodes[1..][i - 1];
    }
  }

  lemma StepAmong(trie: seq<Octet>, attrLen: nat, node: nat, ch: nat)
    ensures Steps(trie, attrLen)(node, ch) == None <==>
      forall i :: 0 <= i < |Successors(trie, attrLen, node)| ==> ch !in Terminals(trie, Successors(trie, attrLen, node)[i])
  {
    FirstWithNone(trie, Successors(trie, attrLen, node), ch);
  }

  lemma StepForced(trie: seq<Octet>, attrLen: nat, node: nat, c: Octet, ch: nat)
    requires AllHave(trie, Successors(trie, attrLen, node), c)
    ensures Steps(trie, attrLen)(node, ch) != None <==> ch == c
  {
    StepAmong(trie, attrLen, node, ch);
    assert Terminals(trie, Successors(trie, attrLen, node)[0]) == [c];
  }

  /** If all successors have the one character c, the string leads on by c and by nothing else. */
  lemma ForcedNext(trie: seq<Octet>, attrLen: nat, str: seq<nat>, n: nat, c: Octet)
    requires Walk(Steps(trie, attrLen), str, |str|) == Some(n) && AllHave(trie, Successors(trie, attrLen, n), c)
    ensures Forces(Steps(trie, attrLen), str, c)
  {
    var steps := Steps(trie, attrLen);
    forall d: nat ensures Known(steps, str + [d]) <==> d == c {
      WalkOfLonger(steps, str, n, d);
      StepForced(trie, attrLen, n, c, d);
    }
  }

  /** A next character is told exactly when the successors have one alone, except that 0xFF looks like
      none; and the string leads on by the character that is told and by nothing else. */
  lemma ToldIsForced(trie: seq<Octet>, attrLen: nat, str: seq<nat>, n: nat, next: int)
    requires Walk(Steps(trie, attrLen), str, |str|) == Some(n) && Tells(trie, Successors(trie, attrLen, n), next)
    ensures next != -1 <==> exists c: Octet :: c != 0xFF && AllHave(trie, Successors(trie, attrLen, n), c)
    ensures forall c: Octet :: next != -1 && next == SignedChar(c) ==> Forces(Steps(trie, attrLen), str, c)
  {
    if next != -1 {
      var c: Octet :| AllHave(trie, Successors(trie, attrLen, n), c);
      ForcedNext(trie, attrLen, str, n, c);
    }
  }

  /** The other way round, where no node has a terminal twice. */
  lemma OnlyForcedNext(trie: seq<Octet>, attrLen: nat, str: seq<nat>, n: nat, c: Octet)
    requires Walk(Steps(trie, attrLen), str, |str|) == Some(n) && Forces(Steps(trie, attrLen), str, c)
    requires forall i :: 0 <= i < |Successors(trie, attrLen, n)| ==>
      var t := Terminals(trie, Successors(trie, attrLen, n)[i]); t != [] && forall j, k :: 0 <= j < k < |t| ==> t[j] != t[k]
    ensures AllHave(trie, Successors(trie, attrLen, n), c)
  {
    var nodes := Successors(trie, attrLen, n);
    OnlyTerminal(trie, attrLen, str, n, c, c);
    assert Known(Steps(trie, attrLen), str + [c as nat]);
    forall i | 0 <= i < |nodes| ensures Terminals(trie, nodes[i]) == [c] {
      var t := Terminals(trie, nodes[i]);
      forall j | 0 <= j < |t| ensures t[j] == c {
        OnlyTerminal(trie, attrLen, str, n, c, t[j]);
      }
      OneTerminal(t, c);
    }
  }

  lemma OneTerminal(t: seq<Octet>, c: Octet)
    requires t != [] && (forall j :: 0 <= j < |t| ==> t[j] == c) && forall j, k :: 0 <= j < k < |t| ==> t[j] != t[k]
    ensures t == [c]
  {
    assert t[|t| - 1] == t[0];
  }

  lemma OnlyTerminal(trie: seq<Octet>, attrLen: nat, str: seq<nat>, n: nat, c: Octet, d: nat)
    requires Walk(Steps(trie, attrLen), str, |str|) == Some(n) && Forces(Steps(trie, attrLen), str, c)
    ensures (exists i :: 0 <= i < |Successors(trie, attrLen, n)| && d in Terminals(trie, Successors(trie, attrLen, n)[i])) <==> d == c
  {
    WalkOfLonger(Steps(trie, attrLen), str, n, d);
    StepAmong(trie, attrLen, n, d);
    assert Known(Steps(trie, attrLen), str + [d]) <==> d == c;
  }

  /** A way through the automaton, from the root, that spells the first i characters. */
  ghost predicate Spells(trie: seq<Octet>, attrLen: nat, path: seq<nat>, str: seq<nat>, i: nat)
    requires i <= |str|
  {
    && |path| == i + 1
    && path[0] == ROOT
    && forall k :: 0 <= k < i ==> Leads(trie, attrLen, path[k], path[k + 1], str[k])
  }

  ghost predicate Leads(trie: seq<Octet>, attrLen: nat, from: nat, to: nat, ch: nat) {
    to in Successors(trie, attrLen, from) && ch in Terminals(trie, to)
  }

  /** No two successors of a node have a terminal in common. */
  ghost predicate Deterministic(trie: seq<Octet>, attrLen: nat, nodes: set<nat>) {
    forall from, m, n, ch | from in nodes :: Leads(trie, attrLen, from, m, ch) && Leads(trie, attrLen, from, n, ch) ==> m == n
  }

  lemma {:induction false} FirstWithIs(trie: seq<Octet>, nodes: seq<nat>, ch: nat)
    ensures FirstWith(trie, nodes, ch).Some? ==>
      FirstWith(trie, nodes, ch).value in nodes && ch in Terminals(trie, FirstWith(trie, nodes, ch).value)
  {
    if nodes != [] {
      FirstWithIs(trie, nodes[1..], ch);
    }
  }

  lemma StepLeads(trie: seq<Octet>, attrLen: nat, from: nat, ch: nat)
    ensures match Steps(trie, attrLen)(from, ch)
            case None => forall to :: !Leads(trie, attrLen, from, to, ch)
            case Some(n) => Leads(trie, attrLen, from, n, ch)
  {
    FirstWithNone(trie, Successors(trie, attrLen, from), ch);
    FirstWithIs(trie, Successors(trie, attrLen, from), ch);
  }

  lemma Longer(trie: seq<Octet>, attrLen: nat, path: seq<nat>, str: seq<nat>, i: nat, node: nat) returns (longer: seq<nat>)
    requires 0 < i <= |str| && Spells(trie, attrLen, path, str, i - 1) && Leads(trie, attrLen, path[i - 1], node, str[i - 1])
    ensures Spells(trie, attrLen, longer, str, i) && longer[i] == node
  {
    longer := path + [node];
  }

  /** The walk never leads where the automaton does not. */
  lemma {:induction false} WalkSpells(trie: seq<Octet>, attrLen: nat, str: seq<nat>, i: nat) returns (path: seq<nat>)
    requires i <= |str| && Walk(Steps(trie, attrLen), str, i).Some?
    ensures Spells(trie, attrLen, path, str, i) && path[i] == Walk(Steps(trie, attrLen), str, i).value
  {
    if i == 0 {
      path := [ROOT];
    } else {
      path := WalkSpells(trie, attrLen, str, i - 1);
      StepLeads(trie, attrLen, path[i - 1], str[i - 1]);
      path := Longer(trie, attrLen, path, str, i, Walk(Steps(trie, attrLen), str, i).value);
    }
  }

  /** From nodes the automaton leads to nodes. */
  lemma {:induction false} SiblingsFormed(trie: seq<Octet>, attrLen: nat, nodes: set<nat>, node: nat)
    requires WellFormed(trie, attrLen, nodes) && node in nodes && node != ROOT
    ensures forall n :: n in Siblings(trie, attrLen, node) ==> n in nodes
    decreases |trie| - node
  {
    assert NodeFormed(trie, attrLen, nodes, node);
    if !IsLast(trie, node) {
      SiblingsFormed(trie, attrLen, nodes, SiblingOffset(trie, attrLen, node));
    }
  }

  lemma LeadsToNode(trie: seq<Octet>, attrLen: nat, nodes: set<nat>, from: nat, to: nat, ch: nat)
    requires WellFormed(trie, attrLen, nodes) && from in nodes && Leads(trie, attrLen, from, to, ch)
    ensures to in nodes
  {
    assert NodeFormed(trie, attrLen, nodes, from);
    SiblingsFormed(trie, attrLen, nodes, NextOffset(trie, from));
  }

  /** In a deterministic automaton the walk leads wherever the automaton does. */
  lemma {:induction false} SpelledIsWalked(trie: seq<Octet>, attrLen: nat, nodes: set<nat>, path: seq<nat>, str: seq<nat>, i: nat)
    requires WellFormed(trie, attrLen, nodes) && Deterministic(trie, attrLen, nodes)
    requires i <= |str| && Spells(trie, attrLen, path, str, i)
    ensures path[i] in nodes && Walk(Steps(trie, attrLen), str, i) == Some(path[i])
  {
    if i > 0 {
      assert Leads(trie, attrLen, path[i - 1], path[i], str[i - 1]);
      SpelledIsWalked(trie, attrLen, nodes, path[..i], str, i - 1);
      StepLeads(trie, attrLen, path[i - 1], str[i - 1]);
      LeadsToNode(trie, attrLen, nodes, path[i - 1], path[i], str[i - 1]);
    }
  }

  /** The verdict on a string is what the ways say that spell it. */
  ghost predicate Says(trie: seq<Octet>, attrLen: nat, str: seq<nat>, verdict: nat) {
    && (verdict == 3 <==> !exists path :: Spells(trie, attrLen, path, str, |str|))
    && forall path :: Spells(trie, attrLen, path, str, |str|) ==>
         verdict == if IsLeaf(trie, path[|str|]) then 2 else if Accepts(trie, path[|str|]) then 1 else 0
  }

  lemma VerdictIs(trie: seq<Octet>, attrLen: nat, nodes: set<nat>, str: seq<nat>)
    requires WellFormed(trie, attrLen, nodes) && Deterministic(trie, attrLen, nodes)
    ensures Says(trie, attrLen, str, Verdict(trie, attrLen, str))
  {
    forall path | Spells(trie, attrLen, path, str, |str|)
      ensures Walk(Steps(trie, attrLen), str, |str|) == Some(path[|str|])
    {
      SpelledIsWalked(trie, attrLen, nodes, path, str, |str|);
    }
    if Walk(Steps(trie, attrLen), str, |str|).Some? {
      var path := WalkSpells(trie, attrLen, str, |str|);
    }
  }

  lemma VerdictSays(trie: seq<Octet>, attrLen: nat, nodes: set<nat>, str: seq<nat>)
    requires WellFormed(trie, attrLen, nodes)
    ensures Deterministic(trie, attrLen, nodes) ==> Says(trie, attrLen, str, Verdict(trie, attrLen, str))
  {
    if Deterministic(trie, attrLen, nodes) {
      VerdictIs(trie, attrLen, nodes, str);
    }
  }

  // ---------- a table ----------

  /** The table that holds one word, of the one character c. */
  function OneWord(c: Octet): seq<Octet> {
    [1, 1, 0, 10, 4, 0, 7, 0, 12, 7, 0, 0, c, 0, 0, 0]
  }

  lemma OneWordNodes(c: Octet)
    requires c != 0
    ensures Successors(OneWord(c), 0, ROOT) == [7] && Successors(OneWord(c), 0, 7) == []
    ensures Terminals(OneWord(c), 7) == [c]
    ensures WellFormed(OneWord(c), 0, {ROOT, 7})
  {
    var t := OneWord(c);
    assert CString(t, 13) == [];
    assert CString(t, 12) == [c] + CString(t, 13);
    assert NodeFormed(t, 0, {ROOT, 7}, ROOT);
    assert NodeFormed(t, 0, {ROOT, 7}, 7);
  }

  /** It is deterministic at its nodes; the word is in it and nothing leads on from there; and from the
      start the character is forced. */
  lemma OneWordFound(c: Octet)
    requires c != 0
    ensures Deterministic(OneWord(c), 0, {ROOT, 7})
    ensures Verdict(OneWord(c), 0, [c as nat]) == 2 && Verdict(OneWord(c), 0, []) == 0
    ensures forall d: nat :: d != c ==> Verdict(OneWord(c), 0, [d]) == 3
    ensures Forces(Steps(OneWord(c), 0), [], c)
  {
    var t := OneWord(c);
    OneWordNodes(c);
    forall d: nat ensures Verdict(t, 0, [d]) == if d == c then 2 else 3 {
      assert FirstWith(t, [], d) == None && [7][1..] == [];
      assert d in Terminals(t, 7) <==> d == c;
      assert Step(t, 0, ROOT, d) == FirstWith(t, [7], d);
      assert Walk(Steps(t, 0), [d], 0) == Some(ROOT);
    }
    ForcedNext(t, 0, [], ROOT, c);
  }

  /** A character above 0x7F is forced, and told as a negative number; 0xFF is forced and none is told. */
  lemma ForcedNotTold(c: Octet, next: int)
    requires c > 0x7F && Tells(OneWord(c), Successors(OneWord(c), 0, ROOT), next)
    ensures Forces(Steps(OneWord(c), 0), [], c) && next < 0 && (c == 0xFF ==> next == -1)
  {
    OneWordNodes(c);
    OneWordFound(c);
    assert AllHave(OneWord(c), Successors(OneWord(c), 0, ROOT), c);
  }
}
