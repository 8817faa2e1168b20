/** The walk over a string, one node at a time, that can be taken up again where it ended. */
module Dictionaries {
  import opened Automaton
  import opened Tries
  import opened TrieCode

  class CDictionary {
    var fTrie: seq<Octet>
    var fTrieSize: nat
    var fAttrLen: nat
    var fStr: seq<nat>
    var fStrIndex: nat
    var fTrieOffset: nat
    var fAttr: nat
    var fNodeName: nat
    var x2C: int
    var x30: int
    /** Where the nodes are. */
    ghost var nodes: set<nat>
    /** Where a character leads from a node. */
    ghost var step: Stepper

    ghost predicate Valid()
      reads `fTrie, `fAttrLen, `fStr, `fStrIndex, `fTrieOffset, `fAttr, `fNodeName, `nodes, `step, `fTrieSize
    {
      && (fTrieSize != 2 ==> WellFormed(fTrie, fAttrLen, nodes))
      && IsStepper(step, fTrie, fAttrLen)
      && (fTrieOffset != 0 ==> fTrieSize != 2 && Reached())
    }

    /** The first fStrIndex characters lead to a node: the root, or fTrieOffset, whose attribute and
        name are at hand. */
    ghost predicate Reached()
      reads `fTrie, `fAttrLen, `fStr, `fStrIndex, `fTrieOffset, `fAttr, `fNodeName, `nodes, `step
    {
      && (fTrieOffset == 0 <==> fStrIndex == 0)
      && fStrIndex <= |fStr|
      && Walk(step, fStr, fStrIndex) == Some(Here())
      && Here() in nodes
      && (fTrieOffset != 0 ==>
            fAttr == Attribute(fTrie, fAttrLen, fTrieOffset) && fNodeName == NameOffset(fTrie, fTrieOffset))
    }

    /** The next character leads nowhere. */
    ghost predicate Ends()
      reads `step, `fStr, `fStrIndex
    {
      fStrIndex < |fStr| && Walk(step, fStr, fStrIndex + 1) == None
    }

    function Here(): nat
      reads `fTrieOffset
    {
      if fTrieOffset == 0 then ROOT else fTrieOffset
    }

    /** The scan of a node's terminals. */
    method HasTerminal(offset: nat, ch: nat) returns (found: bool)
      requires TerminalsOffset(fTrie, offset) + |Terminals(fTrie, offset)| + 1 < |fTrie|
      ensures found <==> ch in Terminals(fTrie, offset)
    {
      var p := TerminalsOffset(fTrie, offset);
      ghost var seen: seq<Octet> := [];
      while fTrie[p] != 0
        invariant p + |CString(fTrie, p)| + 1 < |fTrie|
        invariant seen + CString(fTrie, p) == Terminals(fTrie, offset) && ch !in seen
        decreases |fTrie| - p
      {
        if fTrie[p] == ch { return true; }
        seen := seen + [fTrie[p]];
        p := p + 1;
      }
      return false;
    }

    /** The scan of the successors of a node: the first that has the character. */
    method FindSuccessor(node: nat, ch: nat) returns (found: bool, offset: nat)
      requires WellFormed(fTrie, fAttrLen, nodes) && node in nodes && !IsLeaf(fTrie, node)
      ensures Step(fTrie, fAttrLen, node, ch) == if found then Some(offset) else None
      ensures found ==> offset in nodes && offset > ROOT
    {
      assert NodeFormed(fTrie, fAttrLen, nodes, node);
      offset := NextOffset(fTrie, node);
      while true
        invariant offset in nodes && offset != ROOT
        invariant FirstWith(fTrie, Siblings(fTrie, fAttrLen, offset), ch) == Step(fTrie, fAttrLen, node, ch)
        decreases |fTrie| - offset
      {
        assert NodeFormed(fTrie, fAttrLen, nodes, offset);
        var here := HasTerminal(offset, ch);
        if here { return true, offset; }
        var flags := fTrie[offset + 2];
        if flags / 4 % 2 == 1 { return false, offset; }
        offset := offset + (if flags / 2 % 2 == 1 then 3 else 5) + fAttrLen;
      }
    }
  
    /** The scan for a character that every successor of a node has alone. */
    method ForcedNext(node: nat)
      requires WellFormed(fTrie, fAttrLen, nodes) && node in nodes && !IsLeaf(fTrie, node)
      requires x30 == -1
      modifies `x30
      ensures Tells(fTrie, Successors(fTrie, fAttrLen, node), x30)
    {
      ghost var all := Successors(fTrie, fAttrLen, node);
      assert NodeFormed(fTrie, fAttrLen, nodes, node);
      var offset, r6 := NextOffset(fTrie, node), 0;
      ghost var i, first: Octet := 0, 0;
      while true
        invariant x30 == -1 && offset in nodes && offset != ROOT
        invariant i < |all| && all[i] == offset && Siblings(fTrie, fAttrLen, offset) == all[i..]
        invariant if i == 0 then r6 == 0 else r6 == SignedChar(first) != 0
        invariant forall j :: 0 <= j < i ==> Terminals(fTrie, all[j]) == [first]
        decreases |all| - i
      {
        assert NodeFormed(fTrie, fAttrLen, nodes, offset);
        NextSibling(fTrie, fAttrLen, all, i);
        var terminals := TerminalsOffset(fTrie, offset);
        FirstOfString(fTrie, terminals);
        if fTrie[terminals + 1] != 0 { return; }
        var r0 := SignedChar(fTrie[terminals]);
        assert Terminals(fTrie, all[i]) == [fTrie[terminals]];
        if r6 == 0 {
          r6 := r0;
          first := fTrie[terminals];
        } else if r6 != r0 {
          assert Terminals(fTrie, all[0]) == [first] && first != fTrie[terminals];
          return;
        }
        var flags := fTrie[offset + 2];
        if flags / 4 % 2 == 1 {
          assert AllHave(fTrie, all, first) && Terminals(fTrie, all[0]) == [first];
          x30 := r6;
          return;
        }
        i := i + 1;
        offset := offset + (if flags / 2 % 2 == 1 then 3 else 5) + fAttrLen;
      }
    }

    /** The node to which a character leads from another. */
    method NextNode(offset: nat, ch: nat) returns (found: bool, next: nat)
      requires WellFormed(fTrie, fAttrLen, nodes) && IsStepper(step, fTrie, fAttrLen) && offset in nodes
      ensures step(offset, ch) == if found then Some(next) else None
      ensures found ==> next in nodes && next > ROOT
    {
      assert NodeFormed(fTrie, fAttrLen, nodes, offset);
      var flags := fTrie[offset + 2];
      if flags / 2 % 2 == 1 {
        assert Step(fTrie, fAttrLen, offset, ch) == None;
        return false, offset;
      }
      found, next := FindSuccessor(offset, ch);
    }

    /** The loop over the string. */
    method WalkOn() returns (complete: bool)
      requires WellFormed(fTrie, fAttrLen, nodes) && IsStepper(step, fTrie, fAttrLen) && Reached()
      modifies `fStrIndex, `fTrieOffset, `fAttr, `fNodeName
      ensures Reached() && fStrIndex >= old(fStrIndex)
      ensures if complete then fStrIndex == |fStr| else Ends()
    {
      var offset := Here();
      while fStrIndex < |fStr|
        invariant Reached() && offset == Here() && fStrIndex >= old(fStrIndex)
      {
        var found, next := NextNode(offset, fStr[fStrIndex]);
        WalkNext(step, fStr, fStrIndex, offset);
        if !found { return false; }
        offset := next;
        fTrieOffset := offset;
        fAttr := Attribute(fTrie, fAttrLen, offset);
        fNodeName := NameOffset(fTrie, offset);
        fStrIndex := fStrIndex + 1;
      }
      return true;
    }

    /** What follows the loop: the verdict on a node, and what leads on from it. */
    method Conclude(offset: nat)
      requires WellFormed(fTrie, fAttrLen, nodes) && offset in nodes && offset == Here() && x30 == -1
      modifies `x2C, `x30
      ensures x2C == VerdictOn(fTrie, Some(offset)) && TellsNext()
    {
      assert NodeFormed(fTrie, fAttrLen, nodes, offset);
      var flags := fTrie[offset + 2];
      x2C := if flags % 2 != 0 then 1 else 0;
      if flags / 2 % 2 == 1 {
        x2C := 2;
        return;
      }
      ForcedNext(offset);
    }

    /** What is found is what a trie says whose bytes these are. */
    ghost predicate Describes(t: Trie)
      reads `fTrie, `fStr, `fStrIndex, `fAttr, `fNodeName, `x2C, `x30
    {
      Tries.Describes(t, fStr, fStrIndex, x2C, fAttr, CString(fTrie, fNodeName), x30)
    }

    lemma FoundDescribes(t: Trie)
      requires Encodes(fTrie, fAttrLen, t) && IsStepper(step, fTrie, fAttrLen)
      requires Reached() && (fStrIndex == |fStr| || Ends()) && TellsNext() && x2C == Verdict(fTrie, fAttrLen, fStr)
      ensures Describes(t)
    {
      SameWalk(step, fTrie, fAttrLen, fStr, fStrIndex);
      if fStrIndex < |fStr| {
        SameWalk(step, fTrie, fAttrLen, fStr, fStrIndex + 1);
      }
      LookupRead(fTrie, fAttrLen, t, fStr, fStrIndex, Here(), x30);
    }

    /** Take fStr on from where the walk has come to; the verdict is one on the whole string. */
    method ALVerify()
      requires Valid()
      modifies `fStrIndex, `fTrieOffset, `fAttr, `fNodeName, `x2C, `x30
      ensures Valid()
      ensures fTrieSize == 2 ==> x2C == 3 && fStrIndex == 0 && fTrieOffset == 0
      ensures fTrieSize != 2 ==> x2C == Verdict(fTrie, fAttrLen, fStr)
      ensures fTrieSize != 2 && Deterministic(fTrie, fAttrLen, nodes) ==> Says(fTrie, fAttrLen, fStr, x2C)
      ensures fTrieSize != 2 ==> Reached() && (fStrIndex == |fStr| || Ends()) && TellsNext()
      ensures fTrieSize != 2 ==> forall t {:trigger Encodes(fTrie, fAttrLen, t)} :: Encodes(fTrie, fAttrLen, t) ==> Describes(t)
      ensures old(fTrieOffset) != 0 ==> fStrIndex >= old(fStrIndex)
    {
      TakeUp();
      if fTrieSize != 2 {
        VerdictSays(fTrie, fAttrLen, nodes, fStr);
        forall t | Encodes(fTrie, fAttrLen, t) ensures Describes(t) {
          FoundDescribes(t);
        }
      }
    }

    method TakeUp()
      requires Valid()
      modifies `fStrIndex, `fTrieOffset, `fAttr, `fNodeName, `x2C, `x30
      ensures Valid()
      ensures fTrieSize == 2 ==> x2C == 3 && fStrIndex == 0 && fTrieOffset == 0
      ensures fTrieSize != 2 ==> x2C == Verdict(fTrie, fAttrLen, fStr)
      ensures fTrieSize != 2 ==> Reached() && (fStrIndex == |fStr| || Ends()) && TellsNext()
      ensures old(fTrieOffset) != 0 ==> fStrIndex >= old(fStrIndex)
    {
      if fTrieOffset == 0 {
        fStrIndex := 0;
        if fTrieSize == 2 {
          x2C := 3;
          return;
        }
      }
      x30 := -1;
      var complete := WalkOn();
      SameWalk(step, fTrie, fAttrLen, fStr, |fStr|);
      if complete {
        Conclude(Here());
      } else {
        Stuck(step, fStr, fStrIndex + 1, |fStr|);
        x2C := 3;
      }
    }

    /** x30 is the one character by which the string leads on, or -1. */
    ghost predicate TellsNext()
      reads `fTrie, `fAttrLen, `fTrieOffset, `x2C, `x30
    {
      Tells(fTrie, if x2C == 0 || x2C == 1 then Successors(fTrie, fAttrLen, Here()) else [], x30)
    }
  
    constructor (trie: seq<Octet>, trieSize: nat, attrLen: nat, ghost places: set<nat>)
      requires trieSize != 2 ==> WellFormed(trie, attrLen, places)
      ensures Valid() && fTrie == trie && fTrieSize == trieSize && fAttrLen == attrLen && fStr == [] && fTrieOffset == 0
    {
      fTrie, fTrieSize, fAttrLen, nodes, step := trie, trieSize, attrLen, places, Steps(trie, attrLen);
      fStr, fStrIndex, fTrieOffset, fAttr, fNodeName, x2C, x30 := [], 0, 0, 0, 0, 0, -1;
    }

    /** Look a string up from the start. */
    method VerifyString(str: seq<nat>)
      requires Valid()
      modifies `fStr, `fStrIndex, `fTrieOffset, `fAttr, `fNodeName, `x2C, `x30
      ensures Valid() && fStr == str && x2C == if fTrieSize == 2 then 3 else Verdict(fTrie, fAttrLen, str)
      ensures fTrieSize != 2 && Deterministic(fTrie, fAttrLen, nodes) ==> Says(fTrie, fAttrLen, str, x2C)
      ensures fTrieSize != 2 ==> forall t {:trigger Encodes(fTrie, fAttrLen, t)} :: Encodes(fTrie, fAttrLen, t) ==> Describes(t)
    {
      fStr, fStrIndex, fTrieOffset := str, 0, 0;
      ALVerify();
    }

    /** A string that was verified is continued: to verify it from where the walk ended gives the
        verdict on the whole. */
    method VerifyMore(more: seq<nat>)
      requires Valid()
      modifies `fStr, `fStrIndex, `fTrieOffset, `fAttr, `fNodeName, `x2C, `x30
      ensures Valid() && fStr == old(fStr) + more
      ensures x2C == if fTrieSize == 2 then 3 else Verdict(fTrie, fAttrLen, fStr)
      ensures fTrieSize != 2 && Deterministic(fTrie, fAttrLen, nodes) ==> Says(fTrie, fAttrLen, fStr, x2C)
      ensures fTrieSize != 2 ==> forall t {:trigger Encodes(fTrie, fAttrLen, t)} :: Encodes(fTrie, fAttrLen, t) ==> Describes(t)
      ensures old(fTrieOffset) != 0 ==> fStrIndex >= old(fStrIndex)
    {
      if fTrieOffset != 0 {
        WalkOfPrefix(step, fStr, fStr + more, fStrIndex);
      }
      fStr := fStr + more;
      ALVerify();
    }
  }
  /** A dictionary made from any trie whose places fit two bytes says of any string what the trie says. */
  method LookUp(t: Trie, attrLen: nat, str: seq<nat>) returns (d: CDictionary)
    requires Fits(t, attrLen) && TableSize(t, attrLen) < 0x1_0000
    ensures d.fStr == str && d.Describes(t)
  {
    TableEncodes(t, attrLen);
    var table := Table(t, attrLen);
    EncodedFormed(table, attrLen, t);
    d := new CDictionary(table, |table|, attrLen, Places(table, attrLen, ROOT, t));
    d.VerifyString(str);
    assert Encodes(d.fTrie, d.fAttrLen, t);
  }
}
