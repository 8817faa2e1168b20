/** A way to write a trie as the bytes of a lexical dictionary: the headers of a node's successors, their
    strings, and then the same for each of them. */
module TrieCode {
  import opened Automaton
  import opened Tries

  // ---------- what can be written ----------

  predicate NoZero(s: seq<Octet>) { forall i :: 0 <= i < |s| ==> s[i] != 0 }

  function Power(n: nat): nat {
    if n == 0 then 1 else 256 * Power(n - 1)
  }

  /** An attribute that is read fits its bytes; any other is 0. */
  predicate AttributeFits(value: nat, attrLen: nat) {
    if attrLen == 1 || attrLen == 2 || attrLen == 4 then value < Power(attrLen) else value == 0
  }

  /** Attributes fit, strings hold no 0, and every node but the root has terminals. */
  ghost predicate Fits(t: Trie, attrLen: nat)
    decreases t
  {
    && AttributeFits(t.attribute, attrLen)
    && forall i :: 0 <= i < |t.successors| ==>
         var c := t.successors[i]; c.terminals != [] && NoZero(c.terminals) && NoZero(c.name) && Fits(c, attrLen)
  }

  // ---------- bytes ----------

  function Two(n: nat): seq<Octet> {
    [n / 256 % 256, n % 256]
  }

  function Digits(n: nat, count: nat): (r: seq<Octet>)
    ensures |r| == count
    decreases count
  {
    if count == 0 then [] else Digits(n / 256, count - 1) + [n % 256]
  }

  function Ended(s: seq<Octet>): seq<Octet> { s + [0] }

  function Named(c: Trie): (r: seq<Octet>)
    ensures |r| == |c.terminals| + |c.name| + 2
  {
    Ended(c.terminals) + Ended(c.name)
  }

  function FlagsOf(c: Trie, last: bool): Octet {
    (if c.accepts then 1 else 0) + (if c.successors == [] then 2 else 0) + (if last then 4 else 0)
  }

  /** The header of a node whose strings are at s and whose successors are at q. */
  function HeadOf(c: Trie, attrLen: nat, s: nat, q: nat, last: bool): (r: seq<Octet>)
    ensures |r| == HeadSize(c) + attrLen
  {
    Two(s) + [FlagsOf(c, last)] + (if c.successors == [] then [] else Two(q)) + Digits(c.attribute, attrLen)
  }

  /** The strings of the successors of a node from the i-th on. */
  function Strings(t: Trie, i: nat): seq<Octet>
    requires i <= |t.successors|
    decreases |t.successors| - i
  {
    if i == |t.successors| then [] else Named(t.successors[i]) + Strings(t, i + 1)
  }

  function HeadsSize(t: Trie, attrLen: nat, i: nat): nat
    requires i <= |t.successors|
    decreases |t.successors| - i
  {
    if i == |t.successors| then 0 else HeadSize(t.successors[i]) + attrLen + HeadsSize(t, attrLen, i + 1)
  }

  /** The bytes that all below a node takes. */
  function Size(t: Trie, attrLen: nat): nat
    decreases t, |t.successors| + 1
  {
    HeadsSize(t, attrLen, 0) + |Strings(t, 0)| + BelowSize(t, attrLen, 0)
  }

  function BelowSize(t: Trie, attrLen: nat, i: nat): nat
    requires i <= |t.successors|
    decreases t, |t.successors| - i
  {
    if i == |t.successors| then 0 else Size(t.successors[i], attrLen) + BelowSize(t, attrLen, i + 1)
  }

  /** The headers of the successors from the i-th on, whose strings are from s on and whose own successors
      from q on. */
  function Heads(t: Trie, attrLen: nat, i: nat, s: nat, q: nat): (r: seq<Octet>)
    requires i <= |t.successors|
    ensures |r| == HeadsSize(t, attrLen, i)
    decreases |t.successors| - i
  {
    if i == |t.successors| then [] else
      var c := t.successors[i];
      HeadOf(c, attrLen, s, q, Final(t, i)) + Heads(t, attrLen, i + 1, s + |Named(c)|, q + Size(c, attrLen))
  }

  /** All below a node, written from at on. */
  function Code(t: Trie, attrLen: nat, at: nat): (r: seq<Octet>)
    ensures |r| == Size(t, attrLen)
    decreases t, |t.successors| + 1
  {
    var s := at + HeadsSize(t, attrLen, 0);
    var q := s + |Strings(t, 0)|;
    Heads(t, attrLen, 0, s, q) + (Strings(t, 0) + Below(t, attrLen, 0, q))
  }

  function Below(t: Trie, attrLen: nat, i: nat, at: nat): (r: seq<Octet>)
    requires i <= |t.successors|
    ensures |r| == BelowSize(t, attrLen, i)
    decreases t, |t.successors| - i
  {
    if i == |t.successors| then [] else
      var c := t.successors[i];
      Code(c, attrLen, at) + Below(t, attrLen, i + 1, at + Size(c, attrLen))
  }

  function TableSize(t: Trie, attrLen: nat): nat {
    2 + HeadSize(t) + attrLen + Size(t, attrLen)
  }

  /** The whole table. */
  function Table(t: Trie, attrLen: nat): (r: seq<Octet>)
    ensures |r| == TableSize(t, attrLen)
  {
    var q := 2 + HeadSize(t) + attrLen;
    [0, 0] + (HeadOf(t, attrLen, 0, q, true) + Code(t, attrLen, q))
  }

  // ---------- what is written is there ----------

  /** The bytes from at on are these. */
  predicate Has(b: seq<Octet>, at: nat, s: seq<Octet>) {
    at + |s| <= |b| && b[at..at + |s|] == s
  }

  lemma HasParts(b: seq<Octet>, at: nat, x: seq<Octet>, y: seq<Octet>)
    requires Has(b, at, x + y)
    ensures Has(b, at, x) && Has(b, at + |x|, y)
  {
    var all := b[at..at + |x + y|];
    assert all[..|x|] == x && all[|x|..] == y;
  }

  lemma HasWithin(b: seq<Octet>, at: nat, s: seq<Octet>)
    requires Has(b, at, s)
    ensures at + |s| <= |b| && forall k :: 0 <= k < |s| ==> b[at + k] == s[k]
  {
    forall k | 0 <= k < |s| ensures b[at + k] == s[k] {
      assert b[at + k] == b[at..at + |s|][k];
    }
  }

  lemma {:induction false} EndedIsString(b: seq<Octet>, at: nat, s: seq<Octet>)
    requires Has(b, at, Ended(s)) && NoZero(s)
    ensures StringAt(b, at, s)
    decreases |s|
  {
    HasWithin(b, at, Ended(s));
    assert b[at + |s|] == Ended(s)[|s|];
    if s != [] {
      assert b[at + 0] == Ended(s)[0];
      assert Ended(s) == [s[0]] + Ended(s[1..]);
      HasParts(b, at, [s[0]], Ended(s[1..]));
      EndedIsString(b, at + 1, s[1..]);
    }
  }

  lemma NamedIsThere(b: seq<Octet>, s: nat, c: Trie)
    requires Has(b, s, Named(c)) && NoZero(c.terminals) && NoZero(c.name)
    ensures StringAt(b, s, c.terminals) && StringAt(b, s + |c.terminals| + 1, c.name)
  {
    HasParts(b, s, Ended(c.terminals), Ended(c.name));
    EndedIsString(b, s, c.terminals);
    EndedIsString(b, s + |c.terminals| + 1, c.name);
  }

  lemma TwoTells(n: nat)
    requires n < 0x1_0000
    ensures 256 * Two(n)[0] as nat + Two(n)[1] as nat == n
  {
  }

  lemma PointerIs(b: seq<Octet>, at: nat, n: nat)
    requires Has(b, at, Two(n)) && n < 0x1_0000
    ensures at + 2 <= |b| && Pointer(b, at) == n
  {
    HasWithin(b, at, Two(n));
    assert b[at + 0] == Two(n)[0] && b[at + 1] == Two(n)[1];
    TwoTells(n);
  }

  lemma {:induction false} DigitsTell(n: nat, count: nat)
    requires n < Power(count)
    ensures Big(Digits(n, count)) == n
  {
    if count > 0 {
      DigitsTell(n / 256, count - 1);
      var d := Digits(n, count);
      assert d[..|d| - 1] == Digits(n / 256, count - 1);
    }
  }

  lemma AttributeTold(b: seq<Octet>, at: nat, value: nat, attrLen: nat)
    requires Has(b, at, Digits(value, attrLen)) && AttributeFits(value, attrLen)
    ensures at + attrLen <= |b| && AttributeIs(b[at..at + attrLen], value)
  {
    HasWithin(b, at, Digits(value, attrLen));
    assert b[at..at + attrLen] == Digits(value, attrLen);
    if value < Power(attrLen) {
      DigitsTell(value, attrLen);
    }
  }

  lemma FlagsTell(c: Trie, last: bool)
    ensures var f := FlagsOf(c, last);
            (f % 2 == 1 <==> c.accepts) && (f / 2 % 2 == 1 <==> c.successors == []) && (f / 4 % 2 == 1 <==> last)
  {
  }

  /** The header says what it should. */
  lemma HeadTells(b: seq<Octet>, attrLen: nat, at: nat, c: Trie, s: nat, q: nat, last: bool)
    requires Has(b, at, HeadOf(c, attrLen, s, q, last)) && s < 0x1_0000 && AttributeFits(c.attribute, attrLen)
    ensures at + HeadSize(c) + attrLen <= |b| && Pointer(b, at) == s && b[at + 2] == FlagsOf(c, last)
    ensures AttributeIs(b[at + HeadSize(c)..at + HeadSize(c) + attrLen], c.attribute)
    ensures c.successors != [] && q < 0x1_0000 ==> Pointer(b, at + 3) == q
  {
    var next := if c.successors == [] then [] else Two(q);
    HasParts(b, at, Two(s) + [FlagsOf(c, last)] + next, Digits(c.attribute, attrLen));
    HasParts(b, at, Two(s) + [FlagsOf(c, last)], next);
    HasParts(b, at, Two(s), [FlagsOf(c, last)]);
    PointerIs(b, at, s);
    HasWithin(b, at + 2, [FlagsOf(c, last)]);
    HasWithin(b, at + HeadSize(c), Digits(c.attribute, attrLen));
    assert b[at + 2 + 0] == [FlagsOf(c, last)][0];
    if c.successors != [] && q < 0x1_0000 {
      PointerIs(b, at + 3, q);
    }
    AttributeTold(b, at + HeadSize(c), c.attribute, attrLen);
  }

  /** A header whose successors are where it says they are makes a node. */
  lemma NodeWritten(b: seq<Octet>, attrLen: nat, at: nat, c: Trie, s: nat, q: nat, last: bool)
    requires Has(b, at, HeadOf(c, attrLen, s, q, last)) && s < 0x1_0000 && AttributeFits(c.attribute, attrLen)
    requires c.successors != [] ==> q < 0x1_0000 && SiblingsAt(b, attrLen, q, c, 0)
    ensures NodeAt(b, attrLen, at, c, last) && Pointer(b, at) == s
  {
    HeadTells(b, attrLen, at, c, s, q, last);
    FlagsTell(c, last);
  }

  lemma PartsOf(b: seq<Octet>, at: nat, all: seq<Octet>, x: seq<Octet>, y: seq<Octet>)
    requires Has(b, at, all) && all == x + y
    ensures Has(b, at, x) && Has(b, at + |x|, y)
  {
    HasParts(b, at, x, y);
  }

  lemma ThreeParts(b: seq<Octet>, at: nat, all: seq<Octet>, x: seq<Octet>, y: seq<Octet>, z: seq<Octet>, s: nat, q: nat)
    requires Has(b, at, all) && all == x + (y + z) && s == at + |x| && q == s + |y|
    ensures Has(b, at, x) && Has(b, s, y) && Has(b, q, z)
  {
    HasParts(b, at, x, y + z);
    HasParts(b, s, y, z);
  }

  lemma FirstHead(b: seq<Octet>, attrLen: nat, at: nat, t: Trie, i: nat, s: nat, q: nat, c: Trie, last: bool, s': nat, q': nat)
    requires i < |t.successors| && c == t.successors[i] && last == Final(t, i)
    requires s' == s + |Named(c)| && q' == q + Size(c, attrLen) && Has(b, at, Heads(t, attrLen, i, s, q))
    ensures Has(b, at, HeadOf(c, attrLen, s, q, last)) && Has(b, at + HeadSize(c) + attrLen, Heads(t, attrLen, i + 1, s', q'))
  {
    var head, rest := HeadOf(c, attrLen, s, q, last), Heads(t, attrLen, i + 1, s', q');
    assert Heads(t, attrLen, i, s, q) == head + rest;
    PartsOf(b, at, Heads(t, attrLen, i, s, q), head, rest);
  }

  lemma FirstString(b: seq<Octet>, s: nat, t: Trie, i: nat, c: Trie, s': nat)
    requires i < |t.successors| && c == t.successors[i] && s' == s + |Named(c)| && Has(b, s, Strings(t, i))
    ensures Has(b, s, Named(c)) && Has(b, s', Strings(t, i + 1)) && s' + |Strings(t, i + 1)| == s + |Strings(t, i)|
  {
    PartsOf(b, s, Strings(t, i), Named(c), Strings(t, i + 1));
  }

  lemma FirstBelow(b: seq<Octet>, attrLen: nat, q: nat, t: Trie, i: nat, c: Trie, q': nat)
    requires i < |t.successors| && c == t.successors[i] && q' == q + Size(c, attrLen) && Has(b, q, Below(t, attrLen, i, q))
    ensures Has(b, q, Code(c, attrLen, q)) && Has(b, q', Below(t, attrLen, i + 1, q'))
    ensures q' + BelowSize(t, attrLen, i + 1) == q + BelowSize(t, attrLen, i)
  {
    PartsOf(b, q, Below(t, attrLen, i, q), Code(c, attrLen, q), Below(t, attrLen, i + 1, q'));
  }

  lemma SiblingsWritten(b: seq<Octet>, attrLen: nat, at: nat, t: Trie, i: nat, c: Trie, last: bool, next: nat)
    requires i < |t.successors| && c == t.successors[i] && last == Final(t, i) && next == at + HeadSize(c) + attrLen
    requires ROOT < at && NamesAt(b, at, c) && NodeAt(b, attrLen, at, c, last)
    requires !last ==> SiblingsAt(b, attrLen, next, t, i + 1)
    ensures SiblingsAt(b, attrLen, at, t, i)
  {
  }

  lemma FitsBelow(t: Trie, attrLen: nat, i: nat)
    requires Fits(t, attrLen) && i < |t.successors|
    ensures var c := t.successors[i];
            && Fits(c, attrLen) && AttributeFits(c.attribute, attrLen)
            && c.terminals != [] && NoZero(c.terminals) && NoZero(c.name)
  {
  }

  lemma NamesWritten(b: seq<Octet>, at: nat, c: Trie, s: nat)
    requires at + 2 <= |b| && Pointer(b, at) == s && Has(b, s, Named(c))
    requires c.terminals != [] && NoZero(c.terminals) && NoZero(c.name)
    ensures NamesAt(b, at, c)
  {
    NamedIsThere(b, s, c);
  }

  lemma FirstWritten(b: seq<Octet>, attrLen: nat, at: nat, t: Trie, i: nat, s: nat, q: nat, c: Trie, last: bool)
    requires i < |t.successors| && c == t.successors[i] && Fits(t, attrLen)
    requires Has(b, at, HeadOf(c, attrLen, s, q, last)) && Has(b, s, Named(c)) && s < 0x1_0000
    requires c.successors != [] ==> q < 0x1_0000 && SiblingsAt(b, attrLen, q, c, 0)
    ensures NamesAt(b, at, c) && NodeAt(b, attrLen, at, c, last)
  {
    FitsBelow(t, attrLen, i);
    NodeWritten(b, attrLen, at, c, s, q, last);
    NamesWritten(b, at, c, s);
  }

  /** All below a node is where its code is. */
  lemma {:induction false} CodeTells(b: seq<Octet>, attrLen: nat, at: nat, t: Trie)
    requires Has(b, at, Code(t, attrLen, at)) && Fits(t, attrLen) && t.successors != []
    requires ROOT < at && at + Size(t, attrLen) < 0x1_0000
    ensures SiblingsAt(b, attrLen, at, t, 0)
    decreases t, |t.successors| + 1
  {
    var s := at + HeadsSize(t, attrLen, 0);
    var q := s + |Strings(t, 0)|;
    CodeParts(b, attrLen, at, t, s, q);
    HeadsTell(b, attrLen, at, t, 0, s, q);
  }

  lemma CodeParts(b: seq<Octet>, attrLen: nat, at: nat, t: Trie, s: nat, q: nat)
    requires Has(b, at, Code(t, attrLen, at)) && s == at + HeadsSize(t, attrLen, 0) && q == s + |Strings(t, 0)|
    ensures Has(b, at, Heads(t, attrLen, 0, s, q)) && Has(b, s, Strings(t, 0)) && Has(b, q, Below(t, attrLen, 0, q))
    ensures q + BelowSize(t, attrLen, 0) == at + Size(t, attrLen)
  {
    var heads, strings, below := Heads(t, attrLen, 0, s, q), Strings(t, 0), Below(t, attrLen, 0, q);
    ThreeParts(b, at, Code(t, attrLen, at), heads, strings, below, s, q);
  }

  lemma PiecesNow(b: seq<Octet>, attrLen: nat, at: nat, t: Trie, i: nat, s: nat, q: nat, c: Trie, last: bool)
    requires i < |t.successors| && c == t.successors[i] && last == Final(t, i)
    requires Has(b, at, Heads(t, attrLen, i, s, q)) && Has(b, s, Strings(t, i)) && Has(b, q, Below(t, attrLen, i, q))
    ensures Has(b, at, HeadOf(c, attrLen, s, q, last)) && Has(b, s, Named(c)) && Has(b, q, Code(c, attrLen, q))
  {
    FirstHead(b, attrLen, at, t, i, s, q, c, last, s + |Named(c)|, q + Size(c, attrLen));
    FirstString(b, s, t, i, c, s + |Named(c)|);
    FirstBelow(b, attrLen, q, t, i, c, q + Size(c, attrLen));
  }

  lemma PiecesLeft(b: seq<Octet>, attrLen: nat, at: nat, t: Trie, i: nat, s: nat, q: nat, c: Trie, s': nat, q': nat, next: nat)
    requires i < |t.successors| && c == t.successors[i]
    requires s' == s + |Named(c)| && q' == q + Size(c, attrLen) && next == at + HeadSize(c) + attrLen
    requires Has(b, at, Heads(t, attrLen, i, s, q)) && Has(b, s, Strings(t, i)) && Has(b, q, Below(t, attrLen, i, q))
    ensures Has(b, next, Heads(t, attrLen, i + 1, s', q')) && Has(b, s', Strings(t, i + 1)) && Has(b, q', Below(t, attrLen, i + 1, q'))
    ensures s' + |Strings(t, i + 1)| == s + |Strings(t, i)| && q' + BelowSize(t, attrLen, i + 1) == q + BelowSize(t, attrLen, i)
  {
    FirstHead(b, attrLen, at, t, i, s, q, c, Final(t, i), s', q');
    FirstString(b, s, t, i, c, s');
    FirstBelow(b, attrLen, q, t, i, c, q');
  }

  lemma {:induction false} HeadsTell(b: seq<Octet>, attrLen: nat, at: nat, t: Trie, i: nat, s: nat, q: nat)
    requires i < |t.successors| && Fits(t, attrLen)
    requires Has(b, at, Heads(t, attrLen, i, s, q)) && Has(b, s, Strings(t, i)) && Has(b, q, Below(t, attrLen, i, q))
    requires ROOT < at && ROOT < q && s + |Strings(t, i)| < 0x1_0000 && q + BelowSize(t, attrLen, i) < 0x1_0000
    ensures SiblingsAt(b, attrLen, at, t, i)
    decreases t, |t.successors| - i
  {
    var c, last := t.successors[i], Final(t, i);
    var s', q', next := s + |Named(c)|, q + Size(c, attrLen), at + HeadSize(c) + attrLen;
    PiecesNow(b, attrLen, at, t, i, s, q, c, last);
    PiecesLeft(b, attrLen, at, t, i, s, q, c, s', q', next);
    FitsBelow(t, attrLen, i);
    if c.successors != [] {
      CodeTells(b, attrLen, q, c);
    }
    FirstWritten(b, attrLen, at, t, i, s, q, c, last);
    if !last {
      HeadsTell(b, attrLen, next, t, i + 1, s', q');
    }
    SiblingsWritten(b, attrLen, at, t, i, c, last, next);
  }

  /** What is written is the trie's table, if its places fit two bytes. */
  lemma TableEncodes(t: Trie, attrLen: nat)
    requires Fits(t, attrLen) && TableSize(t, attrLen) < 0x1_0000
    ensures Encodes(Table(t, attrLen), attrLen, t)
  {
    var b := Table(t, attrLen);
    assert b[0..0 + |b|] == b;
    TableHeld(b, t, attrLen);
  }

  lemma TableParts(b: seq<Octet>, t: Trie, attrLen: nat, q: nat)
    requires Has(b, 0, Table(t, attrLen)) && q == 2 + HeadSize(t) + attrLen
    ensures Has(b, 2, HeadOf(t, attrLen, 0, q, true)) && Has(b, q, Code(t, attrLen, q))
  {
    var head, code := HeadOf(t, attrLen, 0, q, true), Code(t, attrLen, q);
    PartsOf(b, 0, Table(t, attrLen), [0, 0], head + code);
    HasParts(b, 2, head, code);
  }

  lemma TableHeld(b: seq<Octet>, t: Trie, attrLen: nat)
    requires Fits(t, attrLen) && TableSize(t, attrLen) < 0x1_0000 && Has(b, 0, Table(t, attrLen))
    ensures Encodes(b, attrLen, t)
  {
    var q := 2 + HeadSize(t) + attrLen;
    TableParts(b, t, attrLen, q);
    if t.successors != [] {
      CodeTells(b, attrLen, q, t);
    }
    NodeWritten(b, attrLen, 2, t, 0, q, true);
  }
}
