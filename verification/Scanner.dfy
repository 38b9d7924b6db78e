/**
 The bracket scanners of the API list generator, against a recursive grammar of bracketed
 text and against string states and depths defined one kind at a time.
 */
module Scanner {
  import opened Numbers
  import opened Wrappers

  // ---------- A grammar of bracketed text ----------

  datatype Pair = Pair(open: char, close: char)

  const PARENS := Pair('(', ')')
  const BRACES := Pair('{', '}')
  const BRACKETS := Pair('[', ']')
  const ANGLES := Pair('<', '>')

  // Other characters, and bracketed text, in any number and order.
  predicate Balanced(p: Pair, s: string)
    decreases |s|
  {
    || s == []
    || (s[0] != p.open && s[0] != p.close && Balanced(p, s[1..]))
    || (s[0] == p.open && exists k :: 0 < k < |s| && s[k] == p.close && Balanced(p, s[1..k]) && Balanced(p, s[k + 1..]))
  }

  // The closing partner of the opening bracket at `start`.
  predicate Partner(p: Pair, s: string, start: nat, j: int) {
    start < j < |s| && s[j] == p.close && Balanced(p, s[start + 1..j])
  }

  // ---------- Depth ----------

  function Weight(p: Pair, c: char): int {
    if c == p.open then 1 else if c == p.close then -1 else 0
  }

  function Depth(p: Pair, s: string): int {
    if s == [] then 0 else Depth(p, s[..|s| - 1]) + Weight(p, s[|s| - 1])
  }

  lemma {:induction false} DepthConcat(p: Pair, a: string, b: string)
    ensures Depth(p, a + b) == Depth(p, a) + Depth(p, b)
  {
    if b == [] {
      assert a + b == a;
    } else {
      var n := |b| - 1;
      DepthConcat(p, a, b[..n]);
      assert (a + b)[..|a + b| - 1] == a + b[..n];
    }
  }

  lemma DepthOne(p: Pair, c: char)
    ensures Depth(p, [c]) == Weight(p, c)
  {
    assert [c][..0] == [];
  }

  lemma DepthStep(p: Pair, s: string, i: nat)
    requires i < |s|
    ensures Depth(p, s[..i + 1]) == Depth(p, s[..i]) + Weight(p, s[i])
  {
    assert s[..i + 1][..i] == s[..i];
  }

  // Never more closed than opened.
  ghost predicate NeverBelow(p: Pair, s: string) {
    forall i :: 0 <= i <= |s| ==> Depth(p, s[..i]) >= 0
  }

  // Depths of the prefixes of a + b that reach into b.
  lemma PrefixDepth(p: Pair, a: string, b: string, i: nat)
    requires |a| <= i <= |a| + |b|
    ensures Depth(p, (a + b)[..i]) == Depth(p, a) + Depth(p, b[..i - |a|])
  {
    assert (a + b)[..i] == a + b[..i - |a|];
    DepthConcat(p, a, b[..i - |a|]);
  }

  lemma BelowConcat(p: Pair, a: string, b: string)
    requires NeverBelow(p, a) && NeverBelow(p, b) && Depth(p, a) == 0
    ensures NeverBelow(p, a + b)
  {
    forall i | 0 <= i <= |a + b| ensures Depth(p, (a + b)[..i]) >= 0 {
      if i <= |a| {
        assert (a + b)[..i] == a[..i];
      } else {
        PrefixDepth(p, a, b, i);
      }
    }
  }

  lemma BelowBracketed(p: Pair, inner: string)
    requires p.open != p.close && NeverBelow(p, inner) && Depth(p, inner) == 0
    ensures var s := [p.open] + inner + [p.close]; NeverBelow(p, s) && Depth(p, s) == 0
  {
    var a, s := [p.open] + inner, [p.open] + inner + [p.close];
    DepthOne(p, p.open);
    DepthOne(p, p.close);
    DepthConcat(p, [p.open], inner);
    DepthConcat(p, a, [p.close]);
    forall i | 0 <= i <= |s| ensures Depth(p, s[..i]) >= 0 {
      if i == 0 {
      } else if i <= |a| {
        assert s[..i] == a[..i];
        PrefixDepth(p, [p.open], inner, i);
      } else {
        assert s[..i] == s;
      }
    }
  }

  lemma BelowSequence(p: Pair, inner: string, rest: string)
    requires p.open != p.close
    requires NeverBelow(p, inner) && Depth(p, inner) == 0 && NeverBelow(p, rest) && Depth(p, rest) == 0
    ensures var s := [p.open] + inner + [p.close] + rest; NeverBelow(p, s) && Depth(p, s) == 0
  {
    var a := [p.open] + inner + [p.close];
    BelowBracketed(p, inner);
    BelowConcat(p, a, rest);
    DepthConcat(p, a, rest);
  }

  lemma BelowPlain(p: Pair, c: char, rest: string)
    requires Weight(p, c) == 0 && NeverBelow(p, rest) && Depth(p, rest) == 0
    ensures NeverBelow(p, [c] + rest) && Depth(p, [c] + rest) == 0
  {
    DepthOne(p, c);
    assert [c][..1] == [c];
    BelowConcat(p, [c], rest);
    DepthConcat(p, [c], rest);
  }

  lemma SplitBracketed(p: Pair, s: string) returns (inner: string, rest: string)
    requires s != [] && s[0] == p.open && Balanced(p, s)
    ensures s == [p.open] + inner + [p.close] + rest && Balanced(p, inner) && Balanced(p, rest)
  {
    var k :| 0 < k < |s| && s[k] == p.close && Balanced(p, s[1..k]) && Balanced(p, s[k + 1..]);
    inner, rest := s[1..k], s[k + 1..];
  }

  // What the grammar derives is level and never below.
  lemma {:induction false} BalancedIsLevel(p: Pair, s: string)
    requires p.open != p.close && Balanced(p, s)
    ensures Depth(p, s) == 0 && NeverBelow(p, s)
    decreases |s|
  {
    if s == [] {
    } else if s[0] == p.open {
      var inner, rest := SplitBracketed(p, s);
      BalancedIsLevel(p, inner);
      BalancedIsLevel(p, rest);
      BelowSequence(p, inner, rest);
    } else {
      var rest := s[1..];
      BalancedIsLevel(p, rest);
      BelowPlain(p, s[0], rest);
      assert s == [s[0]] + rest;
    }
  }

  lemma SliceDepth(p: Pair, s: string, a: nat, b: nat)
    requires a <= b <= |s|
    ensures Depth(p, s[a..b]) == Depth(p, s[..b]) - Depth(p, s[..a])
  {
    assert s[..b] == s[..a] + s[a..b];
    DepthConcat(p, s[..a], s[a..b]);
  }

  // The first place behind `from` where the depth is back to zero.
  lemma {:induction false} FirstLater(p: Pair, s: string, from: nat) returns (k: nat)
    requires from < |s| && Depth(p, s) == 0
    requires forall i {:trigger s[..i]} :: 0 < i <= from ==> Depth(p, s[..i]) != 0
    ensures from <= k < |s| && Depth(p, s[..k + 1]) == 0
    ensures forall i {:trigger s[..i]} :: 0 < i <= k ==> Depth(p, s[..i]) != 0
    decreases |s| - from
  {
    assert s[..|s|] == s;
    if Depth(p, s[..from + 1]) == 0 {
      k := from;
    } else {
      k := FirstLater(p, s, from + 1);
    }
  }

  // Between the first bracket and the first return the depth is level again.
  lemma InnerIsLevel(p: Pair, s: string, k: nat)
    requires p.open != p.close && 0 < k < |s| && s[0] == p.open && NeverBelow(p, s)
    requires Depth(p, s[..k + 1]) == 0 && forall i {:trigger s[..i]} :: 0 < i <= k ==> Depth(p, s[..i]) != 0
    ensures s[k] == p.close && Depth(p, s[1..k]) == 0 && NeverBelow(p, s[1..k])
  {
    var inner := s[1..k];
    assert s[..1] == [s[0]];
    DepthOne(p, s[0]);
    DepthStep(p, s, k);
    assert Depth(p, s[..k]) >= 1;
    SliceDepth(p, s, 1, k);
    forall i | 0 <= i <= |inner| ensures Depth(p, inner[..i]) >= 0 {
      assert inner[..i] == s[1..i + 1];
      SliceDepth(p, s, 1, i + 1);
      assert Depth(p, s[..i + 1]) >= 0;
    }
  }

  lemma TailIsLevel(p: Pair, s: string, k: nat)
    requires k <= |s| && Depth(p, s) == 0 && NeverBelow(p, s) && Depth(p, s[..k]) == 0
    ensures Depth(p, s[k..]) == 0 && NeverBelow(p, s[k..])
  {
    forall i | 0 <= i <= |s[k..]| ensures Depth(p, s[k..][..i]) == Depth(p, s[..k + i]) {
      assert s[k..][..i] == s[k..k + i];
      SliceDepth(p, s, k, k + i);
    }
    assert s[k..][..|s| - k] == s[k..] && s[..|s|] == s;
  }

  /** The grammar derives every text that is level and never closes more than is open. */
  lemma {:induction false} LevelIsBalanced(p: Pair, s: string)
    requires p.open != p.close && Depth(p, s) == 0 && NeverBelow(p, s)
    ensures Balanced(p, s)
    decreases |s|
  {
    if s != [] {
      DepthOne(p, s[0]);
      assert s[..1] == [s[0]];
      if s[0] == p.open {
        var k := FirstLater(p, s, 0);
        InnerIsLevel(p, s, k);
        LevelIsBalanced(p, s[1..k]);
        TailIsLevel(p, s, k + 1);
        LevelIsBalanced(p, s[k + 1..]);
      } else {
        assert Depth(p, s[..1]) >= 0;
        TailIsLevel(p, s, 1);
        LevelIsBalanced(p, s[1..]);
      }
    }
  }

  // ---------- Finding the partner ----------

  // A closing bracket at which everything opened since `start` is closed.
  predicate ClosesAt(p: Pair, s: string, start: nat, j: int) {
    start <= j < |s| && s[j] == p.close && Depth(p, s[start..j + 1]) == 0
  }

  lemma DepthFrom(p: Pair, s: string, start: nat, i: nat)
    requires start <= i < |s|
    ensures Depth(p, s[start..i + 1]) == Depth(p, s[start..i]) + Weight(p, s[i])
  {
    assert s[start..i + 1][..i - start] == s[start..i];
  }

  // Until the first closing place at least the bracket at `start` is open.
  lemma {:induction false} OpenUntil(p: Pair, s: string, start: nat, i: nat)
    requires p.open != p.close && start <= i < |s| && s[start] == p.open
    requires forall k :: start <= k <= i ==> !ClosesAt(p, s, start, k)
    ensures Depth(p, s[start..i + 1]) >= 1
  {
    DepthFrom(p, s, start, i);
    assert !ClosesAt(p, s, start, i);
    if i == start {
      assert s[start..start] == [];
    } else {
      OpenUntil(p, s, start, i - 1);
      assert Depth(p, s[start..i]) >= 1;
    }
  }

  lemma InnerDepth(p: Pair, s: string, start: nat, i: nat)
    requires start < i <= |s| && s[start] == p.open
    ensures Depth(p, s[start..i]) == 1 + Depth(p, s[start + 1..i])
  {
    assert s[start..i] == [s[start]] + s[start + 1..i];
    DepthConcat(p, [s[start]], s[start + 1..i]);
    DepthOne(p, s[start]);
  }

  lemma FirstClosingIsPartner(p: Pair, s: string, start: nat, j: nat)
    requires p.open != p.close && start < |s| && s[start] == p.open
    requires ClosesAt(p, s, start, j) && forall k :: start <= k < j ==> !ClosesAt(p, s, start, k)
    ensures Partner(p, s, start, j)
  {
    var inner := s[start + 1..j];
    forall i | 0 <= i <= |inner| ensures Depth(p, inner[..i]) >= 0 {
      assert inner[..i] == s[start + 1..start + 1 + i];
      OpenUntil(p, s, start, start + i);
      InnerDepth(p, s, start, start + 1 + i);
    }
    DepthFrom(p, s, start, j);
    InnerDepth(p, s, start, j);
    LevelIsBalanced(p, inner);
  }

  lemma PartnerIsFirstClosing(p: Pair, s: string, start: nat, j: nat)
    requires p.open != p.close && start < |s| && s[start] == p.open && Partner(p, s, start, j)
    ensures ClosesAt(p, s, start, j)
    ensures forall k :: start <= k < j ==> !ClosesAt(p, s, start, k)
  {
    var inner := s[start + 1..j];
    BalancedIsLevel(p, inner);
    InnerDepth(p, s, start, j);
    DepthFrom(p, s, start, j);
    forall k | start <= k < j ensures !ClosesAt(p, s, start, k) {
      assert inner[..k - start] == s[start + 1..k + 1];
      InnerDepth(p, s, start, k + 1);
    }
  }

  /** An opening bracket has at most one partner. */
  lemma OnePartner(p: Pair, s: string, start: nat, i: nat, j: nat)
    requires p.open != p.close && start < |s| && s[start] == p.open
    requires Partner(p, s, start, i) && Partner(p, s, start, j)
    ensures i == j
  {
    PartnerIsFirstClosing(p, s, start, i);
    PartnerIsFirstClosing(p, s, start, j);
  }

  /**
   From any place the scan finds the first closing bracket at which the depth is zero, and
   -1 exactly when there is none; from an opening bracket that is its partner in the
   grammar, and -1 exactly when it has none.
   */
  method FindMatching(p: Pair, source: string, openIndex: nat) returns (r: int)
    requires p.open != p.close
    ensures r == -1 || ClosesAt(p, source, openIndex, r)
    ensures forall k :: openIndex <= k < (if r == -1 then |source| else r) ==> !ClosesAt(p, source, openIndex, k)
    ensures openIndex < |source| && source[openIndex] == p.open ==>
      forall j :: Partner(p, source, openIndex, j) <==> j == r != -1
  {
    var depth := 0;
    r := -1;
    var i := openIndex;
    while i < |source|
      invariant i <= |source| || i == openIndex
      invariant openIndex <= i
      invariant i <= |source| ==> depth == Depth(p, source[openIndex..i])
      invariant forall k :: openIndex <= k < i ==> !ClosesAt(p, source, openIndex, k)
    {
      DepthFrom(p, source, openIndex, i);
      var ch := source[i];
      if ch == p.open {
        depth := depth + 1;
      } else if ch == p.close {
        depth := depth - 1;
        if depth == 0 {
          r := i;
          break;
        }
      }
      i := i + 1;
    }
    if openIndex < |source| && source[openIndex] == p.open {
      if r != -1 {
        FirstClosingIsPartner(p, source, openIndex, r);
      }
      forall j | Partner(p, source, openIndex, j) ensures j == r {
        PartnerIsFirstClosing(p, source, openIndex, j);
      }
    }
  }

  method FindMatchingParen(source: string, openParenIndex: nat) returns (r: int)
    ensures openParenIndex < |source| && source[openParenIndex] == '(' ==>
      forall j :: Partner(PARENS, source, openParenIndex, j) <==> j == r != -1
  {
    r := FindMatching(PARENS, source, openParenIndex);
  }

  method FindMatchingBrace(source: string, openBraceIndex: nat) returns (r: int)
    ensures openBraceIndex < |source| && source[openBraceIndex] == '{' ==>
      forall j :: Partner(BRACES, source, openBraceIndex, j) <==> j == r != -1
  {
    r := FindMatching(BRACES, source, openBraceIndex);
  }

  // ---------- The body brace of a method ----------

  predicate Quote(c: char) {
    c == '"' || c == '\'' || c == '`'
  }

  // The quote whose string is open before place i of a scan that began at `from`.  A quote behind a backslash does not close it.
  function OpenQuote(s: string, from: nat, i: nat): Option<char>
    requires from <= i <= |s|
  {
    if i == from then None
    else
      var c := s[i - 1];
      match OpenQuote(s, from, i - 1)
      case Some(q) => if c == q && !(i >= 2 && s[i - 2] == '\\') then None else Some(q)
      case None => if Quote(c) then Some(c) else None
  }

  // No place from k up to i, exclusive, closes a string that `q` opened.
  predicate NotClosed(s: string, q: char, k: nat, i: nat)
    requires i <= |s|
  {
    forall j :: k < j < i && s[j] == q ==> s[j - 1] == '\\'
  }

  /** Outside strings, a stretch without any of the three quotes opens none. */
  lemma {:induction false} CodeOpensNoString(s: string, from: nat, k: nat, i: nat)
    requires from <= k <= i <= |s| && OpenQuote(s, from, k) == None
    requires forall j :: k <= j < i ==> s[j] != '"' && s[j] != '\'' && s[j] != '`'
    ensures OpenQuote(s, from, i) == None
  {
    if k < i {
      CodeOpensNoString(s, from, k, i - 1);
    }
  }

  /** A quote opens a string that only the same quote closes, the first of them that no backslash precedes. */
  lemma {:induction false} StringUntilItsQuote(s: string, from: nat, k: nat, i: nat)
    requires from <= k < i <= |s| && OpenQuote(s, from, k) == None
    requires s[k] == '"' || s[k] == '\'' || s[k] == '`'
    requires NotClosed(s, s[k], k, i)
    ensures OpenQuote(s, from, i) == Some(s[k])
    ensures i < |s| && s[i] == s[k] && s[i - 1] != '\\' ==> OpenQuote(s, from, i + 1) == None
  {
    if k + 1 < i {
      StringUntilItsQuote(s, from, k, i - 1);
    }
  }

  // What place i adds to the depth of one kind of bracket: nothing inside strings.
  function Step(p: Pair, s: string, from: nat, i: nat): int
    requires from <= i < |s|
  {
    if OpenQuote(s, from, i).Some? then 0 else Weight(p, s[i])
  }

  // The depth of one kind of bracket, which never falls below zero.
  function Clamped(p: Pair, s: string, from: nat, i: nat): nat
    requires from <= i <= |s|
  {
    if i == from then 0
    else
      var d := Clamped(p, s, from, i - 1) + Step(p, s, from, i - 1);
      if d < 0 then 0 else d
  }

  /** A bracket outside strings opens or closes one, though nothing below zero; inside a string nothing counts. */
  lemma WhatCounts(p: Pair, s: string, from: nat, i: nat)
    requires from <= i < |s| && p.open != p.close
    ensures var d, e := Clamped(p, s, from, i), Clamped(p, s, from, i + 1);
      && (OpenQuote(s, from, i) != None ==> e == d)
      && (OpenQuote(s, from, i) == None ==>
            && (s[i] == p.open ==> e == d + 1)
            && (s[i] == p.close ==> e == if d == 0 then 0 else d - 1)
            && (s[i] != p.open && s[i] != p.close ==> e == d))
  {
  }

  // Opened less closed between two places.
  function Surplus(p: Pair, s: string, from: nat, k: nat, i: nat): int
    requires from <= k <= i <= |s|
  {
    if i == k then 0 else Surplus(p, s, from, k, i - 1) + Step(p, s, from, i - 1)
  }

  /** A clamped depth is the greatest surplus of any stretch that ends here. */
  lemma {:induction false} ClampedIsGreatestSurplus(p: Pair, s: string, from: nat, i: nat)
    requires from <= i <= |s|
    ensures forall k :: from <= k <= i ==> Surplus(p, s, from, k, i) <= Clamped(p, s, from, i)
    ensures exists k :: from <= k <= i && Surplus(p, s, from, k, i) == Clamped(p, s, from, i)
  {
    if i == from {
      assert Surplus(p, s, from, i, i) == Clamped(p, s, from, i);
    } else {
      ClampedIsGreatestSurplus(p, s, from, i - 1);
      var k :| from <= k <= i - 1 && Surplus(p, s, from, k, i - 1) == Clamped(p, s, from, i - 1);
      if Clamped(p, s, from, i) == 0 {
        assert Surplus(p, s, from, i, i) == 0;
      } else {
        assert Surplus(p, s, from, k, i) == Clamped(p, s, from, i);
      }
      forall l | from <= l < i ensures Surplus(p, s, from, l, i) <= Clamped(p, s, from, i) {
        assert Surplus(p, s, from, l, i - 1) <= Clamped(p, s, from, i - 1);
      }
    }
  }

  // A brace outside strings and outside all brackets.
  predicate BodyBrace(s: string, from: nat, i: nat)
    requires from <= i <= |s|
  {
    && i < |s| && s[i] == '{'
    && OpenQuote(s, from, i) == None
    && Clamped(ANGLES, s, from, i) == 0 && Clamped(PARENS, s, from, i) == 0
    && Clamped(BRACKETS, s, from, i) == 0 && Clamped(BRACES, s, from, i) == 0
  }

  /** These are the brackets that count, of all four kinds. */
  lemma BodyBraceIs(s: string, from: nat, i: nat)
    requires from <= i <= |s|
    ensures BodyBrace(s, from, i) <==>
      && i < |s| && s[i] == '{' && OpenQuote(s, from, i) == None
      && Clamped(Pair('<', '>'), s, from, i) == 0 && Clamped(Pair('(', ')'), s, from, i) == 0
      && Clamped(Pair('[', ']'), s, from, i) == 0 && Clamped(Pair('{', '}'), s, from, i) == 0
  {
  }

  /** The scan returns the first such brace, and -1 exactly when there is none. */
  method FindMethodBodyBrace(source: string, fromIndex: nat) returns (r: int)
    ensures r == -1 || (fromIndex <= r < |source| && BodyBrace(source, fromIndex, r))
    ensures forall k :: fromIndex <= k < (if r == -1 then |source| else r) ==> !BodyBrace(source, fromIndex, k)
  {
    var angleDepth, braceDepth, bracketDepth, parenDepth := 0, 0, 0, 0;
    var inString: Option<char> := None;
    var i := fromIndex;
    while i < |source|
      invariant fromIndex <= i && (i <= |source| || i == fromIndex)
      invariant i <= |source| ==> inString == OpenQuote(source, fromIndex, i)
      invariant i <= |source| ==> angleDepth == Clamped(ANGLES, source, fromIndex, i)
      invariant i <= |source| ==> braceDepth == Clamped(BRACES, source, fromIndex, i)
      invariant i <= |source| ==> bracketDepth == Clamped(BRACKETS, source, fromIndex, i)
      invariant i <= |source| ==> parenDepth == Clamped(PARENS, source, fromIndex, i)
      invariant forall k :: fromIndex <= k < i <= |source| ==> !BodyBrace(source, fromIndex, k)
    {
      var ch := source[i];
      if inString.Some? {
        if ch == inString.value && !(i > 0 && source[i - 1] == '\\') {
          inString := None;
        }
      } else if ch == '"' || ch == '\'' || ch == '`' {
        inString := Some(ch);
      } else if ch == '<' {
        angleDepth := angleDepth + 1;
      } else if ch == '>' {
        angleDepth := Max(0, angleDepth - 1);
      } else if ch == '(' {
        parenDepth := parenDepth + 1;
      } else if ch == ')' {
        parenDepth := Max(0, parenDepth - 1);
      } else if ch == '[' {
        bracketDepth := bracketDepth + 1;
      } else if ch == ']' {
        bracketDepth := Max(0, bracketDepth - 1);
      } else if ch == '{' {
        if angleDepth == 0 && parenDepth == 0 && bracketDepth == 0 && braceDepth == 0 {
          return i;
        }
        braceDepth := braceDepth + 1;
      } else if ch == '}' {
        braceDepth := Max(0, braceDepth - 1);
      }
      i := i + 1;
    }
    r := -1;
  }
}
