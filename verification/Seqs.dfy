/**
 Sequences as tables: filtering, the meaning of WHERE on a table whose rows are listed in
 order; ordering, the meaning of ORDER BY; and folding, the meaning of a run of steps.
 */
module Seqs {
  import opened Wrappers

  function Filter<T>(p: T -> bool, s: seq<T>): seq<T> {
    if s == [] then []
    else
      var n := |s| - 1;
      Filter(p, s[..n]) + if p(s[n]) then [s[n]] else []
  }

  // The first row that satisfies p.
  function Find<T>(p: T -> bool, s: seq<T>): (r: Option<T>)
    ensures r.Some? ==> r.value in s && p(r.value)
    ensures r.None? ==> forall x :: x in s ==> !p(x)
  {
    if s == [] then None
    else
      var n := |s| - 1;
      var r := Find(p, s[..n]);
      if r.Some? then r else if p(s[n]) then Some(s[n]) else None
  }

  lemma {:induction false} FilterMembers<T>(p: T -> bool, s: seq<T>)
    ensures forall x :: x in Filter(p, s) ==> x in s && p(x)
    ensures forall x :: x in s && p(x) ==> x in Filter(p, s)
    ensures |Filter(p, s)| <= |s|
  {
    if s != [] {
      FilterMembers(p, s[..|s| - 1]);
    }
  }

  lemma {:induction false} FilterConcat<T>(p: T -> bool, a: seq<T>, b: seq<T>)
    ensures Filter(p, a + b) == Filter(p, a) + Filter(p, b)
  {
    if b == [] {
      assert a + b == a;
    } else {
      var n := |b| - 1;
      FilterConcat(p, a, b[..n]);
      assert (a + b)[..|a + b| - 1] == a + b[..n];
    }
  }

  lemma {:induction false} FilterNone<T>(p: T -> bool, s: seq<T>)
    requires forall i :: 0 <= i < |s| ==> !p(s[i])
    ensures Filter(p, s) == []
  {
    if s != [] {
      FilterNone(p, s[..|s| - 1]);
    }
  }

  lemma {:induction false} FilterEvery<T>(p: T -> bool, s: seq<T>)
    requires forall i :: 0 <= i < |s| ==> p(s[i])
    ensures Filter(p, s) == s
  {
    if s != [] {
      FilterEvery(p, s[..|s| - 1]);
    }
  }

  // Of two parts, only the one whose rows satisfy p is left, whichever comes first.
  lemma FilterMixed<T>(p: T -> bool, mine: seq<T>, others: seq<T>)
    requires forall i :: 0 <= i < |mine| ==> p(mine[i])
    requires forall i :: 0 <= i < |others| ==> !p(others[i])
    ensures Filter(p, mine + others) == mine && Filter(p, others + mine) == mine
  {
    FilterEvery(p, mine);
    FilterNone(p, others);
    FilterConcat(p, mine, others);
    FilterConcat(p, others, mine);
  }

  // Two filters that agree on every row of the table select the same rows.
  lemma {:induction false} FilterCongruent<T>(p: T -> bool, q: T -> bool, s: seq<T>)
    requires forall i :: 0 <= i < |s| ==> p(s[i]) == q(s[i])
    ensures Filter(p, s) == Filter(q, s)
  {
    if s != [] {
      FilterCongruent(p, q, s[..|s| - 1]);
    }
  }

  // Filtering twice keeps what satisfies both.
  lemma {:induction false} FilterFilter<T>(p: T -> bool, q: T -> bool, pq: T -> bool, s: seq<T>)
    requires forall i :: 0 <= i < |s| ==> pq(s[i]) == (p(s[i]) && q(s[i]))
    ensures Filter(p, Filter(q, s)) == Filter(pq, s)
  {
    if s != [] {
      var n := |s| - 1;
      FilterFilter(p, q, pq, s[..n]);
      FilterConcat(p, Filter(q, s[..n]), if q(s[n]) then [s[n]] else []);
      assert [s[n]][..0] == [];
    }
  }

  // ---------- Counting rows ----------

  lemma SameCounts<T>(a: seq<T>, b: seq<T>)
    requires forall x :: multiset(a)[x] == multiset(b)[x]
    ensures multiset(a) == multiset(b)
  {
  }

  lemma {:induction false} FilterCount<T>(p: T -> bool, s: seq<T>, x: T)
    ensures multiset(Filter(p, s))[x] == if p(x) then multiset(s)[x] else 0
  {
    if s != [] {
      var n := |s| - 1;
      FilterCount(p, s[..n], x);
      assert s == s[..n] + [s[n]];
    }
  }

  lemma ConcatCount<T>(a: seq<T>, b: seq<T>, x: T)
    ensures multiset(a + b)[x] == multiset(a)[x] + multiset(b)[x]
  {
  }

  lemma FilterPermuted<T>(p: T -> bool, s: seq<T>, t: seq<T>)
    requires multiset(s) == multiset(t)
    ensures multiset(Filter(p, s)) == multiset(Filter(p, t))
  {
    forall x ensures multiset(Filter(p, s))[x] == multiset(Filter(p, t))[x] {
      FilterCount(p, s, x);
      FilterCount(p, t, x);
    }
    SameCounts(Filter(p, s), Filter(p, t));
  }

  // ---------- Ordered rows ----------

  // What ORDER BY promises of a result: no row stands behind one it should precede.
  ghost predicate Arranged<T>(before: (T, T) -> bool, s: seq<T>) {
    forall i, j :: 0 <= i < j < |s| ==> !before(s[j], s[i])
  }

  lemma {:induction false} FilterArranged<T>(before: (T, T) -> bool, p: T -> bool, s: seq<T>)
    requires Arranged(before, s)
    ensures Arranged(before, Filter(p, s))
  {
    if s != [] {
      var n := |s| - 1;
      FilterArranged(before, p, s[..n]);
      FilterMembers(p, s[..n]);
      var f := Filter(p, s[..n]);
      forall i | 0 <= i < |f| ensures !before(s[n], f[i]) {
        assert f[i] in f;
        var k :| 0 <= k < n && s[..n][k] == f[i];
      }
    }
  }

  // The order decides every two different rows.
  ghost predicate Decides<T>(before: (T, T) -> bool, s: seq<T>) {
    forall i, j :: 0 <= i < |s| && 0 <= j < |s| && s[i] != s[j] ==> before(s[i], s[j]) || before(s[j], s[i])
  }

  lemma SameLast<T>(before: (T, T) -> bool, s: seq<T>, t: seq<T>)
    requires s != [] && t != [] && multiset(s) == multiset(t)
    requires Arranged(before, s) && Arranged(before, t) && Decides(before, s)
    ensures s[|s| - 1] == t[|t| - 1]
  {
    var x, y := s[|s| - 1], t[|t| - 1];
    assert x in multiset(t) && y in multiset(s);
    var i: nat :| i < |s| && s[i] == y;
    var j: nat :| j < |t| && t[j] == x;
  }

  lemma DropLast<T>(before: (T, T) -> bool, s: seq<T>)
    requires s != []
    ensures var n := |s| - 1;
      && multiset(s[..n]) == multiset(s) - multiset{s[n]}
      && (Arranged(before, s) ==> Arranged(before, s[..n]))
      && (Decides(before, s) ==> Decides(before, s[..n]))
  {
    assert s == s[..|s| - 1] + [s[|s| - 1]];
  }

  lemma {:induction false} OneArrangement<T>(before: (T, T) -> bool, s: seq<T>, t: seq<T>)
    requires multiset(s) == multiset(t) && Arranged(before, s) && Arranged(before, t) && Decides(before, s)
    ensures s == t
    decreases |s|
  {
    assert |s| == |multiset(s)| && |t| == |multiset(t)|;
    if s != [] {
      var n := |s| - 1;
      SameLast(before, s, t);
      DropLast(before, s);
      DropLast(before, t);
      OneArrangement(before, s[..n], t[..n]);
    }
  }

  lemma DecidesPart<T>(before: (T, T) -> bool, table: seq<T>, group: T -> bool, nested: seq<T>)
    requires multiset(nested) == multiset(Filter(group, table)) && Decides(before, table)
    ensures Decides(before, nested)
  {
    FilterMembers(group, table);
    forall i, j | 0 <= i < |nested| && 0 <= j < |nested| && nested[i] != nested[j]
      ensures before(nested[i], nested[j]) || before(nested[j], nested[i])
    {
      assert nested[i] in multiset(nested) && nested[j] in multiset(nested);
      assert nested[i] in Filter(group, table) && nested[j] in Filter(group, table);
      var k :| 0 <= k < |table| && table[k] == nested[i];
      var l :| 0 <= l < |table| && table[l] == nested[j];
    }
  }

  // ---------- Prefixes ----------

  lemma PrefixGrows<T>(s: seq<T>, x: T, route: seq<T>)
    ensures s + [x] <= route <==> s <= route && |s| < |route| && x == route[|s|]
    ensures forall n: nat :: n <= |route| ==> (s <= route[..n] <==> s <= route && |s| <= n)
  {
    if s + [x] <= route {
      assert (s + [x])[|s|] == route[|s|];
      assert forall i :: 0 <= i < |s| ==> s[i] == (s + [x])[i];
    }
  }

  // ---------- Runs ----------

  // What a list of actions makes of a state.
  function Fold<S, A>(step: (S, A) -> S, s: S, actions: seq<A>): S {
    if actions == [] then s
    else step(Fold(step, s, actions[..|actions| - 1]), actions[|actions| - 1])
  }

  lemma FoldOneMore<S, A>(step: (S, A) -> S, s: S, actions: seq<A>, a: A)
    ensures Fold(step, s, actions + [a]) == step(Fold(step, s, actions), a)
  {
    assert (actions + [a])[..|actions|] == actions;
  }

  lemma FoldOne<S, A>(step: (S, A) -> S, s: S, a: A)
    ensures Fold(step, s, [a]) == step(s, a)
  {
    assert [a][..0] == [];
  }

  lemma FoldTwo<S, A>(step: (S, A) -> S, s: S, a: A, b: A)
    ensures Fold(step, s, [a, b]) == step(step(s, a), b)
  {
    assert [a] + [b] == [a, b];
    FoldOne(step, s, a);
    FoldOneMore(step, s, [a], b);
  }

  lemma FoldThree<S, A>(step: (S, A) -> S, s: S, a: A, b: A, c: A)
    ensures Fold(step, s, [a, b, c]) == step(step(step(s, a), b), c)
  {
    assert [a, b] + [c] == [a, b, c];
    FoldTwo(step, s, a, b);
    FoldOneMore(step, s, [a, b], c);
  }

  lemma {:induction false} FoldSplit<S, A>(step: (S, A) -> S, s: S, a: seq<A>, b: seq<A>)
    ensures Fold(step, s, a + b) == Fold(step, Fold(step, s, a), b)
  {
    if b == [] {
      assert a + b == a;
    } else {
      var n := |b| - 1;
      FoldSplit(step, s, a, b[..n]);
      assert (a + b)[..|a + b| - 1] == a + b[..n];
    }
  }
}
