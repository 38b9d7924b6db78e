/**
 Grouping rows into Map buckets with one pass, against asking for each group on its own.
 */
module Grouping {
  import opened Seqs

  function HasKey<T, K(==)>(key: T -> K, k: K): T -> bool {
    (x: T) => key(x) == k
  }

  predicate AllDifferent<K(==)>(keys: seq<K>) {
    forall i, j :: 0 <= i < j < |keys| ==> keys[i] != keys[j]
  }

  // The keys in the order in which a Map first met them.
  function KeysMet<T, K(==)>(key: T -> K, rows: seq<T>): seq<K> {
    if rows == [] then []
    else
      var n := |rows| - 1;
      var met := KeysMet(key, rows[..n]);
      if key(rows[n]) in met then met else met + [key(rows[n])]
  }

  lemma OneMoreRow<T>(p: T -> bool, rows: seq<T>, i: nat)
    requires i < |rows|
    ensures Filter(p, rows[..i + 1]) == Filter(p, rows[..i]) + if p(rows[i]) then [rows[i]] else []
  {
    assert rows[..i + 1][..i] == rows[..i];
  }

  // The buckets of the rows seen so far.
  ghost predicate Buckets<T, K(!new)>(key: T -> K, rows: seq<T>, groups: map<K, seq<T>>) {
    && (forall k :: k in groups ==> groups[k] == Filter(HasKey(key, k), rows))
    && (forall k :: k !in groups ==> Filter(HasKey(key, k), rows) == [])
  }

  lemma OneMoreInBucket<T, K(!new)>(key: T -> K, rows: seq<T>, i: nat, groups: map<K, seq<T>>)
    requires i < |rows| && Buckets(key, rows[..i], groups)
    ensures var k := key(rows[i]);
      Buckets(key, rows[..i + 1], groups[k := (if k in groups then groups[k] else []) + [rows[i]]])
  {
    var k := key(rows[i]);
    var bucket := if k in groups then groups[k] else [];
    forall l: K ensures Filter(HasKey(key, l), rows[..i + 1]) ==
                        if l == k then bucket + [rows[i]] else Filter(HasKey(key, l), rows[..i]) {
      OneMoreRow(HasKey(key, l), rows, i);
    }
  }

  lemma OneMoreKey<K>(keys: seq<K>, k: K)
    ensures forall x: K :: x in keys + [k] <==> x in keys || x == k
  {
  }

  /** One pass over the rows: every bucket holds the rows of its key in their order, and the keys come in first-met order. */
  method GroupBy<T, K(==,!new)>(rows: seq<T>, key: T -> K) returns (groups: map<K, seq<T>>, keys: seq<K>)
    ensures keys == KeysMet(key, rows)
    ensures forall k :: k in groups <==> k in keys
    ensures forall k :: k in groups ==> groups[k] == Filter(HasKey(key, k), rows)
  {
    groups, keys := map[], [];
    for i := 0 to |rows|
      invariant keys == KeysMet(key, rows[..i])
      invariant forall k :: k in groups <==> k in keys
      invariant Buckets(key, rows[..i], groups)
    {
      var k := key(rows[i]);
      OneMoreInBucket(key, rows, i, groups);
      assert rows[..i + 1][..i] == rows[..i];
      OneMoreKey(keys, k);
      if k !in groups {
        keys := keys + [k];
      }
      groups := groups[k := (if k in groups then groups[k] else []) + [rows[i]]];
    }
    assert rows[..|rows|] == rows;
  }

  // ---------- No row is lost or duplicated ----------

  function Joined<T, K(==)>(key: T -> K, rows: seq<T>, keys: seq<K>): seq<T> {
    if keys == [] then []
    else
      var n := |keys| - 1;
      Joined(key, rows, keys[..n]) + Filter(HasKey(key, keys[n]), rows)
  }

  lemma {:induction false} KeysMetAre<T, K>(key: T -> K, rows: seq<T>)
    ensures var keys := KeysMet(key, rows);
      && AllDifferent(keys)
      && (forall i :: 0 <= i < |rows| ==> key(rows[i]) in keys)
  {
    if rows != [] {
      KeysMetAre(key, rows[..|rows| - 1]);
    }
  }

  lemma LastKey<K>(keys: seq<K>, k: K)
    requires keys != [] && AllDifferent(keys)
    ensures var n := |keys| - 1;
      AllDifferent(keys[..n]) && keys[n] !in keys[..n] && (k in keys <==> k in keys[..n] || k == keys[n])
  {
    assert keys == keys[..|keys| - 1] + [keys[|keys| - 1]];
  }

  lemma {:induction false} JoinedCount<T, K>(key: T -> K, rows: seq<T>, keys: seq<K>, x: T)
    requires AllDifferent(keys)
    ensures multiset(Joined(key, rows, keys))[x] == if key(x) in keys then multiset(rows)[x] else 0
  {
    if keys != [] {
      var n := |keys| - 1;
      LastKey(keys, key(x));
      JoinedCount(key, rows, keys[..n], x);
      FilterCount(HasKey(key, keys[n]), rows, x);
      ConcatCount(Joined(key, rows, keys[..n]), Filter(HasKey(key, keys[n]), rows), x);
    }
  }

  /** Joined over any list of different keys that has every row's key, the groups are the rows. */
  lemma GroupsPartition<T, K>(key: T -> K, rows: seq<T>, keys: seq<K>)
    requires AllDifferent(keys)
    requires forall i :: 0 <= i < |rows| ==> key(rows[i]) in keys
    ensures multiset(Joined(key, rows, keys)) == multiset(rows)
  {
    forall x ensures multiset(Joined(key, rows, keys))[x] == multiset(rows)[x] {
      JoinedCount(key, rows, keys, x);
      if multiset(rows)[x] > 0 {
        var i :| 0 <= i < |rows| && rows[i] == x;
        assert key(rows[i]) in keys;
      }
    }
    SameCounts(Joined(key, rows, keys), rows);
  }

  /** Attaching: each parent gets the rows of its key in the answer's order, and none if there are none. */
  method AttachGroups<T, K(==,!new)>(parents: seq<K>, answer: seq<T>, key: T -> K) returns (r: seq<seq<T>>)
    ensures |r| == |parents|
    ensures forall i :: 0 <= i < |parents| ==> r[i] == Filter(HasKey(key, parents[i]), answer)
  {
    var groups, keys := GroupBy(answer, key);
    r := seq(|parents|, i requires 0 <= i < |parents| => if parents[i] in groups then groups[parents[i]] else []);
    forall i | 0 <= i < |parents| && parents[i] !in groups ensures Filter(HasKey(key, parents[i]), answer) == [] {
      KeysMetAre(key, answer);
      assert forall j :: 0 <= j < |answer| ==> key(answer[j]) in keys;
      FilterNone(HasKey(key, parents[i]), answer);
    }
  }

  // ---------- One query for all groups against one query per group ----------

  lemma SameRows<T>(table: seq<T>, asked: T -> bool, group: T -> bool, answer: seq<T>, nested: seq<T>)
    requires multiset(answer) == multiset(Filter(asked, table)) && multiset(nested) == multiset(Filter(group, table))
    requires forall i :: 0 <= i < |table| && group(table[i]) ==> asked(table[i])
    ensures multiset(Filter(group, answer)) == multiset(nested)
  {
    forall x ensures multiset(Filter(group, answer))[x] == multiset(nested)[x] {
      FilterCount(group, answer, x);
      FilterCount(asked, table, x);
      FilterCount(group, table, x);
      if multiset(table)[x] > 0 {
        var i :| 0 <= i < |table| && table[i] == x;
        assert group(table[i]) ==> asked(table[i]);
      }
    }
    SameCounts(Filter(group, answer), nested);
  }

  /**
   Take the answer to one ordered query for many groups, and the answer to an ordered
   query for one of them.  If the order decides every two rows, the bucket of that group
   in the first answer is the second answer.
   */
  lemma BucketIsNestedAnswer<T>(before: (T, T) -> bool, table: seq<T>, asked: T -> bool, group: T -> bool,
                                answer: seq<T>, nested: seq<T>)
    requires multiset(answer) == multiset(Filter(asked, table)) && Arranged(before, answer)
    requires multiset(nested) == multiset(Filter(group, table)) && Arranged(before, nested)
    requires forall i :: 0 <= i < |table| && group(table[i]) ==> asked(table[i])
    requires Decides(before, table)
    ensures Filter(group, answer) == nested
  {
    SameRows(table, asked, group, answer, nested);
    FilterArranged(before, group, answer);
    DecidesPart(before, table, group, nested);
    OneArrangement(before, nested, Filter(group, answer));
  }
}
