/** Fair interleaving of families: the split planner's interleaving of plans by token,
    the engine's interleaving of route groups, and its capped representative sample. */
module RoundRobin {

  // ------------------------------------------------- the order of an interleaving

  /** The element at position `depth` of family number `family`. */
  datatype Coord = Coord(family: nat, depth: nat)

  function Longest<T>(lists: seq<seq<T>>): (n: nat)
    ensures forall l | l in lists :: |l| <= n
    ensures n > 0 ==> exists i :: 0 <= i < |lists| && |lists[i]| == n
  {
    if lists == [] then 0 else
      var rest := Longest(lists[1..]);
      if |lists[0]| >= rest then
        assert lists[0] == lists[0];
        |lists[0]|
      else
        assert exists i :: 0 <= i < |lists[1..]| && |lists[1..][i]| == rest;
        assert forall i | 0 <= i < |lists[1..]| :: lists[1..][i] == lists[i+1];
        rest
  }

  function Row<T>(lists: seq<seq<T>>, depth: nat, from: nat): seq<Coord>
    requires from <= |lists|
    decreases |lists| - from
  {
    if from == |lists| then []
    else (if depth < |lists[from]| then [Coord(from, depth)] else []) + Row(lists, depth, from + 1)
  }

  function CoordsFrom<T>(lists: seq<seq<T>>, depth: nat): seq<Coord>
    decreases Longest(lists) - depth
  {
    if depth >= Longest(lists) then [] else Row(lists, depth, 0) + CoordsFrom(lists, depth + 1)
  }

  ghost predicate Exists<T>(lists: seq<seq<T>>, c: Coord) {
    c.family < |lists| && c.depth < |lists[c.family]|
  }

  predicate Before(a: Coord, b: Coord) {
    a.depth < b.depth || (a.depth == b.depth && a.family < b.family)
  }

  ghost predicate Ordered(cs: seq<Coord>) {
    forall i, j | 0 <= i < j < |cs| :: Before(cs[i], cs[j])
  }

  lemma OrderedConcat(a: seq<Coord>, b: seq<Coord>)
    requires Ordered(a) && Ordered(b)
    requires forall x, y | x in a && y in b :: Before(x, y)
    ensures Ordered(a + b)
  {
    forall i, j | 0 <= i < j < |a + b| ensures Before((a + b)[i], (a + b)[j]) {
      if i < |a| <= j {
        assert a[i] in a && b[j - |a|] in b;
      }
    }
  }

  ghost predicate InRow<T>(lists: seq<seq<T>>, depth: nat, from: nat, c: Coord) {
    c.depth == depth && from <= c.family && Exists(lists, c)
  }

  lemma {:induction false} RowSpec<T>(lists: seq<seq<T>>, depth: nat, from: nat)
    requires from <= |lists|
    ensures Ordered(Row(lists, depth, from))
    ensures forall c :: c in Row(lists, depth, from) <==> InRow(lists, depth, from, c)
    decreases |lists| - from
  {
    if from < |lists| {
      RowSpec(lists, depth, from + 1);
      var rest := Row(lists, depth, from + 1);
      var head := if depth < |lists[from]| then [Coord(from, depth)] else [];
      OrderedConcat(head, rest);
      forall c ensures c in head + rest <==> InRow(lists, depth, from, c) {
        assert c in head + rest <==> c in head || c in rest;
      }
    }
  }

  /** The interleaving visits every existing position exactly once, by depth first and by
      family within a depth; in particular each family keeps its inner order and every
      element at depth d precedes every element at depth d + 1. */
  lemma {:induction false} InterleavingOrder<T>(lists: seq<seq<T>>, depth: nat)
    ensures Ordered(CoordsFrom(lists, depth))
    ensures forall c :: c in CoordsFrom(lists, depth) <==> depth <= c.depth && Exists(lists, c)
    decreases Longest(lists) - depth
  {
    if depth < Longest(lists) {
      RowSpec(lists, depth, 0);
      InterleavingOrder(lists, depth + 1);
      OrderedConcat(Row(lists, depth, 0), CoordsFrom(lists, depth + 1));
    } else {
      forall c: Coord | depth <= c.depth ensures !Exists(lists, c) {
        if c.family < |lists| {
          assert lists[c.family] in lists;
        }
      }
    }
  }

  // --------------------------------------------------- the interleaved elements

  function RowOf<T>(lists: seq<seq<T>>, depth: nat, from: nat): seq<T>
    requires from <= |lists|
    decreases |lists| - from
  {
    if from == |lists| then []
    else (if depth < |lists[from]| then [lists[from][depth]] else []) + RowOf(lists, depth, from + 1)
  }

  function RowsFrom<T>(lists: seq<seq<T>>, depth: nat): seq<T>
    decreases Longest(lists) - depth
  {
    if depth >= Longest(lists) then [] else RowOf(lists, depth, 0) + RowsFrom(lists, depth + 1)
  }

  /** Rank-by-rank interleaving of ranked lists; shorter lists simply run out. */
  function Interleave<T>(lists: seq<seq<T>>): seq<T> { RowsFrom(lists, 0) }

  ghost predicate Reads<T>(lists: seq<seq<T>>, cs: seq<Coord>, values: seq<T>) {
    && |cs| == |values|
    && forall i | 0 <= i < |cs| :: Exists(lists, cs[i]) && values[i] == lists[cs[i].family][cs[i].depth]
  }

  lemma ReadsConcat<T>(lists: seq<seq<T>>, a: seq<Coord>, b: seq<Coord>, x: seq<T>, y: seq<T>)
    requires Reads(lists, a, x) && Reads(lists, b, y)
    ensures Reads(lists, a + b, x + y)
  {
  }

  lemma {:induction false} RowReads<T>(lists: seq<seq<T>>, depth: nat, from: nat)
    requires from <= |lists|
    ensures Reads(lists, Row(lists, depth, from), RowOf(lists, depth, from))
    decreases |lists| - from
  {
    if from < |lists| {
      RowReads(lists, depth, from + 1);
      if depth < |lists[from]| {
        ReadsConcat(lists, [Coord(from, depth)], Row(lists, depth, from + 1),
                    [lists[from][depth]], RowOf(lists, depth, from + 1));
      } else {
        ReadsConcat(lists, [], Row(lists, depth, from + 1), [], RowOf(lists, depth, from + 1));
      }
    }
  }

  /** The interleaved elements are the elements at the visited positions, in that order. */
  lemma {:induction false} InterleavingReads<T>(lists: seq<seq<T>>, depth: nat)
    ensures Reads(lists, CoordsFrom(lists, depth), RowsFrom(lists, depth))
    decreases Longest(lists) - depth
  {
    if depth < Longest(lists) {
      RowReads(lists, depth, 0);
      InterleavingReads(lists, depth + 1);
      ReadsConcat(lists, Row(lists, depth, 0), CoordsFrom(lists, depth + 1),
                  RowOf(lists, depth, 0), RowsFrom(lists, depth + 1));
    }
  }

  /** The fairness theorem in one statement: the interleaving lists, for strictly
      increasing (depth, family) positions covering every existing position, the element
      there. So nothing is lost or duplicated, each family keeps its inner order, and
      every depth-d element precedes every depth-(d+1) element. */
  lemma InterleaveIsFair<T>(lists: seq<seq<T>>) returns (cs: seq<Coord>)
    ensures Ordered(cs)
    ensures forall c :: c in cs <==> Exists(lists, c)
    ensures Reads(lists, cs, Interleave(lists))
  {
    cs := CoordsFrom(lists, 0);
    InterleavingOrder(lists, 0);
    InterleavingReads(lists, 0);
  }

  // ------------------------------------------------------ nothing lost or duplicated

  function Concat<T>(lists: seq<seq<T>>): seq<T> {
    if lists == [] then [] else lists[0] + Concat(lists[1..])
  }

  function ConcatDropping<T>(lists: seq<seq<T>>, depth: nat, from: nat): seq<T>
    requires from <= |lists|
    decreases |lists| - from
  {
    if from == |lists| then []
    else (if depth <= |lists[from]| then lists[from][depth..] else []) + ConcatDropping(lists, depth, from + 1)
  }

  lemma TakeFirst<T>(x: T, tail: seq<T>, before: seq<T>, row: seq<T>, after: seq<T>)
    requires multiset(before) == multiset(row) + multiset(after)
    ensures multiset(([x] + tail) + before) == multiset([x] + row) + multiset(tail + after)
  {
  }

  lemma SplitAt<T>(list: seq<T>, depth: nat)
    ensures depth < |list| ==> list[depth..] == [list[depth]] + list[depth+1..]
    ensures depth == |list| ==> list[depth..] == []
  {
  }

  lemma {:induction false} RowContents<T>(lists: seq<seq<T>>, depth: nat, from: nat)
    requires from <= |lists|
    ensures multiset(ConcatDropping(lists, depth, from))
         == multiset(RowOf(lists, depth, from)) + multiset(ConcatDropping(lists, depth + 1, from))
    decreases |lists| - from
  {
    if from < |lists| {
      var list := lists[from];
      var before, row, after := ConcatDropping(lists, depth, from + 1), RowOf(lists, depth, from + 1),
                                ConcatDropping(lists, depth + 1, from + 1);
      RowContents(lists, depth, from + 1);
      SplitAt(list, depth);
      if depth < |list| {
        TakeFirst(list[depth], list[depth+1..], before, row, after);
      } else {
        assert [] + before == before && [] + row == row && [] + after == after;
      }
    }
  }

  lemma {:induction false} RowsContents<T>(lists: seq<seq<T>>, depth: nat)
    ensures multiset(RowsFrom(lists, depth)) == multiset(ConcatDropping(lists, depth, 0))
    decreases Longest(lists) - depth
  {
    if depth < Longest(lists) {
      RowsContents(lists, depth + 1);
      RowContents(lists, depth, 0);
    } else {
      DroppingEverything(lists, depth, 0);
    }
  }

  lemma {:induction false} DroppingEverything<T>(lists: seq<seq<T>>, depth: nat, from: nat)
    requires from <= |lists| && depth >= Longest(lists)
    ensures ConcatDropping(lists, depth, from) == []
    ensures RowOf(lists, depth, from) == []
    decreases |lists| - from
  {
    if from < |lists| {
      assert lists[from] in lists;
      DroppingEverything(lists, depth, from + 1);
    }
  }

  lemma {:induction false} DroppingNothing<T>(lists: seq<seq<T>>, from: nat)
    requires from <= |lists|
    ensures ConcatDropping(lists, 0, from) == Concat(lists[from..])
    decreases |lists| - from
  {
    if from < |lists| {
      DroppingNothing(lists, from + 1);
      assert lists[from..][1..] == lists[from+1..];
    }
  }

  /** An interleaving is a permutation of the elements of its families. */
  lemma InterleaveIsPermutation<T>(lists: seq<seq<T>>)
    ensures multiset(Interleave(lists)) == multiset(Concat(lists))
  {
    RowsContents(lists, 0);
    DroppingNothing(lists, 0);
    assert lists[0..] == lists;
  }

  // ----------------------------------------------------------- grouping by family

  function Bucket<T, K(==)>(items: seq<T>, key: T -> K, k: K): seq<T> {
    if items == [] then []
    else (var rest := Bucket(items[..|items|-1], key, k);
          if key(items[|items|-1]) == k then rest + [items[|items|-1]] else rest)
  }

  /** The families in order of first appearance. */
  function Families<T, K(==)>(items: seq<T>, key: T -> K): (ks: seq<K>)
    ensures forall i, j | 0 <= i < j < |ks| :: ks[i] != ks[j]
    ensures forall x | x in items :: key(x) in ks
  {
    if items == [] then []
    else (var rest := Families(items[..|items|-1], key);
          var k := key(items[|items|-1]);
          assert items == items[..|items|-1] + [items[|items|-1]];
          if k in rest then rest else rest + [k])
  }

  function Buckets<T, K(==)>(items: seq<T>, key: T -> K, ks: seq<K>): (r: seq<seq<T>>)
    ensures |r| == |ks| && forall i | 0 <= i < |ks| :: r[i] == Bucket(items, key, ks[i])
  {
    seq(|ks|, i requires 0 <= i < |ks| => Bucket(items, key, ks[i]))
  }

  function GroupedBy<T, K(==)>(items: seq<T>, key: T -> K): seq<seq<T>> {
    Buckets(items, key, Families(items, key))
  }

  lemma BucketSnoc<T, K>(items: seq<T>, key: T -> K, x: T, k: K)
    ensures Bucket(items + [x], key, k) == if key(x) == k then Bucket(items, key, k) + [x] else Bucket(items, key, k)
  {
    assert (items + [x])[..|items|] == items;
  }

  lemma FamiliesSnoc<T, K>(items: seq<T>, key: T -> K, x: T)
    ensures Families(items + [x], key)
         == if key(x) in Families(items, key) then Families(items, key) else Families(items, key) + [key(x)]
  {
    assert (items + [x])[..|items|] == items;
  }

  lemma {:induction false} BucketsSnocContents<T, K>(items: seq<T>, key: T -> K, x: T, ks: seq<K>)
    requires forall i, j | 0 <= i < j < |ks| :: ks[i] != ks[j]
    ensures multiset(Concat(Buckets(items + [x], key, ks)))
         == multiset(Concat(Buckets(items, key, ks))) + (if key(x) in ks then multiset{x} else multiset{})
    decreases |ks|
  {
    if ks != [] {
      BucketsSnocContents(items, key, x, ks[1..]);
      BucketSnoc(items, key, x, ks[0]);
      assert Buckets(items + [x], key, ks)[1..] == Buckets(items + [x], key, ks[1..]);
      assert Buckets(items, key, ks)[1..] == Buckets(items, key, ks[1..]);
    }
  }

  lemma {:induction false} ConcatSnoc<T>(lists: seq<seq<T>>, l: seq<T>)
    ensures Concat(lists + [l]) == Concat(lists) + l
  {
    if lists != [] {
      assert (lists + [l])[1..] == lists[1..] + [l];
      ConcatSnoc(lists[1..], l);
    } else {
      assert Concat([l]) == l + Concat([l][1..]);
    }
  }

  lemma {:induction false} MissingFamilyIsEmpty<T, K>(items: seq<T>, key: T -> K, k: K)
    requires forall x | x in items :: key(x) != k
    ensures Bucket(items, key, k) == []
  {
    if items != [] {
      MissingFamilyIsEmpty(items[..|items|-1], key, k);
    }
  }

  lemma BucketsSnocFamily<T, K>(items: seq<T>, key: T -> K, ks: seq<K>, k: K)
    ensures Concat(Buckets(items, key, ks + [k])) == Concat(Buckets(items, key, ks)) + Bucket(items, key, k)
  {
    assert Buckets(items, key, ks + [k]) == Buckets(items, key, ks) + [Bucket(items, key, k)];
    ConcatSnoc(Buckets(items, key, ks), Bucket(items, key, k));
  }

  lemma {:induction false} GroupingIsPermutation<T, K>(items: seq<T>, key: T -> K)
    ensures multiset(Concat(GroupedBy(items, key))) == multiset(items)
    decreases |items|
  {
    if items != [] {
      var init, x := items[..|items|-1], items[|items|-1];
      assert items == init + [x];
      GroupingIsPermutation(init, key);
      FamiliesSnoc(init, key, x);
      var ks := Families(init, key);
      BucketsSnocContents(init, key, x, ks);
      if key(x) !in ks {
        MissingFamilyIsEmpty(init, key, key(x));
        BucketSnoc(init, key, x, key(x));
        BucketsSnocFamily(items, key, ks, key(x));
      }
    }
  }

  /** Interleaving the families of a list keeps exactly the elements of the list. */
  lemma RoundRobinIsPermutation<T, K>(items: seq<T>, key: T -> K)
    ensures multiset(Interleave(GroupedBy(items, key))) == multiset(items)
  {
    InterleaveIsPermutation(GroupedBy(items, key));
    GroupingIsPermutation(items, key);
  }

  // -------------------------------------------------------------- the programs

  /** A dictionary of lists in insertion order. */
  ghost predicate Grouping<T, K>(items: seq<T>, key: T -> K, families: seq<K>, buckets: map<K, seq<T>>) {
    && families == Families(items, key)
    && (forall k | k in buckets :: k in families)
    && (forall k | k in families :: k in buckets && buckets[k] == Bucket(items, key, k))
  }

  /** Where the next item goes. */
  function Filed<T, K(==)>(x: T, key: T -> K, buckets: map<K, seq<T>>): map<K, seq<T>> {
    buckets[key(x) := (if key(x) in buckets then buckets[key(x)] else []) + [x]]
  }

  lemma FiledBucket<T, K>(items: seq<T>, x: T, key: T -> K, families: seq<K>, buckets: map<K, seq<T>>, k: K)
    requires Grouping(items, key, families, buckets) && (k in families || k == key(x))
    ensures k in Filed(x, key, buckets) && Filed(x, key, buckets)[k] == Bucket(items + [x], key, k)
  {
    BucketSnoc(items, key, x, k);
    if k !in families {
      assert forall y | y in items :: key(y) != k;
      MissingFamilyIsEmpty(items, key, k);
    }
  }

  /** The next item joins its family, or opens it. */
  lemma GroupingSnoc<T, K>(items: seq<T>, x: T, key: T -> K, families: seq<K>, buckets: map<K, seq<T>>, next: seq<K>)
    requires Grouping(items, key, families, buckets)
    requires next == if key(x) in buckets then families else families + [key(x)]
    ensures Grouping(items + [x], key, next, Filed(x, key, buckets))
  {
    FamiliesSnoc(items, key, x);
    forall k | k in next
      ensures k in Filed(x, key, buckets) && Filed(x, key, buckets)[k] == Bucket(items + [x], key, k)
    {
      FiledBucket(items, x, key, families, buckets, k);
    }
  }

  method GroupByFamily<T, K(==)>(items: seq<T>, key: T -> K) returns (families: seq<K>, buckets: map<K, seq<T>>)
    ensures Grouping(items, key, families, buckets)
  {
    families, buckets := [], map[];
    for n := 0 to |items|
      invariant Grouping(items[..n], key, families, buckets)
    {
      var k := key(items[n]);
      GroupingSnoc(items[..n], items[n], key, families, buckets, if k in buckets then families else families + [k]);
      assert items[..n+1] == items[..n] + [items[n]];
      ghost var filed := Filed(items[n], key, buckets);
      if k !in buckets {
        families := families + [k];
        buckets := buckets[k := []];
      }
      buckets := buckets[k := buckets[k] + [items[n]]];
      assert buckets == filed;
    }
    assert items[..|items|] == items;
  }

  /** The lists of the dictionary, in insertion order. */
  function Listed<T, K(==)>(families: seq<K>, buckets: map<K, seq<T>>): seq<seq<T>>
    requires forall k | k in families :: k in buckets
  {
    seq(|families|, i requires 0 <= i < |families| => buckets[families[i]])
  }

  lemma ListedIsGrouped<T, K>(items: seq<T>, key: T -> K, families: seq<K>, buckets: map<K, seq<T>>)
    requires Grouping(items, key, families, buckets)
    ensures Listed(families, buckets) == GroupedBy(items, key)
  {
  }

  /** Scanning families f.. of one row, then the later rows, after `done`. */
  ghost predicate ToGo<T>(all: seq<T>, done: seq<T>, lists: seq<seq<T>>, depth: nat, f: nat)
    requires f <= |lists|
  {
    all == done + RowOf(lists, depth, f) + RowsFrom(lists, depth + 1)
  }

  lemma ToGoStep<T>(all: seq<T>, done: seq<T>, lists: seq<seq<T>>, depth: nat, f: nat)
    requires f < |lists| && ToGo(all, done, lists, depth, f)
    ensures ToGo(all, if depth < |lists[f]| then done + [lists[f][depth]] else done, lists, depth, f + 1)
  {
    if depth < |lists[f]| {
      assert done + ([lists[f][depth]] + RowOf(lists, depth, f + 1))
          == done + [lists[f][depth]] + RowOf(lists, depth, f + 1);
    } else {
      assert RowOf(lists, depth, f) == RowOf(lists, depth, f + 1);
    }
  }

  /** The rows from `depth` on are still to come after `done`. */
  ghost predicate RowsToGo<T>(all: seq<T>, done: seq<T>, lists: seq<seq<T>>, depth: nat) {
    all == done + RowsFrom(lists, depth)
  }

  lemma RowsToGoStarts<T>(lists: seq<seq<T>>)
    ensures RowsToGo(Interleave(lists), [], lists, 0)
  {
  }

  lemma RowBegins<T>(all: seq<T>, done: seq<T>, lists: seq<seq<T>>, depth: nat)
    requires RowsToGo(all, done, lists, depth)
    ensures ToGo(all, done, lists, depth, 0)
  {
    if depth < Longest(lists) {
      assert done + (RowOf(lists, depth, 0) + RowsFrom(lists, depth + 1))
          == done + RowOf(lists, depth, 0) + RowsFrom(lists, depth + 1);
    } else {
      DroppingEverything(lists, depth, 0);
    }
  }

  lemma RowDone<T>(all: seq<T>, done: seq<T>, lists: seq<seq<T>>, depth: nat)
    requires ToGo(all, done, lists, depth, |lists|)
    ensures RowsToGo(all, done, lists, depth + 1)
    ensures NoneLonger(lists, depth, |lists|) ==> done == all
  {
    assert done + [] == done;
    NothingDeeper(lists, depth);
  }

  lemma ToGoPrefix<T>(all: seq<T>, done: seq<T>, lists: seq<seq<T>>, depth: nat, f: nat)
    requires f <= |lists| && ToGo(all, done, lists, depth, f)
    ensures done == Take(all, |done|)
  {
  }

  lemma AllRowsDone<T>(all: seq<T>, done: seq<T>, lists: seq<seq<T>>)
    requires RowsToGo(all, done, lists, Longest(lists))
    ensures forall n: nat | |done| <= n :: done == Take(all, n)
  {
    assert done + [] == done;
  }

  ghost predicate NoneLonger<T>(lists: seq<seq<T>>, depth: nat, f: nat)
    requires f <= |lists|
  {
    forall g | 0 <= g < f :: |lists[g]| <= depth
  }

  lemma NothingDeeper<T>(lists: seq<seq<T>>, depth: nat)
    ensures NoneLonger(lists, depth, |lists|) ==> RowsFrom(lists, depth + 1) == []
    ensures !NoneLonger(lists, depth, |lists|) ==> depth < Longest(lists)
  {
    if exists g :: 0 <= g < |lists| && |lists[g]| > depth {
      var g :| 0 <= g < |lists| && |lists[g]| > depth;
      assert lists[g] in lists;
    }
  }

  lemma AddsNothing<T>(done: seq<T>)
    ensures done + [] == done
  {
  }

  lemma TakesNext<T>(done: seq<T>, x: T, rest: seq<T>)
    ensures (done + [x]) + rest == done + ([x] + rest)
  {
  }

  /** Appends the elements at one depth, family after family. */
  method AppendRow<T>(lists: seq<seq<T>>, depth: nat, done: seq<T>) returns (ordered: seq<T>, added: bool)
    ensures ordered == done + RowOf(lists, depth, 0)
    ensures added <==> !NoneLonger(lists, depth, |lists|)
  {
    ordered, added := done, false;
    for f := 0 to |lists|
      invariant ordered + RowOf(lists, depth, f) == done + RowOf(lists, depth, 0)
      invariant added <==> !NoneLonger(lists, depth, f)
    {
      if depth < |lists[f]| {
        TakesNext(ordered, lists[f][depth], RowOf(lists, depth, f + 1));
        ordered := ordered + [lists[f][depth]];
        added := true;
      } else {
        assert RowOf(lists, depth, f) == RowOf(lists, depth, f + 1);
      }
    }
    AddsNothing(ordered);
  }

  /** Appending one depth after the other until a depth adds nothing. */
  method RoundRobin<T>(lists: seq<seq<T>>) returns (ordered: seq<T>)
    ensures ordered == Interleave(lists)
  {
    ghost var all := Interleave(lists);
    ordered := [];
    var depth := 0;
    RowsToGoStarts(lists);
    while true
      invariant RowsToGo(all, ordered, lists, depth)
      decreases Longest(lists) - depth
    {
      RowBegins(all, ordered, lists, depth);
      var longer, added := AppendRow(lists, depth, ordered);
      ordered := longer;
      NothingDeeper(lists, depth);
      if !added {
        AddsNothing(ordered);
        return;
      }
      depth := depth + 1;
    }
  }

  function Cap(cap: int): nat { if cap >= 1 then cap else 1 }

  function Take<T>(s: seq<T>, n: nat): seq<T> { if |s| <= n then s else s[..n] }

  /** One depth of the sample. The check after each append means that cap 0 still returns one
      element. */
  method TakeRow<T>(ghost all: seq<T>, lists: seq<seq<T>>, depth: nat, cap: int, before: seq<T>)
    returns (selected: seq<T>, full: bool)
    requires lists != [] && forall l | l in lists :: l != []
    requires RowsToGo(all, before, lists, depth) && |before| < Cap(cap) && (cap <= 0 ==> depth == 0)
    ensures full ==> selected == Take(all, Cap(cap))
    ensures !full ==> RowsToGo(all, selected, lists, depth + 1) && |selected| < Cap(cap) && cap > 0
  {
    selected := before;
    RowBegins(all, selected, lists, depth);
    for f := 0 to |lists|
      invariant ToGo(all, selected, lists, depth, f)
      invariant |selected| < Cap(cap) && (cap <= 0 ==> f == 0)
    {
      ToGoStep(all, selected, lists, depth, f);
      assert lists[f] in lists;
      if depth < |lists[f]| {
        selected := selected + [lists[f][depth]];
      }
      if |selected| >= cap {
        ToGoPrefix(all, selected, lists, depth, f + 1);
        return selected, true;
      }
    }
    RowDone(all, selected, lists, depth);
    full := false;
  }

  /** The capped sample is the first cap elements of the interleaving, and one element for cap 0
      when there is one. */
  method RepresentativeSubset<T>(lists: seq<seq<T>>, cap: int) returns (selected: seq<T>)
    requires forall l | l in lists :: l != []
    ensures selected == Take(Interleave(lists), Cap(cap))
  {
    ghost var all := Interleave(lists);
    selected := [];
    RowsToGoStarts(lists);
    for depth := 0 to Longest(lists)
      invariant RowsToGo(all, selected, lists, depth)
      invariant |selected| < Cap(cap) && (cap <= 0 ==> depth == 0)
    {
      var full;
      selected, full := TakeRow(all, lists, depth, cap, selected);
      if full {
        return;
      }
    }
    AllRowsDone(all, selected, lists);
  }

  method RoundRobinByFamily<T, K(==)>(items: seq<T>, key: T -> K) returns (ordered: seq<T>)
    ensures ordered == Interleave(GroupedBy(items, key))
    ensures multiset(ordered) == multiset(items)
  {
    var families, buckets := GroupByFamily(items, key);
    ListedIsGrouped(items, key, families, buckets);
    RoundRobinIsPermutation(items, key);
    ordered := RoundRobin(Listed(families, buckets));
  }

  lemma {:induction false} FamilyIsNotEmpty<T, K>(items: seq<T>, key: T -> K, k: K)
    requires k in Families(items, key)
    ensures Bucket(items, key, k) != []
  {
    if items != [] && key(items[|items|-1]) != k {
      FamilyIsNotEmpty(items[..|items|-1], key, k);
    }
  }

  lemma GroupsAreNotEmpty<T, K>(items: seq<T>, key: T -> K)
    ensures forall l | l in GroupedBy(items, key) :: l != []
  {
    var families, lists := Families(items, key), GroupedBy(items, key);
    forall l | l in lists ensures l != [] {
      var i :| 0 <= i < |lists| && lists[i] == l;
      FamilyIsNotEmpty(items, key, families[i]);
    }
  }

  method RepresentativeScanSubset<T, K(==)>(items: seq<T>, key: T -> K, cap: int) returns (selected: seq<T>)
    ensures selected == Take(Interleave(GroupedBy(items, key)), Cap(cap))
    ensures |items| > 0 ==> |selected| > 0
  {
    var families, buckets := GroupByFamily(items, key);
    ListedIsGrouped(items, key, families, buckets);
    GroupsAreNotEmpty(items, key);
    RoundRobinIsPermutation(items, key);
    assert |multiset(Interleave(GroupedBy(items, key)))| == |Interleave(GroupedBy(items, key))|;
    selected := RepresentativeSubset(Listed(families, buckets), cap);
  }
}
