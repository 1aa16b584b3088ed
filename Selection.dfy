/** The grouping selections of the analyses: `value_counts().nlargest(n).index`
    (data1.py:43, 68, 74) and the `isin` filters (data1.py:44, 69, 75). */
module Selection {
  import opened Wrappers
  import opened Seqs

  /** How often `k` occurs in `s`: its entry in `value_counts`. */
  function Frequency<K(==)>(s: seq<K>, k: K): nat
  {
    multiset(s)[k]
  }

  /** A key of `t` whose frequency in `s` is the largest among the keys of
      `t` (the first such key of `t`). */
  function Leader<K(==)>(s: seq<K>, t: seq<K>): (m: K)
    requires t != []
    ensures m in t
    ensures forall x :: x in t ==> Frequency(s, x) <= Frequency(s, m)
  {
    if |t| == 1 then t[0]
    else
      var b := Leader(s, t[1..]);
      assert t == [t[0]] + t[1..];
      if Frequency(s, t[0]) >= Frequency(s, b) then t[0] else b
  }

  /** `r` is a valid top-`n` selection from `s`: at most `n` distinct keys,
      each occurring in `s`; fewer than `n` only when every key of `s` is
      taken; no key left out is more frequent than a key taken; and the keys
      taken come most frequent first. */
  ghost predicate IsTopSelection<K(!new)>(s: seq<K>, n: nat, r: seq<K>)
  {
    && |r| <= n
    && (forall i, j :: 0 <= i < j < |r| ==> r[i] != r[j])
    && (forall k :: k in r ==> k in s)
    && (forall k :: k in s && k !in r ==> |r| == n)
    && (forall a, b :: a in r && b in s && b !in r ==> Frequency(s, b) <= Frequency(s, a))
    && (forall i, j :: 0 <= i < j < |r| ==> Frequency(s, r[j]) <= Frequency(s, r[i]))
  }

  /** Taking a most frequent key `m` first and then a top selection of the
      remaining keys gives a top selection. */
  lemma TopSelectionStep<K(!new)>(s: seq<K>, n: nat, m: K, rest: seq<K>, r: seq<K>)
    requires n > 0 && m in s
    requires forall x :: x in s ==> Frequency(s, x) <= Frequency(s, m)
    requires forall x :: Frequency(rest, x) == if x == m then 0 else Frequency(s, x)
    requires IsTopSelection(rest, n - 1, r)
    ensures IsTopSelection(s, n, [m] + r)
  {
    var t := [m] + r;
    assert m !in rest by { assert Frequency(rest, m) == 0; }
    assert forall k :: k in r ==> k in s && k != m by {
      forall k | k in r ensures k in s && k != m {
        assert Frequency(rest, k) > 0;
      }
    }
    assert forall k :: k in s && k != m ==> k in rest by {
      forall k | k in s && k != m ensures k in rest {
        assert Frequency(rest, k) == Frequency(s, k) > 0;
      }
    }
    PrependDistinct(m, r);
    PrependSorted(s, rest, m, r);
  }

  /** Putting a new key in front of distinct keys keeps them distinct. */
  lemma PrependDistinct<K>(m: K, r: seq<K>)
    requires m !in r
    requires forall i, j :: 0 <= i < j < |r| ==> r[i] != r[j]
    ensures forall i, j :: 0 <= i < j < |[m] + r| ==> ([m] + r)[i] != ([m] + r)[j]
  {
  }

  /** Putting a most frequent key in front of keys sorted by frequency keeps
      them sorted, when the keys after it are counted the same in `rest`. */
  lemma PrependSorted<K>(s: seq<K>, rest: seq<K>, m: K, r: seq<K>)
    requires forall x :: x in r ==> Frequency(s, x) <= Frequency(s, m)
    requires forall x :: x in r ==> Frequency(rest, x) == Frequency(s, x)
    requires forall i, j :: 0 <= i < j < |r| ==> Frequency(rest, r[j]) <= Frequency(rest, r[i])
    ensures forall i, j :: 0 <= i < j < |[m] + r| ==> Frequency(s, ([m] + r)[j]) <= Frequency(s, ([m] + r)[i])
  {
  }

  /** The `n` most frequent distinct keys of `s`, most frequent first. Which
      of several equally frequent keys is taken is not specified by the
      source; this definition takes the first in `s`, and the contract states
      only what holds for any tie order. */
  function TopN<K(==,!new)>(s: seq<K>, n: nat): (r: seq<K>)
    ensures IsTopSelection(s, n, r)
    decreases |s|
  {
    if n == 0 || s == [] then []
    else
      var m := Leader(s, s);
      var keep := (k: K) => k != m;
      var rest := Where(s, keep);
      WhereCounts(s, keep);
      WhereDropsRejected(s, keep, m);
      var r := TopN(rest, n - 1);
      TopSelectionStep(s, n, m, rest, r);
      [m] + r
  }

  /** A sequence of distinct keys has as many distinct keys as elements. */
  lemma {:induction false} DistinctCardinality<K>(r: seq<K>)
    requires forall i, j :: 0 <= i < j < |r| ==> r[i] != r[j]
    ensures |set x | x in r| == |r|
  {
    if r != [] {
      var tail := r[1..];
      DistinctCardinality(tail);
      assert forall x :: x in r <==> x == r[0] || x in tail;
      assert (set x | x in r) == {r[0]} + (set x | x in tail);
      assert r[0] !in tail;
    }
  }

  /** With at most `n` distinct keys, every key is selected. */
  lemma AllSelectedWhenFew<K(!new)>(s: seq<K>, n: nat)
    requires |set x | x in s| <= n
    ensures forall k :: k in s ==> k in TopN(s, n)
  {
    var r := TopN(s, n);
    forall k | k in s ensures k in r {
      if k !in r {
        assert |r| == n;
        var rs, ss := set x | x in r, set x | x in s;
        DistinctCardinality(r);
        assert rs <= ss - {k};
        SubsetCardinality(rs, ss - {k});
        assert false;
      }
    }
  }

  lemma {:induction false} SubsetCardinality<K>(a: set<K>, b: set<K>)
    requires a <= b
    ensures |a| <= |b|
  {
    if a != {} {
      var x :| x in a;
      SubsetCardinality(a - {x}, b - {x});
    }
  }

  /** The number of rows whose `key` cell holds `k`. */
  function Occurrences<R(!new), K(==)>(rows: seq<R>, key: R -> Option<K>, k: K): nat
  {
    |Where(rows, r => key(r) == Some(k))|
  }

  /** Each key's frequency among the present values is its row count. */
  lemma PresentFrequencies<R(!new), K(!new)>(rows: seq<R>, key: R -> Option<K>)
    ensures forall k :: Frequency(Present(rows, key), k) == Occurrences(rows, key, k)
  {
    forall k ensures Frequency(Present(rows, key), k) == Occurrences(rows, key, k) {
      PresentCountsRows(rows, key, k);
    }
  }

  /** `rows[col].value_counts().nlargest(n).index`: the `n` keys of the column
      held by the most rows; missing cells are not counted and never selected. */
  function TopKeys<R(!new), K(==,!new)>(rows: seq<R>, key: R -> Option<K>, n: nat): (ks: seq<K>)
    ensures |ks| <= n
    ensures forall i, j :: 0 <= i < j < |ks| ==> ks[i] != ks[j]
    ensures forall k :: k in ks ==> exists r :: r in rows && key(r) == Some(k)
    ensures forall r :: r in rows && key(r).Some? && key(r).value !in ks ==> |ks| == n
    ensures forall a, r :: a in ks && r in rows && key(r).Some? && key(r).value !in ks ==>
              Occurrences(rows, key, key(r).value) <= Occurrences(rows, key, a)
  {
    PresentFrequencies(rows, key);
    TopN(Present(rows, key), n)
  }

  /** `isin`: the key cell is present and among the selected keys (a missing
      cell is never a member). */
  predicate HasKeyIn<K(==)>(cell: Option<K>, selected: seq<K>)
  {
    cell.Some? && cell.value in selected
  }

  /** The row mask `rows[col].isin(selected)`. */
  function IsinMask<R, K(==)>(key: R -> Option<K>, selected: seq<K>): R -> bool
  {
    r => HasKeyIn(key(r), selected)
  }

  /** `rows[rows[col].isin(selected)]`: the rows whose key is selected, in
      their original order. */
  function InGroups<R(!new), K(==)>(rows: seq<R>, key: R -> Option<K>, selected: seq<K>): (g: seq<R>)
    ensures forall r :: r in g <==> r in rows && key(r).Some? && key(r).value in selected
    ensures forall x :: multiset(g)[x] == if HasKeyIn(key(x), selected) then multiset(rows)[x] else 0
  {
    WhereCounts(rows, IsinMask(key, selected));
    Where(rows, IsinMask(key, selected))
  }

  /** `isin` keeps the rows in their original order: the k-th kept row is the
      row at the k-th position whose key is selected. */
  lemma InGroupsKeepsOrder<R(!new), K>(rows: seq<R>, key: R -> Option<K>, selected: seq<K>)
    ensures var pos := Kept(rows, IsinMask(key, selected));
      && |pos| == |InGroups(rows, key, selected)|
      && Increasing(pos)
      && (forall k :: 0 <= k < |pos| ==> pos[k] < |rows| && InGroups(rows, key, selected)[k] == rows[pos[k]])
      && (forall i :: 0 <= i < |rows| ==> (i in pos <==> HasKeyIn(key(rows[i]), selected)))
  {
    KeptSelectsPositions(rows, IsinMask(key, selected));
    WhereKeepsSelectedPositions(rows, IsinMask(key, selected));
  }
}
