/** Row selections over ordered tables: boolean masks and optional columns. */
module Seqs {
  import opened Wrappers

  /** The rows of `s` for which the mask `keep` holds, in their original order
      (pandas' `df[mask]`). */
  function Where<T(!new)>(s: seq<T>, keep: T -> bool): (r: seq<T>)
    ensures |r| <= |s|
    ensures forall x :: x in r <==> x in s && keep(x)
  {
    if s == [] then []
    else
      var init := s[..|s| - 1];
      assert s == init + [s[|s| - 1]];
      Where(init, keep) + (if keep(s[|s| - 1]) then [s[|s| - 1]] else [])
  }

  /** A mask keeps every copy of a row it selects and no copy of one it rejects. */
  lemma {:induction false} WhereCounts<T(!new)>(s: seq<T>, keep: T -> bool)
    ensures forall x :: multiset(Where(s, keep))[x] == if keep(x) then multiset(s)[x] else 0
  {
    if s != [] {
      var init := s[..|s| - 1];
      assert s == init + [s[|s| - 1]];
      WhereCounts(init, keep);
    }
  }

  /** The positions of `s` that the mask `keep` selects, in increasing order. */
  function Kept<T>(s: seq<T>, keep: T -> bool): seq<nat>
  {
    if s == [] then []
    else Kept(s[..|s| - 1], keep) + (if keep(s[|s| - 1]) then [|s| - 1] else [])
  }

  ghost predicate Increasing(idx: seq<nat>)
  {
    forall i, j :: 0 <= i < j < |idx| ==> idx[i] < idx[j]
  }

  /** `Kept` lists, in increasing order, exactly the positions whose row the
      mask selects. */
  lemma {:induction false} KeptSelectsPositions<T(!new)>(s: seq<T>, keep: T -> bool)
    ensures Increasing(Kept(s, keep))
    ensures forall k :: 0 <= k < |Kept(s, keep)| ==> Kept(s, keep)[k] < |s|
    ensures forall i :: 0 <= i < |s| ==> (i in Kept(s, keep) <==> keep(s[i]))
  {
    if s != [] {
      var n := |s| - 1;
      var init := s[..n];
      KeptSelectsPositions(init, keep);
      var ks := Kept(init, keep);
      assert forall i :: 0 <= i < n ==> init[i] == s[i];
      assert n !in ks;
      if keep(s[n]) {
        assert Kept(s, keep) == ks + [n];
        assert forall k :: 0 <= k < |ks| ==> (ks + [n])[k] == ks[k];
      } else {
        assert Kept(s, keep) == ks;
      }
    }
  }

  /** `Where` keeps the selected positions in their original order: its k-th
      row is row `Kept(s, keep)[k]` of `s`. */
  lemma {:induction false} WhereKeepsSelectedPositions<T(!new)>(s: seq<T>, keep: T -> bool)
    ensures |Kept(s, keep)| == |Where(s, keep)|
    ensures forall k :: 0 <= k < |Kept(s, keep)| ==>
              Kept(s, keep)[k] < |s| && Where(s, keep)[k] == s[Kept(s, keep)[k]]
  {
    if s != [] {
      var n := |s| - 1;
      var init := s[..n];
      WhereKeepsSelectedPositions(init, keep);
      KeptSelectsPositions(init, keep);
      var w, ks := Where(init, keep), Kept(init, keep);
      assert forall k :: 0 <= k < |ks| ==> ks[k] < n && w[k] == s[ks[k]];
      if keep(s[n]) {
        assert Kept(s, keep) == ks + [n];
        assert Where(s, keep) == w + [s[n]];
      } else {
        assert Kept(s, keep) == ks;
        assert Where(s, keep) == w;
      }
    }
  }

  /** A mask that rejects some row of `s` selects strictly fewer rows than `s` has. */
  lemma {:induction false} WhereDropsRejected<T(!new)>(s: seq<T>, keep: T -> bool, x: T)
    requires x in s && !keep(x)
    ensures |Where(s, keep)| < |s|
  {
    var n := |s| - 1;
    var init := s[..n];
    assert s == init + [s[n]];
    if s[n] != x {
      assert x in init;
      WhereDropsRejected(init, keep, x);
    }
  }

  /** The present values of an optional column, in row order; missing cells
      are skipped (what `value_counts` counts). */
  function Present<R, K(!new)>(rows: seq<R>, key: R -> Option<K>): (ks: seq<K>)
    ensures |ks| <= |rows|
    ensures forall k :: k in ks <==> exists r :: r in rows && key(r) == Some(k)
  {
    if rows == [] then []
    else
      var init := rows[..|rows| - 1];
      var last := rows[|rows| - 1];
      assert rows == init + [last];
      Present(init, key) + (match key(last) case Some(k) => [k] case None => [])
  }

  /** The number of times a key occurs among the present values is the number
      of rows whose cell holds that key. */
  lemma {:induction false} PresentCountsRows<R(!new), K(!new)>(rows: seq<R>, key: R -> Option<K>, k: K)
    ensures multiset(Present(rows, key))[k] == |Where(rows, r => key(r) == Some(k))|
  {
    if rows != [] {
      var init := rows[..|rows| - 1];
      PresentCountsRows(init, key, k);
    }
  }

  /** The two groups a boolean column splits the rows into: the rows where
      it holds and the rows where it does not, each in original order. */
  function SplitBy<T(!new)>(s: seq<T>, flag: T -> bool): (groups: (seq<T>, seq<T>))
    ensures forall x :: x in groups.0 <==> x in s && flag(x)
    ensures forall x :: x in groups.1 <==> x in s && !flag(x)
  {
    (Where(s, flag), Where(s, x => !flag(x)))
  }

  /** Every row lands in exactly one of the two groups. */
  lemma SplitByPartitions<T(!new)>(s: seq<T>, flag: T -> bool)
    ensures multiset(SplitBy(s, flag).0) + multiset(SplitBy(s, flag).1) == multiset(s)
    ensures |SplitBy(s, flag).0| + |SplitBy(s, flag).1| == |s|
  {
    var g := SplitBy(s, flag);
    WhereCounts(s, flag);
    WhereCounts(s, x => !flag(x));
    assert multiset(g.0) + multiset(g.1) == multiset(s);
    assert |multiset(g.0) + multiset(g.1)| == |multiset(s)|;
  }
}
