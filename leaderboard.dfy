/**
 * The server's leaderboard: `get_leaderboard` and `submit_score` of
 * rps_game/app.py.  The JSON file is replaced by the in-memory sequence
 * `Store.entries`; every request starts from that sequence, as the handlers
 * start from a fresh load of the file.  The model serves requests one at a time.
 */
module Leaderboard {
  import opened Wrappers

  /** How many entries `/leaderboard` returns at most. */
  const TopCount: nat := 10

  datatype Entry = Entry(name: string, score: int)

  /** Scores never increase from left to right. */
  predicate SortedDesc(s: seq<Entry>)
  {
    forall i, j :: 0 <= i < j < |s| ==> s[i].score >= s[j].score
  }

  /** The entries of `s` whose score is `k`, in their order in `s`. */
  function WithScore(s: seq<Entry>, k: int): seq<Entry>
  {
    if s == [] then []
    else WithScore(s[..|s| - 1], k) + (if s[|s| - 1].score == k then [s[|s| - 1]] else [])
  }

  /** How many entries of `s` have a score of at least `k`. */
  function CountAtLeast(s: seq<Entry>, k: int): nat
  {
    if s == [] then 0
    else CountAtLeast(s[..|s| - 1], k) + (if s[|s| - 1].score >= k then 1 else 0)
  }

  /**
   * Places `e` after every entry of `t` whose score is at least its own,
   * moving it left only past entries with a strictly lower score.
   */
  function Insert(t: seq<Entry>, e: Entry): seq<Entry>
  {
    if t == [] || t[|t| - 1].score >= e.score then t + [e]
    else Insert(t[..|t| - 1], e) + [t[|t| - 1]]
  }

  /** Stable sort by descending score: `sort(key=score, reverse=True)`. */
  function SortDesc(s: seq<Entry>): seq<Entry>
  {
    if s == [] then [] else Insert(SortDesc(s[..|s| - 1]), s[|s| - 1])
  }

  /**
   * The response of `/leaderboard` for the stored entries `s`: at most ten
   * entries, best first, each taken from `s`.
   */
  function Top(s: seq<Entry>): (r: seq<Entry>)
    ensures |r| == if |s| <= TopCount then |s| else TopCount
    ensures SortedDesc(r)
    ensures multiset(r) <= multiset(s)
    ensures r <= SortDesc(s)
  {
    var sorted := SortDesc(s);
    SortDescCorrect(s);
    var r := if |sorted| <= TopCount then sorted else sorted[..TopCount];
    assert sorted == r + sorted[|r|..];
    assert multiset(sorted) == multiset(r) + multiset(sorted[|r|..]);
    r
  }

  lemma {:induction false} WithScoreAppend(a: seq<Entry>, b: seq<Entry>, k: int)
    ensures WithScore(a + b, k) == WithScore(a, k) + WithScore(b, k)
    decreases |b|
  {
    if b == [] {
      assert a + b == a;
    } else {
      assert (a + b)[..|a + b| - 1] == a + b[..|b| - 1];
      WithScoreAppend(a, b[..|b| - 1], k);
    }
  }

  lemma {:induction false} CountAtLeastAppend(a: seq<Entry>, b: seq<Entry>, k: int)
    ensures CountAtLeast(a + b, k) == CountAtLeast(a, k) + CountAtLeast(b, k)
    decreases |b|
  {
    if b == [] {
      assert a + b == a;
    } else {
      assert (a + b)[..|a + b| - 1] == a + b[..|b| - 1];
      CountAtLeastAppend(a, b[..|b| - 1], k);
    }
  }

  /** Insertion keeps every entry and adds `e`. */
  lemma {:induction false} InsertPermutes(t: seq<Entry>, e: Entry)
    ensures |Insert(t, e)| == |t| + 1
    ensures multiset(Insert(t, e)) == multiset(t) + multiset{e}
    decreases |t|
  {
    if t != [] && t[|t| - 1].score < e.score {
      var init := t[..|t| - 1];
      assert t == init + [t[|t| - 1]];
      InsertPermutes(init, e);
    }
  }

  /** Insertion keeps the order among equal scores, `e` going after its equals. */
  lemma {:induction false} InsertStable(t: seq<Entry>, e: Entry, k: int)
    ensures WithScore(Insert(t, e), k) == WithScore(t, k) + WithScore([e], k)
    decreases |t|
  {
    assert [e][..0] == [];
    if t == [] || t[|t| - 1].score >= e.score {
      WithScoreAppend(t, [e], k);
    } else {
      var init, last := t[..|t| - 1], t[|t| - 1];
      assert t == init + [last];
      assert [last][..0] == [];
      InsertStable(init, e, k);
      WithScoreAppend(Insert(init, e), [last], k);
    }
  }

  /** Insertion adds `e` to the count of entries scoring at least `k`. */
  lemma {:induction false} InsertCount(t: seq<Entry>, e: Entry, k: int)
    ensures CountAtLeast(Insert(t, e), k) == CountAtLeast(t, k) + CountAtLeast([e], k)
    decreases |t|
  {
    assert [e][..0] == [];
    if t == [] || t[|t| - 1].score >= e.score {
      CountAtLeastAppend(t, [e], k);
    } else {
      var init, last := t[..|t| - 1], t[|t| - 1];
      assert t == init + [last];
      assert [last][..0] == [];
      InsertCount(init, e, k);
      CountAtLeastAppend(Insert(init, e), [last], k);
    }
  }

  /** Insertion into a sorted table gives a sorted table. */
  lemma {:induction false} InsertSorted(t: seq<Entry>, e: Entry)
    requires SortedDesc(t)
    ensures SortedDesc(Insert(t, e))
    decreases |t|
  {
    if t != [] && t[|t| - 1].score < e.score {
      var init, last := t[..|t| - 1], t[|t| - 1];
      assert t == init + [last];
      InsertSorted(init, e);
      InsertPermutes(init, e);
      var r := Insert(init, e);
      forall i | 0 <= i < |r| ensures r[i].score >= last.score {
        assert r[i] in multiset(init) + multiset{e};
        if r[i] != e {
          var j :| 0 <= j < |init| && init[j] == r[i];
          assert t[j] == r[i];
        }
      }
    }
  }

  /** The sort returns a sorted permutation of its input ... */
  lemma {:induction false} SortDescCorrect(s: seq<Entry>)
    ensures |SortDesc(s)| == |s|
    ensures SortedDesc(SortDesc(s))
    ensures multiset(SortDesc(s)) == multiset(s)
    decreases |s|
  {
    if s != [] {
      var init, last := s[..|s| - 1], s[|s| - 1];
      assert s == init + [last];
      SortDescCorrect(init);
      InsertPermutes(SortDesc(init), last);
      InsertSorted(SortDesc(init), last);
    }
  }

  /** ... and it is stable: entries with equal scores keep their stored order. */
  lemma {:induction false} SortDescStable(s: seq<Entry>, k: int)
    ensures WithScore(SortDesc(s), k) == WithScore(s, k)
    decreases |s|
  {
    if s != [] {
      var init, last := s[..|s| - 1], s[|s| - 1];
      SortDescStable(init, k);
      InsertStable(SortDesc(init), last, k);
      assert [last][..0] == [];
    }
  }

  /** Sorting does not change how many entries reach a given score. */
  lemma {:induction false} SortDescCount(s: seq<Entry>, k: int)
    ensures CountAtLeast(SortDesc(s), k) == CountAtLeast(s, k)
    decreases |s|
  {
    if s != [] {
      var init, last := s[..|s| - 1], s[|s| - 1];
      SortDescCount(init, k);
      InsertCount(SortDesc(init), last, k);
      assert [last][..0] == [];
    }
  }

  /**
   * In a sorted table, a new entry is inserted right after the entries whose
   * score is at least its own.
   */
  lemma {:induction false} InsertPosition(t: seq<Entry>, e: Entry)
    requires SortedDesc(t)
    ensures CountAtLeast(t, e.score) <= |t|
    ensures Insert(t, e) == t[..CountAtLeast(t, e.score)] + [e] + t[CountAtLeast(t, e.score)..]
    decreases |t|
  {
    if t == [] || t[|t| - 1].score >= e.score {
      if t != [] {
        // Every entry is at least as high as the last one, hence as `e`.
        CountAllAtLeast(t, e.score);
      }
    } else {
      var init, last := t[..|t| - 1], t[|t| - 1];
      assert t == init + [last];
      assert SortedDesc(init);
      InsertPosition(init, e);
      var n := CountAtLeast(init, e.score);
      assert CountAtLeast(t, e.score) == n;
      assert t[..n] == init[..n];
      assert t[n..] == init[n..] + [last];
    }
  }

  lemma {:induction false} CountAllAtLeast(t: seq<Entry>, k: int)
    requires forall i :: 0 <= i < |t| ==> t[i].score >= k
    ensures CountAtLeast(t, k) == |t|
    decreases |t|
  {
    if t != [] {
      CountAllAtLeast(t[..|t| - 1], k);
    }
  }

  /**
   * After `e` is appended to the stored entries, the sorted table holds it at
   * position n, where n is the number of earlier entries scoring at least as
   * much; so `/leaderboard` lists it exactly when n < 10 (or an equal entry
   * was already listed, in which case the listing is unchanged).
   */
  lemma NewEntryRank(s: seq<Entry>, e: Entry)
    ensures CountAtLeast(s, e.score) < |SortDesc(s + [e])|
    ensures SortDesc(s + [e])[CountAtLeast(s, e.score)] == e
    ensures CountAtLeast(s, e.score) < TopCount ==> e in Top(s + [e])
    ensures CountAtLeast(s, e.score) >= TopCount ==> Top(s + [e]) == Top(s)
    ensures e in Top(s + [e]) <==> CountAtLeast(s, e.score) < TopCount || e in Top(s)
  {
    assert (s + [e])[..|s + [e]| - 1] == s;
    SortDescCorrect(s);
    SortDescCount(s, e.score);
    InsertPosition(SortDesc(s), e);
    var n := CountAtLeast(s, e.score);
    var r := SortDesc(s + [e]);
    assert r[n] == e;
    if n < TopCount && |r| > TopCount {
      assert Top(s + [e])[n] == e;
    }
    if n >= TopCount {
      TopBehindTen(s, e);
    }
  }

  /** An entry ranked behind the first ten leaves the listing as it was. */
  lemma TopBehindTen(s: seq<Entry>, e: Entry)
    requires CountAtLeast(s, e.score) >= TopCount
    ensures Top(s + [e]) == Top(s)
  {
    var t := SortDesc(s);
    var n := CountAtLeast(s, e.score);
    var r := SortDesc(s + [e]);
    assert r == Insert(t, e) by {
      assert (s + [e])[..|s + [e]| - 1] == s;
    }
    assert n <= |t| && r == t[..n] + [e] + t[n..] by {
      SortDescCorrect(s);
      SortDescCount(s, e.score);
      InsertPosition(t, e);
    }
    FirstTenUnchanged(t, e, n);
  }

  lemma FirstTenUnchanged(t: seq<Entry>, e: Entry, n: nat)
    requires TopCount <= n <= |t|
    ensures var r := t[..n] + [e] + t[n..];
      (if |r| <= TopCount then r else r[..TopCount]) == (if |t| <= TopCount then t else t[..TopCount])
  {
    var r := t[..n] + [e] + t[n..];
    assert r[..TopCount] == t[..TopCount];
  }

  /**
   * Insertion into `t` lands at `j` when everything before `j` scores at
   * least as much as `x` and everything from `j` on scores strictly less.
   */
  lemma {:induction false} InsertSplit(t: seq<Entry>, j: nat, x: Entry)
    requires j <= |t|
    requires j == 0 || t[j - 1].score >= x.score
    requires forall k :: j <= k < |t| ==> t[k].score < x.score
    ensures Insert(t, x) == t[..j] + [x] + t[j..]
    decreases |t|
  {
    if |t| == j {
      assert t[..j] == t && t[j..] == [];
    } else {
      var init := t[..|t| - 1];
      InsertSplit(init, j, x);
      assert init[..j] == t[..j];
      assert init[j..] + [t[|t| - 1]] == t[j..];
    }
  }

  /** Sorting one more element of `s` inserts it into the sorted prefix. */
  lemma SortDescSnoc(s: seq<Entry>, i: nat)
    requires i < |s|
    ensures SortDesc(s[..i + 1]) == Insert(SortDesc(s[..i]), s[i])
  {
    assert s[..i + 1][..i] == s[..i];
  }

  /** A sequence that agrees with `t` around a hole at `j` filled by `x`. */
  lemma SpliceAt(r: seq<Entry>, t: seq<Entry>, j: nat, x: Entry)
    requires |r| == |t| + 1 && j <= |t| && r[j] == x
    requires forall k :: 0 <= k < j ==> r[k] == t[k]
    requires forall k :: j < k < |r| ==> r[k] == t[k - 1]
    ensures r == t[..j] + [x] + t[j..]
  {
  }

  /**
   * Sorts the loaded entries in place: insertion sort that moves each entry
   * left past strictly lower scores only, so equal scores keep their order.
   */
  method SortByScoreDesc(a: array<Entry>)
    modifies a
    ensures a[..] == SortDesc(old(a[..]))
  {
    ghost var orig := a[..];
    var i := 0;
    while i < a.Length
      invariant 0 <= i <= a.Length
      invariant a[..i] == SortDesc(orig[..i])
      invariant forall k :: i <= k < a.Length ==> a[k] == orig[k]
    {
      SortDescSnoc(orig, i);
      InsertNext(a, i);
      i := i + 1;
    }
    assert orig[..a.Length] == orig;
  }

  /** One pass of the outer loop of `SortByScoreDesc`: inserts `a[i]` into `a[..i]`. */
  method InsertNext(a: array<Entry>, i: nat)
    requires i < a.Length
    modifies a
    ensures a[..i + 1] == Insert(old(a[..i]), old(a[i]))
    ensures forall k :: i < k < a.Length ==> a[k] == old(a[k])
  {
    ghost var t := a[..i];
    var x := a[i];
    var j := i;
    while j > 0 && a[j - 1].score < x.score
      invariant 0 <= j <= i
      invariant forall k :: 0 <= k < j ==> a[k] == t[k]
      invariant forall k :: j < k <= i ==> a[k] == t[k - 1]
      invariant forall k :: i < k < a.Length ==> a[k] == old(a[k])
      invariant forall k :: j <= k < i ==> t[k].score < x.score
    {
      a[j] := a[j - 1];
      j := j - 1;
    }
    InsertSplit(t, j, x);
    a[j] := x;
    SpliceAt(a[..i + 1], t, j, x);
  }

  /** What `/submit_score` answers: success, or the 400 "Invalid data" error. */
  datatype SubmitResponse = Success | InvalidData

  /** Python truthiness of the `name` field: a missing name or "" is false. */
  predicate IsFalsy(name: Option<string>)
  {
    name.None? || name.value == ""
  }

  /** The leaderboard file, held in memory. */
  class Store {
    var entries: seq<Entry>

    /** No file yet: the loaded leaderboard is empty. */
    constructor ()
      ensures entries == []
    {
      entries := [];
    }

    /**
     * `/leaderboard`: copy the stored entries, sort the copy in place, and
     * return at most ten; the store itself is left as it was.
     */
    method GetLeaderboard() returns (top: seq<Entry>)
      ensures top == Top(entries)
    {
      var s := entries;
      var data := new Entry[|s|](i requires 0 <= i < |s| => s[i]);
      assert data[..] == s;
      SortByScoreDesc(data);
      SortDescCorrect(s);
      top := if data.Length <= TopCount then data[..] else data[..TopCount];
    }

    /**
     * `/submit_score`: a falsy name or a missing score is rejected and
     * changes nothing; otherwise exactly one entry is appended.
     */
    method SubmitScore(name: Option<string>, score: Option<int>) returns (r: SubmitResponse)
      modifies this
      ensures r == Success <==> !IsFalsy(name) && score.Some?
      ensures r == Success ==> entries == old(entries) + [Entry(name.value, score.value)]
      ensures r == InvalidData ==> entries == old(entries)
    {
      if IsFalsy(name) || score.None? {
        return InvalidData;
      }
      entries := entries + [Entry(name.value, score.value)];
      r := Success;
    }
  }
}
