/** The order of the open list: newest first.

    The aggregate re-sorts its open list with a comparison that puts the later
    creation time first. The sort below is a stable insertion sort; its
    contract only promises what the aggregate relies on, a non-increasing order
    of creation times over a permutation of the input, and leaves the order of
    entries with equal creation times unspecified. */
module NewestFirst {
  import opened Modifications

  /** Creation times never increase along `s`. */
  predicate IsNewestFirst(s: seq<Modification>) {
    forall i, j :: 0 <= i < j < |s| ==> s[i].createdAt >= s[j].createdAt
  }

  /** An entry no older than every entry of a newest-first list can go in
      front of it. */
  lemma PrependNewest(h: Modification, t: seq<Modification>)
    requires IsNewestFirst(t)
    requires forall x :: x in t ==> x.createdAt <= h.createdAt
    ensures IsNewestFirst([h] + t)
  {
    var r := [h] + t;
    forall i, j | 0 <= i < j < |r| ensures r[i].createdAt >= r[j].createdAt {
      assert r[j] == t[j - 1];
      if i > 0 {
        assert r[i] == t[i - 1];
      }
    }
  }

  /** Puts `m` into the newest-first list `s`, ahead of every entry that is not
      newer than it. */
  function Insert(m: Modification, s: seq<Modification>): (r: seq<Modification>)
    requires IsNewestFirst(s)
    ensures IsNewestFirst(r)
    ensures multiset(r) == multiset(s) + multiset{m}
    ensures forall x :: x in r ==> x == m || x in s
  {
    if |s| == 0 || s[0].createdAt <= m.createdAt then
      InsertAtHead(m, s);
      [m] + s
    else
      DropNewest(s);
      var rest := Insert(m, s[1..]);
      InsertBehindHead(m, s, rest);
      [s[0]] + rest
  }

  /** `m` goes in front of a newest-first list whose head is not newer. */
  lemma InsertAtHead(m: Modification, s: seq<Modification>)
    requires IsNewestFirst(s)
    requires |s| == 0 || s[0].createdAt <= m.createdAt
    ensures IsNewestFirst([m] + s)
    ensures multiset([m] + s) == multiset(s) + multiset{m}
  {
    forall x | x in s ensures x.createdAt <= m.createdAt {
      var k :| 0 <= k < |s| && s[k] == x;
      assert s[0].createdAt >= s[k].createdAt;
    }
    PrependNewest(m, s);
  }

  /** The head of `s`, newer than `m`, stays in front of the rest with `m`
      inserted. */
  lemma InsertBehindHead(m: Modification, s: seq<Modification>, rest: seq<Modification>)
    requires |s| > 0 && IsNewestFirst(s) && s[0].createdAt > m.createdAt
    requires IsNewestFirst(rest)
    requires multiset(rest) == multiset(s[1..]) + multiset{m}
    requires forall x :: x in rest ==> x == m || x in s[1..]
    ensures IsNewestFirst([s[0]] + rest)
    ensures multiset([s[0]] + rest) == multiset(s) + multiset{m}
    ensures forall x :: x in [s[0]] + rest ==> x == m || x in s
  {
    var t := s[1..];
    assert s == [s[0]] + t;
    forall x | x in rest ensures x.createdAt <= s[0].createdAt {
      if x != m {
        var k :| 0 <= k < |t| && t[k] == x;
        assert s[k + 1] == x;
      }
    }
    PrependNewest(s[0], rest);
  }

  /** The open list's re-sort: a newest-first permutation of `s`. */
  function SortNewestFirst(s: seq<Modification>): (r: seq<Modification>)
    ensures IsNewestFirst(r)
    ensures multiset(r) == multiset(s)
  {
    if |s| == 0 then []
    else
      assert s == [s[0]] + s[1..];
      Insert(s[0], SortNewestFirst(s[1..]))
  }

  /** Two newest-first orderings of the same entries with pairwise distinct
      creation times start with the same entry. */
  lemma SameNewest(r1: seq<Modification>, r2: seq<Modification>)
    requires multiset(r1) == multiset(r2)
    requires IsNewestFirst(r1) && IsNewestFirst(r2)
    requires DistinctBy(r1, CreatedAt)
    requires |r1| > 0
    ensures |r2| > 0 && r1[0] == r2[0]
  {
    assert r1[0] in multiset(r2);
    var k :| 0 <= k < |r2| && r2[k] == r1[0];
    assert r2[0] in multiset(r1);
    var p :| 0 <= p < |r1| && r1[p] == r2[0];
    assert r1[0].createdAt >= r2[0].createdAt >= r1[0].createdAt;
    assert p == 0;
  }

  /** Two newest-first orderings of the same entries with pairwise distinct
      creation times are the same list: for such input the result does not
      depend on the sorting algorithm. */
  lemma {:induction false} NewestFirstUnique(r1: seq<Modification>, r2: seq<Modification>)
    requires multiset(r1) == multiset(r2)
    requires IsNewestFirst(r1) && IsNewestFirst(r2)
    requires DistinctBy(r1, CreatedAt)
    ensures r1 == r2
  {
    if |r1| == 0 {
      assert |r2| == |multiset(r2)| == 0;
    } else {
      SameNewest(r1, r2);
      DropNewest(r1);
      DropNewest(r2);
      NewestFirstUnique(r1[1..], r2[1..]);
      assert r1 == [r1[0]] + r1[1..] && r2 == [r2[0]] + r2[1..];
    }
  }

  /** Dropping the head of a list removes one copy of it from the multiset and
      keeps the newest-first order and distinct creation times. */
  lemma DropNewest(r: seq<Modification>)
    requires |r| > 0
    ensures multiset(r[1..]) == multiset(r) - multiset{r[0]}
    ensures IsNewestFirst(r) ==> IsNewestFirst(r[1..])
    ensures DistinctBy(r, CreatedAt) ==> DistinctBy(r[1..], CreatedAt)
  {
    assert r == [r[0]] + r[1..];
    var t := r[1..];
    if DistinctBy(r, CreatedAt) {
      forall i, j | 0 <= i < j < |t| ensures CreatedAt(t[i]) != CreatedAt(t[j]) {
        assert t[i] == r[i + 1] && t[j] == r[j + 1];
      }
    }
  }

  /** With pairwise distinct creation times the re-sorted list is strictly
      newest first. */
  lemma SortDistinctIsStrict(s: seq<Modification>)
    requires DistinctBy(s, CreatedAt)
    ensures var r := SortNewestFirst(s);
      forall i, j :: 0 <= i < j < |r| ==> r[i].createdAt > r[j].createdAt
  {
    var r := SortNewestFirst(s);
    DistinctByPermutation(s, r, CreatedAt);
    assert forall i, j :: 0 <= i < j < |r| ==> CreatedAt(r[i]) != CreatedAt(r[j]);
  }
}
