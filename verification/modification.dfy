/** Modifications of a paragraph and the facts about lists of them that the
    paragraph aggregate relies on.

    A modification is a proposed wording for one paragraph. The aggregate only
    ever looks at two of its properties: its identity, which is its sole
    equality key, and its creation time, which orders the open list. The text,
    the authoring statement and the rest of the entity are not modelled. A
    creation time is an integer; comparing two of them stands for comparing
    the entity's date-time values. */
module Modifications {

  datatype Modification = Modification(id: int, createdAt: int)

  /** The modification currently accepted for a paragraph. */
  datatype ChosenModification = ChosenModification(modification: Modification)

  function Id(m: Modification): int { m.id }

  function CreatedAt(m: Modification): int { m.createdAt }

  /** No two entries of `s` agree on `key`. */
  predicate DistinctBy(s: seq<Modification>, key: Modification -> int) {
    forall i, j :: 0 <= i < j < |s| ==> key(s[i]) != key(s[j])
  }

  /** The identities occurring in `s`. */
  function IdsOf(s: seq<Modification>): set<int> {
    set m | m in s :: m.id
  }

  /** Two equal entries at different positions occur twice in the multiset. */
  lemma TwoPositionsTwoCopies(t: seq<Modification>, i: nat, j: nat)
    requires i < j < |t| && t[i] == t[j]
    ensures multiset(t)[t[i]] >= 2
  {
    assert t == t[..j] + t[j..];
    assert t[..j][i] == t[i];
    assert t[j..][0] == t[j];
  }

  /** An element that occurs at least twice in the multiset sits at two positions. */
  lemma TwoCopiesTwoPositions(s: seq<Modification>, x: Modification)
    requires multiset(s)[x] >= 2
    ensures exists p, q :: 0 <= p < q < |s| && s[p] == x && s[q] == x
  {
    assert x in multiset(s);
    var p :| 0 <= p < |s| && s[p] == x;
    assert s == s[..p] + [s[p]] + s[p+1..];
    assert multiset(s)[x] == multiset(s[..p])[x] + 1 + multiset(s[p+1..])[x];
    if x in s[..p] {
      var q :| 0 <= q < p && s[..p][q] == x;
      assert s[q] == x && s[p] == x;
    } else {
      assert x in s[p+1..];
      var q :| 0 <= q < |s[p+1..]| && s[p+1..][q] == x;
      assert s[p] == x && s[p + 1 + q] == x;
    }
  }

  /** Reordering a list keeps its keys distinct: distinctness is a property of
      the multiset of entries, not of their order. */
  lemma {:induction false} DistinctByPermutation(s: seq<Modification>, t: seq<Modification>, key: Modification -> int)
    requires multiset(s) == multiset(t)
    requires DistinctBy(s, key)
    ensures DistinctBy(t, key)
  {
    forall i, j | 0 <= i < j < |t|
      ensures key(t[i]) != key(t[j])
    {
      assert t[i] in multiset(s) && t[j] in multiset(s);
      var p :| 0 <= p < |s| && s[p] == t[i];
      var q :| 0 <= q < |s| && s[q] == t[j];
      if p < q {
        assert key(s[p]) != key(s[q]);
      } else if q < p {
        assert key(s[q]) != key(s[p]);
      } else {
        TwoPositionsTwoCopies(t, i, j);
        TwoCopiesTwoPositions(s, t[i]);
        assert false;
      }
    }
  }

  /** Distinct identities over a concatenation split into distinctness of each
      part and disjointness of their identity sets. */
  lemma DistinctIdsConcat(x: seq<Modification>, y: seq<Modification>)
    ensures DistinctBy(x + y, Id) <==>
      DistinctBy(x, Id) && DistinctBy(y, Id) && IdsOf(x) !! IdsOf(y)
  {
    var xy := x + y;
    if DistinctBy(xy, Id) {
      forall i, j | 0 <= i < j < |x| ensures x[i].id != x[j].id {
        assert xy[i] == x[i] && xy[j] == x[j];
      }
      forall i, j | 0 <= i < j < |y| ensures y[i].id != y[j].id {
        assert xy[|x| + i] == y[i] && xy[|x| + j] == y[j];
      }
      forall n | n in IdsOf(x) ensures n !in IdsOf(y) {
        var a :| a in x && a.id == n;
        var i :| 0 <= i < |x| && x[i] == a;
        forall b | b in y ensures b.id != n {
          var j :| 0 <= j < |y| && y[j] == b;
          assert xy[i] == a && xy[|x| + j] == b;
        }
      }
    }
    if DistinctBy(x, Id) && DistinctBy(y, Id) && IdsOf(x) !! IdsOf(y) {
      forall i, j | 0 <= i < j < |xy| ensures xy[i].id != xy[j].id {
        if j < |x| {
          assert xy[i] == x[i] && xy[j] == x[j];
        } else if |x| <= i {
          assert xy[i] == y[i - |x|] && xy[j] == y[j - |x|];
        } else {
          assert xy[i] == x[i] && xy[j] == y[j - |x|];
          assert xy[i].id in IdsOf(x) && xy[j].id in IdsOf(y);
        }
      }
    }
  }
}
