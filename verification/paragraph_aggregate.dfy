/** The paragraph aggregate: for one paragraph of a legal text, the submitted
    modifications partitioned by status, and the in-memory transition that
    happens when the accepted ("chosen") modification changes.

    The aggregate is a value here; the source mutates an object in place, and
    `ChangeChosenModification` returns the object's state after the call. The
    paragraph, the free texts and the peer statements are entities the
    aggregate only carries, so they are type parameters. */
module ParagraphAggregate {
  import opened Wrappers
  import opened Modifications
  import opened NewestFirst

  datatype Aggregate<Paragraph, FreeText, Statement> = Aggregate(
    paragraph: Paragraph,
    freetextBefore: seq<FreeText>,
    freetextAfter: seq<FreeText>,
    openModifications: seq<Modification>,
    refusedModifications: seq<Modification>,
    foreignModifications: seq<Modification>,
    chosenModification: Option<ChosenModification>,
    peers: seq<Statement>)

  /** Every modification of the three lists, open first, then refused, then
      foreign. The chosen modification is not among them. */
  function AllModifications<P, F, S>(a: Aggregate<P, F, S>): (r: seq<Modification>)
    ensures |r| == |a.openModifications| + |a.refusedModifications| + |a.foreignModifications|
    ensures r[..|a.openModifications|] == a.openModifications
    ensures r[|a.openModifications|..|a.openModifications| + |a.refusedModifications|] == a.refusedModifications
    ensures r[|a.openModifications| + |a.refusedModifications|..] == a.foreignModifications
  {
    a.openModifications + a.refusedModifications + a.foreignModifications
  }

  /** The partition invariant: no identity occurs twice across the three lists,
      and the chosen modification's identity occurs in none of them. */
  predicate WellFormed<P, F, S>(a: Aggregate<P, F, S>) {
    DistinctBy(AllModifications(a), Id) &&
    (a.chosenModification.Some? ==>
      a.chosenModification.value.modification.id !in IdsOf(AllModifications(a)))
  }

  /** The partition invariant list by list: each list free of repeated
      identities, and no identity shared between two lists. */
  lemma WellFormedByList<P, F, S>(a: Aggregate<P, F, S>)
    ensures DistinctBy(AllModifications(a), Id) <==>
      DistinctBy(a.openModifications, Id) && DistinctBy(a.refusedModifications, Id) &&
      DistinctBy(a.foreignModifications, Id) &&
      IdsOf(a.openModifications) !! IdsOf(a.refusedModifications) &&
      IdsOf(a.openModifications) !! IdsOf(a.foreignModifications) &&
      IdsOf(a.refusedModifications) !! IdsOf(a.foreignModifications)
  {
    var o, rf, fg := a.openModifications, a.refusedModifications, a.foreignModifications;
    assert AllModifications(a) == (o + rf) + fg;
    DistinctIdsConcat(o + rf, fg);
    DistinctIdsConcat(o, rf);
    assert IdsOf(o + rf) == IdsOf(o) + IdsOf(rf);
  }

  /** `k` is the position of the first entry of `s` carrying identity `id`. */
  predicate IsFirstMatch(s: seq<Modification>, id: int, k: int) {
    0 <= k < |s| && s[k].id == id && forall j :: 0 <= j < k ==> s[j].id != id
  }

  /** `after` is `before` without its first entry carrying `id`, or `before`
      itself when no entry carries it. */
  predicate IsFirstMatchRemoval(before: seq<Modification>, id: int, after: seq<Modification>) {
    if id in IdsOf(before) then
      exists k :: 0 <= k < |before| && IsFirstMatch(before, id, k) && after == before[..k] + before[k+1..]
    else
      after == before
  }

  /** The scan that drops the first entry whose identity is the needle's and
      stops there. */
  function RemoveModificationFromList(haystack: seq<Modification>, needle: Modification): (r: seq<Modification>)
    ensures |r| == if needle.id in IdsOf(haystack) then |haystack| - 1 else |haystack|
    ensures multiset(r) <= multiset(haystack)
  {
    if |haystack| == 0 then []
    else if haystack[0].id == needle.id then
      assert haystack == [haystack[0]] + haystack[1..];
      haystack[1..]
    else
      assert haystack == [haystack[0]] + haystack[1..];
      [haystack[0]] + RemoveModificationFromList(haystack[1..], needle)
  }

  /** The scan removes exactly the first match and keeps every other entry in
      its order; without a match the list is unchanged. */
  lemma {:induction false} RemovesFirstMatch(haystack: seq<Modification>, needle: Modification)
    ensures IsFirstMatchRemoval(haystack, needle.id, RemoveModificationFromList(haystack, needle))
  {
    var r := RemoveModificationFromList(haystack, needle);
    if |haystack| == 0 {
    } else if haystack[0].id == needle.id {
      assert IsFirstMatch(haystack, needle.id, 0) && r == haystack[..0] + haystack[1..];
      assert haystack[0] in haystack;
    } else {
      var t := haystack[1..];
      RemovesFirstMatch(t, needle);
      if needle.id in IdsOf(t) {
        var k :| 0 <= k < |t| && IsFirstMatch(t, needle.id, k) &&
          RemoveModificationFromList(t, needle) == t[..k] + t[k+1..];
        ShiftFirstMatch(haystack, needle.id, k);
        assert haystack[k + 1] in haystack;
      } else {
        assert haystack == [haystack[0]] + t;
        assert needle.id !in IdsOf(haystack);
      }
    }
  }

  /** A first match at `k` in the tail is a first match at `k + 1` in the whole
      list when the head does not match, and dropping it commutes with the head. */
  lemma ShiftFirstMatch(h: seq<Modification>, id: int, k: int)
    requires |h| > 0 && h[0].id != id
    requires IsFirstMatch(h[1..], id, k)
    ensures IsFirstMatch(h, id, k + 1)
    ensures [h[0]] + (h[1..][..k] + h[1..][k+1..]) == h[..k+1] + h[k+2..]
  {
    var t := h[1..];
    forall j | 0 <= j < k + 1 ensures h[j].id != id {
      if j > 0 {
        assert h[j] == t[j - 1];
      }
    }
    assert h[..k+1] == [h[0]] + t[..k];
    assert h[k+2..] == t[k+1..];
  }

  /** Removal from a list without repeated identities leaves no entry with the
      needle's identity, keeps the list free of repetitions, and introduces no
      identity. */
  lemma {:induction false} RemovalFromDistinct(haystack: seq<Modification>, needle: Modification)
    ensures IdsOf(RemoveModificationFromList(haystack, needle)) <= IdsOf(haystack)
    ensures DistinctBy(haystack, Id) ==>
      var r := RemoveModificationFromList(haystack, needle);
      DistinctBy(r, Id) && needle.id !in IdsOf(r)
  {
    var r := RemoveModificationFromList(haystack, needle);
    assert forall m :: m in r ==> m in haystack by {
      forall m | m in r ensures m in haystack {
        assert m in multiset(r);
      }
    }
    if |haystack| > 0 && DistinctBy(haystack, Id) {
      var t := haystack[1..];
      assert haystack == [haystack[0]] + t;
      DistinctIdsConcat([haystack[0]], t);
      if haystack[0].id != needle.id {
        RemovalFromDistinct(t, needle);
        var rt := RemoveModificationFromList(t, needle);
        DistinctIdsConcat([haystack[0]], rt);
      }
    }
  }

  /** A second entry with the needle's identity survives the removal: a list
      that repeats an identity is only partly cleaned. */
  lemma RemovalKeepsLaterDuplicate(haystack: seq<Modification>, needle: Modification, k: int, j: int)
    requires IsFirstMatch(haystack, needle.id, k)
    requires k < j < |haystack| && haystack[j].id == needle.id
    ensures needle.id in IdsOf(RemoveModificationFromList(haystack, needle))
  {
    RemovesFirstMatch(haystack, needle);
    var r := RemoveModificationFromList(haystack, needle);
    assert r == haystack[..k] + haystack[k+1..];
    assert r[j - 1] == haystack[j];
  }

  /** A list after the removal of the new chosen modification, if there is one. */
  function Without(list: seq<Modification>, newChosen: Option<ChosenModification>): seq<Modification> {
    match newChosen
    case None => list
    case Some(c) => RemoveModificationFromList(list, c.modification)
  }

  /** The transition when the accepted modification changes: `newChosen`
      becomes the chosen slot (absent clears it); when present, its
      modification's first match is removed from each list; the displaced
      `oldModification`, when present, joins the open list; the open list is
      re-sorted newest first. */
  function ChangeChosenModification<P, F, S>(
    a: Aggregate<P, F, S>,
    newChosen: Option<ChosenModification>,
    oldModification: Option<Modification>
  ): (r: Aggregate<P, F, S>)
    ensures r.chosenModification == newChosen
    ensures r.paragraph == a.paragraph && r.peers == a.peers
    ensures r.freetextBefore == a.freetextBefore && r.freetextAfter == a.freetextAfter
    ensures newChosen.None? ==>
      r.refusedModifications == a.refusedModifications &&
      r.foreignModifications == a.foreignModifications
    ensures newChosen.Some? ==>
      var id := newChosen.value.modification.id;
      IsFirstMatchRemoval(a.refusedModifications, id, r.refusedModifications) &&
      IsFirstMatchRemoval(a.foreignModifications, id, r.foreignModifications)
    ensures multiset(r.refusedModifications) <= multiset(a.refusedModifications)
    ensures |r.refusedModifications| >= |a.refusedModifications| - 1
    ensures multiset(r.foreignModifications) <= multiset(a.foreignModifications)
    ensures |r.foreignModifications| >= |a.foreignModifications| - 1
    ensures IsNewestFirst(r.openModifications)
    ensures multiset(r.openModifications) ==
      multiset(Without(a.openModifications, newChosen)) + multiset(oldModification.ToSeq())
  {
    if newChosen.Some? then
      RemovesFirstMatch(a.refusedModifications, newChosen.value.modification);
      RemovesFirstMatch(a.foreignModifications, newChosen.value.modification);
      Transition(a, newChosen, oldModification)
    else
      Transition(a, newChosen, oldModification)
  }

  /** The open list after the transition holds the old open list's entries
      without the first match of the new chosen identity, plus the displaced
      modification, in some order: the same removal rule as for the refused
      and foreign lists, stated without the model's removal function. */
  lemma OpenLosesFirstMatch<P, F, S>(
    a: Aggregate<P, F, S>,
    newChosen: Option<ChosenModification>,
    oldModification: Option<Modification>)
    ensures var o2 := ChangeChosenModification(a, newChosen, oldModification).openModifications;
      newChosen.None? ==>
        multiset(o2) == multiset(a.openModifications) + multiset(oldModification.ToSeq())
    ensures var o2 := ChangeChosenModification(a, newChosen, oldModification).openModifications;
      newChosen.Some? ==> exists w ::
        IsFirstMatchRemoval(a.openModifications, newChosen.value.modification.id, w) &&
        multiset(o2) == multiset(w) + multiset(oldModification.ToSeq())
  {
    if newChosen.Some? {
      RemovesFirstMatch(a.openModifications, newChosen.value.modification);
    }
  }

  /** The state after the transition, as one record update. */
  function Transition<P, F, S>(
    a: Aggregate<P, F, S>,
    newChosen: Option<ChosenModification>,
    oldModification: Option<Modification>
  ): Aggregate<P, F, S>
  {
    a.(chosenModification := newChosen,
       openModifications :=
         SortNewestFirst(Without(a.openModifications, newChosen) + oldModification.ToSeq()),
       refusedModifications := Without(a.refusedModifications, newChosen),
       foreignModifications := Without(a.foreignModifications, newChosen))
  }

  /** Reordering a list keeps its identities. */
  lemma IdsOfPermutation(s: seq<Modification>, t: seq<Modification>)
    requires multiset(s) == multiset(t)
    ensures IdsOf(s) == IdsOf(t)
  {
    assert forall m :: m in s <==> m in multiset(t);
  }

  /** The open list after the transition, before its re-sort, is free of
      repeated identities, holds no entry with the new chosen identity, and
      shares identities only with the old open list and the displaced
      modification. */
  lemma {:induction false} OpenBeforeSort(
    open: seq<Modification>,
    newChosen: Option<ChosenModification>,
    oldModification: Option<Modification>)
    requires DistinctBy(open, Id)
    requires oldModification.Some? ==> oldModification.value.id !in IdsOf(open)
    requires newChosen.Some? && oldModification.Some? ==>
      oldModification.value.id != newChosen.value.modification.id
    ensures var u := Without(open, newChosen) + oldModification.ToSeq();
      DistinctBy(u, Id) &&
      (newChosen.Some? ==> newChosen.value.modification.id !in IdsOf(u)) &&
      IdsOf(u) <= IdsOf(open) + IdsOf(oldModification.ToSeq())
  {
    var w := Without(open, newChosen);
    var extra := oldModification.ToSeq();
    if newChosen.Some? {
      RemovalFromDistinct(open, newChosen.value.modification);
    }
    assert IdsOf(w) <= IdsOf(open) && DistinctBy(w, Id);
    if oldModification.Some? {
      assert IdsOf(extra) == {oldModification.value.id};
    } else {
      assert extra == [];
    }
    DistinctIdsConcat(w, extra);
    assert IdsOf(w + extra) == IdsOf(w) + IdsOf(extra);
  }

  /** A list after the removal of the new chosen modification keeps no
      identity twice, gains no identity and loses the new chosen one. */
  lemma WithoutFromDistinct(list: seq<Modification>, newChosen: Option<ChosenModification>)
    requires DistinctBy(list, Id)
    ensures var w := Without(list, newChosen);
      DistinctBy(w, Id) && IdsOf(w) <= IdsOf(list) &&
      (newChosen.Some? ==> newChosen.value.modification.id !in IdsOf(w))
  {
    if newChosen.Some? {
      RemovalFromDistinct(list, newChosen.value.modification);
    }
  }

  /** The open list after the transition, re-sorted: the same facts as before
      the sort. */
  lemma OpenAfter<P, F, S>(
    a: Aggregate<P, F, S>,
    newChosen: Option<ChosenModification>,
    oldModification: Option<Modification>)
    requires DistinctBy(a.openModifications, Id)
    requires oldModification.Some? ==> oldModification.value.id !in IdsOf(a.openModifications)
    requires newChosen.Some? && oldModification.Some? ==>
      oldModification.value.id != newChosen.value.modification.id
    ensures var o2 := ChangeChosenModification(a, newChosen, oldModification).openModifications;
      DistinctBy(o2, Id) &&
      (newChosen.Some? ==> newChosen.value.modification.id !in IdsOf(o2)) &&
      IdsOf(o2) <= IdsOf(a.openModifications) + IdsOf(oldModification.ToSeq())
  {
    var o2 := ChangeChosenModification(a, newChosen, oldModification).openModifications;
    OpenBeforeSort(a.openModifications, newChosen, oldModification);
    var u := Without(a.openModifications, newChosen) + oldModification.ToSeq();
    DistinctByPermutation(u, o2, Id);
    IdsOfPermutation(u, o2);
  }

  /** The partition invariant is kept: when the lists hold no identity twice,
      the displaced modification is in none of them and is not the new chosen
      one, then afterwards the lists still hold no identity twice and the new
      chosen identity is in none of them. */
  lemma PartitionPreserved<P, F, S>(
    a: Aggregate<P, F, S>,
    newChosen: Option<ChosenModification>,
    oldModification: Option<Modification>)
    requires DistinctBy(AllModifications(a), Id)
    requires oldModification.Some? ==>
      oldModification.value.id !in IdsOf(AllModifications(a))
    requires newChosen.Some? && oldModification.Some? ==>
      oldModification.value.id != newChosen.value.modification.id
    ensures var r := ChangeChosenModification(a, newChosen, oldModification);
      DistinctBy(AllModifications(r), Id) &&
      (newChosen.Some? ==> newChosen.value.modification.id !in IdsOf(AllModifications(r)))
  {
    var r := ChangeChosenModification(a, newChosen, oldModification);
    WellFormedByList(a);
    IdsOfAll(a);
    ListsAfter(a, newChosen, oldModification);
    WellFormedByList(r);
    IdsOfAll(r);
  }

  /** The partition invariant list by list, carried through the transition. */
  lemma ListsAfter<P, F, S>(
    a: Aggregate<P, F, S>,
    newChosen: Option<ChosenModification>,
    oldModification: Option<Modification>)
    requires DistinctBy(a.openModifications, Id) && DistinctBy(a.refusedModifications, Id) &&
      DistinctBy(a.foreignModifications, Id)
    requires IdsOf(a.openModifications) !! IdsOf(a.refusedModifications) &&
      IdsOf(a.openModifications) !! IdsOf(a.foreignModifications) &&
      IdsOf(a.refusedModifications) !! IdsOf(a.foreignModifications)
    requires oldModification.Some? ==>
      oldModification.value.id !in
        IdsOf(a.openModifications) + IdsOf(a.refusedModifications) + IdsOf(a.foreignModifications)
    requires newChosen.Some? && oldModification.Some? ==>
      oldModification.value.id != newChosen.value.modification.id
    ensures var r := ChangeChosenModification(a, newChosen, oldModification);
      var o2, rf2, fg2 := r.openModifications, r.refusedModifications, r.foreignModifications;
      DistinctBy(o2, Id) && DistinctBy(rf2, Id) && DistinctBy(fg2, Id) &&
      IdsOf(o2) !! IdsOf(rf2) && IdsOf(o2) !! IdsOf(fg2) && IdsOf(rf2) !! IdsOf(fg2) &&
      (newChosen.Some? ==> newChosen.value.modification.id !in IdsOf(o2) + IdsOf(rf2) + IdsOf(fg2))
  {
    var r := ChangeChosenModification(a, newChosen, oldModification);
    var o, rf, fg := a.openModifications, a.refusedModifications, a.foreignModifications;
    var o2, rf2, fg2 := r.openModifications, r.refusedModifications, r.foreignModifications;
    var extra := IdsOf(oldModification.ToSeq());
    assert extra !! IdsOf(rf) + IdsOf(fg) by {
      if oldModification.Some? {
        assert extra == {oldModification.value.id};
      } else {
        assert oldModification.ToSeq() == [];
      }
    }
    OpenAfter(a, newChosen, oldModification);
    WithoutFromDistinct(rf, newChosen);
    WithoutFromDistinct(fg, newChosen);
    assert rf2 == Without(rf, newChosen) && fg2 == Without(fg, newChosen);
    assert IdsOf(o2) <= IdsOf(o) + extra;
  }

  /** The identities of all modifications are those of the three lists. */
  lemma IdsOfAll<P, F, S>(a: Aggregate<P, F, S>)
    ensures IdsOf(AllModifications(a)) ==
      IdsOf(a.openModifications) + IdsOf(a.refusedModifications) + IdsOf(a.foreignModifications)
  {
    var all := AllModifications(a);
    assert all == a.openModifications + a.refusedModifications + a.foreignModifications;
  }

  /** The modification a decision displaces: the one currently chosen. */
  function Displaced<P, F, S>(a: Aggregate<P, F, S>): Option<Modification> {
    match a.chosenModification
    case None => None
    case Some(c) => Some(c.modification)
  }

  /** A decision keeps the partition invariant: choosing a different
      modification, or clearing the choice, while handing the displaced one
      back to the open list. */
  lemma DecisionKeepsWellFormed<P, F, S>(a: Aggregate<P, F, S>, newChosen: Option<ChosenModification>)
    requires WellFormed(a)
    requires newChosen.Some? && a.chosenModification.Some? ==>
      newChosen.value.modification.id != a.chosenModification.value.modification.id
    ensures WellFormed(ChangeChosenModification(a, newChosen, Displaced(a)))
  {
    PartitionPreserved(a, newChosen, Displaced(a));
  }

  /** Choosing again the modification that is already chosen breaks the
      partition invariant: the source hands the displaced modification, which
      is that same one, back to the open list, so afterwards it is both chosen
      and open. This is why `DecisionKeepsWellFormed` asks for a different
      modification. */
  lemma RechoosingBreaksPartition<P, F, S>(a: Aggregate<P, F, S>)
    requires a.chosenModification.Some?
    ensures !WellFormed(ChangeChosenModification(a, a.chosenModification, Displaced(a)))
  {
    var m := a.chosenModification.value.modification;
    var r := ChangeChosenModification(a, a.chosenModification, Displaced(a));
    assert Displaced(a).ToSeq() == [m];
    assert m in multiset(r.openModifications);
    IdsOfAll(r);
    assert m.id in IdsOf(AllModifications(r));
  }

  /** The displaced modification, when not already open, is open exactly once
      afterwards. */
  lemma OldEntersOpenOnce<P, F, S>(
    a: Aggregate<P, F, S>,
    newChosen: Option<ChosenModification>,
    displaced: Modification)
    requires displaced !in a.openModifications
    ensures multiset(ChangeChosenModification(a, newChosen, Some(displaced)).openModifications)[displaced] == 1
  {
    var w := Without(a.openModifications, newChosen);
    assert multiset(w) <= multiset(a.openModifications);
    assert multiset(w)[displaced] == 0;
  }

  /** The transition is not idempotent: repeating it with the same arguments
      removes nothing more but hands the displaced modification to the open
      list a second time. */
  lemma RepeatDuplicatesOld<P, F, S>(
    a: Aggregate<P, F, S>,
    newChosen: Option<ChosenModification>,
    displaced: Modification)
    requires DistinctBy(AllModifications(a), Id)
    requires displaced.id !in IdsOf(AllModifications(a))
    requires newChosen.Some? ==> displaced.id != newChosen.value.modification.id
    ensures var r1 := ChangeChosenModification(a, newChosen, Some(displaced));
      var r2 := ChangeChosenModification(r1, newChosen, Some(displaced));
      multiset(r2.openModifications) == multiset(r1.openModifications) + multiset{displaced} &&
      multiset(r2.openModifications)[displaced] == 2 &&
      r2.refusedModifications == r1.refusedModifications &&
      r2.foreignModifications == r1.foreignModifications &&
      r2.chosenModification == r1.chosenModification
  {
    var r1 := ChangeChosenModification(a, newChosen, Some(displaced));
    PartitionPreserved(a, newChosen, Some(displaced));
    WellFormedByList(r1);
    IdsOfAll(r1);
    if newChosen.Some? {
      var id := newChosen.value.modification.id;
      NoMatchNoChange(r1.openModifications, newChosen.value.modification);
      NoMatchNoChange(r1.refusedModifications, newChosen.value.modification);
      NoMatchNoChange(r1.foreignModifications, newChosen.value.modification);
    }
    assert displaced !in a.openModifications by {
      forall m | m in a.openModifications ensures m != displaced {
        assert m in AllModifications(a);
      }
    }
    OldEntersOpenOnce(a, newChosen, displaced);
  }

  /** Without a match, the removal leaves the list as it is. */
  lemma NoMatchNoChange(haystack: seq<Modification>, needle: Modification)
    requires needle.id !in IdsOf(haystack)
    ensures RemoveModificationFromList(haystack, needle) == haystack
  {
    RemovesFirstMatch(haystack, needle);
  }

  /** First decision of a worked example: a refused modification is chosen;
      it leaves the refused list and the open list keeps its order. */
  lemma ScenarioChooseRefused<P, F, S>(p: P, before: seq<F>, after: seq<F>, peers: seq<S>)
    ensures
      var m1, m2, m3 := Modification(1, 10), Modification(2, 20), Modification(3, 30);
      var a := Aggregate(p, before, after, [m1, m3], [m2], [], None, peers);
      var b := ChangeChosenModification(a, Some(ChosenModification(m2)), None);
      b.chosenModification == Some(ChosenModification(m2)) &&
      b.openModifications == [m3, m1] && b.refusedModifications == [] &&
      b.foreignModifications == []
  {
    var m1, m2, m3 := Modification(1, 10), Modification(2, 20), Modification(3, 30);
    assert RemoveModificationFromList([m2], m2) == [];
    assert RemoveModificationFromList([m3], m2) == [m3];
    assert RemoveModificationFromList([m1, m3], m2) == [m1, m3];
    assert [m1, m3][1..] == [m3];
    var none: Option<Modification> := None;
    assert Without([m1, m3], Some(ChosenModification(m2))) + none.ToSeq() == [m1, m3];
    SortedExample(m1, m3, [m1, m3]);
  }

  /** Second decision of the worked example: an open modification replaces the
      chosen one, which re-enters the open list in creation order. */
  lemma ScenarioReplaceChosen<P, F, S>(p: P, before: seq<F>, after: seq<F>, peers: seq<S>)
    ensures
      var m1, m2, m3 := Modification(1, 10), Modification(2, 20), Modification(3, 30);
      var b := Aggregate(p, before, after, [m3, m1], [], [], Some(ChosenModification(m2)), peers);
      var c := ChangeChosenModification(b, Some(ChosenModification(m1)), Some(m2));
      c.chosenModification == Some(ChosenModification(m1)) &&
      c.openModifications == [m3, m2] && c.refusedModifications == []
  {
    var m1, m2, m3 := Modification(1, 10), Modification(2, 20), Modification(3, 30);
    assert RemoveModificationFromList([m1], m1) == [];
    assert RemoveModificationFromList([m3, m1], m1) == [m3];
    assert Without([m3, m1], Some(ChosenModification(m1))) + Some(m2).ToSeq() == [m3, m2];
    SortedExample(m2, m3, [m3, m2]);
  }

  /** Any newest-first permutation of two entries with different creation times
      puts the newer one first. */
  lemma SortedExample(older: Modification, newer: Modification, s: seq<Modification>)
    requires older.createdAt < newer.createdAt
    requires multiset(s) == multiset{older, newer}
    ensures SortNewestFirst(s) == [newer, older]
  {
    TwoNewestFirst(older, newer, SortNewestFirst(s));
  }

  /** The only newest-first order of two entries with different creation
      times puts the newer one first. */
  lemma TwoNewestFirst(older: Modification, newer: Modification, r: seq<Modification>)
    requires older.createdAt < newer.createdAt
    requires multiset(r) == multiset{older, newer}
    requires IsNewestFirst(r)
    ensures r == [newer, older]
  {
    var sorted := [newer, older];
    assert multiset(sorted) == multiset{older, newer};
    assert DistinctBy(sorted, CreatedAt);
    NewestFirstUnique(sorted, r);
  }
}
