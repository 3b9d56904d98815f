/**
 How a search merges its two rankings: each place is worth the reciprocal of its rank, the worths of an identifier
 add up, and equal sums are ordered by identifier. Scores are exact reals; the closest two that matter differ by far
 more than a rounding error.
 */
module SearchRanking {
  import opened Wrappers
  import opened Text

  const RANK_LIMIT: nat := 40
  const RANK_OFFSET: nat := 60

  predicate Distinct(ids: seq<string>) {
    forall i, j :: 0 <= i < j < |ids| ==> ids[i] != ids[j]
  }

  /** One of the two rankings: at most forty identifiers, none of them twice. */
  predicate IsRanking(ids: seq<string>) { Distinct(ids) && |ids| <= RANK_LIMIT }

  function Credit(rank: nat): (r: real)
    ensures r > 0.0
  {
    1.0 / (RANK_OFFSET + rank + 1) as real
  }

  function Place(ids: seq<string>, id: string): (r: Option<nat>)
    ensures r.Some? ==> r.value < |ids| && ids[r.value] == id
    ensures r.Some? <==> id in ids
  {
    if ids == [] then None
    else if ids[|ids| - 1] == id then Some(|ids| - 1)
    else Place(ids[..|ids| - 1], id)
  }

  function CreditIn(ids: seq<string>, id: string): real {
    if Place(ids, id).Some? then Credit(Place(ids, id).value) else 0.0
  }

  /** The worth of an identifier in both rankings together. */
  function Worth(hits: seq<string>, neighbours: seq<string>, id: string): real {
    CreditIn(hits, id) + CreditIn(neighbours, id)
  }

  /** A dictionary keeps the order in which its keys were inserted. */
  function InsertionOrder(hits: seq<string>, neighbours: seq<string>): seq<string> {
    if neighbours == [] then hits
    else
      var n := |neighbours| - 1;
      InsertionOrder(hits, neighbours[..n]) + if neighbours[n] in hits then [] else [neighbours[n]]
  }

  /** The sort key: the higher worth first, then the smaller identifier. */
  predicate Precedes(hits: seq<string>, neighbours: seq<string>, a: string, b: string) {
    var x, y := Worth(hits, neighbours, a), Worth(hits, neighbours, b);
    x > y || (x == y && Leq(a, b))
  }

  function Insert(hits: seq<string>, neighbours: seq<string>, ids: seq<string>, id: string): seq<string> {
    if ids == [] || Precedes(hits, neighbours, id, ids[0]) then [id] + ids
    else [ids[0]] + Insert(hits, neighbours, ids[1..], id)
  }

  function SortedBy(hits: seq<string>, neighbours: seq<string>, ids: seq<string>): seq<string> {
    if ids == [] then []
    else Insert(hits, neighbours, SortedBy(hits, neighbours, ids[..|ids| - 1]), ids[|ids| - 1])
  }

  function Ranked(hits: seq<string>, neighbours: seq<string>): seq<string> {
    SortedBy(hits, neighbours, InsertionOrder(hits, neighbours))
  }

  // ---------------------------------------------------------------- the scores

  lemma PlaceOfLast(ids: seq<string>, id: string)
    ensures Place(ids + [id], id) == Some(|ids|)
    ensures forall other :: other != id ==> Place(ids + [id], other) == Place(ids, other)
  {
    assert (ids + [id])[..|ids|] == ids;
  }

  lemma NoNeighbours(hits: seq<string>)
    ensures forall id :: Worth(hits, [], id) == CreditIn(hits, id)
    ensures InsertionOrder(hits, []) == hits
  {
  }

  /** `scored`: the first loop assigns, the second one adds. */
  method Score(hits: seq<string>, neighbours: seq<string>) returns (scored: map<string, real>)
    requires IsRanking(hits) && IsRanking(neighbours)
    ensures forall id :: id in scored <==> id in hits || id in neighbours
    ensures forall id :: id in scored ==> scored[id] == Worth(hits, neighbours, id)
  {
    hide Credit, Place;
    scored := map[];
    NothingYet();
    for rank := 0 to |hits|
      invariant forall id :: id in scored <==> id in hits[..rank]
      invariant forall id :: id in scored ==> scored[id] == CreditIn(hits[..rank], id)
    {
      assert hits[..rank + 1] == hits[..rank] + [hits[rank]];
      PlaceOfLast(hits[..rank], hits[rank]);
      scored := scored[hits[rank] := Credit(rank)];
    }
    assert hits[..|hits|] == hits;
    NoNeighbours(hits);
    assert neighbours[..0] == [];
    for rank := 0 to |neighbours|
      invariant forall id :: id in scored <==> id in hits || id in neighbours[..rank]
      invariant forall id :: id in scored ==> scored[id] == Worth(hits, neighbours[..rank], id)
    {
      var id := neighbours[rank];
      assert neighbours[..rank + 1] == neighbours[..rank] + [id];
      assert id !in neighbours[..rank];
      WorthOfOneMore(hits, neighbours[..rank], id);
      var before := if id in scored then scored[id] else 0.0;
      scored := scored[id := before + Credit(rank)];
    }
    assert neighbours[..|neighbours|] == neighbours;
  }

  lemma NothingYet()
    ensures forall id :: CreditIn([], id) == 0.0
  {
  }

  lemma WorthOfOneMore(hits: seq<string>, neighbours: seq<string>, id: string)
    requires id !in neighbours
    ensures Worth(hits, neighbours + [id], id)
            == (if id in hits then Worth(hits, neighbours, id) else 0.0) + Credit(|neighbours|)
    ensures forall other :: other != id ==> Worth(hits, neighbours + [id], other) == Worth(hits, neighbours, other)
  {
    hide Credit;
    PlaceOfLast(neighbours, id);
  }

  // ---------------------------------------------------------------- the order

  lemma {:induction false} OrderMembers(hits: seq<string>, neighbours: seq<string>)
    requires Distinct(hits) && Distinct(neighbours)
    ensures Distinct(InsertionOrder(hits, neighbours))
    ensures forall id :: id in InsertionOrder(hits, neighbours) <==> id in hits || id in neighbours
  {
    if neighbours != [] {
      var n := |neighbours| - 1;
      OrderMembers(hits, neighbours[..n]);
      assert neighbours[n] !in neighbours[..n];
      assert forall id :: id in neighbours <==> id in neighbours[..n] || id == neighbours[n];
    }
  }

  lemma {:induction false} InsertMembers(hits: seq<string>, neighbours: seq<string>, ids: seq<string>, id: string)
    requires Distinct(ids) && id !in ids
    ensures var r := Insert(hits, neighbours, ids, id); Distinct(r) && forall x :: x in r <==> x == id || x in ids
  {
    if ids != [] {
      hide Precedes;
      assert forall x :: x in ids <==> x == ids[0] || x in ids[1..];
      if !Precedes(hits, neighbours, id, ids[0]) {
        assert ids[0] !in ids[1..];
        InsertMembers(hits, neighbours, ids[1..], id);
      }
    }
  }

  predicate InOrder(hits: seq<string>, neighbours: seq<string>, ids: seq<string>) {
    forall i, j :: 0 <= i < j < |ids| ==> Precedes(hits, neighbours, ids[i], ids[j])
  }

  lemma PrecedesTransitive(hits: seq<string>, neighbours: seq<string>, a: string, b: string, c: string)
    requires Precedes(hits, neighbours, a, b) && Precedes(hits, neighbours, b, c)
    ensures Precedes(hits, neighbours, a, c)
  {
    if Leq(a, b) && Leq(b, c) {
      LeqTransitive(a, b, c);
    }
  }

  lemma PrecedesTotal(hits: seq<string>, neighbours: seq<string>, a: string, b: string)
    ensures Precedes(hits, neighbours, a, b) || Precedes(hits, neighbours, b, a)
  {
    LeqTotal(a, b);
  }

  lemma {:induction false} InsertInOrder(hits: seq<string>, neighbours: seq<string>, ids: seq<string>, id: string)
    requires InOrder(hits, neighbours, ids) && Distinct(ids) && id !in ids
    ensures InOrder(hits, neighbours, Insert(hits, neighbours, ids, id))
  {
    hide Precedes;
    if ids != [] {
      if Precedes(hits, neighbours, id, ids[0]) {
        forall i | 0 < i < |ids|
          ensures Precedes(hits, neighbours, id, ids[i])
        {
          PrecedesTransitive(hits, neighbours, id, ids[0], ids[i]);
        }
      } else {
        InsertInOrder(hits, neighbours, ids[1..], id);
        InsertMembers(hits, neighbours, ids[1..], id);
        PrecedesTotal(hits, neighbours, id, ids[0]);
        assert forall x :: x in ids[1..] ==> Precedes(hits, neighbours, ids[0], x);
        var rest := Insert(hits, neighbours, ids[1..], id);
        assert forall i :: 0 <= i < |rest| ==> rest[i] in rest;
      }
    }
  }

  lemma {:induction false} SortedIsRight(hits: seq<string>, neighbours: seq<string>, ids: seq<string>)
    requires Distinct(ids)
    ensures var r := SortedBy(hits, neighbours, ids);
      Distinct(r) && InOrder(hits, neighbours, r) && forall id :: id in r <==> id in ids
  {
    if ids != [] {
      hide Insert, Precedes;
      var n := |ids| - 1;
      SortedIsRight(hits, neighbours, ids[..n]);
      assert ids[n] !in ids[..n];
      InsertInOrder(hits, neighbours, SortedBy(hits, neighbours, ids[..n]), ids[n]);
      InsertMembers(hits, neighbours, SortedBy(hits, neighbours, ids[..n]), ids[n]);
      assert forall id :: id in ids <==> id in ids[..n] || id == ids[n];
    }
  }

  /** The merged ranking holds every identifier of either ranking exactly once, by worth. */
  lemma RankedIsRight(hits: seq<string>, neighbours: seq<string>)
    requires IsRanking(hits) && IsRanking(neighbours)
    ensures Distinct(Ranked(hits, neighbours)) && InOrder(hits, neighbours, Ranked(hits, neighbours))
    ensures forall id :: id in Ranked(hits, neighbours) <==> id in hits || id in neighbours
  {
    OrderMembers(hits, neighbours);
    SortedIsRight(hits, neighbours, InsertionOrder(hits, neighbours));
  }

  // ---------------------------------------------------------------- what the merge prefers

  lemma PositiveFactor(p: real, x: real)
    requires x > 0.0 && p * x > 0.0
    ensures p > 0.0
  {
  }

  lemma Scaled(c: real, d: real, e: real)
    requires c >= 0.0 && d <= e
    ensures c * d <= c * e
  {
  }

  lemma CreditTimes(rank: nat)
    ensures Credit(rank) * (RANK_OFFSET + rank + 1) as real == 1.0
  {
  }

  lemma Reciprocal(c: real, d: real)
    requires c > 0.0 && 61.0 <= d <= 100.0 && c * d == 1.0
    ensures 0.01 <= c < 0.0165
  {
    Scaled(c, 61.0, d);
    Scaled(c, d, 100.0);
  }

  lemma CreditBounds(rank: nat)
    requires rank < RANK_LIMIT
    ensures 0.01 <= Credit(rank) < 0.0165
  {
    CreditTimes(rank);
    hide Credit;
    Reciprocal(Credit(rank), (RANK_OFFSET + rank + 1) as real);
  }

  lemma CreditFalls(a: nat, b: nat)
    requires a < b
    ensures Credit(a) > Credit(b)
  {
    CreditTimes(a);
    CreditTimes(b);
    hide Credit;
    var x, y := (RANK_OFFSET + a + 1) as real, (RANK_OFFSET + b + 1) as real;
    var p := Credit(a) - Credit(b);
    assert p * x == Credit(b) * (y - x);
    PositiveFactor(p, x);
  }

  predicate InBoth(hits: seq<string>, neighbours: seq<string>, id: string) { id in hits && id in neighbours }

  lemma BothIsWorthMore(hits: seq<string>, neighbours: seq<string>, id: string)
    requires IsRanking(hits) && IsRanking(neighbours)
    ensures InBoth(hits, neighbours, id) ==> Worth(hits, neighbours, id) >= 0.02
    ensures !InBoth(hits, neighbours, id) ==> Worth(hits, neighbours, id) < 0.0165
  {
    hide Credit, Place;
    if id in hits {
      CreditBounds(Place(hits, id).value);
    }
    if id in neighbours {
      CreditBounds(Place(neighbours, id).value);
    }
  }

  /**
   However far down: what both rankings found comes before everything that only one of them found. And what only
   one of them found keeps the order of that ranking.
   */
  lemma AgreementComesFirst(hits: seq<string>, neighbours: seq<string>, i: nat, j: nat)
    requires IsRanking(hits) && IsRanking(neighbours) && i < j < |Ranked(hits, neighbours)|
    ensures var a, b := Ranked(hits, neighbours)[i], Ranked(hits, neighbours)[j];
      && (InBoth(hits, neighbours, b) ==> InBoth(hits, neighbours, a))
      && (a !in neighbours && b !in neighbours ==>
            Place(hits, a).Some? && Place(hits, b).Some? && Place(hits, a).value < Place(hits, b).value)
      && (a !in hits && b !in hits ==>
            && Place(neighbours, a).Some? && Place(neighbours, b).Some?
            && Place(neighbours, a).value < Place(neighbours, b).value)
  {
    hide Credit, Place, Ranked, IsRanking;
    RankedIsRight(hits, neighbours);
    var ranked := Ranked(hits, neighbours);
    var a, b := ranked[i], ranked[j];
    assert a in ranked && b in ranked;
    assert Precedes(hits, neighbours, a, b);
    BothIsWorthMore(hits, neighbours, a);
    BothIsWorthMore(hits, neighbours, b);
    if a !in neighbours && b !in neighbours {
      EarlierPlace(hits, a, b);
    }
    if a !in hits && b !in hits {
      EarlierPlace(neighbours, a, b);
    }
  }

  lemma EarlierPlace(ids: seq<string>, a: string, b: string)
    requires a in ids && b in ids && a != b && CreditIn(ids, a) >= CreditIn(ids, b)
    ensures Place(ids, a).value < Place(ids, b).value
  {
    if Place(ids, b).value < Place(ids, a).value {
      CreditFalls(Place(ids, b).value, Place(ids, a).value);
    }
  }
}
