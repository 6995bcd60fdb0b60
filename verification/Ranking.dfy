/**
 * Ranking upstreams by a score, with a margin for the incumbent
 * (src/decider/least_latency/refresher.rs, src/decider/prefer_least_errors/refresher.rs).
 *
 * The two refreshers differ only in the score.  Scores are exact fractions here; the
 * source rounds them to floating point or to nanoseconds.
 */
module Ranking {
  import opened Upstreams
  import opened Metrics
  import opened Observer
  import opened Scores
  import opened Window

  datatype SortKey = SortKey(unscored: bool, score: real)

  const UNSCORED := SortKey(true, 0.0)

  predicate Leq(a: SortKey, b: SortKey) {
    if a.unscored == b.unscored then a.score <= b.score else b.unscored
  }

  /** Keys are in a total order. */
  lemma KeysAreOrdered(a: SortKey, b: SortKey, c: SortKey)
    ensures Leq(a, b) || Leq(b, a)
    ensures Leq(a, b) && Leq(b, c) ==> Leq(a, c)
    ensures Leq(a, b) && Leq(b, a) ==> a == b
  {
  }

  datatype Entry = Entry(id: UpstreamId, key: SortKey)

  // A stable sort

  function InsertBefore(x: Entry, ys: seq<Entry>): seq<Entry> {
    if ys == [] || Leq(x.key, ys[0].key) then [x] + ys else [ys[0]] + InsertBefore(x, ys[1..])
  }

  function StableSort(xs: seq<Entry>): seq<Entry> {
    if xs == [] then [] else InsertBefore(xs[0], StableSort(xs[1..]))
  }

  predicate Ascending(xs: seq<Entry>) {
    forall i, j :: 0 <= i < j < |xs| ==> Leq(xs[i].key, xs[j].key)
  }

  /** The entries with one key, in order. */
  function WithKey(xs: seq<Entry>, key: SortKey): seq<Entry> {
    if xs == [] then []
    else (if xs[0].key == key then [xs[0]] else []) + WithKey(xs[1..], key)
  }

  /** Sorted, and entries with the same key keep their order. */
  ghost predicate StablySorted(xs: seq<Entry>, ys: seq<Entry>) {
    Ascending(ys) && forall key :: WithKey(ys, key) == WithKey(xs, key)
  }

  lemma WithKeyCons(x: Entry, ys: seq<Entry>, key: SortKey)
    ensures WithKey([x] + ys, key) == (if x.key == key then [x] else []) + WithKey(ys, key)
  {
    assert ([x] + ys)[1..] == ys;
  }

  lemma {:induction false} InsertKeeps(x: Entry, ys: seq<Entry>)
    ensures multiset(InsertBefore(x, ys)) == multiset([x] + ys)
  {
    if ys != [] && !Leq(x.key, ys[0].key) {
      InsertKeeps(x, ys[1..]);
      assert ys == [ys[0]] + ys[1..];
    }
  }

  lemma {:induction false} InsertAscends(x: Entry, ys: seq<Entry>)
    requires Ascending(ys)
    ensures Ascending(InsertBefore(x, ys))
  {
    if ys != [] && !Leq(x.key, ys[0].key) {
      var r := InsertBefore(x, ys[1..]);
      InsertAscends(x, ys[1..]);
      InsertKeeps(x, ys[1..]);
      forall i | 0 <= i < |r| ensures Leq(ys[0].key, r[i].key) {
        assert r[i] in multiset(r);
        assert r[i] in [x] + ys[1..];
      }
    }
  }

  lemma {:induction false} InsertIsStable(x: Entry, ys: seq<Entry>, key: SortKey)
    ensures WithKey(InsertBefore(x, ys), key) == WithKey([x] + ys, key)
  {
    WithKeyCons(x, ys, key);
    if ys != [] && !Leq(x.key, ys[0].key) {
      var rest := ys[1..];
      InsertIsStable(x, rest, key);
      WithKeyCons(ys[0], InsertBefore(x, rest), key);
      WithKeyCons(x, rest, key);
    }
  }

  lemma {:induction false} SortIsStable(xs: seq<Entry>)
    ensures StablySorted(xs, StableSort(xs))
    ensures multiset(StableSort(xs)) == multiset(xs)
  {
    if xs != [] {
      SortIsStable(xs[1..]);
      assert xs == [xs[0]] + xs[1..];
      forall key ensures WithKey(StableSort(xs), key) == WithKey(xs, key) {
        InsertIsStable(xs[0], StableSort(xs[1..]), key);
        WithKeyCons(xs[0], StableSort(xs[1..]), key);
      }
      InsertAscends(xs[0], StableSort(xs[1..]));
      InsertKeeps(xs[0], StableSort(xs[1..]));
    }
  }

  lemma {:induction false} WithKeyMember(xs: seq<Entry>, key: SortKey)
    ensures forall x :: x in WithKey(xs, key) <==> x in xs && x.key == key
  {
    if xs != [] {
      WithKeyMember(xs[1..], key);
      assert forall x :: x in xs <==> x == xs[0] || x in xs[1..];
    }
  }

  /** The first of two stable sorts of the same entries agree on the head. */
  lemma HeadsAgree(ys: seq<Entry>, zs: seq<Entry>)
    requires Ascending(ys) && Ascending(zs) && ys != []
    requires forall key :: WithKey(ys, key) == WithKey(zs, key)
    ensures zs != [] && ys[0] == zs[0]
  {
    var key := ys[0].key;
    WithKeyMember(ys, key);
    WithKeyMember(zs, key);
    assert ys[0] in WithKey(ys, key);
    assert ys[0] in zs;
    var other := zs[0].key;
    WithKeyMember(ys, other);
    WithKeyMember(zs, other);
    assert zs[0] in WithKey(zs, other);
    assert zs[0] in ys;
    assert Leq(key, other) && Leq(other, key);
    assert key == other;
    assert WithKey(ys, key)[0] == ys[0] && WithKey(zs, key)[0] == zs[0];
  }

  lemma {:induction false} SortsAgree(ys: seq<Entry>, zs: seq<Entry>)
    requires Ascending(ys) && Ascending(zs)
    requires forall key :: WithKey(ys, key) == WithKey(zs, key)
    ensures ys == zs
  {
    if ys != [] {
      HeadsAgree(ys, zs);
      forall key ensures WithKey(ys[1..], key) == WithKey(zs[1..], key) {
        assert WithKey(ys, key) == WithKey(zs, key);
        var head := if ys[0].key == key then [ys[0]] else [];
        assert WithKey(ys[1..], key) == WithKey(ys, key)[|head|..];
        assert WithKey(zs[1..], key) == WithKey(zs, key)[|head|..];
      }
      SortsAgree(ys[1..], zs[1..]);
      assert ys == [ys[0]] + ys[1..] && zs == [zs[0]] + zs[1..];
    } else if zs != [] {
      HeadsAgree(zs, ys);
    }
  }

  /** There is only one way to sort stably, so any stable sort is this one. */
  lemma StableSortIsUnique(xs: seq<Entry>, ys: seq<Entry>)
    requires StablySorted(xs, ys)
    ensures ys == StableSort(xs)
  {
    SortIsStable(xs);
    SortsAgree(ys, StableSort(xs));
  }

  // One refresh

  type Scoring = UpstreamId -> Option<real>

  /** The incumbent, if it is scored, competes at a discount. */
  function KeyOf(u: UpstreamId, incumbent: Option<UpstreamId>, margin: real, scoring: Scoring): SortKey {
    var score := scoring(u);
    if score.None? then UNSCORED
    else if incumbent == Some(u) then SortKey(false, score.value * (1.0 - margin))
    else SortKey(false, score.value)
  }

  function Incumbent(ranking: seq<UpstreamId>): Option<UpstreamId> {
    if ranking == [] then None else Some(ranking[0])
  }

  function Scored(ranking: seq<UpstreamId>, incumbent: Option<UpstreamId>, margin: real, scoring: Scoring): seq<Entry> {
    if ranking == [] then []
    else [Entry(ranking[0], KeyOf(ranking[0], incumbent, margin, scoring))]
         + Scored(ranking[1..], incumbent, margin, scoring)
  }

  function IdsOf(xs: seq<Entry>): seq<UpstreamId> {
    if xs == [] then [] else [xs[0].id] + IdsOf(xs[1..])
  }

  function Refreshed(ranking: seq<UpstreamId>, margin: real, scoring: Scoring): seq<UpstreamId> {
    IdsOf(StableSort(Scored(ranking, Incumbent(ranking), margin, scoring)))
  }

  lemma {:induction false} IdAt(xs: seq<Entry>, i: nat)
    requires i < |xs|
    ensures |IdsOf(xs)| == |xs| && IdsOf(xs)[i] == xs[i].id
  {
    if |xs| > 1 { IdAt(xs[1..], if i == 0 then 0 else i - 1); }
  }

  lemma {:induction false} ScoredAt(ranking: seq<UpstreamId>, incumbent: Option<UpstreamId>, margin: real,
      scoring: Scoring, i: nat)
    requires i < |ranking|
    ensures var xs := Scored(ranking, incumbent, margin, scoring);
            |xs| == |ranking| && xs[i] == Entry(ranking[i], KeyOf(ranking[i], incumbent, margin, scoring))
  {
    if |ranking| > 1 { ScoredAt(ranking[1..], incumbent, margin, scoring, if i == 0 then 0 else i - 1); }
  }

  lemma {:induction false} IdsOfScored(ranking: seq<UpstreamId>, incumbent: Option<UpstreamId>, margin: real,
      scoring: Scoring)
    ensures IdsOf(Scored(ranking, incumbent, margin, scoring)) == ranking
  {
    if ranking != [] { IdsOfScored(ranking[1..], incumbent, margin, scoring); }
  }

  lemma {:induction false} InsertKeepsIds(x: Entry, ys: seq<Entry>)
    ensures multiset(IdsOf(InsertBefore(x, ys))) == multiset{x.id} + multiset(IdsOf(ys))
  {
    if ys == [] || Leq(x.key, ys[0].key) {
      assert ([x] + ys)[1..] == ys;
    } else {
      InsertKeepsIds(x, ys[1..]);
      assert ([ys[0]] + InsertBefore(x, ys[1..]))[1..] == InsertBefore(x, ys[1..]);
    }
  }

  lemma {:induction false} SortKeepsIds(xs: seq<Entry>)
    ensures multiset(IdsOf(StableSort(xs))) == multiset(IdsOf(xs))
  {
    if xs != [] {
      SortKeepsIds(xs[1..]);
      InsertKeepsIds(xs[0], StableSort(xs[1..]));
    }
  }

  /** The upstreams sharing a sort key, in order. */
  function Tied(ids: seq<UpstreamId>, incumbent: Option<UpstreamId>, margin: real, scoring: Scoring,
      key: SortKey): seq<UpstreamId> {
    if ids == [] then []
    else (if KeyOf(ids[0], incumbent, margin, scoring) == key then [ids[0]] else [])
         + Tied(ids[1..], incumbent, margin, scoring, key)
  }

  ghost predicate Keyed(xs: seq<Entry>, incumbent: Option<UpstreamId>, margin: real, scoring: Scoring) {
    forall x :: x in xs ==> x.key == KeyOf(x.id, incumbent, margin, scoring)
  }

  lemma {:induction false} TiedIds(xs: seq<Entry>, incumbent: Option<UpstreamId>, margin: real,
      scoring: Scoring, key: SortKey)
    requires Keyed(xs, incumbent, margin, scoring)
    ensures Tied(IdsOf(xs), incumbent, margin, scoring, key) == IdsOf(WithKey(xs, key))
  {
    if xs != [] {
      TiedIds(xs[1..], incumbent, margin, scoring, key);
      assert xs[0] in xs;
      assert IdsOf(xs)[0] == xs[0].id && IdsOf(xs)[1..] == IdsOf(xs[1..]);
      assert WithKey(xs, key) == (if xs[0].key == key then [xs[0]] else []) + WithKey(xs[1..], key);
      assert ([xs[0]] + WithKey(xs[1..], key))[1..] == WithKey(xs[1..], key);
      assert [] + WithKey(xs[1..], key) == WithKey(xs[1..], key);
    }
  }

  lemma SortedEntries(ranking: seq<UpstreamId>, margin: real, scoring: Scoring)
    ensures var xs := Scored(ranking, Incumbent(ranking), margin, scoring);
            var ys := StableSort(xs);
            && |xs| == |ys| == |ranking| && multiset(xs) == multiset(ys)
            && Keyed(xs, Incumbent(ranking), margin, scoring) && Keyed(ys, Incumbent(ranking), margin, scoring)
            && StablySorted(xs, ys)
  {
    hide StablySorted, KeyOf;
    var incumbent := Incumbent(ranking);
    var xs := Scored(ranking, incumbent, margin, scoring);
    var ys := StableSort(xs);
    SortIsStable(xs);
    assert |ys| == |multiset(ys)| == |multiset(xs)| == |xs|;
    if ranking != [] { ScoredAt(ranking, incumbent, margin, scoring, 0); }
    forall x | x in xs ensures x.key == KeyOf(x.id, incumbent, margin, scoring) {
      var i :| 0 <= i < |xs| && xs[i] == x;
      ScoredAt(ranking, incumbent, margin, scoring, i);
    }
    forall y | y in ys ensures y in xs {
      assert y in multiset(ys);
    }
  }

  /** A refresh loses no one and gains no one; upstreams that share a key, the unscored
      among them, keep their order. */
  lemma RefreshRearranges(ranking: seq<UpstreamId>, margin: real, scoring: Scoring)
    ensures multiset(Refreshed(ranking, margin, scoring)) == multiset(ranking)
    ensures forall key ::
              Tied(Refreshed(ranking, margin, scoring), Incumbent(ranking), margin, scoring, key)
              == Tied(ranking, Incumbent(ranking), margin, scoring, key)
  {
    hide KeyOf, Keyed, Tied;
    var incumbent := Incumbent(ranking);
    var xs := Scored(ranking, incumbent, margin, scoring);
    var ys := StableSort(xs);
    SortKeepsIds(xs);
    IdsOfScored(ranking, incumbent, margin, scoring);
    SortedEntries(ranking, margin, scoring);
    forall key
      ensures Tied(IdsOf(ys), incumbent, margin, scoring, key) == Tied(ranking, incumbent, margin, scoring, key)
    {
      TiedIds(xs, incumbent, margin, scoring, key);
      TiedIds(ys, incumbent, margin, scoring, key);
      assert WithKey(ys, key) == WithKey(xs, key);
    }
  }

  /** A refresh ranks by score, the incumbent at its discount, and the unscored last. */
  lemma RefreshOrders(ranking: seq<UpstreamId>, margin: real, scoring: Scoring, i: nat, j: nat)
    requires i < j < |ranking|
    ensures var now := Refreshed(ranking, margin, scoring);
            && |now| == |ranking|
            && Leq(KeyOf(now[i], Incumbent(ranking), margin, scoring),
                   KeyOf(now[j], Incumbent(ranking), margin, scoring))
            && (scoring(now[j]).Some? ==> scoring(now[i]).Some?)
  {
    var xs := Scored(ranking, Incumbent(ranking), margin, scoring);
    var ys := StableSort(xs);
    SortedEntries(ranking, margin, scoring);
    IdAt(ys, i);
    IdAt(ys, j);
    assert ys[i] in ys && ys[j] in ys;
  }

  // Who leads

  /** A challenger takes the head when the incumbent is unscored, or is beaten by more
      than the margin. */
  predicate Crosses(challenger: UpstreamId, incumbent: UpstreamId, margin: real, scoring: Scoring) {
    scoring(challenger).Some? &&
    (scoring(incumbent).None? || scoring(challenger).value < scoring(incumbent).value * (1.0 - margin))
  }

  /** Crossing the line is sorting strictly before. */
  lemma CrossingIsBeating(challenger: UpstreamId, incumbent: UpstreamId, margin: real, scoring: Scoring)
    requires challenger != incumbent
    ensures Crosses(challenger, incumbent, margin, scoring) <==>
            !Leq(KeyOf(incumbent, Some(incumbent), margin, scoring),
                 KeyOf(challenger, Some(incumbent), margin, scoring))
  {
  }

  lemma HeadIsLeast(ranking: seq<UpstreamId>, margin: real, scoring: Scoring, u: UpstreamId)
    requires u in ranking
    ensures var now := Refreshed(ranking, margin, scoring);
            && now != [] && now[0] in ranking
            && Leq(KeyOf(now[0], Incumbent(ranking), margin, scoring), KeyOf(u, Incumbent(ranking), margin, scoring))
  {
    hide KeyOf, Tied;
    var now := Refreshed(ranking, margin, scoring);
    RefreshRearranges(ranking, margin, scoring);
    assert |now| == |multiset(now)| == |ranking|;
    assert now[0] in multiset(ranking);
    assert u in multiset(now);
    var j :| 0 <= j < |now| && now[j] == u;
    if j > 0 { RefreshOrders(ranking, margin, scoring, 0, j); }
  }

  lemma TiedHead(ranking: seq<UpstreamId>, incumbent: Option<UpstreamId>, margin: real, scoring: Scoring)
    requires ranking != []
    ensures var tied := Tied(ranking, incumbent, margin, scoring, KeyOf(ranking[0], incumbent, margin, scoring));
            tied != [] && tied[0] == ranking[0]
  {
  }

  /** The head changes exactly when some challenger crosses the line. */
  lemma HeadMoves(ranking: seq<UpstreamId>, margin: real, scoring: Scoring)
    requires ranking != []
    ensures Refreshed(ranking, margin, scoring) != []
    ensures Refreshed(ranking, margin, scoring)[0] != ranking[0] <==>
            exists u :: u in ranking && u != ranking[0] && Crosses(u, ranking[0], margin, scoring)
  {
    hide Refreshed, Tied, KeyOf, Crosses;
    var head := ranking[0];
    var now := Refreshed(ranking, margin, scoring);
    forall u | u in ranking && u != head
      ensures now != []
      ensures Crosses(u, head, margin, scoring) ==> now[0] != head
    {
      HeadIsLeast(ranking, margin, scoring, u);
      CrossingIsBeating(u, head, margin, scoring);
    }
    HeadIsLeast(ranking, margin, scoring, head);
    if now[0] != head {
      CrossingIsBeating(now[0], head, margin, scoring);
      if !Crosses(now[0], head, margin, scoring) {
        RefreshRearranges(ranking, margin, scoring);
        TiedHead(ranking, Some(head), margin, scoring);
        TiedHead(now, Some(head), margin, scoring);
        SameKey(now[0], head, margin, scoring);
        assert false;
      }
    }
  }

  /** Being unscored is not enough to lose the head: with no one scored, no one moves. */
  lemma UnscoredHeadMayStay(margin: real, scoring: Scoring)
    requires scoring("a").None? && scoring("b").None?
    ensures Refreshed(["a", "b"], margin, scoring) == ["a", "b"]
  {
    var a, b := Entry("a", UNSCORED), Entry("b", UNSCORED);
    assert ["a", "b"][1..] == ["b"] && ["b"][1..] == [] && [a, b][1..] == [b] && [b][1..] == [];
    assert Scored(["b"], Some("a"), margin, scoring) == [b];
    assert Scored(["a", "b"], Some("a"), margin, scoring) == [a, b];
    assert StableSort([b]) == [b];
    assert StableSort([a, b]) == [a, b];
    assert IdsOf([b]) == ["b"];
  }

  lemma SameKey(u: UpstreamId, head: UpstreamId, margin: real, scoring: Scoring)
    requires Leq(KeyOf(u, Some(head), margin, scoring), KeyOf(head, Some(head), margin, scoring))
    requires Leq(KeyOf(head, Some(head), margin, scoring), KeyOf(u, Some(head), margin, scoring))
    ensures KeyOf(u, Some(head), margin, scoring) == KeyOf(head, Some(head), margin, scoring)
  {
  }

  // The same order, over the scores themselves

  /** Scored before unscored, and the scored by their scores; only the old head is read at a
      discount. */
  lemma RankedByScore(ranking: seq<UpstreamId>, margin: real, scoring: Scoring, i: nat, j: nat)
    requires i < j < |ranking|
    ensures var now, head := Refreshed(ranking, margin, scoring), ranking[0];
            && |now| == |ranking|
            && (scoring(now[j]).Some? ==> scoring(now[i]).Some?)
            && (scoring(now[j]).Some? && now[i] != head && now[j] != head ==>
                  scoring(now[i]).value <= scoring(now[j]).value)
            && (scoring(now[j]).Some? && now[i] == head && now[j] != head ==>
                  scoring(now[i]).value * (1.0 - margin) <= scoring(now[j]).value)
            && (scoring(now[j]).Some? && now[i] != head && now[j] == head ==>
                  scoring(now[i]).value <= scoring(now[j]).value * (1.0 - margin))
  {
    RefreshOrders(ranking, margin, scoring, i, j);
  }

  /** Nothing sets two upstreams apart: neither is scored, or both are and alike, the head's
      score read at its discount. */
  predicate Level(a: UpstreamId, b: UpstreamId, head: UpstreamId, margin: real, scoring: Scoring) {
    if scoring(a).None? || scoring(b).None? then scoring(a).None? && scoring(b).None?
    else if a == head && b != head then scoring(a).value * (1.0 - margin) == scoring(b).value
    else if a != head && b == head then scoring(a).value == scoring(b).value * (1.0 - margin)
    else scoring(a).value == scoring(b).value
  }

  lemma LevelMeans(a: UpstreamId, b: UpstreamId, head: UpstreamId, margin: real, scoring: Scoring)
    requires Level(a, b, head, margin, scoring)
    ensures KeyOf(a, Some(head), margin, scoring) == KeyOf(b, Some(head), margin, scoring)
  {
  }

  lemma {:induction false} TiedMember(ids: seq<UpstreamId>, incumbent: Option<UpstreamId>, margin: real,
      scoring: Scoring, key: SortKey, i: nat)
    returns (a: nat)
    requires i < |ids| && KeyOf(ids[i], incumbent, margin, scoring) == key
    ensures var tied := Tied(ids, incumbent, margin, scoring, key); a < |tied| && tied[a] == ids[i]
  {
    if i == 0 {
      a := 0;
    } else {
      a := TiedMember(ids[1..], incumbent, margin, scoring, key, i - 1);
      if KeyOf(ids[0], incumbent, margin, scoring) == key { a := a + 1; }
    }
  }

  lemma {:induction false} TiedPair(ids: seq<UpstreamId>, incumbent: Option<UpstreamId>, margin: real,
      scoring: Scoring, key: SortKey, i: nat, j: nat)
    returns (a: nat, b: nat)
    requires i < j < |ids|
    requires KeyOf(ids[i], incumbent, margin, scoring) == key && KeyOf(ids[j], incumbent, margin, scoring) == key
    ensures var tied := Tied(ids, incumbent, margin, scoring, key);
            a < b < |tied| && tied[a] == ids[i] && tied[b] == ids[j]
  {
    if i == 0 {
      b := TiedMember(ids[1..], incumbent, margin, scoring, key, j - 1);
      a, b := 0, b + 1;
    } else {
      a, b := TiedPair(ids[1..], incumbent, margin, scoring, key, i - 1, j - 1);
      if KeyOf(ids[0], incumbent, margin, scoring) == key { a, b := a + 1, b + 1; }
    }
  }

  lemma {:induction false} TiedDistinct(ids: seq<UpstreamId>, incumbent: Option<UpstreamId>, margin: real,
      scoring: Scoring, key: SortKey)
    requires Distinct(ids)
    ensures Distinct(Tied(ids, incumbent, margin, scoring, key))
    ensures forall u :: u in Tied(ids, incumbent, margin, scoring, key) ==> u in ids
  {
    if ids != [] {
      assert forall u :: u in ids[1..] ==> u in ids && u != ids[0];
      TiedDistinct(ids[1..], incumbent, margin, scoring, key);
      var rest := Tied(ids[1..], incumbent, margin, scoring, key);
      assert ids[0] !in rest;
      assert Tied(ids, incumbent, margin, scoring, key) ==
             (if KeyOf(ids[0], incumbent, margin, scoring) == key then [ids[0]] else []) + rest;
    }
  }

  /** Upstreams that nothing sets apart keep their old order. */
  lemma LevelKeepTheirOrder(ranking: seq<UpstreamId>, margin: real, scoring: Scoring, i: nat, j: nat, x: nat, y: nat)
    requires Distinct(ranking) && i < j < |ranking| && x < |ranking| && y < |ranking|
    requires |Refreshed(ranking, margin, scoring)| == |ranking|
    requires Refreshed(ranking, margin, scoring)[i] == ranking[x]
    requires Refreshed(ranking, margin, scoring)[j] == ranking[y]
    requires Level(ranking[x], ranking[y], ranking[0], margin, scoring)
    ensures x < y
  {
    hide KeyOf, Refreshed, Level;
    var now, incumbent := Refreshed(ranking, margin, scoring), Some(ranking[0]);
    var key := KeyOf(ranking[x], incumbent, margin, scoring);
    LevelMeans(ranking[x], ranking[y], ranking[0], margin, scoring);
    RefreshRearranges(ranking, margin, scoring);
    TiedDistinct(ranking, incumbent, margin, scoring, key);
    var tied := Tied(ranking, incumbent, margin, scoring, key);
    assert Incumbent(ranking) == incumbent;
    assert Tied(Refreshed(ranking, margin, scoring), Incumbent(ranking), margin, scoring, key) == tied;
    var a, b := TiedPair(now, incumbent, margin, scoring, key, i, j);
    assert tied[a] == ranking[x] && tied[b] == ranking[y] && tied[a] != tied[b];
    if y < x {
      var c, d := TiedPair(ranking, incumbent, margin, scoring, key, y, x);
    }
  }

  /** A head that takes over has the least score of all challengers. */
  lemma NewHeadIsBest(ranking: seq<UpstreamId>, margin: real, scoring: Scoring, u: UpstreamId)
    requires ranking != [] && Refreshed(ranking, margin, scoring) != []
    requires Refreshed(ranking, margin, scoring)[0] != ranking[0]
    ensures var first := Refreshed(ranking, margin, scoring)[0];
            && first in ranking && scoring(first).Some?
            && (u in ranking && u != ranking[0] && scoring(u).Some? ==> scoring(first).value <= scoring(u).value)
  {
    HeadMoves(ranking, margin, scoring);
    var c :| c in ranking && c != ranking[0] && Crosses(c, ranking[0], margin, scoring);
    HeadIsLeast(ranking, margin, scoring, c);
    if u in ranking { HeadIsLeast(ranking, margin, scoring, u); }
    hide Refreshed;
  }

  /** The ranking after a run of refreshes. */
  function After(ranking: seq<UpstreamId>, margin: real, rounds: seq<Scoring>): seq<UpstreamId> {
    if rounds == [] then ranking
    else Refreshed(After(ranking, margin, rounds[..|rounds| - 1]), margin, rounds[|rounds| - 1])
  }

  lemma AfterPush(ranking: seq<UpstreamId>, margin: real, rounds: seq<Scoring>, scoring: Scoring)
    ensures After(ranking, margin, rounds + [scoring]) == Refreshed(After(ranking, margin, rounds), margin, scoring)
  {
    assert (rounds + [scoring])[..|rounds|] == rounds;
  }

  lemma {:induction false} RunKeepsMembers(ranking: seq<UpstreamId>, margin: real, rounds: seq<Scoring>)
    ensures multiset(After(ranking, margin, rounds)) == multiset(ranking)
    ensures |After(ranking, margin, rounds)| == |ranking|
  {
    hide Refreshed, Tied, KeyOf;
    if rounds != [] {
      var init := rounds[..|rounds| - 1];
      RunKeepsMembers(ranking, margin, init);
      RefreshRearranges(After(ranking, margin, init), margin, rounds[|rounds| - 1]);
    }
    assert |After(ranking, margin, rounds)| == |multiset(After(ranking, margin, rounds))| == |ranking|;
  }

  /** No challenger crosses the line against `head` in any round. */
  ghost predicate NoOneCrosses(ranking: seq<UpstreamId>, head: UpstreamId, margin: real, rounds: seq<Scoring>) {
    forall i, u :: 0 <= i < |rounds| && u in ranking && u != head ==> !Crosses(u, head, margin, rounds[i])
  }

  ghost predicate AlwaysLeads(ranking: seq<UpstreamId>, head: UpstreamId, margin: real, rounds: seq<Scoring>)
    requires ranking != []
  {
    forall k :: 0 <= k <= |rounds| ==> Incumbent(After(ranking, margin, rounds[..k])) == Some(head)
  }

  lemma LeadsOnceMore(ranking: seq<UpstreamId>, head: UpstreamId, margin: real, rounds: seq<Scoring>)
    requires ranking != [] && rounds != []
    ensures AlwaysLeads(ranking, head, margin, rounds) <==>
            AlwaysLeads(ranking, head, margin, rounds[..|rounds| - 1])
            && Incumbent(After(ranking, margin, rounds)) == Some(head)
  {
    hide After, Incumbent;
    var n := |rounds|;
    var init := rounds[..n - 1];
    assert forall k :: 0 <= k <= n - 1 ==> rounds[..k] == init[..k];
    assert rounds[..n] == rounds;
  }

  lemma CrossesNoMore(ranking: seq<UpstreamId>, head: UpstreamId, margin: real, rounds: seq<Scoring>)
    requires rounds != []
    ensures var n := |rounds|;
            NoOneCrosses(ranking, head, margin, rounds) <==>
            NoOneCrosses(ranking, head, margin, rounds[..n - 1])
            && forall u :: u in ranking && u != head ==> !Crosses(u, head, margin, rounds[n - 1])
  {
    hide Crosses;
    var n := |rounds|;
    assert forall i :: 0 <= i < n - 1 ==> rounds[..n - 1][i] == rounds[i];
  }

  /** Over any run of refreshes the head keeps its place throughout exactly when no
      challenger ever crosses the line, however the scores below the line jitter. */
  lemma {:induction false} HeadHolds(ranking: seq<UpstreamId>, margin: real, rounds: seq<Scoring>)
    requires ranking != []
    ensures AlwaysLeads(ranking, ranking[0], margin, rounds) <==> NoOneCrosses(ranking, ranking[0], margin, rounds)
    decreases |rounds|
  {
    var head := ranking[0];
    var n := |rounds|;
    if n == 0 {
      assert rounds[..0] == [];
    } else {
      hide Refreshed, Crosses, AlwaysLeads, NoOneCrosses;
      var init, last := rounds[..n - 1], rounds[n - 1];
      HeadHolds(ranking, margin, init);
      LeadsOnceMore(ranking, head, margin, rounds);
      CrossesNoMore(ranking, head, margin, rounds);
      if AlwaysLeads(ranking, head, margin, init) {
        LeadsSoFar(ranking, head, margin, init);
        RoundKeepsHead(ranking, After(ranking, margin, init), margin, last);
      }
    }
  }

  lemma LeadsSoFar(ranking: seq<UpstreamId>, head: UpstreamId, margin: real, rounds: seq<Scoring>)
    requires ranking != [] && AlwaysLeads(ranking, head, margin, rounds)
    ensures Incumbent(After(ranking, margin, rounds)) == Some(head)
    ensures multiset(After(ranking, margin, rounds)) == multiset(ranking)
  {
    RunKeepsMembers(ranking, margin, rounds);
    assert rounds[..|rounds|] == rounds;
  }

  lemma RoundKeepsHead(ranking: seq<UpstreamId>, before: seq<UpstreamId>, margin: real, scoring: Scoring)
    requires multiset(before) == multiset(ranking) && before != []
    ensures Incumbent(Refreshed(before, margin, scoring)) == Some(before[0]) <==>
            forall u :: u in ranking && u != before[0] ==> !Crosses(u, before[0], margin, scoring)
  {
    hide Refreshed, Crosses;
    assert forall u :: u in ranking <==> u in multiset(before);
    HeadMoves(before, margin, scoring);
  }

  // The two scores

  datatype Policy = LeastLatency(penalty: nat) | LeastErrors
  {
    function Score(minSamples: nat, window: Diff): Option<real> {
      match this
      case LeastLatency(penalty) =>
        if window.Calls() < minSamples then None
        else (var score := window.LatencyScore(penalty); if score.None? then None else Some(score.value as real))
      case LeastErrors =>
        if window.Answered() < minSamples then None else Some(window.ErrorRate())
    }
  }

  type Snapshots = map<UpstreamId, Snapshot>

  /** An upstream missing from either end of the window is unscored. */
  function ScoringOf(policy: Policy, minSamples: nat, now: Snapshots, base: Snapshots): Scoring {
    u => if u in now && u in base then policy.Score(minSamples, DiffOf(now[u], base[u])) else None
  }

  /** The snapshots an observer holds after a log. */
  function SnapshotsAfter(log: seq<Record>, fleet: set<UpstreamId>): Snapshots {
    map u | u in fleet :: SnapshotOf(log, u)
  }

  /** What a latency refresh ranks by: the mean cost of the attempts in the window, for an
      upstream the observer tracks and with enough of them. */
  lemma LatencyScoring(base: seq<Record>, window: seq<Record>, fleet: set<UpstreamId>, penalty: nat,
      minSamples: nat, u: UpstreamId)
    ensures var n := Total(window, AttemptsOn(u));
            var now, was := SnapshotsAfter(base + window, fleet), SnapshotsAfter(base, fleet);
            ScoringOf(LeastLatency(penalty), minSamples, now, was)(u) ==
            if u !in fleet || n < minSamples || n == 0 then None
            else Some((Total(window, Costs(u, penalty)) / n) as real)
  {
    hide Total, SnapshotOf;
    ScoreIsTheMeanCost(base, window, u, penalty);
  }

  function Errors(log: seq<Record>, u: UpstreamId): nat {
    Total(log, Outcomes(u, Kind.Unreachable)) + Total(log, Outcomes(u, Kind.ReadFailed))
    + Total(log, Outcomes(u, Kind.ErrorStatus)) + Total(log, Outcomes(u, Kind.RpcError))
  }

  lemma AnsweredCounts(base: seq<Record>, window: seq<Record>, u: UpstreamId)
    ensures var d := DiffOf(SnapshotOf(base + window, u), SnapshotOf(base, u));
            && d.Error() == Errors(window, u)
            && d.Answered() == Total(window, AttemptsOn(u)) - Total(window, Outcomes(u, Kind.Abandoned))
  {
    hide Total, SnapshotOf;
    DiffCounts(base, window, u);
    OutcomesPartition(window, u);
  }

  function Rate(errors: nat, answered: nat): real {
    if answered == 0 then 0.0 else errors as real / answered as real
  }

  /** What an error refresh ranks by: the share of errors among the attempts in the window
      that came to an answer or an error, so not the abandoned ones. */
  lemma ErrorScoring(base: seq<Record>, window: seq<Record>, fleet: set<UpstreamId>, minSamples: nat, u: UpstreamId)
    ensures var answered := Total(window, AttemptsOn(u)) - Total(window, Outcomes(u, Kind.Abandoned));
            var now, was := SnapshotsAfter(base + window, fleet), SnapshotsAfter(base, fleet);
            && answered >= 0
            && ScoringOf(LeastErrors, minSamples, now, was)(u) ==
               if u !in fleet || answered < minSamples then None else Some(Rate(Errors(window, u), answered))
  {
    hide Total, SnapshotOf, DiffOf, Errors;
    AnsweredCounts(base, window, u);
  }

  // Refreshes over a history of snapshots

  /** What refresh `k` ranks by, the window holding the last `min(k, ticks)` snapshots. */
  function RoundScoring(policy: Policy, minSamples: nat, ticks: nat, history: seq<Snapshots>, k: nat): Scoring
    requires 0 < k < |history|
  {
    ScoringOf(policy, minSamples, history[k], history[k - Held(k, ticks)])
  }

  /** The refreshes that take the snapshots of the history, from one on. */
  function Rounds(policy: Policy, minSamples: nat, ticks: nat, history: seq<Snapshots>, from: nat)
    : (rounds: seq<Scoring>)
    requires 0 < from <= |history|
    ensures |rounds| == |history| - from
  {
    var n := |history| - 1;
    if from > n then []
    else
      Rounds(policy, minSamples, ticks, history[..n], from) + [RoundScoring(policy, minSamples, ticks, history, n)]
  }

  lemma NoRounds(ranking: seq<UpstreamId>, margin: real, policy: Policy, minSamples: nat, ticks: nat,
      history: seq<Snapshots>)
    requires history != []
    ensures After(ranking, margin, Rounds(policy, minSamples, ticks, history, |history|)) == ranking
  {
  }

  lemma RoundsPush(policy: Policy, minSamples: nat, ticks: nat, history: seq<Snapshots>, from: nat, now: Snapshots)
    requires 0 < from <= |history|
    ensures Rounds(policy, minSamples, ticks, history + [now], from) ==
            Rounds(policy, minSamples, ticks, history, from)
            + [ScoringOf(policy, minSamples, now, history[|history| - Held(|history|, ticks)])]
  {
    assert (history + [now])[..|history|] == history;
  }

  lemma {:induction false} RoundAt(policy: Policy, minSamples: nat, ticks: nat, history: seq<Snapshots>, from: nat,
      k: nat)
    requires 0 < from <= k < |history|
    ensures Rounds(policy, minSamples, ticks, history, from)[k - from] ==
            RoundScoring(policy, minSamples, ticks, history, k)
  {
    var n := |history| - 1;
    if k < n {
      RoundAt(policy, minSamples, ticks, history[..n], from, k);
    }
  }

  /** The score of an upstream over the records of a window. */
  function WindowScore(policy: Policy, minSamples: nat, fleet: set<UpstreamId>, window: seq<Record>, u: UpstreamId)
    : Option<real>
  {
    var calls := Total(window, AttemptsOn(u));
    var answered := Minus(calls, Total(window, Outcomes(u, Kind.Abandoned)));
    if u !in fleet then None
    else
      match policy
      case LeastLatency(penalty) =>
        if calls < minSamples || calls == 0 then None else Some((Total(window, Costs(u, penalty)) / calls) as real)
      case LeastErrors =>
        if answered < minSamples then None else Some(Rate(Errors(window, u), answered))
  }

  lemma ScoresTheWindow(policy: Policy, minSamples: nat, fleet: set<UpstreamId>, base: seq<Record>, window: seq<Record>,
      u: UpstreamId)
    ensures ScoringOf(policy, minSamples, SnapshotsAfter(base + window, fleet), SnapshotsAfter(base, fleet))(u) ==
            WindowScore(policy, minSamples, fleet, window, u)
  {
    hide Total, Errors, Rate, ScoringOf, SnapshotsAfter;
    match policy
    case LeastLatency(penalty) => LatencyScoring(base, window, fleet, penalty, minSamples, u);
    case LeastErrors => ErrorScoring(base, window, fleet, minSamples, u);
  }

  /** The log at each tick; a log only grows. */
  ghost predicate GrowingLogs(logs: seq<seq<Record>>) {
    forall i, j :: 0 <= i <= j < |logs| ==> logs[i] <= logs[j]
  }

  /** The records refresh `k` looks at: those of the last `min(k, ticks)` ticks. */
  function WindowAt(logs: seq<seq<Record>>, ticks: nat, k: nat): seq<Record>
    requires 0 < k < |logs| && |logs[k - Held(k, ticks)]| <= |logs[k]|
  {
    logs[k][|logs[k - Held(k, ticks)]|..]
  }

  function SnapshotsAt(logs: seq<seq<Record>>, fleet: set<UpstreamId>): seq<Snapshots> {
    seq(|logs|, i requires 0 <= i < |logs| => SnapshotsAfter(logs[i], fleet))
  }

  /** In the records of a window a challenger's score beats the incumbent's by more than
      the margin, or stands against none. */
  predicate CrossesIn(challenger: UpstreamId, incumbent: UpstreamId, margin: real, policy: Policy, minSamples: nat,
      fleet: set<UpstreamId>, window: seq<Record>)
  {
    var c, i := WindowScore(policy, minSamples, fleet, window, challenger),
                WindowScore(policy, minSamples, fleet, window, incumbent);
    c.Some? && (i.None? || c.value < i.value * (1.0 - margin))
  }

  lemma RoundCrosses(challenger: UpstreamId, incumbent: UpstreamId, margin: real, policy: Policy, minSamples: nat,
      fleet: set<UpstreamId>, logs: seq<seq<Record>>, ticks: nat, k: nat)
    requires GrowingLogs(logs) && 0 < k < |logs|
    ensures logs[k - Held(k, ticks)] <= logs[k]
    ensures Crosses(challenger, incumbent, margin,
                    RoundScoring(policy, minSamples, ticks, SnapshotsAt(logs, fleet), k))
            <==> CrossesIn(challenger, incumbent, margin, policy, minSamples, fleet, WindowAt(logs, ticks, k))
  {
    hide WindowScore, ScoringOf, SnapshotsAfter;
    var base, window := logs[k - Held(k, ticks)], WindowAt(logs, ticks, k);
    assert logs[k] == base + window;
    ScoresTheWindow(policy, minSamples, fleet, base, window, challenger);
    ScoresTheWindow(policy, minSamples, fleet, base, window, incumbent);
  }

  ghost predicate NoOneCrossesIn(ranking: seq<UpstreamId>, head: UpstreamId, margin: real, policy: Policy,
      minSamples: nat, fleet: set<UpstreamId>, logs: seq<seq<Record>>, ticks: nat)
    requires GrowingLogs(logs)
  {
    forall k: nat, u :: 0 < k < |logs| && u in ranking && u != head ==>
      !CrossesIn(u, head, margin, policy, minSamples, fleet, WindowAt(logs, ticks, k))
  }

  lemma RoundDecides(challenger: UpstreamId, head: UpstreamId, margin: real, policy: Policy, minSamples: nat,
      fleet: set<UpstreamId>, logs: seq<seq<Record>>, ticks: nat, k: nat)
    requires GrowingLogs(logs) && 0 < k < |logs|
    ensures var rounds := Rounds(policy, minSamples, ticks, SnapshotsAt(logs, fleet), 1);
            |rounds| == |logs| - 1
            && (Crosses(challenger, head, margin, rounds[k - 1]) <==>
                CrossesIn(challenger, head, margin, policy, minSamples, fleet, WindowAt(logs, ticks, k)))
  {
    hide Crosses, CrossesIn, WindowAt, Rounds, RoundScoring;
    RoundCrosses(challenger, head, margin, policy, minSamples, fleet, logs, ticks, k);
    RoundAt(policy, minSamples, ticks, SnapshotsAt(logs, fleet), 1, k);
  }

  /** Over any history of ticks, each refresh looking at the records of the last
      `min(k, ticks)` of them: the head keeps its place throughout exactly when in no
      window a challenger crosses the line against it. */
  lemma HeadHoldsOverLogs(ranking: seq<UpstreamId>, margin: real, policy: Policy, minSamples: nat,
      fleet: set<UpstreamId>, logs: seq<seq<Record>>, ticks: nat)
    requires ranking != [] && logs != [] && GrowingLogs(logs)
    ensures var rounds := Rounds(policy, minSamples, ticks, SnapshotsAt(logs, fleet), 1);
            AlwaysLeads(ranking, ranking[0], margin, rounds) <==>
            NoOneCrossesIn(ranking, ranking[0], margin, policy, minSamples, fleet, logs, ticks)
  {
    hide Crosses, CrossesIn, AlwaysLeads, Rounds, WindowAt;
    var head := ranking[0];
    var rounds := Rounds(policy, minSamples, ticks, SnapshotsAt(logs, fleet), 1);
    HeadHolds(ranking, margin, rounds);
    if NoOneCrosses(ranking, head, margin, rounds) {
      forall k: nat, u | 0 < k < |logs| && u in ranking && u != head
        ensures !CrossesIn(u, head, margin, policy, minSamples, fleet, WindowAt(logs, ticks, k))
      {
        RoundDecides(u, head, margin, policy, minSamples, fleet, logs, ticks, k);
        var i := k - 1;
        assert !Crosses(u, head, margin, rounds[i]);
      }
    }
    if NoOneCrossesIn(ranking, head, margin, policy, minSamples, fleet, logs, ticks) {
      forall i, u | 0 <= i < |rounds| && u in ranking && u != head ensures !Crosses(u, head, margin, rounds[i]) {
        var k := i + 1;
        assert !CrossesIn(u, head, margin, policy, minSamples, fleet, WindowAt(logs, ticks, k));
        RoundDecides(u, head, margin, policy, minSamples, fleet, logs, ticks, k);
      }
    }
  }

  /** Error rates compare as fractions: by cross-multiplication. */
  lemma RatesCompareExactly(a: Diff, b: Diff)
    requires a.Answered() > 0 && b.Answered() > 0
    ensures a.ErrorRate() <= b.ErrorRate() <==> a.Error() * b.Answered() <= b.Error() * a.Answered()
  {
    FractionsCompare(a.Error(), a.Answered(), b.Error(), b.Answered());
  }

  lemma FractionsCompare(a: nat, m: nat, b: nat, n: nat)
    requires m > 0 && n > 0
    ensures a as real / m as real <= b as real / n as real <==> a * n <= b * m
  {
    var x, y, p := a as real / m as real, b as real / n as real, m as real * n as real;
    assert (a * n) as real == x * p by { assert x * m as real == a as real; }
    assert (b * m) as real == y * p by { assert y * n as real == b as real; }
    ScalingKeepsOrder(x, y, p);
  }

  lemma ScalingKeepsOrder(x: real, y: real, p: real)
    requires p > 0.0
    ensures x <= y <==> x * p <= y * p
  {
  }

  // The background refresher, and the ranking it shares with its decider

  class Standing {
    var upstreams: seq<UpstreamId>

    constructor (upstreams: seq<UpstreamId>)
      ensures this.upstreams == upstreams
    {
      this.upstreams := upstreams;
    }
  }

  class Refresher {
    const standing: Standing
    const window: Window<Snapshots>
    const policy: Policy
    const minSamples: nat
    const margin: real

    constructor (standing: Standing, window: Window<Snapshots>, policy: Policy, minSamples: nat, margin: real)
      ensures this.standing == standing && this.window == window && this.policy == policy
      ensures this.minSamples == minSamples && this.margin == margin
    {
      this.standing, this.window, this.policy := standing, window, policy;
      this.minSamples, this.margin := minSamples, margin;
    }

    /** Scores the window that ends now, ranks by it, and slides the window on. */
    method Refresh(current: Snapshots)
      requires window.Valid()
      modifies standing, window
      ensures window.Valid() && window.history == old(window.history) + [current]
      ensures standing.upstreams ==
              Refreshed(old(standing.upstreams), margin, ScoringOf(policy, minSamples, current, old(window.Oldest())))
      ensures multiset(standing.upstreams) == multiset(old(standing.upstreams))
      ensures old(standing.upstreams) != [] ==>
              var scoring := ScoringOf(policy, minSamples, current, old(window.Oldest()));
              var head := old(standing.upstreams)[0];
              standing.upstreams[0] != head <==>
              exists u :: u in old(standing.upstreams) && u != head && Crosses(u, head, margin, scoring)
    {
      hide Tied, KeyOf, Crosses, StableSort, Scored, IdsOf;
      var ranking := standing.upstreams;
      var scoring := ScoringOf(policy, minSamples, current, window.Oldest());
      RefreshRearranges(ranking, margin, scoring);
      if ranking != [] { HeadMoves(ranking, margin, scoring); }
      var scored := Scored(ranking, Incumbent(ranking), margin, scoring);
      scored := StableSort(scored);
      standing.upstreams := IdsOf(scored);
      window.Advance(current);
    }

    /** The refreshes of the ticks that come before shutdown, `currents` what the observer
        shows at each. */
    method Run(currents: seq<Snapshots>)
      requires window.Valid()
      modifies standing, window
      ensures window.Valid() && window.history == old(window.history) + currents
      ensures standing.upstreams ==
              After(old(standing.upstreams), margin,
                    Rounds(policy, minSamples, window.ticks, old(window.history) + currents, |old(window.history)|))
    {
      hide Refreshed, Crosses, Rounds, After, ScoringOf;
      NoRounds(standing.upstreams, margin, policy, minSamples, window.ticks, window.history);
      assert window.history + currents[..0] == window.history;
      ghost var was, seen := standing.upstreams, window.history;
      for i := 0 to |currents|
        invariant window.Valid() && window.history == seen + currents[..i]
        invariant standing.upstreams ==
                  After(was, margin, Rounds(policy, minSamples, window.ticks, seen + currents[..i], |seen|))
      {
        RoundsPush(policy, minSamples, window.ticks, seen + currents[..i], |seen|, currents[i]);
        assert (seen + currents[..i]) + [currents[i]] == seen + currents[..i + 1];
        AfterPush(was, margin, Rounds(policy, minSamples, window.ticks, seen + currents[..i], |seen|),
                  ScoringOf(policy, minSamples, currents[i], window.Oldest()));
        Refresh(currents[i]);
      }
      assert currents[..|currents|] == currents;
    }
  }
}
