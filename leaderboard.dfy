/** The results screen's leaderboard: the roster copied and sorted by
    descending score with a stable sort, so that equal scores keep their
    roster order. The sort is computed on seat indices, which makes "keeps
    roster order" a statement about positions rather than about values (two
    seats may hold equal records: names are not unique and colours repeat
    after a removal). */
module Leaderboard {
  import opened Catalog
  import opened Roster

  /** Seat `a` is listed before seat `b`: a higher score, or the same score
      and an earlier seat. This is the order a stable sort with the
      comparator `(a, b) => b.score - a.score` produces. */
  predicate Ahead(ps: seq<Player>, a: nat, b: nat)
    requires a < |ps| && b < |ps|
  {
    ps[a].score > ps[b].score || (ps[a].score == ps[b].score && a < b)
  }

  /** Every entry of `order` is a seat of `ps`. */
  predicate Seats(ps: seq<Player>, order: seq<nat>) {
    forall i :: 0 <= i < |order| ==> order[i] < |ps|
  }

  /** `order` lists seats of `ps`, each strictly ahead of all later ones. */
  ghost predicate Ranked(ps: seq<Player>, order: seq<nat>) {
    Seats(ps, order) &&
    (forall i, j :: 0 <= i < j < |order| ==> Ahead(ps, order[i], order[j]))
  }

  /** The players at the seats `order` names, in that order. */
  function Pick(ps: seq<Player>, order: seq<nat>): (r: seq<Player>)
    requires Seats(ps, order)
    ensures |r| == |order|
    ensures forall i :: 0 <= i < |order| ==> r[i] == ps[order[i]]
  {
    if order == [] then [] else [ps[order[0]]] + Pick(ps, order[1..])
  }

  /** A seat ahead of every seat of a ranked list heads a ranked list. */
  lemma ConsRanked(ps: seq<Player>, x: nat, order: seq<nat>)
    requires x < |ps| && Ranked(ps, order)
    requires forall y :: y in order ==> Ahead(ps, x, y)
    ensures Ranked(ps, [x] + order)
  {
    var r := [x] + order;
    forall i, j | 0 <= i < j < |r|
      ensures Ahead(ps, r[i], r[j])
    {
      if i > 0 {
        assert r[i] == order[i - 1] && r[j] == order[j - 1];
      } else {
        assert r[j] in order;
      }
    }
  }

  /** Places seat `k` in front of the first seat of `order` it is ahead of:
      one step of insertion sort. */
  function Insert(ps: seq<Player>, k: nat, order: seq<nat>): (r: seq<nat>)
    requires k < |ps| && Seats(ps, order)
    ensures |r| == |order| + 1 && Seats(ps, r)
    ensures forall x :: x in r <==> x == k || x in order
  {
    if order == [] then [k]
    else if Ahead(ps, k, order[0]) then [k] + order
    else [order[0]] + Insert(ps, k, order[1..])
  }

  /** Inserting a new seat into a ranked list keeps it ranked. */
  lemma {:induction false} InsertKeepsRanked(ps: seq<Player>, k: nat, order: seq<nat>)
    requires k < |ps| && k !in order && Ranked(ps, order)
    ensures Ranked(ps, Insert(ps, k, order))
  {
    if order == [] {
    } else if Ahead(ps, k, order[0]) {
      assert forall x :: x in order ==> Ahead(ps, k, x);
      ConsRanked(ps, k, order);
    } else {
      var rest := Insert(ps, k, order[1..]);
      InsertKeepsRanked(ps, k, order[1..]);
      assert forall x :: x in order[1..] ==> Ahead(ps, order[0], x);
      assert forall x :: x in rest ==> Ahead(ps, order[0], x);
      ConsRanked(ps, order[0], rest);
    }
  }

  /** Inserting seat `k` adds exactly player `ps[k]` to the players listed. */
  lemma {:induction false} InsertAddsOnePlayer(ps: seq<Player>, k: nat, order: seq<nat>)
    requires k < |ps| && Seats(ps, order)
    ensures multiset(Pick(ps, Insert(ps, k, order))) == multiset{ps[k]} + multiset(Pick(ps, order))
  {
    if order != [] && !Ahead(ps, k, order[0]) {
      var rest := Insert(ps, k, order[1..]);
      InsertAddsOnePlayer(ps, k, order[1..]);
      assert ([order[0]] + rest)[1..] == rest;
    }
  }

  /** The seats `k`, ..., `|ps| - 1`, sorted by insertion. */
  function Ranking(ps: seq<Player>, k: nat): (r: seq<nat>)
    requires k <= |ps|
    ensures |r| == |ps| - k && Seats(ps, r)
    ensures forall x :: x in r <==> k <= x < |ps|
    decreases |ps| - k
  {
    if k == |ps| then [] else Insert(ps, k, Ranking(ps, k + 1))
  }

  /** The insertion sort yields a ranking. */
  lemma {:induction false} RankingIsRanked(ps: seq<Player>, k: nat)
    requires k <= |ps|
    ensures Ranked(ps, Ranking(ps, k))
    decreases |ps| - k
  {
    if k < |ps| {
      RankingIsRanked(ps, k + 1);
      InsertKeepsRanked(ps, k, Ranking(ps, k + 1));
    }
  }

  /** The ranking of seats `k`, ..., `|ps| - 1` lists exactly the players
      seated there. */
  lemma {:induction false} RankingKeepsPlayers(ps: seq<Player>, k: nat)
    requires k <= |ps|
    ensures multiset(Pick(ps, Ranking(ps, k))) == multiset(ps[k..])
    decreases |ps| - k
  {
    if k < |ps| {
      var tail := Ranking(ps, k + 1);
      calc {
        multiset(Pick(ps, Ranking(ps, k)));
        { InsertAddsOnePlayer(ps, k, tail); }
        multiset{ps[k]} + multiset(Pick(ps, tail));
        { RankingKeepsPlayers(ps, k + 1); }
        multiset{ps[k]} + multiset(ps[k + 1..]);
        { assert ps[k..] == [ps[k]] + ps[k + 1..]; }
        multiset(ps[k..]);
      }
    } else {
      assert ps[k..] == [];
    }
  }

  /** `getSortedPlayers`: the leaderboard shown on the results screen. */
  function SortedPlayers(ps: seq<Player>): seq<Player>
  {
    Pick(ps, Ranking(ps, 0))
  }

  /** The leaderboard is a rearrangement of the roster, by non-increasing
      score, in which players with equal scores keep their roster order. */
  lemma SortedPlayersSpec(ps: seq<Player>)
    ensures var r, order := SortedPlayers(ps), Ranking(ps, 0);
      multiset(r) == multiset(ps) &&
      |order| == |ps| &&
      (forall i :: 0 <= i < |r| ==> order[i] < |ps| && r[i] == ps[order[i]]) &&
      (forall i, j :: 0 <= i < j < |r| ==> r[i].score >= r[j].score) &&
      (forall i, j :: 0 <= i < j < |r| && r[i].score == r[j].score ==> order[i] < order[j])
  {
    var order := Ranking(ps, 0);
    RankingKeepsPlayers(ps, 0);
    RankingIsRanked(ps, 0);
    assert ps[0..] == ps;
    forall i, j | 0 <= i < j < |order|
      ensures ps[order[i]].score >= ps[order[j]].score
      ensures ps[order[i]].score == ps[order[j]].score ==> order[i] < order[j]
    {
      assert Ahead(ps, order[i], order[j]);
    }
  }

  /** Two rankings of the same seats are the same list: whatever stable sort
      algorithm the runtime uses, the leaderboard is determined. */
  lemma {:induction false} RankedUnique(ps: seq<Player>, a: seq<nat>, b: seq<nat>)
    requires Ranked(ps, a) && Ranked(ps, b)
    requires forall x :: x in a <==> x in b
    ensures a == b
  {
    if a != [] {
      assert a[0] in b;
    }
    if b != [] {
      assert b[0] in a;
    }
    if a != [] && b != [] {
      if a[0] != b[0] {
        assert false;
      }
      forall x ensures x in a[1..] <==> x in b[1..] {
        if x in a[1..] {
          var i :| 1 <= i < |a| && a[i] == x;
          assert Ahead(ps, a[0], a[i]);
          assert x in b;
        }
        if x in b[1..] {
          var j :| 1 <= j < |b| && b[j] == x;
          assert Ahead(ps, b[0], b[j]);
          assert x in a;
        }
      }
      RankedUnique(ps, a[1..], b[1..]);
    }
  }

  /** Any ranking of every seat is the one the leaderboard uses. */
  lemma RankingIsTheStableSort(ps: seq<Player>, order: seq<nat>)
    requires Ranked(ps, order)
    requires forall x :: x in order <==> 0 <= x < |ps|
    ensures order == Ranking(ps, 0)
  {
    RankingIsRanked(ps, 0);
    RankedUnique(ps, order, Ranking(ps, 0));
  }

  /** Two players who finish level stay in roster order: Alice, seated
      first, is listed first. */
  lemma TieKeepsRosterOrder()
    ensures var alice, bob := Player("Alice", 1, Red), Player("Bob", 1, Blue);
      SortedPlayers([alice, bob]) == [alice, bob]
  {
    var alice, bob := Player("Alice", 1, Red), Player("Bob", 1, Blue);
    var ps := [alice, bob];
    var order := Ranking(ps, 0);
    assert 0 in order && 1 in order;
    assert Ahead(ps, 0, 1);
    assert order == [0, 1];
  }
}
