/**
  The finish banner: players listed by matches, highest first, with a stable sort
  (`players.sort((a, b) => b.matches - a.matches)`), and a crown on the first entry
  only when it beats the second (`player.matches > players[1]?.matches`).
*/
module Ranking {
  import opened Seqs
  import opened GameState

  /** Seat a is listed before seat b: more matches, or as many and an earlier seat. */
  predicate Ahead(ps: seq<Player>, a: nat, b: nat)
    requires a < |ps| && b < |ps|
  {
    ps[a].matches > ps[b].matches || (ps[a].matches == ps[b].matches && a < b)
  }

  /** A listing of seats in which every seat is ahead of all seats listed after it. */
  ghost predicate Ordered(ps: seq<Player>, order: seq<nat>) {
    && Below(order, |ps|)
    && forall i, j :: 0 <= i < j < |order| ==> Ahead(ps, order[i], order[j])
  }

  /** The seats 0 .. n-1 in seat order. */
  function Seats(n: nat): (r: seq<nat>)
    ensures |r| == n
    ensures forall i :: 0 <= i < n ==> r[i] == i
  {
    seq(n, i => i)
  }

  /** Seat x is ahead of every seat in the listing. */
  ghost predicate AheadOfAll(ps: seq<Player>, x: nat, order: seq<nat>) {
    x < |ps| && forall y :: y in order ==> y < |ps| && Ahead(ps, x, y)
  }

  /** A seat ahead of an ordered listing can go in front of it. */
  lemma PrependOrdered(ps: seq<Player>, x: nat, order: seq<nat>)
    requires Ordered(ps, order) && AheadOfAll(ps, x, order)
    ensures Ordered(ps, [x] + order)
  {
    var r := [x] + order;
    forall i, j | 0 <= i < j < |r|
      ensures Ahead(ps, r[i], r[j])
    {
      if i == 0 {
        assert r[j] in order;
      } else {
        assert r[i] == order[i - 1] && r[j] == order[j - 1];
      }
    }
  }

  /** The first seat of an ordered listing is ahead of the rest of it. */
  lemma HeadAheadOfTail(ps: seq<Player>, order: seq<nat>)
    requires Ordered(ps, order) && |order| > 0
    ensures AheadOfAll(ps, order[0], order[1..])
  {
    forall y | y in order[1..]
      ensures y < |ps| && Ahead(ps, order[0], y)
    {
      var k :| 0 <= k < |order[1..]| && order[1..][k] == y;
      assert order[k + 1] == y;
    }
  }

  /** A seat ahead of the first seat of an ordered listing is ahead of all of it. */
  lemma AheadOfHead(ps: seq<Player>, a: nat, order: seq<nat>)
    requires Ordered(ps, order) && |order| > 0 && a < |ps| && Ahead(ps, a, order[0])
    ensures AheadOfAll(ps, a, order)
  {
    forall y | y in order
      ensures y < |ps| && Ahead(ps, a, y)
    {
      var k :| 0 <= k < |order| && order[k] == y;
      if k > 0 {
        assert Ahead(ps, order[0], order[k]);
      }
    }
  }

  /** A seat ahead of every seat of a listing and of seat a is ahead of all of them together. */
  lemma AheadOfAllPlusOne(ps: seq<Player>, x: nat, order: seq<nat>, a: nat, both: seq<nat>)
    requires AheadOfAll(ps, x, order) && a < |ps| && Ahead(ps, x, a)
    requires multiset(both) == multiset(order) + multiset{a}
    ensures AheadOfAll(ps, x, both)
  {
    forall y | y in both
      ensures y < |ps| && Ahead(ps, x, y)
    {
      assert y in multiset(both);
      if y != a {
        assert y in multiset(order);
        assert y in order;
      }
    }
  }

  /** Puts seat a into an ordered listing at its place. */
  function Insert(ps: seq<Player>, a: nat, order: seq<nat>): (r: seq<nat>)
    requires a < |ps| && Ordered(ps, order) && a !in order
    ensures multiset(r) == multiset(order) + multiset{a}
    ensures Ordered(ps, r)
  {
    if order == [] then [a]
    else if Ahead(ps, a, order[0]) then
      AheadOfHead(ps, a, order);
      PrependOrdered(ps, a, order);
      [a] + order
    else
      assert order == [order[0]] + order[1..];
      var rest := Insert(ps, a, order[1..]);
      HeadAheadOfTail(ps, order);
      AheadOfAllPlusOne(ps, order[0], order[1..], a, rest);
      PrependOrdered(ps, order[0], rest);
      [order[0]] + rest
  }

  /** Insertion sort of a list of distinct seats into ranking order. */
  function Sort(ps: seq<Player>, seats: seq<nat>): (r: seq<nat>)
    requires Below(seats, |ps|) && Distinct(seats)
    ensures multiset(r) == multiset(seats)
    ensures Ordered(ps, r)
  {
    if seats == [] then []
    else
      var rest := Sort(ps, seats[1..]);
      assert seats[0] !in multiset(seats[1..]);
      assert seats == [seats[0]] + seats[1..];
      Insert(ps, seats[0], rest)
  }

  /**
    The seats in the order the banner lists them: a rearrangement of all seats,
    by matches from most to fewest, and in seat order among equal scores.
  */
  function RankSeats(ps: seq<Player>): (order: seq<nat>)
    ensures multiset(order) == multiset(Seats(|ps|))
    ensures |order| == |ps|
    ensures Below(order, |ps|)
    ensures forall i, j :: 0 <= i < j < |order| ==> ps[order[i]].matches >= ps[order[j]].matches
    ensures forall i, j :: 0 <= i < j < |order| && ps[order[i]].matches == ps[order[j]].matches ==> order[i] < order[j]
  {
    var order := Sort(ps, Seats(|ps|));
    assert |order| == |multiset(order)| == |ps|;
    order
  }

  /** The banner's list of players. */
  function Rank(ps: seq<Player>): (r: seq<Player>)
    ensures |r| == |ps|
    ensures forall i :: 0 <= i < |r| ==> r[i] == ps[RankSeats(ps)[i]]
    ensures forall i, j :: 0 <= i < j < |r| ==> r[i].matches >= r[j].matches
  {
    var order := RankSeats(ps);
    seq(|order|, i requires 0 <= i < |order| => ps[order[i]])
  }

  /**
    What any stable sort by descending matches produces: a rearrangement of the
    seats, scores never rising along the list, and equal scores in seat order.
  */
  ghost predicate StablyRanked(ps: seq<Player>, order: seq<nat>) {
    && multiset(order) == multiset(Seats(|ps|))
    && Below(order, |ps|)
    && (forall i, j :: 0 <= i < j < |order| ==> ps[order[i]].matches >= ps[order[j]].matches)
    && (forall i, j :: 0 <= i < j < |order| && ps[order[i]].matches == ps[order[j]].matches ==> order[i] < order[j])
  }

  /** Two ordered listings of the same seats start with the same seat. */
  lemma OrderedHeadsAgree(ps: seq<Player>, a: seq<nat>, b: seq<nat>)
    requires Ordered(ps, a) && Ordered(ps, b) && multiset(a) == multiset(b) && |a| > 0
    ensures |b| > 0 && a[0] == b[0]
  {
    assert |a| == |multiset(a)| == |b|;
    assert b[0] in multiset(a) && a[0] in multiset(b);
    var i :| 0 <= i < |a| && a[i] == b[0];
    var j :| 0 <= j < |b| && b[j] == a[0];
  }

  /** Dropping the first seat of an ordered listing leaves an ordered listing. */
  lemma OrderedTail(ps: seq<Player>, a: seq<nat>)
    requires Ordered(ps, a) && |a| > 0
    ensures Ordered(ps, a[1..])
  {
    var t := a[1..];
    forall i, j | 0 <= i < j < |t|
      ensures Ahead(ps, t[i], t[j])
    {
      assert t[i] == a[i + 1] && t[j] == a[j + 1];
    }
  }

  /** Two ordered listings of the same seats are the same listing. */
  lemma {:induction false} OrderedUnique(ps: seq<Player>, a: seq<nat>, b: seq<nat>)
    requires Ordered(ps, a) && Ordered(ps, b) && multiset(a) == multiset(b)
    ensures a == b
    decreases |a|
  {
    assert |a| == |multiset(a)| == |b|;
    if |a| > 0 {
      OrderedHeadsAgree(ps, a, b);
      OrderedTail(ps, a);
      OrderedTail(ps, b);
      DropFirst(a);
      DropFirst(b);
      OrderedUnique(ps, a[1..], b[1..]);
      assert a == [a[0]] + a[1..] && b == [b[0]] + b[1..];
    }
  }

  /** Whatever stable descending sort the browser runs, the banner lists the seats as RankSeats does. */
  lemma AnyStableSortAgrees(ps: seq<Player>, order: seq<nat>)
    requires StablyRanked(ps, order)
    ensures order == RankSeats(ps)
  {
    assert Ordered(ps, order) by {
      forall i, j | 0 <= i < j < |order|
        ensures Ahead(ps, order[i], order[j])
      {
      }
    }
    assert Ordered(ps, RankSeats(ps)) by {
      var r := RankSeats(ps);
      forall i, j | 0 <= i < j < |r|
        ensures Ahead(ps, r[i], r[j])
      {
      }
    }
    OrderedUnique(ps, order, RankSeats(ps));
  }

  /** The first entry of the banner carries the crown. */
  predicate Crowned(ps: seq<Player>) {
    var r := Rank(ps);
    |r| >= 2 && r[0].matches > r[1].matches
  }

  /** Seat w has strictly more matches than every other seat. */
  ghost predicate SoleLeader(ps: seq<Player>, w: nat) {
    w < |ps| && forall j :: 0 <= j < |ps| && j != w ==> ps[j].matches < ps[w].matches
  }

  /** Every seat appears in the ranking, and no seat twice. */
  lemma RankSeatsCoversSeats(ps: seq<Player>)
    ensures forall x :: 0 <= x < |ps| ==> x in RankSeats(ps)
    ensures Distinct(RankSeats(ps))
  {
    var order := RankSeats(ps);
    forall x | 0 <= x < |ps|
      ensures x in order
    {
      assert Seats(|ps|)[x] == x;
      assert x in multiset(Seats(|ps|));
    }
  }

  /**
    The crown is shown exactly when there are at least two players and one of them
    has strictly more matches than all others; it then goes to that player.
  */
  lemma CrownIffSoleLeader(ps: seq<Player>)
    ensures Crowned(ps) <==> |ps| >= 2 && exists w: nat :: SoleLeader(ps, w)
    ensures forall w: nat :: SoleLeader(ps, w) && |ps| >= 2 ==> Rank(ps)[0] == ps[w]
  {
    var order := RankSeats(ps);
    var r := Rank(ps);
    RankSeatsCoversSeats(ps);
    if Crowned(ps) {
      var w := order[0];
      forall j | 0 <= j < |ps| && j != w
        ensures ps[j].matches < ps[w].matches
      {
        assert j in order;
        var k :| 0 <= k < |order| && order[k] == j;
        assert k != 0;
        assert r[1].matches >= r[k].matches || k == 1;
      }
      assert SoleLeader(ps, w);
    }
    forall w: nat | SoleLeader(ps, w) && |ps| >= 2
      ensures Rank(ps)[0] == ps[w] && Crowned(ps)
    {
      assert w in order;
      var k :| 0 <= k < |order| && order[k] == w;
      assert order[1] != w;
    }
  }
}
