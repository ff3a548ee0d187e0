/**
  The turn engine: `handleCardClick` and the deferred mismatch callback it
  schedules with `setTimeout`.
*/
module Turns {
  import opened Seqs
  import opened GameState

  /**
    The mismatch callback as scheduled: the values it closed over at click time,
    `currentPlayerIndex` and `players.length`. Nothing ever cancels it.
  */
  datatype Timeout = Timeout(turn: nat, seats: nat)

  /** What a click leaves behind: the new state and, on a mismatch, the scheduled callback. */
  datatype Click = Click(state: State, timeout: Option<Timeout>)

  /** The click guard: two cards already face up, or the card already flipped or matched. */
  predicate Blocked(s: State, id: nat) {
    |s.flipped| == 2 || id in s.flipped || id in s.matched
  }

  /** Two flipped cards whose symbols differ: the callback is still to fire. */
  predicate MismatchPending(s: State)
    requires Below(s.flipped, |s.cards|)
  {
    |s.flipped| == 2 && Content(s, s.flipped[0]) != Content(s, s.flipped[1])
  }

  /** One more match for the player in seat i, every other seat untouched. */
  function Credit(ps: seq<Player>, i: nat): (r: seq<Player>)
    requires i < |ps|
    ensures |r| == |ps|
    ensures r[i] == Player(ps[i].name, ps[i].matches + 1)
    ensures forall j :: 0 <= j < |ps| && j != i ==> r[j] == ps[j]
    ensures Score(r) == Score(ps) + 1
  {
    if i == 0 then [Player(ps[0].name, ps[0].matches + 1)] + ps[1..]
    else
      var tail := Credit(ps[1..], i - 1);
      assert ([ps[0]] + tail)[1..] == tail;
      [ps[0]] + tail
  }

  /** A flipped and a matched list that together never repeat a position fit in the deck. */
  lemma RoomForPair(s: State, id: nat)
    requires Valid(s) && id < |s.cards| && !Blocked(s, id)
    ensures |s.matched| + |s.flipped| + 1 <= |s.cards|
  {
    var both := s.matched + s.flipped + [id];
    assert Distinct(both) by {
      forall i, j | 0 <= i < j < |both|
        ensures both[i] != both[j]
      {
        if j < |s.matched| {
        } else if i >= |s.matched| {
        } else {
          assert both[i] in s.matched;
        }
      }
    }
    assert Below(both, |s.cards|);
    DistinctBelowBound(both, |s.cards|);
  }

  /** Appending a genuine pair of unmatched positions keeps `matched` a repeat-free list of pairs. */
  lemma AppendPair(cards: seq<Card>, matched: seq<nat>, a: nat, b: nat)
    requires Below(matched, |cards|) && Distinct(matched) && |matched| % 2 == 0
    requires forall k :: 0 <= k < |matched| ==> cards[matched[k]].content == cards[matched[Partner(k)]].content
    requires a < |cards| && b < |cards| && a != b && a !in matched && b !in matched
    requires cards[a].content == cards[b].content
    ensures var m := matched + [a, b];
      && Below(m, |cards|) && Distinct(m) && |m| % 2 == 0
      && forall k :: 0 <= k < |m| ==> cards[m[k]].content == cards[m[Partner(k)]].content
  {
    var m := matched + [a, b];
    forall k | 0 <= k < |m|
      ensures Partner(k) < |m| && cards[m[k]].content == cards[m[Partner(k)]].content
    {
      if k < |matched| {
        assert Partner(k) < |matched|;
      }
    }
  }

  /** The second card completes a pair with the first: credit it and move both to `matched`. */
  function PairFound(s: State, id: nat): (r: State)
    requires Valid(s) && Seated(s) && id < |s.cards| && !Blocked(s, id)
    requires |s.flipped| == 1 && Content(s, s.flipped[0]) == Content(s, id)
    ensures Valid(r) && Seated(r)
    ensures r.flipped == [] && r.matched == s.matched + [s.flipped[0], id]
    ensures r.moves == s.moves + 1
    ensures r.players == Credit(s.players, s.currentPlayer)
    ensures |r.players| == |s.players|
    ensures r.players[s.currentPlayer] == Player(s.players[s.currentPlayer].name, s.players[s.currentPlayer].matches + 1)
    ensures forall j :: 0 <= j < |s.players| && j != s.currentPlayer ==> r.players[j] == s.players[j]
    ensures r.isWinner <==> |r.matched| == |s.cards|
    ensures r.cards == s.cards && r.names == s.names && r.phase == s.phase
    ensures r.numPlayers == s.numPlayers && r.difficulty == s.difficulty
    ensures r.currentPlayer == s.currentPlayer
  {
    RoomForPair(s, id);
    var first := s.flipped[0];
    AppendPair(s.cards, s.matched, first, id);
    s.(
      players := Credit(s.players, s.currentPlayer),
      matched := s.matched + [first, id],
      flipped := [],
      moves := s.moves + 1,
      isWinner := if |s.matched| + 2 == |s.cards| then true else s.isWinner)
  }

  /** The second card differs from the first: both stay face up and the move is counted. */
  function PairMissed(s: State, id: nat): (r: State)
    requires Valid(s) && Seated(s) && id < |s.cards| && !Blocked(s, id)
    requires |s.flipped| == 1 && Content(s, s.flipped[0]) != Content(s, id)
    ensures Valid(r) && Seated(r) && MismatchPending(r)
    ensures r.flipped == s.flipped + [id] && r.moves == s.moves + 1
    ensures r.matched == s.matched && r.players == s.players && r.isWinner == s.isWinner
    ensures r.cards == s.cards && r.names == s.names && r.phase == s.phase
    ensures r.numPlayers == s.numPlayers && r.difficulty == s.difficulty
    ensures r.currentPlayer == s.currentPlayer
  {
    s.(flipped := s.flipped + [id], moves := s.moves + 1)
  }

  /**
    `handleCardClick(id)`. A blocked click changes nothing. Otherwise the card joins
    `flipped`; on the first card of a pair that is all. On the second card the move
    counter goes up by one, and then either the pair matches, is credited to the
    player in turn and moves to `matched` (and the round is won once `matched`
    covers the deck), or it stays face up and the mismatch callback is scheduled
    with the current seat and player count. The round invariant is kept.
  */
  function CardClick(s: State, id: nat): (r: Click)
    requires Valid(s) && Seated(s) && id < |s.cards|
    ensures Valid(r.state) && Seated(r.state)
    ensures s.matched <= r.state.matched
    ensures Blocked(s, id) ==> r == Click(s, None)
    // whatever the click does, these never change
    ensures r.state.cards == s.cards && r.state.names == s.names && r.state.phase == s.phase
    ensures r.state.numPlayers == s.numPlayers && r.state.difficulty == s.difficulty
    ensures |r.state.players| == |s.players| && r.state.currentPlayer == s.currentPlayer
    // first card of a pair: flipped, no move counted
    ensures !Blocked(s, id) && |s.flipped| == 0 ==>
      r.state == s.(flipped := [id]) && r.timeout == None
    // second card of a pair: exactly one move
    ensures !Blocked(s, id) && |s.flipped| == 1 ==> r.state.moves == s.moves + 1
    ensures r.state.moves != s.moves ==> !Blocked(s, id) && |s.flipped| == 1
    // a matching pair
    ensures !Blocked(s, id) && |s.flipped| == 1 && Content(s, s.flipped[0]) == Content(s, id) ==>
      && r.timeout == None
      && r.state.flipped == []
      && r.state.matched == s.matched + [s.flipped[0], id]
      && r.state.players == Credit(s.players, s.currentPlayer)
      && r.state.players[s.currentPlayer] == Player(s.players[s.currentPlayer].name, s.players[s.currentPlayer].matches + 1)
      && (forall j :: 0 <= j < |s.players| && j != s.currentPlayer ==> r.state.players[j] == s.players[j])
      && (r.state.isWinner <==> |r.state.matched| == |s.cards|)
    // a mismatching pair
    ensures !Blocked(s, id) && |s.flipped| == 1 && Content(s, s.flipped[0]) != Content(s, id) ==>
      && r.timeout == Some(Timeout(s.currentPlayer, |s.players|))
      && r.state.flipped == s.flipped + [id]
      && MismatchPending(r.state)
      && r.state.matched == s.matched && r.state.players == s.players
      && r.state.isWinner == s.isWinner
    ensures r.timeout != None <==>
      !Blocked(s, id) && |s.flipped| == 1 && Content(s, s.flipped[0]) != Content(s, id)
  {
    if Blocked(s, id) then Click(s, None)
    else if |s.flipped| == 0 then Click(s.(flipped := [id]), None)
    else if s.cards[s.flipped[0]].content == s.cards[id].content then Click(PairFound(s, id), None)
    else Click(PairMissed(s, id), Some(Timeout(s.currentPlayer, |s.players|)))
  }

  /**
    The mismatch callback of the scheduled timeout: it turns every flipped card back
    and passes the turn to the seat after the captured one, modulo the captured
    player count. It does not check which round it belongs to. Scores, matches and
    moves are left alone; the round invariant is kept.
  */
  function ResolveMismatch(s: State, t: Timeout): (r: State)
    requires t.seats >= 1
    ensures r.flipped == []
    ensures r.currentPlayer == (t.turn + 1) % t.seats
    ensures r.currentPlayer < t.seats
    ensures r.players == s.players && r.matched == s.matched && r.moves == s.moves
    ensures r.cards == s.cards && r.isWinner == s.isWinner
    ensures r.names == s.names && r.phase == s.phase && r.difficulty == s.difficulty
    ensures r.numPlayers == s.numPlayers
    ensures Valid(s) ==> Valid(r)
    ensures t.seats == |s.players| ==> Seated(r)
  {
    s.(flipped := [], currentPlayer := (t.turn + 1) % t.seats)
  }

  /**
    While a mismatched pair is face up every click is refused, so the seat the
    callback captured is still the seat in turn when it fires.
  */
  lemma ClicksWaitForMismatch(s: State, id: nat)
    requires Valid(s) && Seated(s) && id < |s.cards| && MismatchPending(s)
    ensures CardClick(s, id) == Click(s, None)
  {
  }

  /**
    A mismatched second card followed by its callback: nothing is left flipped, the
    turn passes to the next seat round the table, and scores and matches are as
    before, with the one move counted.
  */
  lemma MismatchThenResolve(s: State, id: nat)
    requires Valid(s) && Seated(s) && id < |s.cards| && !Blocked(s, id)
    requires |s.flipped| == 1 && Content(s, s.flipped[0]) != Content(s, id)
    ensures CardClick(s, id).timeout.Some?
    ensures var r := ResolveMismatch(CardClick(s, id).state, CardClick(s, id).timeout.value);
      && r.flipped == []
      && r.currentPlayer == (s.currentPlayer + 1) % |s.players|
      && r.players == s.players && r.matched == s.matched && r.moves == s.moves + 1
      && Valid(r) && Seated(r)
  {
  }

  /** Once every card is matched the round is won and no click changes anything. */
  lemma FinishedRoundIgnoresClicks(s: State, id: nat)
    requires Valid(s) && Seated(s) && s.isWinner && id < |s.cards|
    ensures id in s.matched
    ensures CardClick(s, id) == Click(s, None)
  {
    DistinctBelowBound(s.matched, |s.cards|);
  }

  /**
    Once the callback of a missed pair has fired, both cards are face down again;
    a matched card stays face up whatever is clicked.
  */
  lemma MissedPairHiddenAgain(s: State, id: nat)
    requires Valid(s) && Seated(s) && id < |s.cards| && !Blocked(s, id)
    requires |s.flipped| == 1 && Content(s, s.flipped[0]) != Content(s, id)
    ensures var c := CardClick(s, id);
      c.timeout.Some? &&
      var r := ResolveMismatch(c.state, c.timeout.value);
      !Shown(r, s.flipped[0]) && !Shown(r, id)
    ensures forall x: nat, other: nat :: x in s.matched && other < |s.cards| ==> Shown(CardClick(s, other).state, x)
  {
    assert s.flipped[0] !in s.matched;
  }
}
