/**
  Play on the board as a sequence of events: card clicks, the browser firing the
  oldest scheduled mismatch callback, the restart button and the difficulty
  buttons. Scheduled callbacks outlive a restart, as they do in the component.
*/
module Rounds {
  import opened Levels
  import opened GameState
  import opened Turns
  import opened SetupScreen

  datatype Event =
    | Tap(id: nat)
    | Fire
    | Restart(draws: seq<nat>)
    | PickLevel(level: Level, draws: seq<nat>)

  /** The component's state together with the mismatch callbacks not yet fired, oldest first. */
  datatype World = World(state: State, pending: seq<Timeout>)

  /**
    A board in play: the round invariant holds, the seat in turn exists, the
    players are the names the round was dealt for, and every waiting callback
    captured that same player count.
  */
  ghost predicate Playable(w: World) {
    && Valid(w.state)
    && Seated(w.state)
    && w.state.phase == Playing
    && |w.state.players| == |w.state.names|
    && forall k :: 0 <= k < |w.pending| ==> w.pending[k].seats == |w.state.players|
  }

  /** Starting with every seat named deals a board that is in play. */
  lemma StartedBoardPlayable(s: State, draws: seq<nat>)
    requires s.phase == Setup && CanStart(s.names) && |s.names| >= 1
    ensures Playable(World(StartGame(s, draws), []))
    ensures InStep(World(StartGame(s, draws), []))
  {
  }

  /**
    One event. A click on a card hands the card to the turn engine and queues the
    callback it schedules, if any (there is no card, so no click, for any other id).
    `Fire` runs the oldest waiting callback against whatever round is current.
    Restart and a difficulty change deal afresh and leave the queue alone.
  */
  function Step(w: World, e: Event): (r: World)
    requires Playable(w)
    ensures Playable(r)
    ensures r.state.names == w.state.names
    ensures e.Restart? ==> r.pending == w.pending && r.state.matched == [] && r.state.moves == 0
    ensures e.Fire? && w.pending != [] ==> r.state.flipped == [] && r.pending == w.pending[1..]
  {
    match e
    case Tap(id) =>
      if id < |w.state.cards| then
        var c := CardClick(w.state, id);
        World(c.state, if c.timeout.Some? then w.pending + [c.timeout.value] else w.pending)
      else w
    case Fire =>
      if w.pending == [] then w
      else World(ResolveMismatch(w.state, w.pending[0]), w.pending[1..])
    case Restart(draws) =>
      World(InitGame(w.state, draws), w.pending)
    case PickLevel(l, draws) =>
      World(SelectDifficulty(w.state, l, draws), w.pending)
  }

  /**
    Any sequence of events keeps the board in play: in particular no more than two
    cards are ever flipped, flipped and matched never share a card, and the
    players' scores always add up to the pairs found.
  */
  function Run(w: World, events: seq<Event>): (r: World)
    requires Playable(w)
    ensures Playable(r)
    ensures |r.state.flipped| <= 2
    ensures forall k :: 0 <= k < |r.state.flipped| ==> r.state.flipped[k] !in r.state.matched
    ensures 2 * Score(r.state.players) == |r.state.matched|
    ensures r.state.names == w.state.names
    decreases |events|
  {
    if events == [] then w else Run(Step(w, events[0]), events[1..])
  }

  /** A click that misses queues a callback carrying the seat in turn and the player count. */
  lemma MissQueuesCallback(w: World, id: nat)
    requires Playable(w) && id < |w.state.cards| && !Blocked(w.state, id)
    requires |w.state.flipped| == 1 && Content(w.state, w.state.flipped[0]) != Content(w.state, id)
    ensures Step(w, Tap(id)).pending == w.pending + [Timeout(w.state.currentPlayer, |w.state.players|)]
  {
  }

  /** On a board with nothing flipped, a click on an unmatched card flips just that card. */
  lemma FirstFlip(w: World, id: nat)
    requires Playable(w) && id < |w.state.cards| && w.state.flipped == [] && id !in w.state.matched
    ensures Step(w, Tap(id)).state.flipped == [id]
    ensures Step(w, Tap(id)).state.cards == w.state.cards
    ensures Step(w, Tap(id)).pending == w.pending
  {
  }

  /** Firing runs the oldest callback. */
  lemma FireOldest(w: World)
    requires Playable(w) && w.pending != []
    ensures Step(w, Fire).state == ResolveMismatch(w.state, w.pending[0])
    ensures Step(w, Fire).pending == w.pending[1..]
  {
  }

  /**
    Restarting does not cancel a waiting mismatch callback: after a missed pair and
    a restart, the fresh round (seat 0 to play, nothing flipped or matched) still
    has the old round's callback queued.
  */
  lemma RestartKeepsCallback(w: World, id: nat, draws: seq<nat>)
    requires Playable(w) && w.pending == []
    requires id < |w.state.cards| && !Blocked(w.state, id)
    requires |w.state.flipped| == 1 && Content(w.state, w.state.flipped[0]) != Content(w.state, id)
    ensures var w2 := Step(Step(w, Tap(id)), Restart(draws));
      && w2.state.currentPlayer == 0 && w2.state.flipped == [] && w2.state.matched == []
      && w2.pending == [Timeout(w.state.currentPlayer, |w.state.players|)]
  {
    MissQueuesCallback(w, id);
  }

  /**
    A callback left over from an earlier round, fired in a fresh round after its
    first card is flipped, turns that card back and moves the turn to the seat
    after the one it captured.
  */
  lemma StaleCallbackHitsNewRound(w: World, t: Timeout, next: nat)
    requires Playable(w) && w.pending == [t]
    requires w.state.flipped == [] && w.state.matched == [] && next < |w.state.cards|
    ensures Step(w, Tap(next)).state.flipped == [next]
    ensures var w2 := Step(Step(w, Tap(next)), Fire);
      && w2.state.flipped == []
      && w2.state.currentPlayer == (t.turn + 1) % t.seats
      && w2.state.cards == w.state.cards
      && w2.pending == []
  {
    FirstFlip(w, next);
    FireOldest(Step(w, Tap(next)));
  }

  /** Only clicks and callback firings: no restart and no difficulty change. */
  predicate BoardOnly(events: seq<Event>) {
    forall k :: 0 <= k < |events| ==> events[k].Tap? || events[k].Fire?
  }

  /**
    The queue is in step with the board: a callback is waiting exactly while a
    missed pair is face up, there is at most one, and it captured the seat in turn.
  */
  ghost predicate InStep(w: World)
    requires Playable(w)
  {
    && (w.pending != [] <==> MismatchPending(w.state))
    && (w.pending != [] ==> |w.pending| == 1 && w.pending[0].turn == w.state.currentPlayer)
  }

  /**
    A click or a firing keeps the queue in step with the board, and a firing then
    passes the turn to the next seat round the table.
  */
  lemma BoardStepInStep(w: World, e: Event)
    requires Playable(w) && InStep(w) && (e.Tap? || e.Fire?)
    ensures InStep(Step(w, e))
    ensures e.Fire? && w.pending != [] ==>
      Step(w, e).state.currentPlayer == (w.state.currentPlayer + 1) % |w.state.players|
  {
    if e.Tap? && e.id < |w.state.cards| {
      var c := CardClick(w.state, e.id);
      if MismatchPending(w.state) {
        assert Blocked(w.state, e.id);
      } else if !Blocked(w.state, e.id) && |w.state.flipped| == 1
        && Content(w.state, w.state.flipped[0]) != Content(w.state, e.id) {
        assert c.timeout == Some(Timeout(w.state.currentPlayer, |w.state.players|));
      } else {
        assert c.timeout == None;
        assert !MismatchPending(c.state);
      }
    }
  }

  /**
    With no restart or difficulty change, starting in step (for instance with an
    empty queue and at most one card face up) the queue stays in step: at most
    one callback waits, exactly while a missed pair is face up, and it holds the
    seat in turn when it fires.
  */
  lemma {:induction false} BoardRunInStep(w: World, events: seq<Event>)
    requires Playable(w) && InStep(w) && BoardOnly(events)
    ensures InStep(Run(w, events))
    decreases |events|
  {
    if events != [] {
      BoardStepInStep(w, events[0]);
      assert BoardOnly(events[1..]) by {
        forall k | 0 <= k < |events[1..]|
          ensures events[1..][k].Tap? || events[1..][k].Fire?
        {
          assert events[1..][k] == events[k + 1];
        }
      }
      BoardRunInStep(Step(w, events[0]), events[1..]);
    }
  }
}
