/**
  The component's state bag as one immutable record, the round invariant it keeps
  while playing, and deck construction (`initGame`).
*/
module GameState {
  import opened Seqs
  import opened Shuffling
  import opened Levels

  datatype Option<+T> = None | Some(value: T)

  /**
    A card of the deck. The source's `isFlipped` and `isMatched` flags are never
    set by any handler (a card is shown when its id is in `flipped` or `matched`),
    so they are not carried here.
  */
  datatype Card = Card(id: nat, content: string)

  datatype Player = Player(name: string, matches: nat)

  /** `gameState`: the setup screen or the board. */
  datatype Phase = Setup | Playing

  /** All the component's state, one field per `useState`. */
  datatype State = State(
    phase: Phase,
    numPlayers: int,
    players: seq<Player>,
    currentPlayer: nat,
    names: seq<string>,
    difficulty: Level,
    cards: seq<Card>,
    flipped: seq<nat>,
    matched: seq<nat>,
    moves: nat,
    isWinner: bool)

  /** The state the component mounts with. */
  const Initial: State :=
    State(Setup, 2, [], 0, [], DefaultLevel, [], [], [], 0, false)

  /** The symbol on the card at deck position i. */
  function Content(s: State, i: nat): string
    requires i < |s.cards|
  {
    s.cards[i].content
  }

  /** The symbols of a deck, position by position. */
  function Contents(deck: seq<Card>): (r: seq<string>)
    ensures |r| == |deck|
    ensures forall i :: 0 <= i < |deck| ==> r[i] == deck[i].content
  {
    seq(|deck|, i requires 0 <= i < |deck| => deck[i].content)
  }

  /** Total matches credited to all players. */
  function Score(ps: seq<Player>): nat {
    if ps == [] then 0 else ps[0].matches + Score(ps[1..])
  }

  /** A card is face up when it is flipped or already matched. */
  predicate Shown(s: State, id: nat) {
    id in s.flipped || id in s.matched
  }

  /** The other half of the pair that position k of `matched` was appended with. */
  function Partner(k: nat): nat {
    if k % 2 == 0 then k + 1 else k - 1
  }

  /**
    A deck as `initGame` deals it from a symbol list: twice as many cards as
    symbols, each card's id equal to its position, and the symbols, taken
    together, exactly two copies of the list.
  */
  ghost predicate IsFreshDeck(deck: seq<Card>, emojis: seq<string>) {
    && |deck| == 2 * |emojis|
    && (forall i :: 0 <= i < |deck| ==> deck[i].id == i)
    && multiset(Contents(deck)) == multiset(emojis + emojis)
  }

  /**
    What holds of the round at every point of play: ids are positions; at most two
    cards are flipped; flipped and matched are repeat-free, disjoint lists of deck
    positions; two flipped cards always differ (a pair is moved out at once);
    matched is a list of genuine pairs; the players' scores add up to the pairs
    found; every pair found cost a move; and the round is won exactly when every
    card is matched.
  */
  ghost predicate Valid(s: State) {
    && (forall i :: 0 <= i < |s.cards| ==> s.cards[i].id == i)
    && |s.flipped| <= 2
    && Below(s.flipped, |s.cards|)
    && Below(s.matched, |s.cards|)
    && Distinct(s.flipped)
    && Distinct(s.matched)
    && (forall k :: 0 <= k < |s.flipped| ==> s.flipped[k] !in s.matched)
    && (|s.flipped| == 2 ==> Content(s, s.flipped[0]) != Content(s, s.flipped[1]))
    && |s.matched| % 2 == 0
    && (forall k :: 0 <= k < |s.matched| ==> Content(s, s.matched[k]) == Content(s, s.matched[Partner(k)]))
    && 2 * Score(s.players) == |s.matched|
    && |s.matched| <= 2 * s.moves
    && (s.isWinner <==> 0 < |s.cards| == |s.matched|)
  }

  /** The turn engine indexes `players` by `currentPlayer` and rotates modulo `|players|`. */
  predicate Seated(s: State) {
    1 <= |s.players| && s.currentPlayer < |s.players|
  }

  /** The players of a fresh round: one per name, none with a match yet. */
  function FreshPlayers(names: seq<string>): (ps: seq<Player>)
    ensures |ps| == |names|
    ensures forall i :: 0 <= i < |ps| ==> ps[i] == Player(names[i], 0)
    ensures Score(ps) == 0
  {
    if names == [] then [] else [Player(names[0], 0)] + FreshPlayers(names[1..])
  }

  /** Doubles the symbol list, shuffles it with the given random draws and numbers the cards. */
  function Deal(emojis: seq<string>, draws: seq<nat>): (deck: seq<Card>)
    ensures IsFreshDeck(deck, emojis)
  {
    var shuffled := Shuffle(emojis + emojis, draws);
    var deck := seq(|shuffled|, i requires 0 <= i < |shuffled| => Card(i, shuffled[i]));
    assert Contents(deck) == shuffled;
    deck
  }

  /**
    When the symbol list has no repeats, a fresh deck holds every symbol on exactly
    two cards and no card carries a symbol from outside the list.
  */
  lemma FreshDeckPairs(deck: seq<Card>, emojis: seq<string>)
    requires Distinct(emojis) && IsFreshDeck(deck, emojis)
    ensures forall e :: e in emojis ==> multiset(Contents(deck))[e] == 2
    ensures forall i :: 0 <= i < |deck| ==> deck[i].content in emojis
  {
    forall e | e in emojis
      ensures multiset(Contents(deck))[e] == 2
    {
      DistinctCountOne(emojis, e);
    }
    forall i | 0 <= i < |deck|
      ensures deck[i].content in emojis
    {
      assert Contents(deck)[i] in multiset(emojis + emojis);
    }
  }

  /** The deck each level deals: 12, 16 or 20 cards, every symbol of the level twice. */
  lemma LevelDeck(l: Level, draws: seq<nat>)
    ensures |Deal(Config(l).emojis, draws)| == 2 * PairCount(l)
    ensures forall e :: e in Config(l).emojis ==> multiset(Contents(Deal(Config(l).emojis, draws)))[e] == 2
  {
    FreshDeckPairs(Deal(Config(l).emojis, draws), Config(l).emojis);
  }

  /**
    `initGame`: a fresh deck for the current difficulty, nothing flipped or matched,
    no moves, no winner, the first seat to play, and one scoreless player per name.
    Phase, names, player count and difficulty are left alone.
  */
  function InitGame(s: State, draws: seq<nat>): (r: State)
    ensures IsFreshDeck(r.cards, Config(s.difficulty).emojis)
    ensures r.flipped == [] && r.matched == [] && r.moves == 0
    ensures !r.isWinner && r.currentPlayer == 0
    ensures |r.players| == |s.names|
    ensures forall i :: 0 <= i < |s.names| ==> r.players[i] == Player(s.names[i], 0)
    ensures r.phase == s.phase && r.names == s.names
    ensures r.numPlayers == s.numPlayers && r.difficulty == s.difficulty
    ensures Valid(r)
    ensures Seated(r) <==> |s.names| >= 1
  {
    s.(cards := Deal(Config(s.difficulty).emojis, draws),
       flipped := [],
       matched := [],
       moves := 0,
       isWinner := false,
       currentPlayer := 0,
       players := FreshPlayers(s.names))
  }
}
