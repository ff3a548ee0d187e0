/**
  The setup screen's handlers (player count, names, start) and the difficulty
  buttons of the board, as transitions of the component state.
*/
module SetupScreen {
  import opened JsString
  import opened Levels
  import opened GameState

  /** `Math.min(Math.max(2, v), 4)`: values outside 2..4 go to the nearer end. */
  function Clamp(v: int): (r: int)
    ensures 2 <= r <= 4
    ensures 2 <= v <= 4 ==> r == v
    ensures v < 2 ==> r == 2
    ensures v > 4 ==> r == 4
  {
    var atLeastTwo := if 2 < v then v else 2;
    if atLeastTwo < 4 then atLeastTwo else 4
  }

  /**
    `handleNumPlayersChange`: the clamped count is stored and the name list is
    replaced by that many empty names; nothing else changes.
  */
  function ChangeNumPlayers(s: State, v: int): (r: State)
    ensures r.numPlayers == Clamp(v)
    ensures 2 <= r.numPlayers <= 4
    ensures 2 <= v <= 4 ==> r.numPlayers == v
    ensures v < 2 ==> r.numPlayers == 2
    ensures v > 4 ==> r.numPlayers == 4
    ensures |r.names| == r.numPlayers
    ensures forall i :: 0 <= i < |r.names| ==> r.names[i] == ""
    ensures r == s.(numPlayers := r.numPlayers, names := r.names)
  {
    var n := Clamp(v);
    s.(numPlayers := n, names := seq(n, _ => ""))
  }

  /**
    `handleNameChange(i, name)`: seat i gets the new text, every other entry keeps
    its own; writing just past the end grows the list by one.
  */
  function ChangeName(s: State, i: nat, name: string): (r: State)
    requires i <= |s.names|
    ensures |r.names| == if i < |s.names| then |s.names| else |s.names| + 1
    ensures r.names[i] == name
    ensures forall j :: 0 <= j < |s.names| && j != i ==> r.names[j] == s.names[j]
    ensures r == s.(names := r.names)
  {
    if i < |s.names| then s.(names := s.names[i := name]) else s.(names := s.names + [name])
  }

  /**
    `playerNames.every(name => name.trim())`: true exactly when every name has a
    character that is not white space (so, vacuously, for no names at all).
  */
  function CanStart(names: seq<string>): (ok: bool)
    ensures ok <==> forall i :: 0 <= i < |names| ==> HasVisible(names[i])
  {
    if names == [] then true
    else
      assert forall i :: 1 <= i < |names| ==> names[i] == names[1..][i - 1];
      FilledIffVisible(names[0]);
      Filled(names[0]) && CanStart(names[1..])
  }

  /**
    `handleStartGame`, followed by the effect that deals a round when the phase
    becomes `playing`: with every name filled in, the setup screen gives way to a
    fresh round for those names; otherwise nothing happens.
  */
  function StartGame(s: State, draws: seq<nat>): (r: State)
    ensures r.phase == Playing <==> s.phase == Playing || CanStart(s.names)
    ensures !CanStart(s.names) || s.phase == Playing ==> r == s
    ensures s.phase == Setup && CanStart(s.names) ==>
      && Valid(r)
      && r.names == s.names && r.difficulty == s.difficulty && r.numPlayers == s.numPlayers
      && IsFreshDeck(r.cards, Config(s.difficulty).emojis)
      && r.flipped == [] && r.matched == [] && r.moves == 0 && r.currentPlayer == 0
      && |r.players| == |s.names|
      && (forall i :: 0 <= i < |s.names| ==> r.players[i] == Player(s.names[i], 0))
  {
    if !CanStart(s.names) || s.phase == Playing then s
    else
      var started := s.(phase := Playing);
      assert started.names == s.names && started.difficulty == s.difficulty;
      InitGame(started, draws)
  }

  /**
    A difficulty button; the buttons are shown only on the board, so a round is
    in play. Choosing the level already in force changes nothing (the dealing
    effect only runs when its inputs change); choosing another deals a fresh
    round at that level for the same names.
  */
  function SelectDifficulty(s: State, l: Level, draws: seq<nat>): (r: State)
    requires s.phase == Playing
    ensures r.difficulty == l && r.phase == Playing && r.names == s.names
    ensures r.numPlayers == s.numPlayers
    ensures l == s.difficulty ==> r == s
    ensures l != s.difficulty ==>
      && Valid(r)
      && IsFreshDeck(r.cards, Config(l).emojis)
      && r.flipped == [] && r.matched == [] && r.moves == 0 && r.currentPlayer == 0
      && |r.players| == |s.names|
      && (forall i :: 0 <= i < |s.names| ==> r.players[i] == Player(s.names[i], 0))
  {
    if l == s.difficulty then s else InitGame(s.(difficulty := l), draws)
  }

  /**
    The component mounts with no names, so the start button works at once and
    deals a round with no players: the turn engine then has no seat to index.
  */
  lemma ImmediateStartSeatsNobody(draws: seq<nat>)
    ensures StartGame(Initial, draws).phase == Playing
    ensures StartGame(Initial, draws).players == []
    ensures !Seated(StartGame(Initial, draws))
  {
  }

  /** After choosing a player count, start waits until every seat has a visible name. */
  lemma FreshSeatsBlockStart(s: State, v: int)
    ensures !CanStart(ChangeNumPlayers(s, v).names)
  {
    var r := ChangeNumPlayers(s, v);
    assert |r.names[0]| == 0;
  }
}
