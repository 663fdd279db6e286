/** Behaviour of the current engine that follows from the code as written: the round's order is
    never pruned, the host is chosen before anyone joins, and readiness is judged by counting. */
module CurrentScenarios {
  import opened Common
  import opened Roster
  import opened Words
  import opened CurrentRules
  import opened CurrentInvariant
  import opened CurrentProperties

  /** The round's order keeps the ids of players who left: if the player next in the order
      leaves while someone else has the turn, the next accepted word hands the turn to the
      departed id. */
  lemma TurnCanGoToDepartedPlayer(r: Room, id: Id, word: string)
    requires Wellformed(r) && r.game.isPlaying && |r.players| >= 3
    requires HasPlayer(r.players, id) && id != r.game.currentPlayerId
    requires id == r.game.order.value[(r.game.orderIndex + 1) % |r.game.order.value|]
    requires Continues(r.game.currentWord, word)
    requires r.game.currentPlayerId != []
    ensures Depart(r, id).Some?
    ensures var r2 := SubmitWord(Depart(r, id).value, r.game.currentPlayerId, word).0;
      r2.game.isPlaying && r2.game.currentPlayerId == id && !HasPlayer(r2.players, id)
  {
    DepartOutcome(r, id);
    DepartTurn(r, id);
    DepartKeepsWellformed(r, id);
    var r1 := Depart(r, id).value;
    SubmitOutcome(r1, r.game.currentPlayerId, word);
  }

  /** When the player with the turn leaves a two-player round, the round goes on with the
      departed id holding the turn and no countdown: the remaining player cannot submit, and time
      does not end the turn. */
  lemma TwoPlayerRoundStallsWhenCurrentLeaves(r: Room, other: SocketId, word: string)
    requires Wellformed(r) && r.game.isPlaying && |r.players| == 2
    requires HasPlayer(r.players, r.game.currentPlayerId) && other != r.game.currentPlayerId
    ensures Depart(r, r.game.currentPlayerId).Some?
    ensures var r1 := Depart(r, r.game.currentPlayerId).value;
      r1.game.isPlaying && r1.game.currentPlayerId == r.game.currentPlayerId &&
      !HasPlayer(r1.players, r1.game.currentPlayerId) && r1.game.timer == None &&
      SubmitWord(r1, other, word) == (r1, Some(NotYourTurn)) &&
      Tick(r1) == r1
  {
    DepartOutcome(r, r.game.currentPlayerId);
    DepartTurn(r, r.game.currentPlayerId);
  }

  /** The creator of a room is its host before joining it; a room can have a host that is not
      one of its players. */
  lemma HostNeedNotBeMember(creator: SocketId, joiner: SocketId, name: string)
    requires creator != joiner
    ensures var r := Join(NewRoom(creator), joiner, name);
      r.hostId == creator && !HasPlayer(r.players, creator) && HasPlayer(r.players, joiner)
  {
    var r := Join(NewRoom(creator), joiner, name);
    assert r.players == [Player(joiner, name, 0)];
  }

  /** Readiness is judged by the size of the back-set, which also counts sockets that are not
      players: the host can be told that everyone is back while a player is still missing, and
      start-game then refuses. */
  lemma BackToRoomCountsOutsiders(host: SocketId, missing: SocketId, outsider: SocketId, g: GameState)
    requires host != missing && outsider != host && outsider != missing
    requires !g.isPlaying
    ensures var r := Room([Player(host, "H", 0), Player(missing, "M", 0)], host, g, Some({}));
      var (r1, _) := BackToRoom(r, outsider);
      var (r2, allBack) := BackToRoom(r1, host);
      allBack && StartCheck(r2, host, true) == Some(PlayersNotBack)
  {
    var r := Room([Player(host, "H", 0), Player(missing, "M", 0)], host, g, Some({}));
    var r2 := BackToRoom(BackToRoom(r, outsider).0, host).0;
    assert r2.backToRoom.value == {outsider, host};
    assert |{outsider, host}| == 2;
    assert r2.players[1].id !in r2.backToRoom.value;
  }

  /** In a well-formed room the end-of-round branch of selectNextPlayer, which sorts the roster
      in place, is never taken: turn changes leave the roster's order alone. */
  lemma TurnsKeepRosterOrder(r: Room)
    requires Wellformed(r)
    ensures SelectNext(r).players == r.players
  {
    if r.game.isPlaying && |r.players| >= 2 {
      SelectNextAdvances(r);
    }
  }
}
