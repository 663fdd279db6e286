/** The socket handlers of the older engine (server.js) over the `rooms` registry. Each handler
    reads the room, updates it step by step as the source does, and stores it back; its
    postcondition ties the outcome to the rule of `LegacyRules`. */
module LegacyServer {
  import opened Common
  import opened Roster
  import opened Votes
  import opened Words
  import opened Ranking
  import opened LegacyRules
  import opened LegacyInvariant

  class Server {
    /** `rooms`, keyed by room code. */
    var rooms: map<Code, Room>

    ghost predicate Valid()
      reads this
    {
      AllWellformed(rooms)
    }

    constructor()
      ensures rooms == map[] && Valid()
    {
      rooms := map[];
    }

    /** create-room. `code` is the generated room code; a room already stored under the same
        code is replaced. */
    method CreateRoom(code: Code, creator: SocketId)
      requires Valid()
      modifies this
      ensures Valid()
      ensures rooms == old(rooms)[code := NewRoom(creator)]
    {
      rooms := rooms[code := NewRoom(creator)];
      NewRoomWellformed(creator);
    }

    /** join-room. */
    method JoinRoom(code: Code, sender: SocketId, name: string) returns (ack: JoinAck)
      requires Valid()
      modifies this
      ensures Valid()
      ensures code !in old(rooms) ==> rooms == old(rooms) && ack == JoinFailed(RoomNotFound)
      ensures code in old(rooms) ==>
        rooms == old(rooms)[code := Join(old(rooms)[code], sender, name)] &&
        ack == Joined(sender == old(rooms)[code].hostId)
    {
      if code !in rooms {
        return JoinFailed(RoomNotFound);
      }
      var room := rooms[code];
      JoinKeepsWellformed(room, sender, name);
      if IndexOf(room.players, sender) != -1 {
        return Joined(sender == room.hostId);
      }
      room := room.(players := room.players + [Player(sender, name, 0)]);
      rooms := rooms[code := room];
      ack := Joined(sender == room.hostId);
    }

    /** start-game. `pick` is the outcome of the random draw of the first player. */
    method StartGame(code: Code, sender: SocketId, pick: nat) returns (error: Option<ErrorKind>)
      requires Valid()
      modifies this
      ensures Valid()
      ensures code !in old(rooms) ==> rooms == old(rooms) && error == None
      ensures code in old(rooms) ==>
        var (r, e) := LegacyRules.StartGame(old(rooms)[code], sender, pick);
        rooms == old(rooms)[code := r] && error == e
    {
      error := None;
      if code !in rooms {
        return;
      }
      var room := rooms[code];
      StartGameKeepsWellformed(room, sender, pick);
      if sender != room.hostId {
        return Some(NotHost);
      }
      if |room.players| < 2 {
        return Some(TooFewPlayers);
      }
      room := room.(game := room.game.(isPlaying := true, currentWord := "", losers := [], reports := []));
      var randomPlayerIndex := pick % |room.players|;
      var firstPlayerId := room.players[randomPlayerIndex].id;
      room := room.(game := room.game.(currentPlayerId := firstPlayerId));
      rooms := rooms[code := room];
    }

    /** submit-word. `pick` is the outcome of the random draw of the next player. */
    method SubmitWord(code: Code, sender: SocketId, word: string, pick: nat) returns (error: Option<ErrorKind>)
      requires Valid()
      modifies this
      ensures Valid()
      ensures code !in old(rooms) ==> rooms == old(rooms) && error == None
      ensures code in old(rooms) ==>
        var (r, e) := LegacyRules.SubmitWord(old(rooms)[code], sender, word, pick);
        rooms == old(rooms)[code := r] && error == e
    {
      error := None;
      if code !in rooms || !rooms[code].game.isPlaying {
        assert code in rooms ==> rooms[code := rooms[code]] == rooms;
        return;
      }
      var room := rooms[code];
      ghost var before := room;
      ghost var after := LegacyRules.SubmitWord(before, sender, word, pick).0;
      SubmitWordKeepsWellformed(room, sender, word, pick);
      StoreKeepsWellformed(rooms, code, after);
      if room.game.currentPlayerId != sender {
        assert rooms[code := room] == rooms;
        return Some(NotYourTurn);
      }
      if room.game.currentWord == [] {
        room := room.(game := room.game.(currentWord := word));
      } else {
        var lastChar := CharAt(room.game.currentWord, |room.game.currentWord| - 1);
        var firstChar := CharAt(word, 0);
        if Lower(firstChar) != Lower(lastChar) {
          assert after == HandleLose(before, sender, pick);
          var _ := HandlePlayerLose(code, sender, pick);
          return;
        }
        room := room.(game := room.game.(currentWord := word));
      }
      assert after == SelectNext(room, pick);
      StoreTwice(rooms, code, room, after);
      rooms := rooms[code := room];
      SelectNextPlayer(code, pick);
    }

    /** report-word. */
    method ReportWord(code: Code, sender: SocketId)
      requires Valid()
      modifies this
      ensures Valid()
      ensures code !in old(rooms) ==> rooms == old(rooms)
      ensures code in old(rooms) ==> rooms == old(rooms)[code := Votes.ReportWord(old(rooms)[code], sender)]
    {
      if code !in rooms || !rooms[code].game.isPlaying {
        return;
      }
      var room := rooms[code];
      ReportWordKeepsWellformed(room, sender);
      if !HasReport(room.game.reports, sender) {
        room := room.(game := room.game.(reports := room.game.reports + [Report(sender, true)]));
      }
      rooms := rooms[code := room];
    }

    /** vote-report. `pick` is the outcome of the random draw of the next player, used when a
        rejection lets the round go on. */
    method VoteReport(code: Code, sender: SocketId, vote: bool, pick: nat)
      requires Valid()
      modifies this
      ensures Valid()
      ensures code !in old(rooms) ==> rooms == old(rooms)
      ensures code in old(rooms) ==>
        rooms == old(rooms)[code := LegacyRules.VoteReport(old(rooms)[code], sender, vote, pick)]
    {
      if code in rooms {
        VoteReportKeepsWellformed(rooms[code], sender, vote, pick);
        StoreKeepsWellformed(rooms, code, LegacyRules.VoteReport(rooms[code], sender, vote, pick));
      }
      RecordVote(code, sender, vote, pick);
    }

    /** The body of vote-report: the vote is recorded and a settled dispute is decided. */
    method RecordVote(code: Code, sender: SocketId, vote: bool, pick: nat)
      modifies this
      ensures code !in old(rooms) ==> rooms == old(rooms)
      ensures code in old(rooms) ==>
        rooms == old(rooms)[code := LegacyRules.VoteReport(old(rooms)[code], sender, vote, pick)]
    {
      if code !in rooms || !rooms[code].game.isPlaying {
        assert code in rooms ==> rooms[code := rooms[code]] == rooms;
        return;
      }
      var room := rooms[code];
      ghost var before := room;
      room := room.(game := room.game.(reports := CastVote(room.game.reports, sender, vote)));
      var totalPlayers := |room.players|;
      var totalVotes := |room.game.reports|;
      var yesVotes := YesVotes(room.game.reports);
      rooms := rooms[code := room];
      ghost var after := LegacyRules.VoteReport(before, sender, vote, pick);
      // `totalPlayers / 2` is a division of JavaScript numbers, hence real.
      if totalVotes == totalPlayers || yesVotes as real > totalPlayers as real / 2.0 {
        if yesVotes as real >= totalPlayers as real / 2.0 {
          var currentPlayerId := room.game.currentPlayerId;
          assert after == HandleLose(room, currentPlayerId, pick);
          StoreTwice(old(rooms), code, room, after);
          var _ := HandlePlayerLose(code, currentPlayerId, pick);
        } else {
          room := room.(game := room.game.(reports := []));
          assert after == room;
          rooms := rooms[code := room];
        }
      } else {
        assert after == room;
      }
    }

    /** player-timeout: the sender loses, whoever has the turn. */
    method PlayerTimeout(code: Code, sender: SocketId, pick: nat)
      requires Valid()
      modifies this
      ensures Valid()
      ensures code !in old(rooms) ==> rooms == old(rooms)
      ensures code in old(rooms) ==> rooms == old(rooms)[code := HandleLose(old(rooms)[code], sender, pick)]
    {
      if code in rooms {
        HandleLoseKeepsWellformed(rooms[code], sender, pick);
      }
      var _ := HandlePlayerLose(code, sender, pick);
    }

    /** disconnect: the socket leaves every room it plays in; `picks` gives the random draw
        made in each room. */
    method Disconnect(sender: SocketId, picks: Code -> nat)
      requires Valid()
      modifies this
      ensures Valid()
      ensures rooms == DisconnectAll(old(rooms), sender, picks)
    {
      var pending := rooms.Keys;
      ghost var start := rooms;
      while pending != {}
        invariant pending <= start.Keys
        invariant AllWellformed(rooms)
        invariant rooms == map c | c in start && (c in pending || Depart(start[c], sender, picks(c)).Some?) ::
          if c in pending then start[c] else Depart(start[c], sender, picks(c)).value
        decreases pending
      {
        var c :| c in pending;
        ghost var before := rooms;
        pending := pending - {c};
        DisconnectFromKeepsWellformed(rooms, c, sender, picks(c));
        RemovePlayer(c, sender, picks(c));
        assert rooms == DisconnectFrom(before, c, sender, picks(c));
      }
    }

    /** The body of the disconnect loop for one room: the player is spliced out, an emptied
        room is deleted, a leaving host is replaced by the first remaining player, and a
        leaving current player hands the turn on. */
    method RemovePlayer(code: Code, id: Id, pick: nat)
      modifies this
      ensures rooms == DisconnectFrom(old(rooms), code, id, pick)
    {
      if code !in rooms {
        return;
      }
      var room := rooms[code];
      ghost var before := room;
      var playerIndex := IndexOf(room.players, id);
      if playerIndex == -1 {
        assert rooms[code := before] == rooms;
        return;
      }
      var isHost := room.hostId == id;
      room := room.(players := room.players[..playerIndex] + room.players[playerIndex + 1..]);
      if |room.players| == 0 {
        assert Depart(before, id, pick) == None;
        rooms := rooms - {code};
        return;
      }
      if isHost {
        room := room.(hostId := room.players[0].id);
      }
      assert room.players == RemoveAt(before.players, playerIndex);
      if room.game.isPlaying && room.game.currentPlayerId == id {
        assert Depart(before, id, pick) == Some(SelectNext(room, pick));
        StoreTwice(rooms, code, room, SelectNext(room, pick));
        rooms := rooms[code := room];
        SelectNextPlayer(code, pick);
      } else {
        assert Depart(before, id, pick) == Some(room);
        rooms := rooms[code := room];
      }
    }

    /** check-player-in-room: `None` when the sender plays in the room. */
    method CheckPlayerInRoom(code: Code, sender: SocketId) returns (error: Option<ErrorKind>)
      ensures error == None <==> code in rooms && HasPlayer(rooms[code].players, sender)
      ensures error == Some(RoomNotFound) <==> code !in rooms
      ensures error == None || error == Some(RoomNotFound) || error == Some(NotInRoom)
    {
      if code !in rooms {
        return Some(RoomNotFound);
      }
      var room := rooms[code];
      if IndexOf(room.players, sender) == -1 {
        return Some(NotInRoom);
      }
      return None;
    }

    /** get-room-info: what the room shows, or `None` for an unknown code; the older engine
        does not report the host. */
    method GetRoomInfo(code: Code) returns (info: Option<RoomInfo>)
      ensures info.None? <==> code !in rooms
      ensures info.Some? ==>
        info.value.players == rooms[code].players && info.value.hostId == None &&
        info.value.currentPlayerId == rooms[code].game.currentPlayerId &&
        info.value.isPlaying == rooms[code].game.isPlaying &&
        info.value.currentWord == rooms[code].game.currentWord
    {
      if code !in rooms {
        return None;
      }
      var room := rooms[code];
      info := Some(RoomInfo(room.players, room.game.currentPlayerId, room.game.isPlaying,
                            room.game.currentWord, None));
    }

    /** selectNextPlayer. */
    method SelectNextPlayer(code: Code, pick: nat)
      modifies this
      ensures code !in old(rooms) ==> rooms == old(rooms)
      ensures code in old(rooms) ==> rooms == old(rooms)[code := SelectNext(old(rooms)[code], pick)]
    {
      if code !in rooms {
        return;
      }
      var room := rooms[code];
      if !room.game.isPlaying || |room.players| < 2 {
        assert rooms[code := room] == rooms;
        return;
      }
      ghost var before := room;
      var availablePlayers := Without(room.players, room.game.currentPlayerId);
      var selectFrom := if |availablePlayers| > 0 then availablePlayers else room.players;
      var randomIndex := pick % |selectFrom|;
      room := room.(game := room.game.(currentPlayerId := selectFrom[randomIndex].id));
      room := room.(game := room.game.(reports := []));
      assert room == SelectNext(before, pick);
      rooms := rooms[code := room];
    }

    /** handlePlayerLose. The result is the announced rankings, when the round ends. */
    method HandlePlayerLose(code: Code, id: Id, pick: nat) returns (rankings: Option<seq<Player>>)
      modifies this
      ensures code !in old(rooms) ==> rooms == old(rooms)
      ensures code in old(rooms) ==> rooms == old(rooms)[code := HandleLose(old(rooms)[code], id, pick)]
      ensures rankings == if code in old(rooms) && old(rooms)[code].game.isPlaying && !rooms[code].game.isPlaying
                          then Some(rooms[code].players) else None
    {
      rankings := None;
      if code !in rooms || !rooms[code].game.isPlaying {
        assert code in rooms ==> rooms[code := rooms[code]] == rooms;
        return;
      }
      rankings := LoseDuringRound(code, id, pick);
    }

    /** handlePlayerLose once the room is known to be in a round. */
    method LoseDuringRound(code: Code, id: Id, pick: nat) returns (rankings: Option<seq<Player>>)
      requires code in rooms && rooms[code].game.isPlaying
      modifies this
      ensures rooms == old(rooms)[code := HandleLose(old(rooms)[code], id, pick)]
      ensures rankings == if !rooms[code].game.isPlaying then Some(rooms[code].players) else None
    {
      RecordLoss(code, id);
      rankings := EndRoundOrPass(code, pick);
    }

    /** The first half of handlePlayerLose: the loser's count goes up by one and the id is pushed
        onto the losers unless it is already there. */
    method RecordLoss(code: Code, id: Id)
      requires code in rooms
      modifies this
      ensures rooms == old(rooms)[code := WithLoss(old(rooms)[code], id)]
    {
      var room := rooms[code];
      ghost var before := room;
      var k := IndexOf(room.players, id);
      if k != -1 {
        room := room.(players := room.players[k := room.players[k].(loseCount := room.players[k].loseCount + 1)]);
      }
      assert room.players == AddLoss(before.players, id);
      if !(id in room.game.losers && id != []) {
        room := room.(game := room.game.(losers := room.game.losers + [id]));
      }
      rooms := rooms[code := room];
    }

    /** The end of handlePlayerLose, once the loss is recorded in the stored room. The result is
        the announced rankings, when the round ends. */
    method EndRoundOrPass(code: Code, pick: nat) returns (rankings: Option<seq<Player>>)
      requires code in rooms && rooms[code].game.isPlaying
      modifies this
      ensures rooms == old(rooms)[code := EndOrPass(old(rooms)[code], pick)]
      ensures rankings == if !rooms[code].game.isPlaying then Some(rooms[code].players) else None
    {
      rankings := None;
      var room := rooms[code];
      ghost var before := room;
      var remainingPlayers := Remaining(room.players, room.game.losers);
      if |remainingPlayers| <= 1 {
        room := room.(game := room.game.(isPlaying := false));
        room := room.(players := SortBy(Descending, room.players));
        rankings := Some(room.players);
        room := room.(game := room.game.(losers := [], currentWord := "", reports := []));
        assert room == EndOrPass(before, pick);
        rooms := rooms[code := room];
      } else {
        rooms := rooms[code := room];
        assert rooms == old(rooms);
        SelectNextPlayer(code, pick);
      }
    }
  }
}
