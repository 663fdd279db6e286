/** The socket handlers of the current engine (server/server.js) over the `rooms` registry.
    Each handler reads the room, updates it step by step as the source does, and stores it
    back; its postcondition ties the outcome to the rule of `CurrentRules`. */
module CurrentServer {
  import opened Common
  import opened Roster
  import opened Votes
  import opened Words
  import opened Ranking
  import opened CurrentRules
  import opened CurrentInvariant
  import Seqs

  class Server {
    /** `rooms`, keyed by room code. */
    var rooms: map<Code, Room>

    ghost predicate Valid()
      reads this
    {
      AllWellformed(rooms)
    }

    constructor()
      ensures rooms == map[] && Valid()
    {
      rooms := map[];
    }

    /** create-room. `code` is the generated room code; a room already stored under the same
        code is replaced. */
    method CreateRoom(code: Code, creator: SocketId)
      requires Valid()
      modifies this
      ensures Valid()
      ensures rooms == old(rooms)[code := NewRoom(creator)]
    {
      rooms := rooms[code := NewRoom(creator)];
      NewRoomWellformed(creator);
    }

    /** join-room. */
    method JoinRoom(code: Code, sender: SocketId, name: string) returns (ack: JoinAck)
      requires Valid()
      modifies this
      ensures Valid()
      ensures code !in old(rooms) ==> rooms == old(rooms) && ack == JoinFailed(RoomNotFound)
      ensures code in old(rooms) ==>
        rooms == old(rooms)[code := Join(old(rooms)[code], sender, name)] &&
        ack == Joined(sender == old(rooms)[code].hostId)
    {
      if code !in rooms {
        return JoinFailed(RoomNotFound);
      }
      var room := rooms[code];
      JoinKeepsWellformed(room, sender, name);
      if IndexOf(room.players, sender) != -1 {
        return Joined(sender == room.hostId);
      }
      room := room.(players := room.players + [Player(sender, name, 0)]);
      if !room.game.isPlaying && room.backToRoom.Some? {
        room := room.(backToRoom := Some(room.backToRoom.value + {sender}));
      }
      rooms := rooms[code := room];
      ack := Joined(sender == room.hostId);
    }

    /** start-game. `allConnected` is the outcome of comparing the socket.io room's size with
        the roster; `shuffled` is the outcome of the shuffle. */
    method StartGame(code: Code, sender: SocketId, allConnected: bool, shuffled: seq<Player>)
      returns (error: Option<ErrorKind>)
      requires Valid()
      requires code in rooms ==> multiset(shuffled) == multiset(rooms[code].players)
      modifies this
      ensures Valid()
      ensures code !in old(rooms) ==> rooms == old(rooms) && error == None
      ensures code in old(rooms) ==>
        var (r, e) := CurrentRules.StartGame(old(rooms)[code], sender, allConnected, shuffled);
        rooms == old(rooms)[code := r] && error == e
    {
      error := None;
      if code !in rooms {
        return;
      }
      var room := rooms[code];
      StartGameKeepsWellformed(room, sender, allConnected, shuffled);
      if sender != room.hostId {
        return Some(NotHost);
      }
      if |room.players| < 2 {
        return Some(TooFewPlayers);
      }
      if room.game.isPlaying {
        return Some(GameInProgress);
      }
      if !allConnected {
        return Some(PlayersDisconnected);
      }
      if room.backToRoom.Some? {
        var back := room.backToRoom.value;
        var missing := Seqs.Filter(room.players, (p: Player) => p.id !in back);
        if |missing| > 0 {
          assert missing[0] in room.players;
          return Some(PlayersNotBack);
        }
        forall i | 0 <= i < |room.players| ensures room.players[i].id in back {
          assert room.players[i] !in missing;
        }
      }
      room := room.(game := room.game.(isPlaying := true, currentWord := "", losers := [],
                                       reports := [], lastWordPlayerId := ""));
      if room.backToRoom.Some? {
        room := room.(backToRoom := Some({}));
      }
      assert |shuffled| == |multiset(shuffled)| == |room.players|;
      room := room.(game := room.game.(order := Some(Ids(shuffled))));
      room := room.(game := room.game.(orderIndex := 0));
      room := room.(game := room.game.(currentPlayerId := shuffled[0].id));
      rooms := rooms[code := room];
    }

    /** submit-word. */
    method SubmitWord(code: Code, sender: SocketId, word: string) returns (error: Option<ErrorKind>)
      requires Valid()
      modifies this
      ensures Valid()
      ensures code !in old(rooms) ==> rooms == old(rooms) && error == None
      ensures code in old(rooms) ==>
        var (r, e) := CurrentRules.SubmitWord(old(rooms)[code], sender, word);
        rooms == old(rooms)[code := r] && error == e
    {
      error := None;
      if code !in rooms || !rooms[code].game.isPlaying {
        assert code in rooms ==> rooms[code := rooms[code]] == rooms;
        return;
      }
      var room := rooms[code];
      ghost var before := room;
      ghost var after := CurrentRules.SubmitWord(before, sender, word).0;
      SubmitWordKeepsWellformed(room, sender, word);
      StoreKeepsWellformed(rooms, code, after);
      if room.game.currentPlayerId != sender {
        assert rooms[code := room] == rooms;
        return Some(NotYourTurn);
      }
      if room.game.currentWord == [] {
        room := room.(game := room.game.(currentWord := word));
      } else {
        if !Continues(room.game.currentWord, word) {
          assert after == HandleLose(before, sender);
          error := Some(WordDoesNotContinue);
          var _ := HandlePlayerLose(code, sender);
          return;
        }
        room := room.(game := room.game.(currentWord := word));
      }
      room := room.(game := room.game.(lastWordPlayerId := sender));
      assert room == before.(game := before.game.(currentWord := word, lastWordPlayerId := sender));
      assert after == SelectNext(room);
      StoreTwice(rooms, code, room, after);
      rooms := rooms[code := room];
      SelectNextPlayer(code);
    }

    /** report-word. */
    method ReportWord(code: Code, sender: SocketId)
      requires Valid()
      modifies this
      ensures Valid()
      ensures code !in old(rooms) ==> rooms == old(rooms)
      ensures code in old(rooms) ==> rooms == old(rooms)[code := Votes.ReportWord(old(rooms)[code], sender)]
    {
      if code !in rooms || !rooms[code].game.isPlaying {
        return;
      }
      var room := rooms[code];
      ReportWordKeepsWellformed(room, sender);
      if !HasReport(room.game.reports, sender) {
        room := room.(game := room.game.(reports := room.game.reports + [Report(sender, true)]));
      }
      rooms := rooms[code := room];
    }

    /** vote-report. */
    method VoteReport(code: Code, sender: SocketId, vote: bool)
      requires Valid()
      modifies this
      ensures Valid()
      ensures code !in old(rooms) ==> rooms == old(rooms)
      ensures code in old(rooms) ==>
        rooms == old(rooms)[code := CurrentRules.VoteReport(old(rooms)[code], sender, vote)]
    {
      if code in rooms {
        VoteReportKeepsWellformed(rooms[code], sender, vote);
        StoreKeepsWellformed(rooms, code, CurrentRules.VoteReport(rooms[code], sender, vote));
      }
      RecordVote(code, sender, vote);
    }

    /** The body of vote-report: the vote is recorded and a settled dispute is decided. */
    method RecordVote(code: Code, sender: SocketId, vote: bool)
      modifies this
      ensures code !in old(rooms) ==> rooms == old(rooms)
      ensures code in old(rooms) ==>
        rooms == old(rooms)[code := CurrentRules.VoteReport(old(rooms)[code], sender, vote)]
    {
      if code !in rooms || !rooms[code].game.isPlaying {
        assert code in rooms ==> rooms[code := rooms[code]] == rooms;
        return;
      }
      var room := rooms[code];
      ghost var before := room;
      room := room.(game := room.game.(reports := CastVote(room.game.reports, sender, vote)));
      var totalPlayers := |room.players|;
      var totalVotes := |room.game.reports|;
      var yesVotes := YesVotes(room.game.reports);
      rooms := rooms[code := room];
      ghost var after := CurrentRules.VoteReport(before, sender, vote);
      // `totalPlayers / 2` is a division of JavaScript numbers, hence real.
      if totalVotes == totalPlayers || yesVotes as real > totalPlayers as real / 2.0 {
        if yesVotes as real >= totalPlayers as real / 2.0 {
          var playerIdToLose := if room.game.lastWordPlayerId != [] then room.game.lastWordPlayerId
                                else room.game.currentPlayerId;
          assert after == HandleLose(room, playerIdToLose);
          StoreTwice(old(rooms), code, room, after);
          var _ := HandlePlayerLose(code, playerIdToLose);
        } else {
          room := room.(game := room.game.(reports := []));
          assert after == room;
          rooms := rooms[code := room];
        }
      } else {
        assert after == room;
      }
    }

    /** player-timeout: the sender loses, whoever has the turn. */
    method PlayerTimeout(code: Code, sender: SocketId)
      requires Valid()
      modifies this
      ensures Valid()
      ensures code !in old(rooms) ==> rooms == old(rooms)
      ensures code in old(rooms) ==> rooms == old(rooms)[code := HandleLose(old(rooms)[code], sender)]
    {
      if code in rooms {
        HandleLoseKeepsWellformed(rooms[code], sender);
      }
      var _ := HandlePlayerLose(code, sender);
    }

    /** disconnect: the socket leaves every room it plays in. */
    method Disconnect(sender: SocketId)
      requires Valid()
      modifies this
      ensures Valid()
      ensures rooms == DisconnectAll(old(rooms), sender)
    {
      var pending := rooms.Keys;
      ghost var start := rooms;
      while pending != {}
        invariant pending <= start.Keys
        invariant AllWellformed(rooms)
        invariant rooms == map c | c in start && (c in pending || Depart(start[c], sender).Some?) ::
          if c in pending then start[c] else Depart(start[c], sender).value
        decreases pending
      {
        var c :| c in pending;
        ghost var before := rooms;
        pending := pending - {c};
        LeaveKeepsWellformed(rooms, c, sender);
        RemovePlayer(c, sender);
        assert rooms == Leave(before, c, sender);
      }
    }

    /** check-player-in-room: `None` when the sender plays in the room. */
    method CheckPlayerInRoom(code: Code, sender: SocketId) returns (error: Option<ErrorKind>)
      ensures error == None <==> code in rooms && HasPlayer(rooms[code].players, sender)
      ensures error == Some(RoomNotFound) <==> code !in rooms
      ensures error == None || error == Some(RoomNotFound) || error == Some(NotInRoom)
    {
      if code !in rooms {
        return Some(RoomNotFound);
      }
      var room := rooms[code];
      if IndexOf(room.players, sender) == -1 {
        return Some(NotInRoom);
      }
      return None;
    }

    /** get-room-info: what the room shows, or `None` for an unknown code. */
    method GetRoomInfo(code: Code) returns (info: Option<RoomInfo>)
      ensures info.None? <==> code !in rooms
      ensures info.Some? ==>
        info.value.players == rooms[code].players && info.value.hostId == Some(rooms[code].hostId) &&
        info.value.currentPlayerId == rooms[code].game.currentPlayerId &&
        info.value.isPlaying == rooms[code].game.isPlaying &&
        info.value.currentWord == rooms[code].game.currentWord
    {
      if code !in rooms {
        return None;
      }
      var room := rooms[code];
      info := Some(RoomInfo(room.players, room.game.currentPlayerId, room.game.isPlaying,
                            room.game.currentWord, Some(room.hostId)));
    }

    /** leave-room. */
    method LeaveRoom(code: Code, sender: SocketId)
      requires Valid()
      modifies this
      ensures Valid()
      ensures rooms == Leave(old(rooms), code, sender)
    {
      LeaveKeepsWellformed(rooms, code, sender);
      RemovePlayer(code, sender);
    }

    /** The removal of a player shared by leave-room and disconnect. */
    method RemovePlayer(code: Code, id: Id)
      modifies this
      ensures rooms == Leave(old(rooms), code, id)
    {
      if code !in rooms {
        return;
      }
      var room := rooms[code];
      ghost var before := room;
      var k := IndexOf(room.players, id);
      if k == -1 {
        assert Depart(before, id) == Some(before);
        assert rooms[code := before] == rooms;
        return;
      }
      var isHost := room.hostId == id;
      room := room.(players := room.players[..k] + room.players[k + 1..]);
      // Deleting an id the back-set does not hold leaves it as it is.
      room := room.(backToRoom := if room.backToRoom.Some? then Some(room.backToRoom.value - {id}) else None);
      if |room.players| == 0 {
        assert Depart(before, id) == None;
        rooms := rooms - {code};
        return;
      }
      room := room.(hostId := if isHost then room.players[0].id else room.hostId);
      assert room.players == RemoveAt(before.players, k);
      if room.game.isPlaying && room.game.currentPlayerId == id {
        room := room.(game := room.game.(timer := None));
        assert Depart(before, id) == Some(SelectNext(room));
        StoreTwice(rooms, code, room, SelectNext(room));
        rooms := rooms[code := room];
        SelectNextPlayer(code);
      } else {
        assert Depart(before, id) == Some(room);
        rooms := rooms[code := room];
      }
    }

    /** player-back-to-room. The result says whether the host is told that everyone is back. */
    method PlayerBackToRoom(code: Code, sender: SocketId) returns (allBack: bool)
      requires Valid()
      modifies this
      ensures Valid()
      ensures code !in old(rooms) ==> rooms == old(rooms) && !allBack
      ensures code in old(rooms) ==>
        var (r, b) := BackToRoom(old(rooms)[code], sender);
        rooms == old(rooms)[code := r] && allBack == b
    {
      if code !in rooms {
        return false;
      }
      var room := rooms[code];
      if room.backToRoom.None? {
        room := room.(backToRoom := Some({}));
      }
      room := room.(backToRoom := Some(room.backToRoom.value + {sender}));
      rooms := rooms[code := room];
      allBack := |room.backToRoom.value| == |room.players|;
    }

    /** One second of the room's countdown interval. */
    method Tick(code: Code)
      requires Valid()
      modifies this
      ensures Valid()
      ensures code !in old(rooms) ==> rooms == old(rooms)
      ensures code in old(rooms) ==> rooms == old(rooms)[code := CurrentRules.Tick(old(rooms)[code])]
    {
      if code !in rooms || rooms[code].game.timer.None? {
        assert code in rooms ==> rooms[code := rooms[code]] == rooms;
        return;
      }
      var room := rooms[code];
      ghost var after := CurrentRules.Tick(room);
      TickKeepsWellformed(room);
      StoreKeepsWellformed(rooms, code, after);
      var timeRemaining := room.game.timer.value - 1;
      if timeRemaining <= 0 {
        room := room.(game := room.game.(timer := None));
        assert after == HandleLose(room, room.game.currentPlayerId);
        StoreTwice(rooms, code, room, after);
        rooms := rooms[code := room];
        var _ := HandlePlayerLose(code, room.game.currentPlayerId);
      } else {
        room := room.(game := room.game.(timer := Some(timeRemaining)));
        assert after == room;
        rooms := rooms[code := room];
      }
    }

    /** selectNextPlayer. */
    method SelectNextPlayer(code: Code)
      modifies this
      ensures code !in old(rooms) ==> rooms == old(rooms)
      ensures code in old(rooms) ==> rooms == old(rooms)[code := SelectNext(old(rooms)[code])]
    {
      if code !in rooms {
        return;
      }
      var room := rooms[code];
      if !room.game.isPlaying || |room.players| < 2 {
        assert rooms[code := room] == rooms;
        return;
      }
      ghost var before := room;
      var shuffledPlayerIds := if room.game.order.Some? then room.game.order.value else Ids(room.players);
      var availablePlayerIds := Available(shuffledPlayerIds, room.game.losers);
      if |availablePlayerIds| == 0 {
        room := room.(game := room.game.(isPlaying := false));
        room := room.(players := SortBy(Ascending, room.players));
        assert room == SelectNext(before);
        rooms := rooms[code := room];
        return;
      }
      var index := JsRem(room.game.orderIndex + 1, |availablePlayerIds|);
      room := room.(game := room.game.(orderIndex := index));
      room := room.(game := room.game.(currentPlayerId := if index >= 0 then availablePlayerIds[index] else ""));
      room := room.(game := room.game.(reports := []));
      room := room.(game := room.game.(timer := Some(TurnSeconds)));
      assert room == SelectNext(before);
      rooms := rooms[code := room];
    }

    /** handlePlayerLose. The result is the announced rankings, when the round ends. */
    method HandlePlayerLose(code: Code, id: Id) returns (rankings: Option<seq<Player>>)
      modifies this
      ensures code !in old(rooms) ==> rooms == old(rooms)
      ensures code in old(rooms) ==> rooms == old(rooms)[code := HandleLose(old(rooms)[code], id)]
      ensures rankings == if code in old(rooms) && old(rooms)[code].game.isPlaying
                          then Some(Rankings(old(rooms)[code], id)) else None
    {
      rankings := None;
      if code !in rooms || !rooms[code].game.isPlaying {
        return;
      }
      var room := rooms[code];
      ghost var before := room;
      room := room.(game := room.game.(timer := None));
      var k := IndexOf(room.players, id);
      if k != -1 {
        room := room.(players := room.players[k := room.players[k].(loseCount := room.players[k].loseCount + 1)]);
      }
      assert room.players == AddLoss(before.players, id);
      if !(id in room.game.losers && id != []) {
        room := room.(game := room.game.(losers := room.game.losers + [id]));
      }
      room := room.(game := room.game.(isPlaying := false));
      room := room.(game := room.game.(currentPlayerId := "", orderIndex := -1));
      room := room.(backToRoom := Some({}));
      rankings := Some(SortBy(Ascending, room.players));
      room := room.(game := room.game.(losers := [], currentWord := "", reports := []));
      assert room == HandleLose(before, id);
      rooms := rooms[code := room];
    }
  }
}
