/** Every handler of the current engine keeps `Wellformed`. */
module CurrentInvariant {
  import opened Common
  import opened Roster
  import opened Votes
  import opened Ranking
  import opened CurrentRules
  import Seqs

  /** A freshly created room is well formed. */
  lemma NewRoomWellformed(creator: SocketId)
    ensures Wellformed(NewRoom(creator))
  {
  }

  lemma JoinKeepsWellformed(r: Room, id: SocketId, name: string)
    requires Wellformed(r)
    ensures Wellformed(Join(r, id, name))
  {
    if !HasPlayer(r.players, id) {
      var ps := r.players + [Player(id, name, 0)];
      forall i, j | 0 <= i < j < |ps| ensures ps[i].id != ps[j].id {
        if j == |r.players| {
          assert ps[i] == r.players[i];
        }
      }
    }
  }

  /** During a well-formed round the ids still to play are the whole order, and the current
      index points into it. */
  lemma AvailableIsOrder(r: Room)
    requires Wellformed(r) && r.game.isPlaying
    ensures Available(r.game.order.value, r.game.losers) == r.game.order.value
  {
    Seqs.FilterKeepsAll(r.game.order.value, (x: Id) => x !in r.game.losers);
  }

  /** selectNextPlayer in a well-formed round with two or more players: the index moves one step
      forward around the whole order, the id there gets the turn, the reports are cleared, a
      full countdown starts and nothing else changes. */
  lemma SelectNextAdvances(r: Room)
    requires Wellformed(r) && r.game.isPlaying && |r.players| >= 2
    ensures var n := |r.game.order.value|;
      SelectNext(r) == r.(game := r.game.(orderIndex := (r.game.orderIndex + 1) % n,
                                           currentPlayerId := r.game.order.value[(r.game.orderIndex + 1) % n],
                                           reports := [], timer := Some(TurnSeconds)))
  {
    AvailableIsOrder(r);
  }

  lemma SelectNextKeepsWellformed(r: Room)
    requires Wellformed(r)
    ensures Wellformed(SelectNext(r))
  {
    if r.game.isPlaying && |r.players| >= 2 {
      SelectNextAdvances(r);
    }
  }

  lemma HandleLoseKeepsWellformed(r: Room, id: Id)
    requires Wellformed(r)
    ensures Wellformed(HandleLose(r, id))
  {
    SameIds(r.players, AddLoss(r.players, id));
  }

  lemma StartGameKeepsWellformed(r: Room, sender: SocketId, allConnected: bool, shuffled: seq<Player>)
    requires Wellformed(r) && multiset(shuffled) == multiset(r.players)
    ensures Wellformed(StartGame(r, sender, allConnected, shuffled).0)
  {
    assert |shuffled| == |multiset(shuffled)| == |r.players|;
  }

  lemma SubmitWordKeepsWellformed(r: Room, sender: SocketId, word: string)
    requires Wellformed(r)
    ensures Wellformed(SubmitWord(r, sender, word).0)
  {
    if r.game.isPlaying && r.game.currentPlayerId == sender {
      HandleLoseKeepsWellformed(r, sender);
      SelectNextKeepsWellformed(r.(game := r.game.(currentWord := word, lastWordPlayerId := sender)));
    }
  }

  lemma ReportWordKeepsWellformed(r: Room, sender: SocketId)
    requires Wellformed(r)
    ensures Wellformed(ReportWord(r, sender))
  {
    AddReportKeepsUnique(r.game.reports, sender);
  }

  lemma VoteReportKeepsWellformed(r: Room, sender: SocketId, vote: bool)
    requires Wellformed(r)
    ensures Wellformed(VoteReport(r, sender, vote))
  {
    if r.game.isPlaying {
      CastVoteKeepsUnique(r.game.reports, sender, vote);
      var r1 := r.(game := r.game.(reports := CastVote(r.game.reports, sender, vote)));
      HandleLoseKeepsWellformed(r1, ChargedId(r1.game));
    }
  }

  /** The room right after the leaver is spliced out and the host is handed on, before any
      turn change, is well formed. */
  lemma DepartStepWellformed(r: Room, id: Id)
    requires Wellformed(r) && HasPlayer(r.players, id)
    requires |r.players| >= 2
    ensures var ps := RemoveAt(r.players, IndexOf(r.players, id));
      var back := if r.backToRoom.Some? then Some(r.backToRoom.value - {id}) else None;
      Wellformed(Room(ps, if r.hostId == id then ps[0].id else r.hostId, r.game.(timer := None), back)) &&
      Wellformed(Room(ps, if r.hostId == id then ps[0].id else r.hostId, r.game, back))
  {
    var ps := RemoveAt(r.players, IndexOf(r.players, id));
    RemoveAtKeepsOthers(r.players, id);
    assert SocketIds(ps) by {
      forall i | 0 <= i < |ps| ensures ps[i].id != [] {
        assert HasPlayer(ps, ps[i].id);
      }
    }
  }

  lemma DepartKeepsWellformed(r: Room, id: Id)
    requires Wellformed(r)
    ensures Depart(r, id).Some? ==> Wellformed(Depart(r, id).value)
  {
    var k := IndexOf(r.players, id);
    if k != -1 && |r.players| >= 2 {
      DepartStepWellformed(r, id);
      var ps := RemoveAt(r.players, k);
      var back := if r.backToRoom.Some? then Some(r.backToRoom.value - {id}) else None;
      var r1 := Room(ps, if r.hostId == id then ps[0].id else r.hostId, r.game, back);
      SelectNextKeepsWellformed(r1.(game := r1.game.(timer := None)));
    }
  }

  lemma BackToRoomKeepsWellformed(r: Room, sender: SocketId)
    requires Wellformed(r)
    ensures Wellformed(BackToRoom(r, sender).0)
  {
  }

  lemma TickKeepsWellformed(r: Room)
    requires Wellformed(r)
    ensures Wellformed(Tick(r))
  {
    if r.game.timer.Some? && r.game.timer.value - 1 <= 0 {
      HandleLoseKeepsWellformed(r.(game := r.game.(timer := None)), r.game.currentPlayerId);
    }
  }

  /** Every room of the registry is well formed. */
  predicate AllWellformed(rooms: map<Code, Room>) {
    forall c :: c in rooms ==> Wellformed(rooms[c])
  }

  /** Storing a well-formed room keeps the registry well formed. */
  lemma StoreKeepsWellformed(rooms: map<Code, Room>, code: Code, r: Room)
    requires AllWellformed(rooms) && Wellformed(r)
    ensures AllWellformed(rooms[code := r])
  {
  }

  lemma LeaveKeepsWellformed(rooms: map<Code, Room>, code: Code, id: Id)
    requires AllWellformed(rooms)
    ensures AllWellformed(Leave(rooms, code, id))
  {
    if code in rooms {
      DepartKeepsWellformed(rooms[code], id);
    }
  }

  lemma DisconnectAllKeepsWellformed(rooms: map<Code, Room>, id: Id)
    requires AllWellformed(rooms)
    ensures AllWellformed(DisconnectAll(rooms, id))
  {
    forall c | c in DisconnectAll(rooms, id) ensures Wellformed(DisconnectAll(rooms, id)[c]) {
      DepartKeepsWellformed(rooms[c], id);
    }
  }
}
