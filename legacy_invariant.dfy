/** Every handler of the older engine keeps `LegacyRules.Wellformed`. */
module LegacyInvariant {
  import opened Common
  import opened Roster
  import opened Votes
  import opened Ranking
  import opened LegacyRules

  /** A freshly created room is well formed. */
  lemma NewRoomWellformed(creator: SocketId)
    ensures Wellformed(NewRoom(creator))
  {
  }

  lemma JoinKeepsWellformed(r: Room, id: SocketId, name: string)
    requires Wellformed(r)
    ensures Wellformed(Join(r, id, name))
  {
    if !HasPlayer(r.players, id) {
      var ps := r.players + [Player(id, name, 0)];
      forall i, j | 0 <= i < j < |ps| ensures ps[i].id != ps[j].id {
        if j == |r.players| {
          assert ps[i] == r.players[i];
        }
      }
    }
  }

  lemma StartGameKeepsWellformed(r: Room, sender: SocketId, pick: nat)
    requires Wellformed(r)
    ensures Wellformed(StartGame(r, sender, pick).0)
  {
  }

  /** In a round with two or more players, selectNextPlayer gives the turn to a player of the
      roster other than the one who had it, clears the reports and changes nothing else. */
  lemma SelectNextPicksOther(r: Room, pick: nat)
    requires UniqueIds(r.players) && r.game.isPlaying && |r.players| >= 2
    ensures var c := SelectNext(r, pick).game.currentPlayerId;
      HasPlayer(r.players, c) && c != r.game.currentPlayerId &&
      SelectNext(r, pick) == r.(game := r.game.(currentPlayerId := c, reports := []))
  {
    var available := Without(r.players, r.game.currentPlayerId);
    WithoutDropsAtMostOne(r.players, r.game.currentPlayerId);
    var p := available[pick % |available|];
    assert p in r.players;
  }

  lemma SelectNextKeepsWellformed(r: Room, pick: nat)
    requires Wellformed(r)
    ensures Wellformed(SelectNext(r, pick))
  {
    if r.game.isPlaying && |r.players| >= 2 {
      SelectNextPicksOther(r, pick);
    }
  }

  /** Adding a non-empty id to the losers keeps them listed once each and non-empty. */
  lemma AddLoserKeepsList(losers: seq<Id>, id: Id)
    requires NoRepeats(losers) && forall i :: 0 <= i < |losers| ==> losers[i] != []
    requires id != []
    ensures var l := AddLoser(losers, id);
      NoRepeats(l) && (forall i :: 0 <= i < |l| ==> l[i] != []) && id in l
  {
    if id !in losers {
      var l := losers + [id];
      forall i, j | 0 <= i < j < |l| ensures l[i] != l[j] {
        if j == |losers| {
          assert l[i] == losers[i];
        }
      }
    }
  }

  /** handlePlayerLose keeps the invariant, provided the loser is a connection id: a socket or
      the current player of a well-formed round. */
  lemma HandleLoseKeepsWellformed(r: Room, id: Id, pick: nat)
    requires Wellformed(r) && id != []
    ensures Wellformed(HandleLose(r, id, pick))
  {
    if r.game.isPlaying {
      var ps := AddLoss(r.players, id);
      SameIds(r.players, ps);
      AddLoserKeepsList(r.game.losers, id);
      if EndsRound(r, id) {
        PermutationKeepsRoster(ps, SortBy(Descending, ps));
      } else {
        SelectNextKeepsWellformed(r.(players := ps, game := r.game.(losers := AddLoser(r.game.losers, id))), pick);
      }
    }
  }

  lemma SubmitWordKeepsWellformed(r: Room, sender: SocketId, word: string, pick: nat)
    requires Wellformed(r)
    ensures Wellformed(SubmitWord(r, sender, word, pick).0)
  {
    if r.game.isPlaying && r.game.currentPlayerId == sender {
      HandleLoseKeepsWellformed(r, sender, pick);
      SelectNextKeepsWellformed(r.(game := r.game.(currentWord := word)), pick);
    }
  }

  lemma ReportWordKeepsWellformed(r: Room, sender: SocketId)
    requires Wellformed(r)
    ensures Wellformed(ReportWord(r, sender))
  {
    AddReportKeepsUnique(r.game.reports, sender);
  }

  lemma VoteReportKeepsWellformed(r: Room, sender: SocketId, vote: bool, pick: nat)
    requires Wellformed(r)
    ensures Wellformed(VoteReport(r, sender, vote, pick))
  {
    if r.game.isPlaying {
      CastVoteKeepsUnique(r.game.reports, sender, vote);
      var r1 := r.(game := r.game.(reports := CastVote(r.game.reports, sender, vote)));
      HandleLoseKeepsWellformed(r1, r1.game.currentPlayerId, pick);
    }
  }

  lemma DepartKeepsWellformed(r: Room, id: Id, pick: nat)
    requires Wellformed(r)
    ensures Depart(r, id, pick).Some? ==> Wellformed(Depart(r, id, pick).value)
  {
    var k := IndexOf(r.players, id);
    if k != -1 && |r.players| >= 2 {
      var ps := RemoveAt(r.players, k);
      RemoveAtUnique(r.players, k);
      assert SocketIds(ps) by {
        forall i | 0 <= i < |ps| ensures ps[i].id != [] {
          assert ps[i] == r.players[if i < k then i else i + 1];
        }
      }
      SelectNextKeepsWellformed(r.(players := ps, hostId := if r.hostId == id then ps[0].id else r.hostId), pick);
    }
  }

  /** Every room of the registry is well formed. */
  predicate AllWellformed(rooms: map<Code, Room>) {
    forall c :: c in rooms ==> Wellformed(rooms[c])
  }

  /** Storing a well-formed room keeps the registry well formed. */
  lemma StoreKeepsWellformed(rooms: map<Code, Room>, code: Code, r: Room)
    requires AllWellformed(rooms) && Wellformed(r)
    ensures AllWellformed(rooms[code := r])
  {
  }

  lemma DisconnectFromKeepsWellformed(rooms: map<Code, Room>, code: Code, id: Id, pick: nat)
    requires AllWellformed(rooms)
    ensures AllWellformed(DisconnectFrom(rooms, code, id, pick))
  {
    if code in rooms {
      DepartKeepsWellformed(rooms[code], id, pick);
    }
  }

  lemma DisconnectAllKeepsWellformed(rooms: map<Code, Room>, id: Id, picks: Code -> nat)
    requires AllWellformed(rooms)
    ensures AllWellformed(DisconnectAll(rooms, id, picks))
  {
    forall c | c in DisconnectAll(rooms, id, picks) ensures Wellformed(DisconnectAll(rooms, id, picks)[c]) {
      DepartKeepsWellformed(rooms[c], id, picks(c));
    }
  }
}
