/** What the handlers of the older engine promise, stated over well-formed rooms. */
module LegacyProperties {
  import opened Common
  import opened Roster
  import opened Votes
  import opened Words
  import opened Ranking
  import opened LegacyRules
  import opened LegacyInvariant

  // ---------------------------------------------------------------------------------------
  // Joining

  /** A socket that already plays in the room changes nothing by joining again; a new socket
      is appended at the end of the roster with no losses, the host and the game untouched.
      Joining twice is the same as joining once. */
  lemma JoinAppends(r: Room, id: SocketId, name: string, name2: string)
    ensures HasPlayer(r.players, id) ==> Join(r, id, name) == r
    ensures !HasPlayer(r.players, id) ==>
      Join(r, id, name).players == r.players + [Player(id, name, 0)] &&
      Join(r, id, name).hostId == r.hostId && Join(r, id, name).game == r.game
    ensures Join(Join(r, id, name), id, name2) == Join(r, id, name)
  {
  }

  // ---------------------------------------------------------------------------------------
  // Starting a round

  /** start-game succeeds exactly when the sender is the host and there are two or more
      players, whether or not a round is in progress; a refused start changes nothing. */
  lemma StartGuards(r: Room, sender: SocketId, pick: nat)
    ensures StartGame(r, sender, pick).1 == None <==> sender == r.hostId && |r.players| >= 2
    ensures sender != r.hostId ==> StartGame(r, sender, pick) == (r, Some(NotHost))
    ensures sender == r.hostId && |r.players| < 2 ==> StartGame(r, sender, pick) == (r, Some(TooFewPlayers))
  {
  }

  /** A successful start: the round is on, a member of the roster has the turn, the word, the
      losers and the reports are reset, and the roster and its loss counts are kept. Any
      member can be the one picked. */
  lemma StartState(r: Room, sender: SocketId, pick: nat, x: Id)
    requires Wellformed(r) && StartGame(r, sender, pick).1 == None
    ensures var r' := StartGame(r, sender, pick).0;
      r'.game.isPlaying && HasPlayer(r.players, r'.game.currentPlayerId) &&
      r'.game.currentWord == [] && r'.game.losers == [] && r'.game.reports == [] &&
      r'.players == r.players && r'.hostId == r.hostId
    ensures HasPlayer(r.players, x) ==> exists p: nat :: StartGame(r, sender, p).0.game.currentPlayerId == x
  {
    var n := |r.players|;
    assert r.players[pick % n].id == StartGame(r, sender, pick).0.game.currentPlayerId;
    if HasPlayer(r.players, x) {
      var k := IndexOf(r.players, x);
      ModBelow(k, n);
      assert StartGame(r, sender, k).0.game.currentPlayerId == x;
    }
  }

  /** A random pick below the length is used as it is. */
  lemma ModBelow(j: nat, n: nat)
    requires j < n
    ensures j % n == j
  {
  }

  // ---------------------------------------------------------------------------------------
  // Turns

  /** Any player other than the one who has the turn can be picked next, whether or not that
      player has already lost in this round. */
  lemma SelectNextReachesEveryOther(r: Room, x: Id)
    requires UniqueIds(r.players) && r.game.isPlaying && |r.players| >= 2
    requires HasPlayer(r.players, x) && x != r.game.currentPlayerId
    ensures exists pick: nat :: SelectNext(r, pick).game.currentPlayerId == x
  {
    var available := Without(r.players, r.game.currentPlayerId);
    var p := r.players[IndexOf(r.players, x)];
    assert p in available;
    var j :| 0 <= j < |available| && available[j] == p;
    ModBelow(j, |available|);
    assert SelectNext(r, j) == r.(game := r.game.(currentPlayerId := available[j].id, reports := []));
  }

  /** A player who has already lost in this round can get the turn again. */
  lemma LoserCanGetTheTurn(r: Room, x: Id)
    requires Wellformed(r) && r.game.isPlaying && |r.players| >= 2
    requires HasPlayer(r.players, x) && x in r.game.losers && x != r.game.currentPlayerId
    ensures exists pick: nat :: (SelectNext(r, pick).game.currentPlayerId == x &&
      x in SelectNext(r, pick).game.losers)
  {
    SelectNextReachesEveryOther(r, x);
    var pick: nat :| SelectNext(r, pick).game.currentPlayerId == x;
    SelectNextPicksOther(r, pick);
  }

  // ---------------------------------------------------------------------------------------
  // Words

  /** submit-word is ignored outside a round, and a sender who does not have the turn only gets
      an error. */
  lemma SubmitGuards(r: Room, sender: SocketId, word: string, pick: nat)
    ensures !r.game.isPlaying ==> SubmitWord(r, sender, word, pick) == (r, None)
    ensures r.game.isPlaying && r.game.currentPlayerId != sender ==>
      SubmitWord(r, sender, word, pick) == (r, Some(NotYourTurn))
  {
  }

  /** A word from the player who has the turn is accepted exactly when there is no current word
      yet or it starts with the last letter of the current word, up to case. An accepted word
      becomes the current word; with two or more players another player of the roster gets the
      turn and the reports are cleared, while a player left alone in the round keeps the turn
      and the reports. A refused word makes its author lose. No private error is sent either
      way. */
  lemma SubmitOutcome(r: Room, sender: SocketId, word: string, pick: nat)
    requires Wellformed(r) && r.game.isPlaying && r.game.currentPlayerId == sender
    ensures var (r', e) := SubmitWord(r, sender, word, pick);
      e == None &&
      (ContinuesByLetter(r.game.currentWord, word) ==>
        r'.game.isPlaying && r'.game.currentWord == word && r'.players == r.players &&
        r'.game.losers == r.game.losers) &&
      (ContinuesByLetter(r.game.currentWord, word) && |r.players| >= 2 ==>
        r'.game.reports == [] &&
        HasPlayer(r.players, r'.game.currentPlayerId) && r'.game.currentPlayerId != sender) &&
      (ContinuesByLetter(r.game.currentWord, word) && |r.players| < 2 ==>
        r'.game.currentPlayerId == sender && r'.game.reports == r.game.reports) &&
      (!ContinuesByLetter(r.game.currentWord, word) ==> r' == HandleLose(r, sender, pick))
  {
    if ContinuesByLetter(r.game.currentWord, word) && |r.players| >= 2 {
      SelectNextPicksOther(r.(game := r.game.(currentWord := word)), pick);
    }
  }

  // ---------------------------------------------------------------------------------------
  // Disputes

  /** vote-report during a round: until the dispute is settled only the vote is recorded; a
      rejection makes the player who has the turn lose; an acceptance clears the reports and the
      round goes on with the same turn. */
  lemma DisputeOutcome(r: Room, sender: SocketId, vote: bool, pick: nat)
    requires r.game.isPlaying
    ensures var rs := CastVote(r.game.reports, sender, vote); var n := |r.players|;
      var r1 := r.(game := r.game.(reports := rs));
      var r' := VoteReport(r, sender, vote, pick);
      (!Settles(n, rs) ==> r' == r1) &&
      (Settles(n, rs) && Rejects(n, rs) ==> r' == HandleLose(r1, r.game.currentPlayerId, pick)) &&
      (Settles(n, rs) && !Rejects(n, rs) ==>
        r' == r.(game := r.game.(reports := [])) && |rs| == n && 2 * YesVotes(rs) < n)
  {
    var rs := CastVote(r.game.reports, sender, vote);
    AcceptedOnlyWhenAllVoted(|r.players|, rs);
  }

  /** After an accepted word the turn has passed to another player, so a dispute that rejects
      the word charges a player of the roster who is not its author. */
  lemma AcceptedWordChargedToNextPlayer(r: Room, sender: SocketId, word: string, pick: nat)
    requires Wellformed(r) && r.game.isPlaying && r.game.currentPlayerId == sender
    requires |r.players| >= 2 && ContinuesByLetter(r.game.currentWord, word)
    ensures var r1 := SubmitWord(r, sender, word, pick).0;
      r1.game.currentPlayerId != sender && HasPlayer(r1.players, r1.game.currentPlayerId) &&
      r1.game.currentWord == word
  {
    SubmitOutcome(r, sender, word, pick);
  }

  // ---------------------------------------------------------------------------------------
  // Losing

  /** handlePlayerLose outside a round does nothing; during a round it ends the round exactly
      when at most one player of the roster is not among the losers once the loser is added. */
  lemma LoseEndsRoundIff(r: Room, id: Id, pick: nat)
    ensures !r.game.isPlaying ==> HandleLose(r, id, pick) == r
    ensures r.game.isPlaying ==> (!HandleLose(r, id, pick).game.isPlaying <==>
      |Remaining(AddLoss(r.players, id), AddLoser(r.game.losers, id))| <= 1)
  {
  }

  /** The loser gets exactly one more loss if it plays in the room, and is listed among the
      losers once; when the round goes on, another player of the roster gets the turn and the
      roster keeps its order. */
  lemma LoseContinues(r: Room, id: Id, pick: nat)
    requires Wellformed(r) && r.game.isPlaying && id != [] && !EndsRound(r, id)
    ensures var r' := HandleLose(r, id, pick);
      r'.game.isPlaying && r'.players == AddLoss(r.players, id) &&
      TotalLosses(r'.players) == TotalLosses(r.players) + (if HasPlayer(r.players, id) then 1 else 0) &&
      r'.game.losers == AddLoser(r.game.losers, id) && id in r'.game.losers &&
      |r'.game.losers| == |r.game.losers| + (if id in r.game.losers then 0 else 1) &&
      r'.game.currentWord == r.game.currentWord && r'.game.reports == [] &&
      HasPlayer(r.players, r'.game.currentPlayerId) && r'.game.currentPlayerId != r.game.currentPlayerId
  {
    var ps := AddLoss(r.players, id);
    AddLossTotal(r.players, id);
    SameIds(r.players, ps);
    AddLoserKeepsList(r.game.losers, id);
    SelectNextPicksOther(r.(players := ps, game := r.game.(losers := AddLoser(r.game.losers, id))), pick);
  }

  /** When the round ends, the roster itself is sorted in place by descending losses (ties in
      their previous order) and announced as the rankings; the losers, the word and the reports
      are reset while the last current player id is kept. */
  lemma LoseAtRoundEnd(r: Room, id: Id, pick: nat, k: nat)
    requires EndsRound(r, id)
    ensures var r' := HandleLose(r, id, pick);
      !r'.game.isPlaying && r'.players == SortBy(Descending, AddLoss(r.players, id)) &&
      Ordered(Descending, r'.players) && multiset(r'.players) == multiset(AddLoss(r.players, id)) &&
      WithCount(r'.players, k) == WithCount(AddLoss(r.players, id), k) &&
      TotalLosses(r'.players) == TotalLosses(r.players) + (if HasPlayer(r.players, id) then 1 else 0) &&
      r'.game.losers == [] && r'.game.currentWord == [] && r'.game.reports == [] &&
      r'.game.currentPlayerId == r.game.currentPlayerId && r'.hostId == r.hostId
  {
    var ps := AddLoss(r.players, id);
    AddLossTotal(r.players, id);
    SortByStable(Descending, ps, k);
    PermutationTotal(ps, SortBy(Descending, ps));
  }

  // ---------------------------------------------------------------------------------------
  // Disconnecting

  /** A socket that is not a player leaves nothing behind. */
  lemma DepartNonMember(r: Room, id: Id, pick: nat)
    requires !HasPlayer(r.players, id)
    ensures Depart(r, id, pick) == Some(r)
  {
  }

  /** A player disconnecting from a well-formed room: the room is deleted exactly when it was
      the last player; otherwise exactly that player is gone, the others keep their order and a
      leaving host is replaced by the first remaining player. */
  lemma DepartOutcome(r: Room, id: Id, pick: nat)
    requires Wellformed(r) && HasPlayer(r.players, id)
    ensures Depart(r, id, pick).None? <==> |r.players| == 1
    ensures Depart(r, id, pick).Some? ==> var r' := Depart(r, id, pick).value;
      r'.players == RemoveAt(r.players, IndexOf(r.players, id)) &&
      (forall x :: HasPlayer(r'.players, x) <==> HasPlayer(r.players, x) && x != id) &&
      r'.hostId == (if r.hostId == id then r'.players[0].id else r.hostId)
  {
    RemoveAtKeepsOthers(r.players, id);
  }

  /** The turn after a player disconnects: if the leaver had the turn and two or more players
      remain, one of them gets the turn; if only one remains the turn stays with the departed
      id; if the leaver did not have the turn the game state is untouched. */
  lemma DepartTurn(r: Room, id: Id, pick: nat)
    requires Wellformed(r) && HasPlayer(r.players, id)
    ensures Depart(r, id, pick).Some? ==> var r' := Depart(r, id, pick).value;
      r'.game.isPlaying == r.game.isPlaying &&
      (r.game.isPlaying && r.game.currentPlayerId == id && |r'.players| >= 2 ==>
        HasPlayer(r'.players, r'.game.currentPlayerId) && r'.game.reports == []) &&
      (r.game.isPlaying && r.game.currentPlayerId == id && |r'.players| == 1 ==>
        r'.game == r.game) &&
      (!(r.game.isPlaying && r.game.currentPlayerId == id) ==> r'.game == r.game)
  {
    var k := IndexOf(r.players, id);
    var ps := RemoveAt(r.players, k);
    if |ps| >= 2 && r.game.isPlaying && r.game.currentPlayerId == id {
      RemoveAtUnique(r.players, k);
      SelectNextPicksOther(r.(players := ps, hostId := if r.hostId == id then ps[0].id else r.hostId), pick);
    }
  }

  /** After a disconnect the socket plays in no room, and no room appears. */
  lemma DisconnectRemovesEverywhere(rooms: map<Code, Room>, id: Id, picks: Code -> nat)
    requires AllWellformed(rooms)
    ensures forall c :: c in DisconnectAll(rooms, id, picks) ==>
      c in rooms && !HasPlayer(DisconnectAll(rooms, id, picks)[c].players, id)
  {
    forall c | c in DisconnectAll(rooms, id, picks)
      ensures !HasPlayer(DisconnectAll(rooms, id, picks)[c].players, id)
    {
      if HasPlayer(rooms[c].players, id) {
        DepartOutcome(rooms[c], id, picks(c));
      }
    }
  }
}
