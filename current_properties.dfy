/** What the handlers of the current engine promise, stated over well-formed rooms. */
module CurrentProperties {
  import opened Common
  import opened Roster
  import opened Votes
  import opened Words
  import opened Ranking
  import opened CurrentRules
  import opened CurrentInvariant

  // ---------------------------------------------------------------------------------------
  // Joining

  /** A socket that already plays in the room changes nothing by joining again. */
  lemma JoinExistingChangesNothing(r: Room, id: SocketId, name: string)
    requires HasPlayer(r.players, id)
    ensures Join(r, id, name) == r
  {
  }

  /** A new socket is appended at the end of the roster with no losses; the earlier players,
      the host and the game are untouched. Between rounds, a room that tracks who is back in the
      lobby counts the newcomer as back, so a latecomer does not hold up start-game. Joining twice
      is the same as joining once. */
  lemma JoinAppends(r: Room, id: SocketId, name: string, name2: string)
    requires !HasPlayer(r.players, id)
    ensures Join(r, id, name).players == r.players + [Player(id, name, 0)]
    ensures Join(r, id, name).hostId == r.hostId && Join(r, id, name).game == r.game
    ensures Join(r, id, name).backToRoom ==
      if !r.game.isPlaying && r.backToRoom.Some? then Some(r.backToRoom.value + {id}) else r.backToRoom
    ensures Join(Join(r, id, name), id, name2) == Join(r, id, name)
  {
  }

  // ---------------------------------------------------------------------------------------
  // Starting a round

  /** start-game succeeds exactly when the sender is the host, there are two or more players,
      no round is in progress, every player is connected and, if the room tracks it, every
      player is back in the lobby. */
  lemma StartGuards(r: Room, sender: SocketId, allConnected: bool, shuffled: seq<Player>)
    requires multiset(shuffled) == multiset(r.players)
    ensures StartGame(r, sender, allConnected, shuffled).1 == None <==>
      sender == r.hostId && |r.players| >= 2 && !r.game.isPlaying && allConnected &&
      (r.backToRoom.Some? ==> forall p :: p in r.players ==> p.id in r.backToRoom.value)
    ensures StartGame(r, sender, allConnected, shuffled).1 != None ==>
      StartGame(r, sender, allConnected, shuffled).0 == r
  {
    if r.backToRoom.Some? && (exists p :: p in r.players && p.id !in r.backToRoom.value) {
      var p :| p in r.players && p.id !in r.backToRoom.value;
      var i :| 0 <= i < |r.players| && r.players[i] == p;
    }
  }

  /** A successful start: the round is on, its order is the players' ids in some order, the
      first id of that order has the turn at index 0, the per-round state is reset, the
      lobby's back-set is emptied, the roster is unchanged, and no countdown runs for the first
      turn. */
  lemma StartState(r: Room, sender: SocketId, allConnected: bool, shuffled: seq<Player>)
    requires Wellformed(r) && multiset(shuffled) == multiset(r.players)
    requires StartGame(r, sender, allConnected, shuffled).1 == None
    ensures var g := StartGame(r, sender, allConnected, shuffled).0.game;
      g.isPlaying && g.order.Some? && multiset(g.order.value) == multiset(Ids(r.players)) &&
      g.orderIndex == 0 && g.currentPlayerId == g.order.value[0] &&
      g.currentWord == [] && g.lastWordPlayerId == [] && g.losers == [] && g.reports == [] &&
      g.timer == None
    ensures var r' := StartGame(r, sender, allConnected, shuffled).0;
      r'.players == r.players && r'.hostId == r.hostId &&
      r'.backToRoom == (if r.backToRoom.Some? then Some({}) else None)
  {
    IdsOfPermutation(shuffled, r.players);
    assert |shuffled| == |multiset(shuffled)| == |r.players|;
  }

  // ---------------------------------------------------------------------------------------
  // Turns

  /** `k` turn changes in a row. */
  function Advance(r: Room, k: nat): Room {
    if k == 0 then r else SelectNext(Advance(r, k - 1))
  }

  /** Position `i` moved `k` steps forward around a cycle of length `n`. */
  function Rotate(i: int, k: int, n: int): (p: int)
    requires n > 0
    ensures 0 <= p < n
  {
    (i + k) % n
  }

  /** Turn changes in a well-formed round with two or more players keep the room well formed,
      the round going, and the roster, the order and the word as they are. */
  lemma {:induction false} AdvanceKeepsRound(r: Room, k: nat)
    requires Wellformed(r) && r.game.isPlaying && |r.players| >= 2
    ensures var a := Advance(r, k);
      Wellformed(a) && a.game.isPlaying && a.players == r.players &&
      a.game.order == r.game.order && a.game.currentWord == r.game.currentWord
  {
    if k > 0 {
      AdvanceKeepsRound(r, k - 1);
      TurnStep(Advance(r, k - 1));
      assert Advance(r, k) == SelectNext(Advance(r, k - 1));
    }
  }

  /** Round robin: in a well-formed round with two or more players, after `k` turn changes the
      turn is at position `(i + k) mod n` of the round's order, where `i` is the current
      position. */
  lemma {:induction false} RoundRobin(r: Room, k: nat)
    requires Wellformed(r) && r.game.isPlaying && |r.players| >= 2
    ensures var n := |r.game.order.value|; var a := Advance(r, k);
      a.game.orderIndex == Rotate(r.game.orderIndex, k, n) &&
      a.game.currentPlayerId == r.game.order.value[Rotate(r.game.orderIndex, k, n)]
  {
    var n := |r.game.order.value|;
    var i := r.game.orderIndex;
    if k == 0 {
      ModUnique(i, n, 0, i);
    } else {
      var a := Advance(r, k - 1);
      RoundRobin(r, k - 1);
      AdvanceKeepsRound(r, k - 1);
      TurnStep(a);
      RotateStep(i, k, n);
      assert Advance(r, k) == SelectNext(a);
    }
  }

  lemma RotateStep(i: int, k: int, n: int)
    requires n > 0
    ensures (Rotate(i, k - 1, n) + 1) % n == Rotate(i, k, n)
  {
    ModSucc(i + k - 1, n);
  }

  /** One turn change in a well-formed round with two or more players. */
  lemma TurnStep(a: Room)
    requires Wellformed(a) && a.game.isPlaying && |a.players| >= 2
    ensures var s := SelectNext(a); var n := |a.game.order.value|;
      Wellformed(s) && s.game.isPlaying && s.players == a.players &&
      s.game.order == a.game.order && s.game.currentWord == a.game.currentWord &&
      s.game.orderIndex == (a.game.orderIndex + 1) % n &&
      s.game.currentPlayerId == a.game.order.value[s.game.orderIndex]
  {
    SelectNextAdvances(a);
    SelectNextKeepsWellformed(a);
  }

  /** Euclidean division is unique: a quotient and a remainder in range are the ones `/` and
      `%` give. */
  lemma ModUnique(a: int, n: int, q: int, m: int)
    requires n > 0 && 0 <= m < n && a == q * n + m
    ensures a % n == m
  {
    var d := q - a / n;
    assert d * n == a % n - m;
  }

  lemma ModSucc(x: int, n: int)
    requires n > 0
    ensures (x % n + 1) % n == (x + 1) % n
  {
    var q := x / n;
    var m := x % n;
    if m + 1 < n {
      ModUnique(x + 1, n, q, m + 1);
      ModUnique(m + 1, n, 0, m + 1);
    } else {
      ModUnique(x + 1, n, q + 1, 0);
      ModUnique(m + 1, n, 1, 0);
    }
  }

  /** Fairness: every id of the round's order gets the turn within fewer than `n` turn changes. */
  lemma EveryoneGetsATurn(r: Room, j: nat)
    requires Wellformed(r) && r.game.isPlaying && |r.players| >= 2
    requires j < |r.game.order.value|
    ensures Advance(r, (j - r.game.orderIndex) % |r.game.order.value|).game.currentPlayerId ==
      r.game.order.value[j]
  {
    var n := |r.game.order.value|;
    var k := (j - r.game.orderIndex) % n;
    RoundRobin(r, k);
    RotateBack(r.game.orderIndex, j, n);
  }

  lemma RotateBack(i: int, j: int, n: int)
    requires n > 0 && 0 <= j < n
    ensures Rotate(i, (j - i) % n, n) == j
  {
    var q := (j - i) / n;
    assert i + (j - i) % n == (-q) * n + j;
    ModUnique(i + (j - i) % n, n, -q, j);
  }

  // ---------------------------------------------------------------------------------------
  // Words

  /** submit-word is ignored outside a round, and a sender who does not have the turn only gets
      an error. */
  lemma SubmitGuards(r: Room, sender: SocketId, word: string)
    ensures !r.game.isPlaying ==> SubmitWord(r, sender, word) == (r, None)
    ensures r.game.isPlaying && r.game.currentPlayerId != sender ==>
      SubmitWord(r, sender, word) == (r, Some(NotYourTurn))
  {
  }

  /** A word from the player who has the turn is accepted exactly when there is no current word
      yet or the word continues it by the token rule. An accepted word becomes the current word
      and its author is recorded; with two or more players the turn moves on in the order, while
      a player left alone in the round (the others having left) keeps the turn, the reports and
      the running countdown. A refused word ends the round with one more loss for its author. */
  lemma SubmitOutcome(r: Room, sender: SocketId, word: string)
    requires Wellformed(r) && r.game.isPlaying && r.game.currentPlayerId == sender
    ensures var (r', e) := SubmitWord(r, sender, word);
      (e == None <==> Continues(r.game.currentWord, word)) &&
      (e == None ==>
        r'.game.isPlaying && r'.game.currentWord == word && r'.game.lastWordPlayerId == sender &&
        r'.players == r.players) &&
      (e == None && |r.players| >= 2 ==>
        r'.game.currentPlayerId == r.game.order.value[(r.game.orderIndex + 1) % |r.game.order.value|]) &&
      (e == None && |r.players| < 2 ==>
        r'.game.currentPlayerId == sender && r'.game.timer == r.game.timer &&
        r'.game.reports == r.game.reports) &&
      (e != None ==>
        e == Some(WordDoesNotContinue) && !r'.game.isPlaying && r'.game.currentWord == [] &&
        r'.players == AddLoss(r.players, sender))
  {
    var r1 := r.(game := r.game.(currentWord := word, lastWordPlayerId := sender));
    if |r.players| >= 2 {
      SelectNextAdvances(r1);
    }
  }

  /** An accepted word is charged to its author if a later dispute rejects it, even though the
      turn has moved on to another player. */
  lemma AcceptedWordChargedToAuthor(r: Room, sender: SocketId, word: string)
    requires Wellformed(r) && r.game.isPlaying && r.game.currentPlayerId == sender
    requires SubmitWord(r, sender, word).1 == None
    ensures ChargedId(SubmitWord(r, sender, word).0.game) == sender
  {
    var r1 := r.(game := r.game.(currentWord := word, lastWordPlayerId := sender));
    SelectNextKeepsWellformed(r1);
    if |r.players| >= 2 {
      SelectNextAdvances(r1);
    }
  }

  // ---------------------------------------------------------------------------------------
  // Disputes

  /** vote-report during a round: until the dispute is settled only the vote is recorded; a
      rejection makes the charged player lose and ends the round; an acceptance clears the
      reports and the round goes on with the same turn. */
  lemma DisputeOutcome(r: Room, sender: SocketId, vote: bool)
    requires Wellformed(r) && r.game.isPlaying
    ensures var rs := CastVote(r.game.reports, sender, vote); var n := |r.players|;
      var r' := VoteReport(r, sender, vote);
      (!Settles(n, rs) ==> r' == r.(game := r.game.(reports := rs))) &&
      (Settles(n, rs) && Rejects(n, rs) ==>
        !r'.game.isPlaying && r'.players == AddLoss(r.players, ChargedId(r.game))) &&
      (Settles(n, rs) && !Rejects(n, rs) ==>
        r' == r.(game := r.game.(reports := [])) && |rs| == n && 2 * YesVotes(rs) < n)
  {
    var rs := CastVote(r.game.reports, sender, vote);
    AcceptedOnlyWhenAllVoted(|r.players|, rs);
  }

  /** Reports are accepted from any socket: in a two-player round a report by one player and a
      "keep" vote by a socket that is not in the room settle the dispute, and the tie rejects
      the word. */
  lemma OutsiderVoteSettles(a: SocketId, b: SocketId, outsider: SocketId, g: GameState)
    requires a != b && outsider != a && outsider != b
    requires g.isPlaying && g.reports == [] && g.lastWordPlayerId == b
    ensures var r := Room([Player(a, "A", 0), Player(b, "B", 0)], a, g, None);
      var r' := VoteReport(ReportWord(r, a), outsider, false);
      !r'.game.isPlaying && r'.players == [Player(a, "A", 0), Player(b, "B", 1)]
  {
    var ps := [Player(a, "A", 0), Player(b, "B", 0)];
    var r1 := ReportWord(Room(ps, a, g, None), a);
    assert r1.game.reports == [Report(a, true)];
    var rs := [Report(a, true), Report(outsider, false)];
    ReportThenOutsider(a, outsider);
    ThresholdsInIntegers(2, rs);
    assert VoteReport(r1, outsider, false) == HandleLose(r1.(game := r1.game.(reports := rs)), b);
    SecondPlayerLoses(a, b);
  }

  /** The entries of the two-player dispute above: one "reject", one "keep". */
  lemma ReportThenOutsider(a: SocketId, outsider: SocketId)
    requires outsider != a
    ensures CastVote([Report(a, true)], outsider, false) == [Report(a, true), Report(outsider, false)]
    ensures YesVotes([Report(a, true), Report(outsider, false)]) == 1
  {
    HasReportSplit([Report(a, true)], outsider);
    YesVotesCons(Report(a, true), [Report(outsider, false)]);
    YesVotesCons(Report(outsider, false), []);
    assert [Report(outsider, false)] + [] == [Report(outsider, false)];
  }

  lemma SecondPlayerLoses(a: SocketId, b: SocketId)
    requires a != b
    ensures AddLoss([Player(a, "A", 0), Player(b, "B", 0)], b) == [Player(a, "A", 0), Player(b, "B", 1)]
  {
    var ps := [Player(a, "A", 0), Player(b, "B", 0)];
    calc {
      AddLoss(ps, b);
      { assert IndexOf(ps, b) == 1 by { assert ps[1..][0].id == b; } }
      ps[1 := ps[1].(loseCount := ps[1].loseCount + 1)];
      [Player(a, "A", 0), Player(b, "B", 1)];
    }
  }

  // ---------------------------------------------------------------------------------------
  // Losing

  /** handlePlayerLose ends a round in progress on the spot: exactly one loss is added over the
      roster if the loser plays in the room (none otherwise), the players keep their order, and
      the per-round state is reset. Outside a round it does nothing. */
  lemma LoseEndsRound(r: Room, id: Id)
    ensures !r.game.isPlaying ==> HandleLose(r, id) == r
    ensures var r' := HandleLose(r, id);
      r.game.isPlaying ==>
        !r'.game.isPlaying && r'.game.currentPlayerId == [] && r'.game.orderIndex == -1 &&
        r'.game.losers == [] && r'.game.currentWord == [] && r'.game.reports == [] &&
        r'.game.timer == None && r'.backToRoom == Some({}) &&
        Ids(r'.players) == Ids(r.players) &&
        TotalLosses(r'.players) == TotalLosses(r.players) + (if HasPlayer(r.players, id) then 1 else 0)
  {
    AddLossTotal(r.players, id);
  }

  /** The announced rankings are the updated roster sorted by ascending losses, ties kept in
      roster order, while the roster itself keeps its order. */
  lemma RankingsAreSortedCopy(r: Room, id: Id, k: nat)
    ensures Ordered(Ascending, Rankings(r, id))
    ensures multiset(Rankings(r, id)) == multiset(AddLoss(r.players, id))
    ensures WithCount(Rankings(r, id), k) == WithCount(AddLoss(r.players, id), k)
  {
    SortByStable(Ascending, AddLoss(r.players, id), k);
  }

  /** The countdown: a turn whose countdown shows `t` seconds ends, after `t` ticks, with the
      current player losing the round. */
  function Ticks(r: Room, k: nat): Room
    decreases k
  {
    if k == 0 then r else Ticks(Tick(r), k - 1)
  }

  lemma {:induction false} CountdownExpires(r: Room)
    requires Wellformed(r) && r.game.timer.Some?
    ensures Ticks(r, r.game.timer.value) ==
      HandleLose(r.(game := r.game.(timer := None)), r.game.currentPlayerId)
    decreases r.game.timer.value
  {
    var t := r.game.timer.value;
    if t > 1 {
      var r1 := r.(game := r.game.(timer := Some(t - 1)));
      assert Tick(r) == r1;
      CountdownExpires(r1);
      assert r1.(game := r1.game.(timer := None)) == r.(game := r.game.(timer := None));
    }
  }

  // ---------------------------------------------------------------------------------------
  // Leaving

  /** A socket that is not a player leaves nothing behind. */
  lemma DepartNonMember(r: Room, id: Id)
    requires !HasPlayer(r.players, id)
    ensures Depart(r, id) == Some(r)
  {
  }

  /** A player leaving a well-formed room: the room is deleted exactly when it was the last
      player; otherwise exactly that player is gone, the others keep their order, the leaver is
      no longer in the lobby's back-set and a leaving host is replaced by the first remaining
      player. */
  lemma DepartOutcome(r: Room, id: Id)
    requires Wellformed(r) && HasPlayer(r.players, id)
    ensures Depart(r, id).None? <==> |r.players| == 1
    ensures Depart(r, id).Some? ==> var r' := Depart(r, id).value;
      r'.players == RemoveAt(r.players, IndexOf(r.players, id)) &&
      (forall x :: HasPlayer(r'.players, x) <==> HasPlayer(r.players, x) && x != id) &&
      (r'.backToRoom.Some? ==> id !in r'.backToRoom.value) &&
      r'.hostId == (if r.hostId == id then r'.players[0].id else r.hostId)
  {
    RemoveAtKeepsOthers(r.players, id);
    DepartTurn(r, id);
  }

  /** The turn after a player leaves a well-formed room: if the leaver had the turn and two or
      more players remain the turn moves on in the order with a fresh countdown; if the leaver
      did not have the turn the game state is untouched. */
  lemma DepartTurn(r: Room, id: Id)
    requires Wellformed(r) && HasPlayer(r.players, id)
    ensures Depart(r, id).Some? ==> var r' := Depart(r, id).value;
      r'.players == RemoveAt(r.players, IndexOf(r.players, id)) &&
      (r.game.isPlaying && r.game.currentPlayerId == id && |r'.players| >= 2 ==>
        r'.game.isPlaying && r'.game.timer == Some(TurnSeconds) &&
        r'.game.currentPlayerId == r.game.order.value[(r.game.orderIndex + 1) % |r.game.order.value|]) &&
      (!(r.game.isPlaying && r.game.currentPlayerId == id) ==> r'.game == r.game)
  {
    var k := IndexOf(r.players, id);
    var ps := RemoveAt(r.players, k);
    if |ps| >= 2 && r.game.isPlaying && r.game.currentPlayerId == id {
      DepartStepWellformed(r, id);
      var back := if r.backToRoom.Some? then Some(r.backToRoom.value - {id}) else None;
      SelectNextAdvances(Room(ps, if r.hostId == id then ps[0].id else r.hostId, r.game.(timer := None), back));
    }
  }

  /** disconnect does in every room what leave-room does in that one room. */
  lemma DisconnectIsLeaveEverywhere(rooms: map<Code, Room>, id: Id, code: Code)
    ensures code in DisconnectAll(rooms, id) <==> code in Leave(rooms, code, id)
    ensures code in DisconnectAll(rooms, id) ==> DisconnectAll(rooms, id)[code] == Leave(rooms, code, id)[code]
  {
  }

  /** After a disconnect the socket plays in no room, and no room appears. */
  lemma DisconnectRemovesEverywhere(rooms: map<Code, Room>, id: Id)
    requires AllWellformed(rooms)
    ensures forall c :: c in DisconnectAll(rooms, id) ==> c in rooms && !HasPlayer(DisconnectAll(rooms, id)[c].players, id)
  {
    forall c | c in DisconnectAll(rooms, id) ensures !HasPlayer(DisconnectAll(rooms, id)[c].players, id) {
      if HasPlayer(rooms[c].players, id) {
        DepartOutcome(rooms[c], id);
      }
    }
  }

  // ---------------------------------------------------------------------------------------
  // Back in the lobby

  /** The sender is marked as back, and the host hears that everyone is back exactly when the
      back-set is as large as the roster. */
  lemma BackToRoomMarks(r: Room, sender: SocketId)
    ensures var (r', allBack) := BackToRoom(r, sender);
      r'.backToRoom.Some? && sender in r'.backToRoom.value &&
      (allBack <==> |r'.backToRoom.value| == |r.players|) &&
      r'.players == r.players && r'.game == r.game && r'.hostId == r.hostId
  {
  }
}
