/** Behaviour of the older engine that follows from the code as written, and where it parts
    from the current engine. */
module LegacyScenarios {
  import opened Common
  import opened Roster
  import opened Votes
  import opened Words
  import opened Ranking
  import CurrentRules
  import opened LegacyRules
  import opened LegacyInvariant
  import opened LegacyProperties

  /** The older engine has no guard against a round in progress: the host can restart a
      running round, discarding its word and losers, where the current engine refuses. */
  lemma RestartWhilePlaying(r: Room, pick: nat, allConnected: bool, shuffled: seq<Player>)
    requires r.game.isPlaying && |r.players| >= 2 && r.hostId != []
    requires multiset(shuffled) == multiset(r.players)
    ensures var host: SocketId := r.hostId;
      CurrentRules.StartGame(r, host, allConnected, shuffled) == (r, Some(GameInProgress)) &&
      LegacyRules.StartGame(r, host, pick).1 == None &&
      LegacyRules.StartGame(r, host, pick).0.game.losers == [] &&
      LegacyRules.StartGame(r, host, pick).0.game.currentWord == []
  {
  }

  /** A two-player round where `a` plays the first word and `b`, who now has the turn, votes to
      keep it after `a` reported it: the tie rejects the word, and `b` is charged with it. The
      round ends and the roster, sorted in place by descending losses, now starts with `b`. */
  lemma DisputeChargesTurnHolder(a: SocketId, b: SocketId, g: GameState, p1: nat, p2: nat)
    requires a != b && g.isPlaying && g.currentPlayerId == a && g.currentWord == []
    requires g.losers == [] && g.reports == []
    ensures var r := Room([Player(a, "A", 0), Player(b, "B", 0)], a, g, None);
      var r1 := LegacyRules.SubmitWord(r, a, "apple", p1).0;
      var r2 := LegacyRules.VoteReport(ReportWord(r1, a), b, false, p2);
      r1.game.currentPlayerId == b && !r2.game.isPlaying &&
      r2.players == [Player(b, "B", 1), Player(a, "A", 0)]
  {
    var pa, pb := Player(a, "A", 0), Player(b, "B", 0);
    var r := Room([pa, pb], a, g, None);
    assert Without([pa, pb], a) == [pb] by {
      assert [pa, pb][1..] == [pb];
      assert [pb][1..] == [];
    }
    var r1 := LegacyRules.SubmitWord(r, a, "apple", p1).0;
    assert r1.game.currentPlayerId == b;
    var r2 := ReportWord(r1, a);
    assert r2.game.reports == [Report(a, true)];
    var rs := [Report(a, true), Report(b, false)];
    OutsiderTieRejects(a, b);
    var r3 := r2.(game := r2.game.(reports := rs));
    assert LegacyRules.VoteReport(r2, b, false, p2) == LegacyRules.HandleLose(r3, b, p2);
    LoserMovesToFront(a, b, r3.game, p2);
  }

  /** The entries of the two-player dispute above: one "reject", one "keep", which settles it
      and rejects the word. */
  lemma OutsiderTieRejects(a: SocketId, b: SocketId)
    requires a != b
    ensures CastVote([Report(a, true)], b, false) == [Report(a, true), Report(b, false)]
    ensures Settles(2, [Report(a, true), Report(b, false)]) && Rejects(2, [Report(a, true), Report(b, false)])
  {
    HasReportSplit([Report(a, true)], b);
    YesVotesCons(Report(a, true), [Report(b, false)]);
    YesVotesCons(Report(b, false), []);
    assert [Report(b, false)] + [] == [Report(b, false)];
    ThresholdsInIntegers(2, [Report(a, true), Report(b, false)]);
  }

  /** The second player of a two-player round losing ends the round, and the in-place sort
      puts that player in front of the first. */
  lemma LoserMovesToFront(a: SocketId, b: SocketId, g: GameState, pick: nat)
    requires a != b && g.isPlaying && g.losers == []
    ensures var r := Room([Player(a, "A", 0), Player(b, "B", 0)], a, g, None);
      !LegacyRules.HandleLose(r, b, pick).game.isPlaying &&
      LegacyRules.HandleLose(r, b, pick).players == [Player(b, "B", 1), Player(a, "A", 0)]
  {
    var ps := [Player(a, "A", 0), Player(b, "B", 0)];
    var lost := [Player(a, "A", 0), Player(b, "B", 1)];
    var r := Room(ps, a, g, None);
    assert AddLoss(ps, b) == lost by {
      assert IndexOf(ps, b) == 1 by { assert ps[1..][0].id == b; }
    }
    var r1 := r.(players := lost, game := g.(losers := [b]));
    assert WithLoss(r, b) == r1;
    assert RoundOver(r1) by {
      RemainingCons(Player(a, "A", 0), [Player(b, "B", 1)], [b]);
      assert Remaining([Player(b, "B", 1)], [b]) == [] by {
        assert [Player(b, "B", 1)][1..] == [];
      }
    }
    SwapPair(Player(a, "A", 0), Player(b, "B", 1));
    assert EndOrPass(r1, pick).players == [Player(b, "B", 1), Player(a, "A", 0)];
  }

  /** Sorting two players by descending losses swaps them when the second has more. */
  lemma SwapPair(x: Player, y: Player)
    requires x.loseCount < y.loseCount
    ensures SortBy(Descending, [x, y]) == [y, x]
  {
    calc {
      SortBy(Descending, [x, y]);
      { assert [x, y][1..] == [y];
        SortByOrdered(Descending, [y]); }
      Insert(Descending, x, [y]);
      { assert [y][1..] == []; }
      [y, x];
    }
  }

  /** When the player with the turn disconnects from a two-player round, the round goes on with
      the departed id holding the turn: the remaining player cannot submit, and the round only
      ends when that player's own timeout makes them lose. */
  lemma TwoPlayerRoundStallsWhenCurrentLeaves(r: Room, other: SocketId, word: string, pick: nat, p2: nat)
    requires Wellformed(r) && r.game.isPlaying && |r.players| == 2
    requires HasPlayer(r.players, r.game.currentPlayerId)
    requires HasPlayer(r.players, other) && other != r.game.currentPlayerId
    ensures Depart(r, r.game.currentPlayerId, pick).Some?
    ensures var r1 := Depart(r, r.game.currentPlayerId, pick).value;
      r1.game == r.game && !HasPlayer(r1.players, r1.game.currentPlayerId) &&
      LegacyRules.SubmitWord(r1, other, word, p2) == (r1, Some(NotYourTurn)) &&
      !LegacyRules.HandleLose(r1, other, p2).game.isPlaying
  {
    var c := r.game.currentPlayerId;
    DepartOutcome(r, c, pick);
    DepartTurn(r, c, pick);
    var r1 := Depart(r, c, pick).value;
    assert |Remaining(AddLoss(r1.players, other), AddLoser(r1.game.losers, other))| <= 1;
  }
}
