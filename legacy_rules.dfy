/** The rules of the older engine (server.js) as functions from a room to the room the handler
    leaves behind. The older engine picks players at random; `pick` stands for the outcome of
    `Math.floor(Math.random() * n)` and the index used is `pick % n`, so every index can occur.
    It keeps no turn order, no author of the current word, no countdown and no back-set. */
module LegacyRules {
  import opened Common
  import opened Roster
  import opened Votes
  import opened Words
  import opened Ranking
  import Seqs

  // ---------------------------------------------------------------------------------------
  // The invariant every room keeps

  /** No id is listed twice. */
  predicate NoRepeats(ids: seq<Id>) {
    forall i, j :: 0 <= i < j < |ids| ==> ids[i] != ids[j]
  }

  /** What holds of every room between two events: ids are unique connection ids, the host is a
      connection id, each socket has at most one report entry, the losers of the round are listed
      once each and are connection ids, `losers` is empty between rounds, and a round in
      progress has someone holding the turn. */
  predicate Wellformed(r: Room) {
    UniqueIds(r.players) && SocketIds(r.players) && r.hostId != [] &&
    UniqueReporters(r.game.reports) &&
    NoRepeats(r.game.losers) && (forall i :: 0 <= i < |r.game.losers| ==> r.game.losers[i] != []) &&
    (!r.game.isPlaying ==> r.game.losers == []) &&
    (r.game.isPlaying ==> r.game.currentPlayerId != [])
  }

  // ---------------------------------------------------------------------------------------
  // The handlers

  /** join-room on an existing room: a socket that is already a player changes nothing; a new
      socket is appended with no losses. */
  function Join(r: Room, id: SocketId, name: string): (r': Room)
    ensures HasPlayer(r'.players, id)
  {
    if HasPlayer(r.players, id) then r
    else
      var r1 := r.(players := r.players + [Player(id, name, 0)]);
      assert r1.players[|r.players|].id == id;
      r1
  }

  /** The guards of start-game, in the order they are checked: there is no guard against a
      round in progress. */
  function StartCheck(r: Room, sender: SocketId): Option<ErrorKind> {
    if sender != r.hostId then Some(NotHost)
    else if |r.players| < 2 then Some(TooFewPlayers)
    else None
  }

  /** start-game: the per-round state is reset and a player picked at random gets the turn. */
  function StartGame(r: Room, sender: SocketId, pick: nat): (Room, Option<ErrorKind>) {
    var e := StartCheck(r, sender);
    if e.Some? then (r, e)
    else
      (r.(game := r.game.(isPlaying := true, currentWord := "", losers := [], reports := [],
                          currentPlayerId := r.players[pick % |r.players|].id)), None)
  }

  /** submit-word: ignored outside a round; refused for anyone but the current player; a word
      that does not continue the current one by the letter rule makes its author lose (no
      private error is sent); otherwise it becomes the current word and the turn passes. */
  function SubmitWord(r: Room, sender: SocketId, word: string, pick: nat): (Room, Option<ErrorKind>) {
    if !r.game.isPlaying then (r, None)
    else if r.game.currentPlayerId != sender then (r, Some(NotYourTurn))
    else if !ContinuesByLetter(r.game.currentWord, word) then (HandleLose(r, sender, pick), None)
    else (SelectNext(r.(game := r.game.(currentWord := word)), pick), None)
  }

  /** vote-report: during a round, the sender's vote is recorded; a settled dispute either makes
      the player who has the turn lose or accepts the word and clears the reports. */
  function VoteReport(r: Room, sender: SocketId, vote: bool, pick: nat): Room {
    if !r.game.isPlaying then r
    else
      var r1 := r.(game := r.game.(reports := CastVote(r.game.reports, sender, vote)));
      var n := |r.players|;
      if !Settles(n, r1.game.reports) then r1
      else if Rejects(n, r1.game.reports) then HandleLose(r1, r1.game.currentPlayerId, pick)
      else r1.(game := r1.game.(reports := []))
  }

  /** `id` disconnects from one room: `None` when the room becomes empty and is deleted. */
  function Depart(r: Room, id: Id, pick: nat): Option<Room> {
    var k := IndexOf(r.players, id);
    if k == -1 then Some(r)
    else
      var ps := RemoveAt(r.players, k);
      if ps == [] then None
      else
        var r1 := r.(players := ps, hostId := if r.hostId == id then ps[0].id else r.hostId);
        if r.game.isPlaying && r.game.currentPlayerId == id then Some(SelectNext(r1, pick))
        else Some(r1)
  }

  /** The registry after `id` disconnects from the room stored under `code`. */
  function DisconnectFrom(rooms: map<Code, Room>, code: Code, id: Id, pick: nat): map<Code, Room> {
    if code !in rooms then rooms
    else
      match Depart(rooms[code], id, pick)
      case None => rooms - {code}
      case Some(r) => rooms[code := r]
  }

  /** disconnect: every room the socket is a player of is left by it; `picks` gives the random
      pick made in each room. */
  function DisconnectAll(rooms: map<Code, Room>, id: Id, picks: Code -> nat): map<Code, Room> {
    map c | c in rooms && Depart(rooms[c], id, picks(c)).Some? :: Depart(rooms[c], id, picks(c)).value
  }

  /** selectNextPlayer: during a round with two or more players, a player other than the one
      who has the turn (or anyone, if there is no such player) is picked at random, losers
      included, and the reports are cleared. */
  function SelectNext(r: Room, pick: nat): Room {
    if !r.game.isPlaying || |r.players| < 2 then r
    else
      var available := Without(r.players, r.game.currentPlayerId);
      var from := if |available| > 0 then available else r.players;
      r.(game := r.game.(currentPlayerId := from[pick % |from|].id, reports := []))
  }

  /** The players not listed among the losers of the round. */
  function Remaining(ps: seq<Player>, losers: seq<Id>): (r: seq<Player>)
    ensures |r| <= |ps|
    ensures forall p :: p in r <==> p in ps && p.id !in losers
  {
    Seqs.Filter(ps, (p: Player) => p.id !in losers)
  }

  /** `Remaining` looked at from the front of the roster. */
  lemma RemainingCons(p: Player, ps: seq<Player>, losers: seq<Id>)
    ensures Remaining([p] + ps, losers) == (if p.id !in losers then [p] else []) + Remaining(ps, losers)
  {
    assert ([p] + ps)[1..] == ps;
  }

  /** `losers` after `id` is pushed unless `find` returns it (`find` returns the id itself,
      which is falsy when empty). */
  function AddLoser(losers: seq<Id>, id: Id): seq<Id> {
    if id in losers && id != [] then losers else losers + [id]
  }

  /** handlePlayerLose: during a round, the loss is recorded; then the round ends or the turn
      passes. */
  function HandleLose(r: Room, id: Id, pick: nat): Room {
    if !r.game.isPlaying then r
    else EndOrPass(WithLoss(r, id), pick)
  }

  /** The first half of handlePlayerLose: the loser's count goes up by one and the id joins the
      losers. */
  function WithLoss(r: Room, id: Id): Room {
    r.(players := AddLoss(r.players, id), game := r.game.(losers := AddLoser(r.game.losers, id)))
  }

  /** At most one player of the roster is left outside the losers. */
  predicate RoundOver(r: Room) {
    |Remaining(r.players, r.game.losers)| <= 1
  }

  /** The second half of handlePlayerLose, once the loss is recorded: when the round is over, the
      roster is sorted in place by descending losses and the per-round state is cleared;
      otherwise the turn passes. */
  function EndOrPass(r: Room, pick: nat): Room {
    if RoundOver(r) then
      r.(players := SortBy(Descending, r.players),
         game := r.game.(isPlaying := false, losers := [], currentWord := "", reports := []))
    else SelectNext(r, pick)
  }

  /** Whether handlePlayerLose ends the round: the rankings it announces are then the roster
      it has just sorted. */
  predicate EndsRound(r: Room, id: Id) {
    r.game.isPlaying && RoundOver(WithLoss(r, id))
  }
}
