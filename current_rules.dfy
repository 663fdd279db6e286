/** The rules of the current engine (server/server.js) as functions from a room to the room the
    handler leaves behind. The registry methods of `CurrentServer` are proved equal to these
    functions; the properties of the engine are lemmas about them. */
module CurrentRules {
  import opened Common
  import opened Roster
  import opened Votes
  import opened Words
  import opened Ranking
  import Seqs

  // ---------------------------------------------------------------------------------------
  // The invariant every room keeps

  /** The turn bookkeeping of a round in progress: the shuffled order holds at least two ids,
      the index points into it and the current player is the id at the index. */
  predicate TurnState(g: GameState) {
    g.order.Some? && |g.order.value| >= 2 && 0 <= g.orderIndex < |g.order.value| &&
    g.currentPlayerId == g.order.value[g.orderIndex]
  }

  /** What holds of every room between two events: ids are unique connection ids, the host is a
      connection id, each socket has at most one report entry, `losers` is empty (a round ends on
      its first loss and the list is reset at once), a countdown runs only during a round and
      within one turn, and a round in progress has its turn bookkeeping. */
  predicate Wellformed(r: Room) {
    UniqueIds(r.players) && SocketIds(r.players) && r.hostId != [] &&
    UniqueReporters(r.game.reports) &&
    r.game.losers == [] &&
    (r.game.timer.Some? ==> r.game.isPlaying && 1 <= r.game.timer.value <= TurnSeconds) &&
    (r.game.isPlaying ==> TurnState(r.game))
  }

  // ---------------------------------------------------------------------------------------
  // The handlers

  /** join-room on an existing room: a socket that is already a player changes nothing; a new
      socket is appended with no losses and, between rounds, counts as back in the lobby if the
      room tracks that. */
  function Join(r: Room, id: SocketId, name: string): (r': Room)
    ensures HasPlayer(r'.players, id)
  {
    if HasPlayer(r.players, id) then r
    else
      var r1 := r.(players := r.players + [Player(id, name, 0)]);
      assert r1.players[|r.players|].id == id;
      if !r.game.isPlaying && r.backToRoom.Some? then r1.(backToRoom := Some(r.backToRoom.value + {id}))
      else r1
  }

  /** The guards of start-game, in the order they are checked. `allConnected` says whether the
      socket.io room has at least as many connected sockets as the room has players. */
  function StartCheck(r: Room, sender: SocketId, allConnected: bool): Option<ErrorKind> {
    if sender != r.hostId then Some(NotHost)
    else if |r.players| < 2 then Some(TooFewPlayers)
    else if r.game.isPlaying then Some(GameInProgress)
    else if !allConnected then Some(PlayersDisconnected)
    else if r.backToRoom.Some? && exists i :: 0 <= i < |r.players| && r.players[i].id !in r.backToRoom.value
    then Some(PlayersNotBack)
    else None
  }

  /** The round start, once the guards pass. `shuffled` is the outcome of shuffling the players. */
  function Start(r: Room, shuffled: seq<Player>): Room
    requires |r.players| >= 2 && multiset(shuffled) == multiset(r.players)
  {
    assert |shuffled| == |multiset(shuffled)| == |r.players|;
    r.(game := r.game.(isPlaying := true, currentWord := "", losers := [], reports := [],
                       lastWordPlayerId := "", order := Some(Ids(shuffled)), orderIndex := 0,
                       currentPlayerId := shuffled[0].id),
       backToRoom := if r.backToRoom.Some? then Some({}) else None)
  }

  /** start-game: the room afterwards and the private error, if a guard failed. */
  function StartGame(r: Room, sender: SocketId, allConnected: bool, shuffled: seq<Player>): (Room, Option<ErrorKind>)
    requires multiset(shuffled) == multiset(r.players)
  {
    var e := StartCheck(r, sender, allConnected);
    if e.Some? then (r, e) else (Start(r, shuffled), None)
  }

  /** submit-word: ignored outside a round; refused for anyone but the current player; the first
      word of a round is stored as it is; a later word must continue the current one by the token
      rule, or its author loses the round. */
  function SubmitWord(r: Room, sender: SocketId, word: string): (Room, Option<ErrorKind>) {
    if !r.game.isPlaying then (r, None)
    else if r.game.currentPlayerId != sender then (r, Some(NotYourTurn))
    else if r.game.currentWord != [] && !Continues(r.game.currentWord, word) then
      (HandleLose(r, sender), Some(WordDoesNotContinue))
    else (SelectNext(r.(game := r.game.(currentWord := word, lastWordPlayerId := sender))), None)
  }

  /** The player charged with a rejected word: the author of the current word, or the current
      player when no author is recorded. */
  function ChargedId(g: GameState): Id {
    if g.lastWordPlayerId != [] then g.lastWordPlayerId else g.currentPlayerId
  }

  /** vote-report: during a round, the sender's vote is recorded; a settled dispute either makes
      the charged player lose or accepts the word and clears the reports. */
  function VoteReport(r: Room, sender: SocketId, vote: bool): Room {
    if !r.game.isPlaying then r
    else
      var r1 := r.(game := r.game.(reports := CastVote(r.game.reports, sender, vote)));
      var n := |r.players|;
      if !Settles(n, r1.game.reports) then r1
      else if Rejects(n, r1.game.reports) then HandleLose(r1, ChargedId(r1.game))
      else r1.(game := r1.game.(reports := []))
  }

  /** `id` leaves the room (leave-room, or disconnect for each of its rooms): `None` when the
      room becomes empty and is deleted. */
  function Depart(r: Room, id: Id): Option<Room> {
    var k := IndexOf(r.players, id);
    if k == -1 then Some(r)
    else
      var ps := RemoveAt(r.players, k);
      var back := if r.backToRoom.Some? then Some(r.backToRoom.value - {id}) else None;
      if ps == [] then None
      else
        var r1 := Room(ps, if r.hostId == id then ps[0].id else r.hostId, r.game, back);
        if r.game.isPlaying && r.game.currentPlayerId == id then
          Some(SelectNext(r1.(game := r1.game.(timer := None))))
        else Some(r1)
  }

  /** leave-room on the registry. */
  function Leave(rooms: map<Code, Room>, code: Code, id: Id): map<Code, Room> {
    if code !in rooms then rooms
    else
      match Depart(rooms[code], id)
      case None => rooms - {code}
      case Some(r) => rooms[code := r]
  }

  /** disconnect: every room the socket is a player of is left by it. */
  function DisconnectAll(rooms: map<Code, Room>, id: Id): map<Code, Room> {
    map c | c in rooms && Depart(rooms[c], id).Some? :: Depart(rooms[c], id).value
  }

  /** player-back-to-room: the sender joins the set of sockets back in the lobby (no membership
      check); the host is told that everyone is back when the set is as large as the roster. */
  function BackToRoom(r: Room, sender: SocketId): (Room, bool) {
    var back := (if r.backToRoom.Some? then r.backToRoom.value else {}) + {sender};
    (r.(backToRoom := Some(back)), |back| == |r.players|)
  }

  /** The ids of `ids` that have not lost in this round, in order. */
  function Available(ids: seq<Id>, losers: seq<Id>): (r: seq<Id>)
    ensures forall x :: x in r <==> x in ids && x !in losers
  {
    Seqs.Filter(ids, (x: Id) => x !in losers)
  }

  /** The JavaScript remainder `a % n`, which truncates toward zero: it agrees with the
      Euclidean remainder on non-negative `a` and is never positive for negative `a`. */
  function JsRem(a: int, n: int): (m: int)
    requires n > 0
    ensures a >= 0 ==> m == a % n && 0 <= m < n
    ensures a < 0 ==> -n < m <= 0
  {
    if a >= 0 then a % n else -((-a) % n)
  }

  /** selectNextPlayer: during a round with two or more players, the turn passes to the next
      id of the round's order that has not lost, cyclically; the report entries are cleared and
      a fresh countdown starts. With no such id left the round ends and the roster is sorted in
      place by ascending losses. */
  function SelectNext(r: Room): Room {
    if !r.game.isPlaying || |r.players| < 2 then r
    else
      var ids := if r.game.order.Some? then r.game.order.value else Ids(r.players);
      var available := Available(ids, r.game.losers);
      if available == [] then
        r.(players := SortBy(Ascending, r.players), game := r.game.(isPlaying := false))
      else
        var i := JsRem(r.game.orderIndex + 1, |available|);
        r.(game := r.game.(orderIndex := i, currentPlayerId := if i >= 0 then available[i] else "",
                           reports := [], timer := Some(TurnSeconds)))
  }

  /** handlePlayerLose: during a round, the loser's count goes up by one, the countdown stops and
      the round ends at once; the lobby's back-set is reset to empty and the per-round state is
      cleared. */
  function HandleLose(r: Room, id: Id): Room {
    if !r.game.isPlaying then r
    else
      r.(players := AddLoss(r.players, id),
         game := r.game.(timer := None, isPlaying := false, currentPlayerId := "", orderIndex := -1,
                         losers := [], currentWord := "", reports := []),
         backToRoom := Some({}))
  }

  /** The rankings handlePlayerLose announces: a copy of the updated roster sorted by ascending
      losses. */
  function Rankings(r: Room, id: Id): seq<Player> {
    SortBy(Ascending, AddLoss(r.players, id))
  }

  /** One second of the room's countdown: at zero the countdown stops and the current player
      loses. */
  function Tick(r: Room): Room {
    match r.game.timer
    case None => r
    case Some(t) =>
      if t - 1 <= 0 then HandleLose(r.(game := r.game.(timer := None)), r.game.currentPlayerId)
      else r.(game := r.game.(timer := Some(t - 1)))
  }
}
