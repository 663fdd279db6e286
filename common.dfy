/** The data the room engine keeps in memory, shared by both iterations of the server. */
module Common {

  datatype Option<T> = None | Some(value: T)

  /** A player identifier: the connection id of a socket. The empty string stands for the
      "no player" values of the source ('', null and undefined): all of them are falsy and none
      of them ever equals a connection id. */
  type Id = string

  /** The id of a connected socket, which is never empty. */
  type SocketId = s: Id | s != [] witness "socket"

  /** A room code. */
  type Code = string

  /** Seconds a turn lasts (`turnTime`). */
  const TurnSeconds: nat := 30

  datatype Player = Player(id: Id, name: string, loseCount: nat)

  /** One entry of a dispute: who voted and whether they want the word rejected. */
  datatype Report = Report(playerId: Id, vote: bool)

  /** The game state of a room.
      `order` is `shuffledPlayerOrder` (undefined until the first round starts), `orderIndex` is
      `playerOrderIndex`, and `timer` is the number of seconds left on the room's running
      countdown interval, if one runs. The older engine leaves `lastWordPlayerId`, `order`,
      `orderIndex` and `timer` at their initial values. */
  datatype GameState = GameState(
    isPlaying: bool,
    currentWord: string,
    currentPlayerId: Id,
    lastWordPlayerId: Id,
    losers: seq<Id>,
    reports: seq<Report>,
    order: Option<seq<Id>>,
    orderIndex: int,
    timer: Option<nat>)

  /** A room. `backToRoom` is the `playersBackToRoom` set, undefined until a round has ended
      or a player has come back to the lobby. Chat messages are not part of this model. */
  datatype Room = Room(
    players: seq<Player>,
    hostId: Id,
    game: GameState,
    backToRoom: Option<set<Id>>)

  /** The private error messages a handler sends to the socket that called it, and the
      failures reported through acknowledgement callbacks. */
  datatype ErrorKind =
    | RoomNotFound
    | NotInRoom
    | NotHost
    | TooFewPlayers
    | GameInProgress
    | PlayersDisconnected
    | PlayersNotBack
    | NotYourTurn
    | WordDoesNotContinue

  /** The acknowledgement of join-room. */
  datatype JoinAck = Joined(isHost: bool) | JoinFailed(error: ErrorKind)

  /** What get-room-info reports about a room; the older engine does not report the host. */
  datatype RoomInfo = RoomInfo(
    players: seq<Player>,
    currentPlayerId: Id,
    isPlaying: bool,
    currentWord: string,
    hostId: Option<Id>)

  /** The room create-room stores: no players yet, and the creating socket as host. */
  function NewRoom(creator: SocketId): (r: Room)
    ensures r.players == [] && r.hostId == creator && r.backToRoom == None
    ensures !r.game.isPlaying && r.game.currentWord == [] && r.game.currentPlayerId == []
    ensures r.game.losers == [] && r.game.reports == [] && r.game.timer == None
  {
    Room([], creator, GameState(false, "", "", "", [], [], None, 0, None), None)
  }

  /** Storing under the same code twice leaves only the second room. A proof aid that only keeps
      the handlers' proofs cheap; it stands for nothing in the engine. */
  lemma StoreTwice(rooms: map<Code, Room>, code: Code, a: Room, b: Room)
    ensures rooms[code := a][code := b] == rooms[code := b]
  {
  }
}
