# Word-chain room engine

A model of the server side of a multiplayer word-chain game. Players gather in rooms. The host
starts a round. Players take turns submitting a word that must continue the current word. Any
socket may report the current word and vote on it. A player who breaks the rule, runs out of
time or has a word voted down loses. The repository holds two iterations of this engine, and
both are modelled over one set of datatypes:

- `server/server.js`, the current engine. The continuity rule compares whole tokens: the first
  token of the new word must equal the last token of the current word, ignoring case. Turns go
  round-robin over an order shuffled at the start of the round. A rejected word is charged to
  its author. The round ends at the first loss, and the rankings are a sorted copy of the
  roster.
- `server.js`, the older engine. The continuity rule compares one letter at each end. The next
  player is drawn at random from everyone but the current player. A rejected word is charged to
  whoever holds the turn. The round goes on until at most one player has not lost, and then the
  roster itself is sorted.

Structure:

- `Common` holds the datatypes `Room`, `GameState`, `Player` and `Report`. `Roster`, `Words`,
  `Votes` and `Ranking` model the array and string operations the handlers use, with their
  lemmas.
- `CurrentRules` and `LegacyRules` give each handler as a function from the room before the
  event to the room after it.
- `CurrentInvariant` and `LegacyInvariant` prove that every handler keeps the room invariant.
- `CurrentProperties`, `LegacyProperties`, `CurrentScenarios` and `LegacyScenarios` prove what
  the handlers promise, and what follows from the code as written.
- `CurrentServer.Server` and `LegacyServer.Server` are the `rooms` registry, a class with a
  `map` field. Their methods update a copy of the room step by step, in the order the source
  does, and store it back. Each method's postcondition states the new registry in terms of the
  rules function. A handler given an unknown room code changes nothing, and every handler keeps
  every room well formed.

Randomness is an input:

- The current engine's shuffle is a parameter `shuffled`, which may be any permutation of the
  players.
- The older engine's draw `Math.floor(Math.random() * n)` is a parameter `pick`, used as
  `pick % n`. Every index can therefore occur.

## Model

| member | source | states |
|---|---|---|
| Common.NewRoom | server/server.js:35-53 | create-room stores a room with no players, the creating socket as host, no round in progress and empty word, losers and reports |
| Roster.Ids | server/server.js:179 | `players.map(p => p.id)` keeps length and maps position by position |
| Roster.IndexOf | server/server.js:65 | `findIndex` is -1 exactly when no player has the id, and otherwise the first position holding it |
| Roster.RemoveAt | server/server.js:389 | `splice(k, 1)` removes exactly position k and keeps the others in order |
| Roster.AddLoss | server/server.js:686-689 | the player found by id gets exactly one more loss; every other player, every id and every name is unchanged; nothing changes when the id is absent |
| Roster.AddLossTotal | server/server.js:686-689 | the total number of losses over the roster rises by one exactly when the loser is a player |
| Roster.SameIds | server/server.js:686-689 | rosters with the same ids in the same order agree on uniqueness, on non-empty ids and on membership |
| Roster.Without | server.js:375-377 | `filter(p => p.id !== id)` keeps exactly the players with another id |
| Roster.WithoutDropsAtMostOne | server.js:375-380 | in a roster without duplicate ids, leaving out one id drops at most one player, and none when the id is absent |
| Roster.RemoveAtUnique | server/server.js:389 | splicing a roster without duplicate ids leaves one without duplicates |
| Roster.RemoveAtMember | server/server.js:389 | after splicing position k, exactly the ids held elsewhere are still players |
| Roster.RemoveAtKeepsOthers | server/server.js:487-495 | removing the player found by id leaves every other player and only them |
| Roster.IdsOfPermutation | server/server.js:176-179 | the ids of a reordering of the players are a reordering of their ids |
| Roster.PermutationKeepsRoster | server.js:428 | a reordering of a roster keeps its members, and keeps ids unique and non-empty |
| Roster.PermutationTotal | server.js:428 | a reordering of a roster keeps the total number of losses |
| Roster.TotalLossesAppend | server.js:428 | the total number of losses adds up over concatenation |
| Seqs.Filter | server.js:375-380 | `filter` keeps exactly the elements that pass the test and never lengthens the array |
| Seqs.FilterKeepsAll | server/server.js:607-609 | filtering with a test every element passes returns the array unchanged |
| Seqs.FilterAppend | server.js:419-421 | filtering distributes over concatenation |
| Words.LowerChar | server/server.js:246 | lower-casing maps capitals to non-capitals, leaves other characters alone and keeps white space |
| Words.Lower | server/server.js:246 | `toLowerCase` works character by character and keeps the length |
| Words.TrimStart | server/server.js:236 | the result is a suffix of the input, starting with a non-space, and only white space was dropped |
| Words.TrimEnd | server/server.js:236 | the result is a prefix of the input, ending with a non-space, and only white space was dropped |
| Words.FirstSpace | server/server.js:236 | the position of the first white-space character, with no white space before it |
| Words.Split | server/server.js:236 | `split(/\s+/)` gives at least one piece and no piece holds white space |
| Words.FirstSpaceAt | server/server.js:236 | the first white-space position is the unique position with those two properties |
| Words.SplitHead | server/server.js:236-237 | the first piece of a split is the leading run of non-space characters |
| Words.LeadingWordOfTrimEnd | server/server.js:241-242 | trimming the end of a string keeps its leading word |
| Words.FirstTokenIsLeadingWord | server/server.js:241-242 | the first token of a word is its leading word once the leading white space is dropped |
| Words.SplitWhole | server/server.js:236 | a string without white space splits into itself alone |
| Words.SplitAt | server/server.js:236 | a string splits at its first white space, and the rest is split after the run of spaces |
| Words.SingleToken | server/server.js:236-242 | a word without white space is its own first and last token |
| Words.TrimKeeps | server/server.js:236 | trimming a string with non-space ends changes nothing |
| Words.TrimStartKeeps | server/server.js:241 | a string that starts with a non-space is its own `TrimStart` |
| Words.JoinedAt | server/server.js:236 | the pieces of `a + " " + b` around the joining space |
| Words.SplitTwo | server/server.js:236 | two space-free words joined by a space split into those two words |
| Words.TwoWords | server/server.js:236-242 | for a two-word entry, the first word is the first token and the second word is the last token |
| Words.EchoContinues | server/server.js:236-246 | repeating the current word's last token, followed by anything, is always accepted |
| Words.OneWordEntries | server/server.js:236-246 | for one-word entries the token rule holds exactly when the two words are equal up to case |
| Words.TwoWordChain | server/server.js:236-246 | for two-word entries the rule holds exactly when the new first word equals the previous second word, up to case |
| Words.CompoundChain | server/server.js:236-246 | "mì quảng" continues "bánh mì" |
| Words.CompoundChainIgnoresCase | server/server.js:236-246 | "mì quảng" also continues "Bánh Mì" |
| Words.MiQuang | server/server.js:241-242 | the first token of "mì quảng" is "mì" |
| Words.AppleScenarioByToken | server/server.js:236-246 | the token rule rejects "elephant" after "apple" |
| Words.CharAt | server.js:164-168 | `charAt` gives at most one character |
| Words.LetterRule | server.js:163-171 | after a non-empty word, the letter rule holds exactly when the next word is non-empty and starts with the previous word's last letter, up to case |
| Words.AppleScenario | server.js:163-171 | the letter rule accepts "elephant" after "apple" and rejects "banana" after "elephant" |
| Votes.HasReportSplit | server/server.js:281 | an entry for an id is either the first entry or one of the rest |
| Votes.VoteOf | server/server.js:305 | `find` returns nothing exactly when the socket has no entry, and otherwise an entry of the socket |
| Votes.AddReport | server/server.js:281-288 | report-word appends a "reject" entry exactly when the socket has none, and otherwise changes nothing |
| Votes.CastVote | server/server.js:305-313 | vote-report overwrites the voter's entry in place or appends one; other entries keep their owners; the voter has an entry afterwards |
| Votes.YesVotes | server/server.js:318 | the number of "reject" votes is at most the number of entries |
| Votes.YesVotesCons | server/server.js:318 | "reject" votes are counted entry by entry |
| Votes.ThresholdsInIntegers | server/server.js:326-327 | the dispute settles exactly when everyone has an entry or `2*yes > n`, and it rejects exactly when `2*yes >= n` |
| Votes.AcceptedOnlyWhenAllVoted | server/server.js:326-339 | a word is accepted only when every player has an entry and fewer than half voted to reject |
| Votes.TieRejects | server/server.js:326-327 | with everyone voting and an exact tie, the dispute settles and rejects |
| Votes.AddReportKeepsUnique | server/server.js:281-288 | reporting keeps one entry per socket, and the reporter's vote is "reject" unless it already voted |
| Votes.VoteOfAppend | server/server.js:309-313 | an appended entry is found only for its own socket |
| Votes.CastVoteKeepsUnique | server/server.js:305-313 | voting keeps one entry per socket |
| Votes.CastVoteUpserts | server/server.js:305-313 | voting records the new vote for the voter and leaves every other socket's vote as it was |
| Votes.VoteOverridesReport | server/server.js:281-313 | reporting and then voting is the same as voting |
| Votes.CastVoteFresh | server/server.js:308-313 | a socket without an entry gets a new one at the end |
| Votes.CastVoteAppended | server/server.js:305-313 | a vote by the socket of the last entry only changes that entry's vote |
| Ranking.Insert | server/server.js:718 | inserting into an ordered list gives an ordered list with one more element and the same elements plus the new one |
| Ranking.ConsOrdered | server/server.js:718 | a player that may precede every member of an ordered list may go in front of it |
| Ranking.SortBy | server/server.js:718 | the sort is ordered by loss count and is a permutation of its input |
| Ranking.WithCount | server/server.js:718 | the players with k losses are exactly those of the input with k losses |
| Ranking.WithCountAppend | server/server.js:718 | selecting by loss count distributes over concatenation |
| Ranking.WithCountCons | server/server.js:718 | selecting by loss count, looked at from the front |
| Ranking.StableStep | server/server.js:718 | moving a player with another count past a player does not change the players selected for a count |
| Ranking.InsertStable | server/server.js:718 | insertion puts the new player in front of the players with the same count |
| Ranking.SortByStable | server/server.js:718 | the sort is stable: for every count, the players with that count keep their order |
| Ranking.OrderedTail | server.js:428 | the tail of an ordered list is ordered |
| Ranking.SortByOrdered | server.js:428 | an ordered list is left as it is |
| CurrentRules.Join | server/server.js:56-95 | after join-room on an existing room the socket is a player |
| CurrentRules.Available | server/server.js:607-609 | the ids still to play are exactly the ids of the order that have not lost |
| CurrentRules.JsRem | server/server.js:622 | JavaScript `%` agrees with the Euclidean remainder on a non-negative dividend and lies in `(-n, 0]` on a negative one |
| CurrentInvariant.NewRoomWellformed | server/server.js:35-53 | a created room satisfies the invariant |
| CurrentInvariant.JoinKeepsWellformed | server/server.js:56-109 | join-room keeps the invariant |
| CurrentInvariant.AvailableIsOrder | server/server.js:604-609 | during a round the ids still to play are the whole order, since a round ends at its first loss |
| CurrentInvariant.SelectNextAdvances | server/server.js:599-637 | with two or more players, selectNextPlayer moves the index one step around the order, gives the turn to the id there, clears the reports and starts a fresh countdown |
| CurrentInvariant.SelectNextKeepsWellformed | server/server.js:599-672 | selectNextPlayer keeps the invariant |
| CurrentInvariant.HandleLoseKeepsWellformed | server/server.js:675-733 | handlePlayerLose keeps the invariant |
| CurrentInvariant.StartGameKeepsWellformed | server/server.js:112-209 | start-game keeps the invariant |
| CurrentInvariant.SubmitWordKeepsWellformed | server/server.js:212-271 | submit-word keeps the invariant |
| CurrentInvariant.ReportWordKeepsWellformed | server/server.js:274-297 | report-word keeps the invariant |
| CurrentInvariant.VoteReportKeepsWellformed | server/server.js:300-341 | vote-report keeps the invariant |
| CurrentInvariant.DepartStepWellformed | server/server.js:487-513 | splicing out the leaver, handing on the host and dropping the leaver from the back-set keeps the room well formed, with or without its countdown |
| CurrentInvariant.DepartKeepsWellformed | server/server.js:483-547 | leaving a room keeps the invariant of the room that remains |
| CurrentInvariant.BackToRoomKeepsWellformed | server/server.js:550-590 | player-back-to-room keeps the invariant |
| CurrentInvariant.TickKeepsWellformed | server/server.js:658-671 | one second of the countdown keeps the invariant |
| CurrentInvariant.StoreKeepsWellformed | server/server.js:28 | storing a well-formed room keeps every room of the registry well formed |
| CurrentInvariant.LeaveKeepsWellformed | server/server.js:483-547 | leave-room keeps every room of the registry well formed |
| CurrentInvariant.DisconnectAllKeepsWellformed | server/server.js:373-441 | disconnect keeps every room of the registry well formed |
| CurrentProperties.JoinExistingChangesNothing | server/server.js:65-79 | joining again as an existing player changes nothing |
| CurrentProperties.JoinAppends | server/server.js:81-95 | a new socket is appended with no losses, the host and the game are untouched, between rounds the newcomer is added to a tracked back-set, and joining twice is joining once |
| CurrentProperties.StartGuards | server/server.js:117-161 | start-game succeeds exactly when all five guards pass, and a refused start changes nothing |
| CurrentProperties.StartState | server/server.js:163-188 | a started round has its order as a permutation of the player ids, index 0, the first id of the order holding the turn, reset per-round state, an emptied back-set, the same roster and host, and no countdown |
| CurrentProperties.AdvanceKeepsRound | server/server.js:599-637 | any number of turn changes keeps the invariant, the round going, and the roster, order and word |
| CurrentProperties.RoundRobin | server/server.js:622-623 | after k turn changes the turn is at position `(i + k) mod n` of the order |
| CurrentProperties.Rotate | server/server.js:622 | a position moved around a cycle of length n stays in `0..n-1` |
| CurrentProperties.RotateStep | server/server.js:622 | one more step around the cycle is one more modular increment |
| CurrentProperties.TurnStep | server/server.js:622-637 | one turn change moves the index one step and keeps the round well formed |
| CurrentProperties.ModUnique | server/server.js:622 | a remainder in range is the one `%` gives |
| CurrentProperties.ModSucc | server/server.js:622 | taking the remainder before adding one changes nothing modulo n |
| CurrentProperties.EveryoneGetsATurn | server/server.js:599-637 | every id of the order gets the turn within fewer than n turn changes |
| CurrentProperties.RotateBack | server/server.js:622 | stepping `(j - i) mod n` from position i reaches position j |
| CurrentProperties.SubmitGuards | server/server.js:212-220 | submit-word outside a round does nothing, and a sender without the turn only gets an error |
| CurrentProperties.SubmitOutcome | server/server.js:224-270 | a word from the turn holder is accepted exactly when it continues the current word; accepted, it becomes the current word and its author is recorded, and with two or more players the next id of the order gets the turn, while a player left alone keeps the turn, the reports and the countdown; refused, the author loses and the round ends |
| CurrentProperties.AcceptedWordChargedToAuthor | server/server.js:257-334 | a later rejection of an accepted word is charged to its author |
| CurrentProperties.DisputeOutcome | server/server.js:305-340 | an unsettled dispute only records the vote; a rejection ends the round with one more loss for the charged player; an acceptance clears the reports and keeps the turn |
| CurrentProperties.OutsiderVoteSettles | server/server.js:305-334 | a vote from a socket outside the room counts: in a two-player round it settles a dispute and the tie rejects the word |
| CurrentProperties.ReportThenOutsider | server/server.js:281-318 | the entries of that dispute: one "reject" and one "keep" |
| CurrentProperties.SecondPlayerLoses | server/server.js:686-689 | the second of two players losing gets one loss |
| CurrentProperties.LoseEndsRound | server/server.js:675-733 | handlePlayerLose does nothing outside a round; during a round it ends it, adds exactly one loss over the roster if the loser plays, keeps the roster's ids in order, resets the per-round state and empties the back-set |
| CurrentProperties.RankingsAreSortedCopy | server/server.js:718 | the rankings are the updated roster sorted by ascending losses, with ties in roster order |
| CurrentProperties.CountdownExpires | server/server.js:657-671 | a countdown showing t seconds ends after t ticks with the current player losing |
| CurrentProperties.DepartNonMember | server/server.js:487-488 | leaving a room one does not play in changes nothing |
| CurrentProperties.DepartOutcome | server/server.js:483-547 | leaving deletes the room exactly when the leaver was the last player; otherwise exactly the leaver is gone, the others keep their order, the leaver leaves the back-set and a leaving host is replaced by the first remaining player |
| CurrentProperties.DepartTurn | server/server.js:536-545 | when the turn holder leaves and two or more players remain, the next id of the order gets the turn with a fresh countdown; when anyone else leaves, the game state is untouched |
| CurrentProperties.DisconnectIsLeaveEverywhere | server/server.js:379-439 | disconnect does in every room what leave-room does in that room |
| CurrentProperties.DisconnectRemovesEverywhere | server/server.js:379-439 | after a disconnect the socket plays in no room, and no room appears |
| CurrentProperties.BackToRoomMarks | server/server.js:558-579 | the sender is marked as back, and the host hears that all are back exactly when the set is as large as the roster |
| CurrentScenarios.TurnCanGoToDepartedPlayer | server/server.js:599-623 | the order is never pruned, so a departed player can get the turn |
| CurrentScenarios.TwoPlayerRoundStallsWhenCurrentLeaves | server/server.js:536-545 | when the turn holder leaves a two-player round, the round stays on with the departed id holding the turn and no countdown |
| CurrentScenarios.HostNeedNotBeMember | server/server.js:35-87 | the creator is host before joining, so the host need not be a player |
| CurrentScenarios.BackToRoomCountsOutsiders | server/server.js:550-590 | readiness counts sockets that are not players, so the host can hear "all back" while start-game still refuses |
| CurrentScenarios.TurnsKeepRosterOrder | server/server.js:612-619 | in a well-formed room the sorting branch of selectNextPlayer is never taken |
| CurrentServer.Server.constructor | server/server.js:28 | the registry starts empty |
| CurrentServer.Server.CreateRoom | server/server.js:35-53 | stores a new room under the code |
| CurrentServer.Server.JoinRoom | server/server.js:56-109 | fails for an unknown code; otherwise the room becomes `Join` of it and the acknowledgement says whether the sender is host |
| CurrentServer.Server.StartGame | server/server.js:112-209 | the registry becomes `StartGame` of the room, with its error |
| CurrentServer.Server.SubmitWord | server/server.js:212-271 | the registry becomes `SubmitWord` of the room, with its error |
| CurrentServer.Server.ReportWord | server/server.js:274-297 | the registry becomes `ReportWord` of the room |
| CurrentServer.Server.VoteReport | server/server.js:300-341 | the registry becomes `VoteReport` of the room, and the invariant is kept |
| CurrentServer.Server.RecordVote | server/server.js:304-340 | the registry becomes `VoteReport` of the room |
| CurrentServer.Server.PlayerTimeout | server/server.js:368-370 | the sender loses, whoever has the turn |
| CurrentServer.Server.Disconnect | server/server.js:373-441 | the registry becomes `DisconnectAll` of the old registry |
| CurrentServer.Server.CheckPlayerInRoom | server/server.js:444-460 | succeeds exactly when the room exists and the sender plays in it, and reports which check failed |
| CurrentServer.Server.GetRoomInfo | server/server.js:463-480 | nothing for an unknown code, otherwise the room's players, turn, state, word and host |
| CurrentServer.Server.LeaveRoom | server/server.js:483-547 | the registry becomes `Leave` of the old registry |
| CurrentServer.Server.RemovePlayer | server/server.js:487-546 | the registry becomes `Leave` of the old registry |
| CurrentServer.Server.PlayerBackToRoom | server/server.js:550-590 | the registry becomes `BackToRoom` of the room, and the result says whether all are back |
| CurrentServer.Server.Tick | server/server.js:658-671 | the registry becomes `Tick` of the room |
| CurrentServer.Server.SelectNextPlayer | server/server.js:599-672 | the registry becomes `SelectNext` of the room |
| CurrentServer.Server.HandlePlayerLose | server/server.js:675-733 | the registry becomes `HandleLose` of the room, and the rankings are announced exactly when a round was in progress, as the sorted copy |
| LegacyRules.Join | server.js:50-96 | after join-room on an existing room the socket is a player |
| LegacyRules.Remaining | server.js:419-421 | the players not among the losers, never more than the roster |
| LegacyRules.RemainingCons | server.js:419-421 | the players not among the losers, looked at from the front |
| LegacyInvariant.NewRoomWellformed | server.js:31-47 | a created room satisfies the invariant |
| LegacyInvariant.JoinKeepsWellformed | server.js:50-96 | join-room keeps the invariant |
| LegacyInvariant.StartGameKeepsWellformed | server.js:99-138 | start-game keeps the invariant |
| LegacyInvariant.SelectNextPicksOther | server.js:370-393 | with two or more players, selectNextPlayer gives the turn to a member of the roster other than the turn holder, clears the reports and changes nothing else |
| LegacyInvariant.SelectNextKeepsWellformed | server.js:370-393 | selectNextPlayer keeps the invariant |
| LegacyInvariant.AddLoserKeepsList | server.js:406-409 | pushing a loser keeps the losers listed once each and non-empty, and the loser is listed |
| LegacyInvariant.HandleLoseKeepsWellformed | server.js:396-439 | handlePlayerLose keeps the invariant for a non-empty loser id |
| LegacyInvariant.SubmitWordKeepsWellformed | server.js:141-186 | submit-word keeps the invariant |
| LegacyInvariant.ReportWordKeepsWellformed | server.js:189-205 | report-word keeps the invariant |
| LegacyInvariant.VoteReportKeepsWellformed | server.js:208-245 | vote-report keeps the invariant |
| LegacyInvariant.DepartKeepsWellformed | server.js:277-321 | disconnecting from a room keeps the invariant of the room that remains |
| LegacyInvariant.StoreKeepsWellformed | server.js:31-47 | storing a well-formed room keeps every room of the registry well formed |
| LegacyInvariant.DisconnectFromKeepsWellformed | server.js:277-321 | disconnecting from one room keeps every room of the registry well formed |
| LegacyInvariant.DisconnectAllKeepsWellformed | server.js:273-324 | disconnect keeps every room of the registry well formed |
| LegacyProperties.JoinAppends | server.js:50-96 | joining again changes nothing; a new socket is appended with no losses; joining twice is joining once |
| LegacyProperties.StartGuards | server.js:104-112 | start-game succeeds exactly when the sender is host and there are two or more players, even during a round; the guards are checked in that order |
| LegacyProperties.StartState | server.js:114-123 | a started round has a member of the roster holding the turn, and every member can be the one drawn; per-round state is reset and roster and host are unchanged |
| LegacyProperties.ModBelow | server.js:121 | a draw below the length is used as it is |
| LegacyProperties.SelectNextReachesEveryOther | server.js:375-384 | any player other than the turn holder can be drawn next |
| LegacyProperties.LoserCanGetTheTurn | server.js:375-384 | a player who has already lost in this round can get the turn again |
| LegacyProperties.SubmitGuards | server.js:141-149 | submit-word outside a round does nothing, and a sender without the turn only gets an error |
| LegacyProperties.SubmitOutcome | server.js:153-185 | a word from the turn holder is accepted exactly when the letter rule holds; accepted, it becomes the word, and with two or more players another member gets the turn and the reports are cleared, while a player left alone keeps the turn and the reports; refused, the author loses; no error either way |
| LegacyProperties.DisputeOutcome | server.js:212-244 | an unsettled dispute only records the vote; a rejection makes the turn holder lose; an acceptance needs every player to have voted and clears the reports |
| LegacyProperties.AcceptedWordChargedToNextPlayer | server.js:176-238 | after an accepted word the turn is with another member, so a rejection charges a player who is not the author |
| LegacyProperties.LoseEndsRoundIff | server.js:396-439 | handlePlayerLose does nothing outside a round; during a round it ends the round exactly when at most one player is outside the losers |
| LegacyProperties.LoseContinues | server.js:400-437 | when the round goes on, the loser has one more loss if it plays, is listed once among the losers, and another member gets the turn |
| LegacyProperties.LoseAtRoundEnd | server.js:423-434 | at round end the roster itself is sorted by descending losses, stably, keeping its members and total losses; losers, word and reports are reset |
| LegacyProperties.DepartNonMember | server.js:278-280 | disconnecting from a room one does not play in changes nothing |
| LegacyProperties.DepartOutcome | server.js:280-296 | the room is deleted exactly when the leaver was the last player; otherwise exactly the leaver is gone, the others keep their order and a leaving host is replaced by the first remaining player |
| LegacyProperties.DepartTurn | server.js:317-320 | when the turn holder leaves and two or more remain, a remaining member gets the turn; with one left the turn stays with the departed id; otherwise the game is untouched |
| LegacyProperties.DisconnectRemovesEverywhere | server.js:273-324 | after a disconnect the socket plays in no room, and no room appears |
| LegacyScenarios.RestartWhilePlaying | server.js:104-118 | the host can restart a running round, where the current engine refuses |
| LegacyScenarios.DisputeChargesTurnHolder | server.js:176-238 | when a word is voted down after the turn has passed, the next player is charged and sorted to the front |
| LegacyScenarios.OutsiderTieRejects | server.js:213-235 | one "reject" and one "keep" in a two-player room settle the dispute and reject the word |
| LegacyScenarios.LoserMovesToFront | server.js:418-429 | the second of two players losing ends the round and is sorted in front |
| LegacyScenarios.SwapPair | server.js:428 | sorting two players by descending losses swaps them when the second has more |
| LegacyScenarios.TwoPlayerRoundStallsWhenCurrentLeaves | server.js:317-320 | when the turn holder leaves a two-player round, the round stays on with the departed id holding the turn until the other player's own loss ends it |
| LegacyServer.Server.constructor | server.js:31-47 | the registry starts empty |
| LegacyServer.Server.CreateRoom | server.js:31-47 | stores a new room under the code |
| LegacyServer.Server.JoinRoom | server.js:50-96 | fails for an unknown code; otherwise the room becomes `Join` of it and the acknowledgement says whether the sender is host |
| LegacyServer.Server.StartGame | server.js:99-138 | the registry becomes `StartGame` of the room, with its error |
| LegacyServer.Server.SubmitWord | server.js:141-186 | the registry becomes `SubmitWord` of the room, with its error |
| LegacyServer.Server.ReportWord | server.js:189-205 | the registry becomes `ReportWord` of the room |
| LegacyServer.Server.VoteReport | server.js:208-245 | the registry becomes `VoteReport` of the room, and the invariant is kept |
| LegacyServer.Server.RecordVote | server.js:212-244 | the registry becomes `VoteReport` of the room |
| LegacyServer.Server.PlayerTimeout | server.js:268-270 | the sender loses, whoever has the turn |
| LegacyServer.Server.Disconnect | server.js:273-324 | the registry becomes `DisconnectAll` of the old registry |
| LegacyServer.Server.RemovePlayer | server.js:278-321 | the registry becomes `DisconnectFrom` of the old registry for one room |
| LegacyServer.Server.CheckPlayerInRoom | server.js:327-343 | succeeds exactly when the room exists and the sender plays in it, and reports which check failed |
| LegacyServer.Server.GetRoomInfo | server.js:346-361 | nothing for an unknown code, otherwise the room's players, turn, state and word, with no host |
| LegacyServer.Server.SelectNextPlayer | server.js:370-393 | the registry becomes `SelectNext` of the room |
| LegacyServer.Server.HandlePlayerLose | server.js:396-439 | the registry becomes `HandleLose` of the room, and the rankings are announced exactly when a round in progress ends, as the sorted roster |
| LegacyServer.Server.LoseDuringRound | server.js:400-438 | during a round, the registry becomes `HandleLose` of the room |
| LegacyServer.Server.RecordLoss | server.js:400-409 | the loser's count goes up and the id is pushed onto the losers unless already there |
| LegacyServer.Server.EndRoundOrPass | server.js:418-438 | with at most one player outside the losers the round ends with the roster sorted; otherwise the turn passes |

## Left out

- Express and HTTP setup, CORS, static files and the `/api/rooms/:roomId` endpoint are not modelled. They are I/O plumbing.
- socket.io emits, broadcasts, `socket.join`/`leave` and logging are not modelled. Handlers return only the private error, the acknowledgement or the rankings that decide behaviour.
- Chat (`send-message`) and the `messages` array are not modelled. Chat is a timestamped append that uses the clock.
- Room codes are not generated. `Math.random().toString(36)` becomes a `code` parameter of create-room.
- The current engine's shuffle becomes any permutation, passed in as `shuffled`. The older engine's draw becomes `pick % n` for an arbitrary `pick`.
- The connected-socket count of start-game (server/server.js:134-138) reads the socket.io adapter. It becomes the boolean `allConnected`.
- Real time is not modelled. The 500 ms delayed `next-player` emit only notifies. The per-second interval becomes a `timer` counter and a `Tick` method that makes the current player lose at zero. Clearing an interval sets `timer` to `None`.
- `toLowerCase` is approximated: lower-casing covers ASCII, Latin-1 and the Vietnamese capitals. White space (`\s` and `trim`) is ECMAScript's full WhiteSpace and LineTerminator set. Strings are sequences of characters, not UTF-16 code units.
- The try/catch around the token rule (server/server.js:234-255) is not modelled. It can fire only for a non-string word, which the typed model rules out.
- Rooms are values: a handler reads the room, updates a copy step by step and stores it back. No handler keeps a second reference to a room, so this is the same as updating it in place.
- The back-set's `delete`, `add` and `clear` are set operations on a `set` value.
- The older engine's in-place `sort` is the `SortBy` function, a stable insertion sort. The sort is stable as JavaScript requires since ES2019.
- '', null and undefined ids are all the empty string. All are falsy and none equals a socket id.
- CurrentServer.Server.HandlePlayerLose: the rankings are stated as the sorted copy of the updated roster. The sort's order and stability are proved separately in `CurrentProperties.RankingsAreSortedCopy`.
- LegacyServer.Server.HandlePlayerLose: the rankings are stated as the new roster of the room. `LegacyProperties.LoseEndsRoundIff` says when the round ends, and `LegacyProperties.LoseAtRoundEnd` says that roster is sorted by descending losses.

Where the code differs from a natural reading of the game, the model follows the code:

- The current engine never prunes the round's order when a player leaves. A departed id can get the turn (`CurrentScenarios.TurnCanGoToDepartedPlayer`).
- The host is the creator before anyone joins, so the host need not be a player.
- Readiness is judged by the size of the back-set, which may include sockets that are not players.
- The first turn of a round has no server-side countdown. The countdown starts at the first turn change.
- In both engines a two-player round stalls when the turn holder leaves. The departed id keeps the turn.
- The older engine sorts the roster itself by descending losses. This changes who becomes host later.
- In the older engine, losers can be drawn for the turn, and the host can restart a round in progress.
- The older engine sends no private error when a word breaks the letter rule.
