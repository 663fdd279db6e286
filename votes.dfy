/** The dispute ("report") of the current word: one entry per socket that reported the word or
    voted on the report, and the majority rule that settles it. Both engines share this logic. */
module Votes {
  import opened Common
  import Seqs

  /** `reports.find(report => report.playerId === id)` finds an entry. */
  predicate HasReport(rs: seq<Report>, id: Id) {
    exists i :: 0 <= i < |rs| && rs[i].playerId == id
  }

  /** An entry for `id` is either the first entry or one of the rest. */
  lemma HasReportSplit(rs: seq<Report>, id: Id)
    requires rs != []
    ensures HasReport(rs, id) <==> rs[0].playerId == id || HasReport(rs[1..], id)
  {
    if HasReport(rs[1..], id) {
      var i :| 0 <= i < |rs[1..]| && rs[1..][i].playerId == id;
      assert rs[i + 1].playerId == id;
    }
    if HasReport(rs, id) && rs[0].playerId != id {
      var i :| 0 <= i < |rs| && rs[i].playerId == id;
      assert rs[1..][i - 1].playerId == id;
    }
  }

  /** No socket has two entries. */
  predicate UniqueReporters(rs: seq<Report>) {
    forall i, j :: 0 <= i < j < |rs| ==> rs[i].playerId != rs[j].playerId
  }

  /** The vote recorded for `id`: the first entry with that id, as `find` returns it. */
  function VoteOf(rs: seq<Report>, id: Id): (v: Option<bool>)
    ensures v.None? <==> !HasReport(rs, id)
    ensures v.Some? ==> exists i :: 0 <= i < |rs| && rs[i] == Report(id, v.value)
  {
    if rs == [] then None
    else if rs[0].playerId == id then Some(rs[0].vote)
    else
      var v := VoteOf(rs[1..], id);
      HasReportSplit(rs, id);
      assert v.Some? ==> exists i :: 0 <= i < |rs| && rs[i] == Report(id, v.value) by {
        if v.Some? {
          var i :| 0 <= i < |rs[1..]| && rs[1..][i] == Report(id, v.value);
          assert rs[i + 1] == Report(id, v.value);
        }
      }
      v
  }

  /** report-word: an entry `{id, true}` is appended unless `id` already has one. */
  function AddReport(rs: seq<Report>, id: Id): (r: seq<Report>)
    ensures HasReport(rs, id) ==> r == rs
    ensures !HasReport(rs, id) ==> r == rs + [Report(id, true)]
  {
    if HasReport(rs, id) then rs else rs + [Report(id, true)]
  }

  /** vote-report: the vote of `id` is overwritten in its entry, or a new entry is appended. */
  function CastVote(rs: seq<Report>, id: Id, vote: bool): (r: seq<Report>)
    ensures |r| == |rs| + (if HasReport(rs, id) then 0 else 1)
    ensures forall i :: 0 <= i < |rs| ==> r[i].playerId == rs[i].playerId
    ensures !HasReport(rs, id) ==> r[|rs|] == Report(id, vote)
    ensures HasReport(r, id)
  {
    if rs == [] then
      assert [Report(id, vote)][0].playerId == id;
      [Report(id, vote)]
    else if rs[0].playerId == id then
      assert ([Report(id, vote)] + rs[1..])[0].playerId == id;
      [Report(id, vote)] + rs[1..]
    else
      var rest := CastVote(rs[1..], id, vote);
      HasReportSplit(rs, id);
      HasReportSplit([rs[0]] + rest, id);
      assert ([rs[0]] + rest)[1..] == rest;
      [rs[0]] + rest
  }

  /** report-word, the same in both engines: during a round, the sender's "reject" entry is
      added unless it has one. */
  function ReportWord(r: Room, sender: SocketId): Room {
    if !r.game.isPlaying then r
    else r.(game := r.game.(reports := AddReport(r.game.reports, sender)))
  }

  /** `reports.filter(report => report.vote).length`. */
  function YesVotes(rs: seq<Report>): (yes: nat)
    ensures yes <= |rs|
  {
    |Seqs.Filter(rs, (x: Report) => x.vote)|
  }

  /** Counting the "reject" votes entry by entry. */
  lemma YesVotesCons(e: Report, rs: seq<Report>)
    ensures YesVotes([e] + rs) == (if e.vote then 1 else 0) + YesVotes(rs)
  {
    assert ([e] + rs)[1..] == rs;
  }

  /** The dispute is settled when every player has an entry or when more than half of the
      players (`yesVotes > totalPlayers / 2`, a real division) voted to reject. */
  predicate Settles(players: nat, rs: seq<Report>) {
    |rs| == players || (YesVotes(rs) as real) > (players as real) / 2.0
  }

  /** Once settled, the word is rejected when at least half of the players voted to reject
      (`yesVotes >= totalPlayers / 2`). */
  predicate Rejects(players: nat, rs: seq<Report>) {
    (YesVotes(rs) as real) >= (players as real) / 2.0
  }

  // ---------------------------------------------------------------------------------------
  // Properties

  /** The thresholds in integer terms. */
  lemma ThresholdsInIntegers(players: nat, rs: seq<Report>)
    ensures Settles(players, rs) <==> |rs| == players || 2 * YesVotes(rs) > players
    ensures Rejects(players, rs) <==> 2 * YesVotes(rs) >= players
  {
  }

  /** A dispute that is settled by a strict majority always rejects; a word is therefore only
      accepted when every player has voted and fewer than half of them voted to reject. */
  lemma AcceptedOnlyWhenAllVoted(players: nat, rs: seq<Report>)
    ensures Settles(players, rs) && !Rejects(players, rs) <==>
      |rs| == players && 2 * YesVotes(rs) < players
  {
    ThresholdsInIntegers(players, rs);
  }

  /** A tie rejects: with an even number of players, all voting and exactly half of them for
      rejection, the word is rejected. */
  lemma TieRejects(players: nat, rs: seq<Report>)
    requires |rs| == players && 2 * YesVotes(rs) == players
    ensures Settles(players, rs) && Rejects(players, rs)
  {
    ThresholdsInIntegers(players, rs);
  }

  /** Reporting keeps the one-entry-per-socket property, and the reporter's vote is "reject"
      unless it had already voted. */
  lemma {:induction false} AddReportKeepsUnique(rs: seq<Report>, id: Id)
    requires UniqueReporters(rs)
    ensures UniqueReporters(AddReport(rs, id))
    ensures VoteOf(AddReport(rs, id), id) == if HasReport(rs, id) then VoteOf(rs, id) else Some(true)
  {
    if !HasReport(rs, id) {
      var r := rs + [Report(id, true)];
      VoteOfAppend(rs, id, Report(id, true));
    }
  }

  lemma {:induction false} VoteOfAppend(rs: seq<Report>, id: Id, e: Report)
    requires !HasReport(rs, id)
    ensures VoteOf(rs + [e], id) == if e.playerId == id then Some(e.vote) else None
  {
    if rs != [] {
      assert (rs + [e])[1..] == rs[1..] + [e];
      HasReportSplit(rs, id);
      VoteOfAppend(rs[1..], id, e);
    }
  }

  /** Voting keeps the one-entry-per-socket property. */
  lemma CastVoteKeepsUnique(rs: seq<Report>, id: Id, vote: bool)
    requires UniqueReporters(rs)
    ensures UniqueReporters(CastVote(rs, id, vote))
  {
    var r := CastVote(rs, id, vote);
    forall i, j | 0 <= i < j < |r| ensures r[i].playerId != r[j].playerId {
      if j == |rs| {
        assert rs[i].playerId != id;
      }
    }
  }

  /** Voting records the new vote for the voter and leaves every other socket's vote as it was. */
  lemma {:induction false} CastVoteUpserts(rs: seq<Report>, id: Id, vote: bool)
    ensures VoteOf(CastVote(rs, id, vote), id) == Some(vote)
    ensures forall other :: other != id ==> VoteOf(CastVote(rs, id, vote), other) == VoteOf(rs, other)
  {
    var r := CastVote(rs, id, vote);
    if rs != [] && rs[0].playerId != id {
      CastVoteUpserts(rs[1..], id, vote);
      assert r[1..] == CastVote(rs[1..], id, vote);
    } else if rs != [] {
      assert r[1..] == rs[1..];
    }
  }

  /** Reporting and then voting is the same as voting: the report's default "reject" is
      overwritten by the vote. */
  lemma {:induction false} VoteOverridesReport(rs: seq<Report>, id: Id, vote: bool)
    ensures CastVote(AddReport(rs, id), id, vote) == CastVote(rs, id, vote)
  {
    if !HasReport(rs, id) {
      CastVoteAppended(rs, id, vote, true);
      CastVoteFresh(rs, id, vote);
    }
  }

  /** A socket without an entry gets a new one at the end. */
  lemma {:induction false} CastVoteFresh(rs: seq<Report>, id: Id, vote: bool)
    requires !HasReport(rs, id)
    ensures CastVote(rs, id, vote) == rs + [Report(id, vote)]
  {
    if rs != [] {
      HasReportSplit(rs, id);
      CastVoteFresh(rs[1..], id, vote);
      assert rs == [rs[0]] + rs[1..];
    }
  }

  lemma {:induction false} CastVoteAppended(rs: seq<Report>, id: Id, vote: bool, earlier: bool)
    requires !HasReport(rs, id)
    ensures CastVote(rs + [Report(id, earlier)], id, vote) == rs + [Report(id, vote)]
  {
    var e := Report(id, earlier);
    if rs == [] {
      assert rs + [e] == [e];
    } else {
      HasReportSplit(rs, id);
      var t := rs + [e];
      assert t[0] == rs[0] && t[1..] == rs[1..] + [e];
      calc {
        CastVote(t, id, vote);
        [rs[0]] + CastVote(rs[1..] + [e], id, vote);
        { CastVoteAppended(rs[1..], id, vote, earlier); }
        [rs[0]] + (rs[1..] + [Report(id, vote)]);
        { assert rs == [rs[0]] + rs[1..]; }
        rs + [Report(id, vote)];
      }
    }
  }
}
