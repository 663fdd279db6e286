/** The `players` array of a room: lookups, removal and loss counting. */
module Roster {
  import opened Common
  import Seqs

  /** `players.map(p => p.id)`. */
  function Ids(ps: seq<Player>): (ids: seq<Id>)
    ensures |ids| == |ps|
    ensures forall i :: 0 <= i < |ps| ==> ids[i] == ps[i].id
  {
    seq(|ps|, i requires 0 <= i < |ps| => ps[i].id)
  }

  predicate HasPlayer(ps: seq<Player>, id: Id) {
    exists i :: 0 <= i < |ps| && ps[i].id == id
  }

  /** No two players share an id. */
  predicate UniqueIds(ps: seq<Player>) {
    forall i, j :: 0 <= i < j < |ps| ==> ps[i].id != ps[j].id
  }

  /** Every player id is a connection id, never the empty "no player" value. */
  predicate SocketIds(ps: seq<Player>) {
    forall i :: 0 <= i < |ps| ==> ps[i].id != []
  }

  /** Rosters with the same ids in the same order agree on uniqueness and on membership. */
  lemma SameIds(ps: seq<Player>, qs: seq<Player>)
    requires Ids(ps) == Ids(qs)
    ensures UniqueIds(ps) <==> UniqueIds(qs)
    ensures SocketIds(ps) <==> SocketIds(qs)
    ensures forall id :: HasPlayer(ps, id) <==> HasPlayer(qs, id)
  {
    assert forall i :: 0 <= i < |ps| ==> ps[i].id == Ids(ps)[i] == Ids(qs)[i] == qs[i].id;
  }

  /** `players.findIndex(p => p.id === id)`: the first position holding `id`, or -1. */
  function IndexOf(ps: seq<Player>, id: Id): (k: int)
    ensures -1 <= k < |ps|
    ensures k == -1 <==> !HasPlayer(ps, id)
    ensures k >= 0 ==> ps[k].id == id && forall j :: 0 <= j < k ==> ps[j].id != id
  {
    if ps == [] then -1
    else if ps[0].id == id then 0
    else
      var k := IndexOf(ps[1..], id);
      assert HasPlayer(ps[1..], id) ==> HasPlayer(ps, id);
      assert HasPlayer(ps, id) ==> HasPlayer(ps[1..], id) by {
        if HasPlayer(ps, id) {
          var i :| 0 <= i < |ps| && ps[i].id == id;
          assert i > 0 && ps[1..][i - 1].id == id;
        }
      }
      if k == -1 then -1 else k + 1
  }

  /** `players.splice(k, 1)`: the players without the one at position `k`, the others in order. */
  function RemoveAt(ps: seq<Player>, k: nat): (r: seq<Player>)
    requires k < |ps|
    ensures |r| == |ps| - 1
    ensures forall j :: 0 <= j < |r| ==> r[j] == (if j < k then ps[j] else ps[j + 1])
  {
    ps[..k] + ps[k + 1..]
  }

  /** `players.find(p => p.id === id)` followed by `loseCount++` on the player found. */
  function AddLoss(ps: seq<Player>, id: Id): (r: seq<Player>)
    ensures |r| == |ps|
    ensures Ids(r) == Ids(ps)
    ensures forall j :: 0 <= j < |ps| ==> r[j].name == ps[j].name
    ensures forall j :: 0 <= j < |ps| ==>
      r[j].loseCount == ps[j].loseCount + (if j == IndexOf(ps, id) then 1 else 0)
  {
    var k := IndexOf(ps, id);
    if k == -1 then ps else ps[k := ps[k].(loseCount := ps[k].loseCount + 1)]
  }

  /** Membership, looked at from the front of the roster. */
  lemma HasPlayerCons(ps: seq<Player>, id: Id)
    requires ps != []
    ensures HasPlayer(ps, id) <==> ps[0].id == id || HasPlayer(ps[1..], id)
  {
    if HasPlayer(ps, id) && ps[0].id != id {
      var i :| 0 <= i < |ps| && ps[i].id == id;
      assert ps[1..][i - 1].id == id;
    }
    if HasPlayer(ps[1..], id) {
      var i :| 0 <= i < |ps[1..]| && ps[1..][i].id == id;
      assert ps[i + 1].id == id;
    }
  }

  /** `AddLoss` walks the roster from the front. */
  lemma AddLossCons(ps: seq<Player>, id: Id)
    requires ps != []
    ensures AddLoss(ps, id) ==
      if ps[0].id == id then [ps[0].(loseCount := ps[0].loseCount + 1)] + ps[1..]
      else [ps[0]] + AddLoss(ps[1..], id)
    ensures ps[0].id != id ==> (HasPlayer(ps, id) <==> HasPlayer(ps[1..], id))
  {
    HasPlayerCons(ps, id);
    if ps[0].id == id {
      var q := ps[0].(loseCount := ps[0].loseCount + 1);
      calc {
        AddLoss(ps, id);
        ps[0 := q];
        [q] + ps[1..];
      }
    } else {
      var k := IndexOf(ps[1..], id);
      if k == -1 {
        calc {
          AddLoss(ps, id);
          { assert IndexOf(ps, id) == -1; }
          ps;
          [ps[0]] + ps[1..];
          [ps[0]] + AddLoss(ps[1..], id);
        }
      } else {
        var q := ps[1..][k].(loseCount := ps[1..][k].loseCount + 1);
        calc {
          AddLoss(ps, id);
          { assert IndexOf(ps, id) == k + 1; }
          ps[k + 1 := q];
          [ps[0]] + ps[1..][k := q];
          [ps[0]] + AddLoss(ps[1..], id);
        }
      }
    }
  }

  /** `players.filter(p => p.id !== id)`. */
  function Without(ps: seq<Player>, id: Id): (r: seq<Player>)
    ensures forall p :: p in r <==> p in ps && p.id != id
  {
    Seqs.Filter(ps, (p: Player) => p.id != id)
  }

  /** The tail of a roster without duplicates has none either. */
  lemma UniqueTail(ps: seq<Player>)
    requires ps != [] && UniqueIds(ps)
    ensures UniqueIds(ps[1..])
  {
    forall i, j | 0 <= i < j < |ps[1..]| ensures ps[1..][i].id != ps[1..][j].id {
      assert ps[1..][i] == ps[i + 1] && ps[1..][j] == ps[j + 1];
    }
  }

  /** In a roster without duplicate ids, leaving one id out drops at most one player. */
  lemma {:induction false} WithoutDropsAtMostOne(ps: seq<Player>, id: Id)
    requires UniqueIds(ps)
    ensures |Without(ps, id)| >= |ps| - 1
    ensures !HasPlayer(ps, id) ==> Without(ps, id) == ps
  {
    var keep := (p: Player) => p.id != id;
    if ps != [] {
      UniqueTail(ps);
      WithoutDropsAtMostOne(ps[1..], id);
      assert Without(ps, id) == (if keep(ps[0]) then [ps[0]] else []) + Without(ps[1..], id);
      if ps[0].id == id {
        TailLacksHead(ps);
        Seqs.FilterKeepsAll(ps[1..], keep);
      } else {
        HasPlayerCons(ps, id);
        assert ps == [ps[0]] + ps[1..];
      }
    }
  }

  /** No later player of a roster without duplicates has the first player's id. */
  lemma TailLacksHead(ps: seq<Player>)
    requires ps != [] && UniqueIds(ps)
    ensures forall p | p in ps[1..] :: p.id != ps[0].id
  {
    forall p | p in ps[1..] ensures p.id != ps[0].id {
      var i :| 0 <= i < |ps[1..]| && ps[1..][i] == p;
      assert ps[i + 1] == p;
    }
  }

  /** Removing position `k` from a roster without duplicates leaves one without duplicates. */
  lemma RemoveAtUnique(ps: seq<Player>, k: nat)
    requires k < |ps| && UniqueIds(ps)
    ensures UniqueIds(RemoveAt(ps, k))
  {
    var r := RemoveAt(ps, k);
    forall i, j | 0 <= i < j < |r| ensures r[i].id != r[j].id {
      var i' := if i < k then i else i + 1;
      var j' := if j < k then j else j + 1;
      assert r[i] == ps[i'] && r[j] == ps[j'] && i' < j';
    }
  }

  /** Removing position `k` keeps exactly the ids held at the other positions. */
  lemma RemoveAtMember(ps: seq<Player>, k: nat, x: Id)
    requires k < |ps| && UniqueIds(ps)
    ensures HasPlayer(RemoveAt(ps, k), x) <==> HasPlayer(ps, x) && x != ps[k].id
  {
    var r := RemoveAt(ps, k);
    if HasPlayer(r, x) {
      var j :| 0 <= j < |r| && r[j].id == x;
      var j' := if j < k then j else j + 1;
      assert ps[j'].id == x && j' != k;
    }
    if HasPlayer(ps, x) && x != ps[k].id {
      var j :| 0 <= j < |ps| && ps[j].id == x;
      if j < k { assert r[j].id == x; } else { assert r[j - 1].id == x; }
    }
  }

  /** Removing the player at the position of `id` from a roster without duplicates leaves a
      roster without duplicates that holds every other id and no longer holds `id`. */
  lemma RemoveAtKeepsOthers(ps: seq<Player>, id: Id)
    requires UniqueIds(ps) && HasPlayer(ps, id)
    ensures UniqueIds(RemoveAt(ps, IndexOf(ps, id)))
    ensures forall x :: HasPlayer(RemoveAt(ps, IndexOf(ps, id)), x) <==> HasPlayer(ps, x) && x != id
  {
    var k := IndexOf(ps, id);
    RemoveAtUnique(ps, k);
    forall x ensures HasPlayer(RemoveAt(ps, k), x) <==> HasPlayer(ps, x) && x != id {
      RemoveAtMember(ps, k, x);
    }
  }

  lemma IdsAppend(a: seq<Player>, b: seq<Player>)
    ensures Ids(a + b) == Ids(a) + Ids(b)
  {
  }

  lemma IdsAround(a: seq<Player>, p: Player, b: seq<Player>)
    ensures multiset(Ids(a + [p] + b)) == multiset(Ids(a + b)) + multiset{p.id}
  {
    IdsAppend(a + [p], b);
    IdsAppend(a, [p]);
    IdsAppend(a, b);
  }

  lemma MultisetAround(s: seq<Player>, a: seq<Player>, b: seq<Player>)
    requires |s| > 0 && multiset(s) == multiset(a + [s[0]] + b)
    ensures multiset(s[1..]) == multiset(a + b)
  {
    assert s == [s[0]] + s[1..];
    calc {
      multiset(s[1..]);
      multiset(s) - multiset{s[0]};
      multiset(a + [s[0]] + b) - multiset{s[0]};
      { assert a + [s[0]] + b == (a + b)[..|a|] + [s[0]] + (a + b)[|a|..]; }
      multiset(a) + multiset{s[0]} + multiset(b) - multiset{s[0]};
      multiset(a + b);
    }
  }

  /** `players.map(p => p.id)` of a reordering of the players is the same reordering of the ids. */
  lemma {:induction false} IdsOfPermutation(s: seq<Player>, t: seq<Player>)
    requires multiset(s) == multiset(t)
    ensures multiset(Ids(s)) == multiset(Ids(t))
    decreases |s|
  {
    if s == [] {
      assert |t| == |multiset(t)| == |multiset(s)| == 0;
    } else {
      assert s[0] in multiset(t);
      var k :| 0 <= k < |t| && t[k] == s[0];
      var a, b := t[..k], t[k + 1..];
      assert t == a + [s[0]] + b;
      MultisetAround(s, a, b);
      IdsOfPermutation(s[1..], a + b);
      IdsAround(a, s[0], b);
      IdsAround([], s[0], s[1..]);
      assert [] + [s[0]] + s[1..] == s && [] + s[1..] == s[1..];
    }
  }

  /** The total number of lost rounds over a roster. */
  function TotalLosses(ps: seq<Player>): nat {
    if ps == [] then 0 else ps[0].loseCount + TotalLosses(ps[1..])
  }

  lemma {:induction false} AddLossTotal(ps: seq<Player>, id: Id)
    ensures TotalLosses(AddLoss(ps, id)) == TotalLosses(ps) + (if HasPlayer(ps, id) then 1 else 0)
  {
    if ps != [] {
      AddLossCons(ps, id);
      AddLossTotal(ps[1..], id);
      var r := AddLoss(ps, id);
      assert r[1..] == (if ps[0].id == id then ps[1..] else AddLoss(ps[1..], id));
    }
  }

  /** A reordering of a roster has the same members, and keeps ids unique and non-empty. */
  lemma PermutationKeepsRoster(s: seq<Player>, t: seq<Player>)
    requires multiset(s) == multiset(t) && UniqueIds(s) && SocketIds(s)
    ensures UniqueIds(t) && SocketIds(t)
    ensures forall id :: HasPlayer(s, id) <==> HasPlayer(t, id)
  {
    IdsOfPermutation(s, t);
    forall i, j | 0 <= i < j < |t| ensures t[i].id != t[j].id {
      Seqs.DistinctCount(Ids(s), t[i].id);
      if t[j].id == t[i].id {
        Seqs.RepeatCount(Ids(t), i, j);
      }
    }
    forall i | 0 <= i < |t| ensures t[i].id != [] {
      assert t[i] in multiset(s);
    }
    forall id | HasPlayer(s, id) ensures HasPlayer(t, id) {
      var k :| 0 <= k < |s| && s[k].id == id;
      assert s[k] in multiset(t);
    }
    forall id | HasPlayer(t, id) ensures HasPlayer(s, id) {
      var k :| 0 <= k < |t| && t[k].id == id;
      assert t[k] in multiset(s);
    }
  }

  lemma {:induction false} TotalLossesAppend(a: seq<Player>, b: seq<Player>)
    ensures TotalLosses(a + b) == TotalLosses(a) + TotalLosses(b)
  {
    if a == [] {
      assert a + b == b;
    } else {
      assert (a + b)[1..] == a[1..] + b;
      TotalLossesAppend(a[1..], b);
    }
  }

  /** Reordering a roster keeps the total number of lost rounds. */
  lemma {:induction false} PermutationTotal(s: seq<Player>, t: seq<Player>)
    requires multiset(s) == multiset(t)
    ensures TotalLosses(s) == TotalLosses(t)
    decreases |s|
  {
    if s == [] {
      assert |t| == |multiset(t)| == 0;
    } else {
      assert s[0] in multiset(t);
      var i :| 0 <= i < |t| && t[i] == s[0];
      var a, b := t[..i], t[i + 1..];
      assert t == a + [s[0]] + b;
      MultisetAround(s, a, b);
      PermutationTotal(s[1..], a + b);
      TotalLossesAppend(a, b);
      TotalLossesAppend(a + [s[0]], b);
      TotalLossesAppend(a, [s[0]]);
      assert [s[0]][1..] == [];
    }
  }
}
