/** The rankings of a finished round: the players sorted by their number of lost rounds.
    `Array.prototype.sort` is stable, so players with the same count keep their order. */
module Ranking {
  import opened Common
  import Seqs

  /** `(a, b) => a.loseCount - b.loseCount` sorts ascending, `(a, b) => b.loseCount - a.loseCount`
      descending. */
  datatype Direction = Ascending | Descending

  /** `a` may come before `b` in a list sorted in direction `d`. */
  predicate Before(d: Direction, a: Player, b: Player) {
    match d
    case Ascending => a.loseCount <= b.loseCount
    case Descending => a.loseCount >= b.loseCount
  }

  predicate Ordered(d: Direction, s: seq<Player>) {
    forall i, j :: 0 <= i < j < |s| ==> Before(d, s[i], s[j])
  }

  /** Insertion of `p` in front of the first player it may precede. */
  function Insert(d: Direction, p: Player, s: seq<Player>): (r: seq<Player>)
    requires Ordered(d, s)
    ensures Ordered(d, r)
    ensures multiset(r) == multiset(s) + multiset{p}
    ensures |r| == |s| + 1
  {
    if s == [] || Before(d, p, s[0]) then
      assert forall y | y in s :: y == s[0] || Before(d, s[0], y);
      ConsOrdered(d, p, s);
      [p] + s
    else
      var rest := Insert(d, p, s[1..]);
      assert s == [s[0]] + s[1..];
      assert forall y | y in s[1..] :: Before(d, s[0], y);
      assert forall y | y in rest :: y in multiset(rest);
      ConsOrdered(d, s[0], rest);
      [s[0]] + rest
  }

  /** A player that may precede every member of an ordered list may be put in front of it. */
  lemma ConsOrdered(d: Direction, x: Player, s: seq<Player>)
    requires Ordered(d, s) && forall y | y in s :: Before(d, x, y)
    ensures Ordered(d, [x] + s)
  {
    forall i, j | 0 <= i < j < |[x] + s| ensures Before(d, ([x] + s)[i], ([x] + s)[j]) {
      if i > 0 {
        assert ([x] + s)[i] == s[i - 1];
      }
      assert ([x] + s)[j] == s[j - 1];
    }
  }

  /** The stable sort of `s` in direction `d`. */
  function SortBy(d: Direction, s: seq<Player>): (r: seq<Player>)
    ensures Ordered(d, r)
    ensures multiset(r) == multiset(s)
    ensures |r| == |s|
  {
    if s == [] then []
    else
      assert s == [s[0]] + s[1..];
      Insert(d, s[0], SortBy(d, s[1..]))
  }

  /** The players with `k` lost rounds, in their order in `s`. */
  function WithCount(s: seq<Player>, k: nat): (r: seq<Player>)
    ensures forall p :: p in r <==> p in s && p.loseCount == k
  {
    if s == [] then []
    else (if s[0].loseCount == k then [s[0]] else []) + WithCount(s[1..], k)
  }

  lemma {:induction false} WithCountAppend(a: seq<Player>, b: seq<Player>, k: nat)
    ensures WithCount(a + b, k) == WithCount(a, k) + WithCount(b, k)
  {
    if a == [] {
      assert a + b == b;
    } else {
      assert (a + b)[1..] == a[1..] + b;
      WithCountAppend(a[1..], b, k);
    }
  }

  lemma WithCountCons(x: Player, s: seq<Player>, k: nat)
    ensures WithCount([x] + s, k) == (if x.loseCount == k then [x] else []) + WithCount(s, k)
  {
    assert ([x] + s)[1..] == s;
  }

  lemma StableStep(x: Player, p: Player, rest: seq<Player>, tail: seq<Player>, k: nat)
    requires x.loseCount != p.loseCount
    requires WithCount(rest, k) == (if p.loseCount == k then [p] else []) + WithCount(tail, k)
    ensures WithCount([x] + rest, k) == (if p.loseCount == k then [p] else []) + WithCount([x] + tail, k)
  {
    WithCountCons(x, rest, k);
    WithCountCons(x, tail, k);
  }

  lemma {:induction false} InsertStable(d: Direction, p: Player, s: seq<Player>, k: nat)
    requires Ordered(d, s)
    ensures WithCount(Insert(d, p, s), k) == (if p.loseCount == k then [p] else []) + WithCount(s, k)
  {
    if s == [] || Before(d, p, s[0]) {
      WithCountAppend([p], s, k);
    } else {
      InsertStable(d, p, s[1..], k);
      StableStep(s[0], p, Insert(d, p, s[1..]), s[1..], k);
      assert s == [s[0]] + s[1..];
    }
  }

  /** Stability: sorting keeps, for every count, the players with that count in their original
      order. */
  lemma {:induction false} SortByStable(d: Direction, s: seq<Player>, k: nat)
    ensures WithCount(SortBy(d, s), k) == WithCount(s, k)
  {
    if s != [] {
      SortByStable(d, s[1..], k);
      InsertStable(d, s[0], SortBy(d, s[1..]), k);
    }
  }

  /** The tail of an ordered list is ordered. */
  lemma OrderedTail(d: Direction, s: seq<Player>)
    requires s != [] && Ordered(d, s)
    ensures Ordered(d, s[1..])
  {
    forall i, j | 0 <= i < j < |s[1..]| ensures Before(d, s[1..][i], s[1..][j]) {
      assert s[1..][i] == s[i + 1] && s[1..][j] == s[j + 1];
    }
  }

  /** A list that is already in order is left as it is. */
  lemma {:induction false} SortByOrdered(d: Direction, s: seq<Player>)
    requires Ordered(d, s)
    ensures SortBy(d, s) == s
  {
    if s != [] {
      OrderedTail(d, s);
      SortByOrdered(d, s[1..]);
      assert s[1..] == [] || Before(d, s[0], s[1..][0]);
      assert s == [s[0]] + s[1..];
    }
  }
}
