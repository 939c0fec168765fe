/**
 The `/stats` listing: one row per user with an entry, ordered by
 non-increasing wins. The users are visited in map iteration order, which
 Go leaves unspecified, and the sort is not stable, so among users with
 equal wins no order is promised.
 */
module Leaderboard {
  import opened Stats
  import opened Identity

  datatype Row = Row(handle: string, wins: nat, losses: nat)

  function RowOf(stats: map<int, Stat>, dir: Directory, id: int): Row
    requires id in stats
  {
    Row(NameOf(dir, id), stats[id].wins, stats[id].losses)
  }

  function WinsOf(stats: map<int, Stat>, id: int): nat {
    StatOf(stats, id).wins
  }

  /** Every listed user has an entry, and wins never increase down the list. */
  predicate RankedByWins(stats: map<int, Stat>, order: seq<int>) {
    && (forall i :: 0 <= i < |order| ==> order[i] in stats)
    && (forall i, j :: 0 <= i < j < |order| ==> WinsOf(stats, order[i]) >= WinsOf(stats, order[j]))
  }

  lemma PrependRanked(stats: map<int, Stat>, x: int, xs: seq<int>)
    requires x in stats && RankedByWins(stats, xs)
    requires forall j :: 0 <= j < |xs| ==> WinsOf(stats, xs[j]) <= WinsOf(stats, x)
    ensures RankedByWins(stats, [x] + xs)
  {
    var r := [x] + xs;
    assert forall j :: 1 <= j < |r| ==> r[j] == xs[j - 1];
  }

  /** Inserting behind the head: the tail with `k` inserted ranks below the head. */
  lemma InsertBehindHead(stats: map<int, Stat>, xs: seq<int>, k: int, rest: seq<int>)
    requires |xs| > 0 && k in stats && RankedByWins(stats, xs)
    requires WinsOf(stats, k) <= WinsOf(stats, xs[0])
    requires RankedByWins(stats, rest) && multiset(rest) == multiset(xs[1..]) + multiset{k}
    ensures RankedByWins(stats, [xs[0]] + rest)
    ensures multiset([xs[0]] + rest) == multiset(xs) + multiset{k}
  {
    forall j | 0 <= j < |rest|
      ensures WinsOf(stats, rest[j]) <= WinsOf(stats, xs[0])
    {
      assert rest[j] in multiset(rest);
      if rest[j] != k {
        assert rest[j] in multiset(xs[1..]);
        var i :| 0 <= i < |xs[1..]| && xs[1..][i] == rest[j];
        assert xs[i + 1] == rest[j];
      }
    }
    PrependRanked(stats, xs[0], rest);
    assert xs == [xs[0]] + xs[1..];
  }

  /** Inserting in front: `k` outranks the head, hence the whole list. */
  lemma InsertInFront(stats: map<int, Stat>, xs: seq<int>, k: int)
    requires |xs| > 0 && k in stats && RankedByWins(stats, xs)
    requires WinsOf(stats, k) > WinsOf(stats, xs[0])
    ensures RankedByWins(stats, [k] + xs)
  {
    assert forall j :: 0 <= j < |xs| ==> WinsOf(stats, xs[j]) <= WinsOf(stats, xs[0]);
    PrependRanked(stats, k, xs);
  }

  /** Puts `k` after every user with at least as many wins. */
  function InsertByWins(stats: map<int, Stat>, xs: seq<int>, k: int): (r: seq<int>)
    requires k in stats && RankedByWins(stats, xs)
    ensures RankedByWins(stats, r)
    ensures multiset(r) == multiset(xs) + multiset{k}
    decreases |xs|
  {
    if |xs| == 0 then [k]
    else if WinsOf(stats, xs[0]) >= WinsOf(stats, k) then
      var rest := InsertByWins(stats, xs[1..], k);
      InsertBehindHead(stats, xs, k, rest);
      [xs[0]] + rest
    else
      InsertInFront(stats, xs, k);
      [k] + xs
  }

  function Rows(stats: map<int, Stat>, dir: Directory, order: seq<int>): (r: seq<Row>)
    requires forall i :: 0 <= i < |order| ==> order[i] in stats
    ensures |r| == |order|
    ensures forall i :: 0 <= i < |order| ==> r[i] == RowOf(stats, dir, order[i])
  {
    if |order| == 0 then [] else [RowOf(stats, dir, order[0])] + Rows(stats, dir, order[1..])
  }

  /**
   The listing: `order` names each user with an entry exactly once, ranked by
   wins, and `rows` shows each of them with their display name and counters.
   */
  method Snapshot(stats: map<int, Stat>, dir: Directory) returns (order: seq<int>, rows: seq<Row>)
    ensures multiset(order) == multiset(stats.Keys)
    ensures RankedByWins(stats, order)
    ensures |order| == |stats| && |rows| == |order|
    ensures forall i :: 0 <= i < |rows| ==> rows[i] == RowOf(stats, dir, order[i])
  {
    var left := stats.Keys;
    order := [];
    while left != {}
      invariant left <= stats.Keys
      invariant multiset(order) + multiset(left) == multiset(stats.Keys)
      invariant RankedByWins(stats, order)
      decreases |left|
    {
      assert exists u :: u in left by {
        if forall u :: u !in left { assert false; }
      }
      var k :| k in left;
      order := InsertByWins(stats, order, k);
      assert multiset(left) == multiset(left - {k}) + multiset{k};
      left := left - {k};
    }
    assert |multiset(order)| == |order|;
    assert |multiset(stats.Keys)| == |stats.Keys|;
    rows := Rows(stats, dir, order);
  }

  /** With pairwise different wins the ranking is fully determined: {A: 3/1, B: 5/0, C: 0/2} lists B, A, C. */
  lemma ThreeUserRanking(order: seq<int>)
    requires multiset(order) == multiset{1, 2, 3}
    requires RankedByWins(map[1 := Stat(3, 1), 2 := Stat(5, 0), 3 := Stat(0, 2)], order)
    ensures order == [2, 1, 3]
  {
    var stats := map[1 := Stat(3, 1), 2 := Stat(5, 0), 3 := Stat(0, 2)];
    assert |order| == 3 by { assert |multiset(order)| == 3; }
    assert forall i :: 0 <= i < 3 ==> order[i] in multiset(order);
    assert order == [order[0], order[1], order[2]];
  }
}
