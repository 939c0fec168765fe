/**
 Per-user win/loss counters. An entry is created the first time a user's
 result is recorded, starting from zero, and is never removed.
 */
module Stats {

  datatype Stat = Stat(wins: nat, losses: nat)

  /** Which of the two counters of a Stat. */
  datatype Field = Wins | Losses

  function Count(s: Stat, f: Field): nat {
    match f
    case Wins => s.wins
    case Losses => s.losses
  }

  /** The counters of a user, zero for a user without an entry. */
  function StatOf(m: map<int, Stat>, id: int): Stat {
    if id in m then m[id] else Stat(0, 0)
  }

  /** Adds one to the given counter of a user, creating the entry when missing. */
  function Record(m: map<int, Stat>, id: int, f: Field): (r: map<int, Stat>)
    ensures r.Keys == m.Keys + {id}
    ensures forall u, g :: Count(StatOf(r, u), g) == Count(StatOf(m, u), g) + (if u == id && g == f then 1 else 0)
  {
    var s := StatOf(m, id);
    m[id := if f == Wins then Stat(s.wins + 1, s.losses) else Stat(s.wins, s.losses + 1)]
  }

  /** Some user of a non-empty map; which one is left open. */
  ghost function Pick(m: map<int, Stat>): (k: int)
    requires m != map[]
    ensures k in m
  {
    assert exists u :: u in m by {
      if forall u :: u !in m { assert false; }
    }
    var k :| k in m; k
  }

  /** The sum of one counter over all users. */
  ghost function Total(m: map<int, Stat>, f: Field): nat
    decreases |m|
  {
    if m == map[] then 0
    else
      var k := Pick(m);
      assert |m - {k}| < |m| by { assert (m - {k}).Keys < m.Keys; }
      Count(m[k], f) + Total(m - {k}, f)
  }

  /** Total does not depend on which user is taken out first. */
  lemma {:induction false} TotalRemove(m: map<int, Stat>, k: int, f: Field)
    requires k in m
    ensures Total(m, f) == Count(m[k], f) + Total(m - {k}, f)
    decreases |m|
  {
    var j := Pick(m);
    if j != k {
      assert |m - {j}| < |m| by { assert (m - {j}).Keys < m.Keys; }
      assert |m - {k}| < |m| by { assert (m - {k}).Keys < m.Keys; }
      TotalRemove(m - {j}, k, f);
      TotalRemove(m - {k}, j, f);
      assert m - {j} - {k} == m - {k} - {j};
    }
  }

  /** Recording raises the total of the recorded counter by one and leaves the other total alone. */
  lemma TotalRecord(m: map<int, Stat>, id: int, f: Field, g: Field)
    ensures Total(Record(m, id, f), g) == Total(m, g) + (if f == g then 1 else 0)
  {
    var r := Record(m, id, f);
    TotalRemove(r, id, g);
    assert r - {id} == m - {id};
    assert Count(r[id], g) == Count(StatOf(m, id), g) + (if f == g then 1 else 0);
    if id in m {
      TotalRemove(m, id, g);
    } else {
      assert m - {id} == m;
    }
  }

  /** The result of a duel: one more win for the winner, one more loss for the loser. */
  function RecordResult(m: map<int, Stat>, winner: int, loser: int): (r: map<int, Stat>)
    ensures r.Keys == m.Keys + {winner, loser}
    ensures forall u :: StatOf(r, u).wins == StatOf(m, u).wins + (if u == winner then 1 else 0)
    ensures forall u :: StatOf(r, u).losses == StatOf(m, u).losses + (if u == loser then 1 else 0)
  {
    var r := Record(Record(m, winner, Wins), loser, Losses);
    assert forall u :: StatOf(r, u).wins == Count(StatOf(r, u), Wins);
    assert forall u :: StatOf(r, u).losses == Count(StatOf(r, u), Losses);
    r
  }

  /** A recorded result keeps total wins equal to total losses. */
  lemma TotalResult(m: map<int, Stat>, winner: int, loser: int)
    ensures Total(RecordResult(m, winner, loser), Wins) == Total(m, Wins) + 1
    ensures Total(RecordResult(m, winner, loser), Losses) == Total(m, Losses) + 1
  {
    var s1 := Record(m, winner, Wins);
    TotalRecord(m, winner, Wins, Wins);
    TotalRecord(m, winner, Wins, Losses);
    TotalRecord(s1, loser, Losses, Wins);
    TotalRecord(s1, loser, Losses, Losses);
  }
}
