/**
 The duel engine: the four process-wide maps of the bot and the transitions
 that change them. Pending challenges are keyed by the initiator's id; an
 active duel is keyed by the id of the message that issued the challenge and
 holds the ordered pair of players and whose turn it is (0 or 1).

 Every transition is a pure function of the state; the coin flips of the
 bot (`rand.Intn(2)`) are passed in as a Bit.
 */
module Duel {
  import opened Stats

  /** A value of `rand.Intn(2)`. */
  type Bit = b: int | 0 <= b <= 1

  /** The two players of a duel, in the order (initiator, opponent). */
  datatype Pair = Pair(first: int, second: int) {
    function At(i: Bit): int {
      if i == 0 then first else second
    }
  }

  datatype Game = Game(
    requests: map<int, int>,    // initiator -> challenged user
    duels: map<int, Pair>,      // session key -> players
    turn: map<int, int>,        // session key -> index of the player to shoot
    stats: map<int, Stat>)      // user -> wins and losses

  const Empty := Game(map[], map[], map[], map[])

  /** What the bot announces after a transition; Silent when it sends nothing. */
  datatype Notice =
    | Silent
    | BotTargeted
    | SelfTargeted
    | UnknownUser(mention: string)
    | Challenged(initiator: int, opponent: int)
    | Started(first: int, second: int, shooter: int)
    | Declined(initiator: int)
    | NotYourTurn(user: int)
    | Won(winner: int, loser: int)
    | NextTurn(shooter: int)

  datatype Outcome = Outcome(game: Game, notice: Notice)

  /** The turn stored for a session, 0 when none is stored (Go's zero value). */
  function TurnAt(g: Game, key: int): int {
    if key in g.turn then g.turn[key] else 0
  }

  /** Every active duel's turn can index its pair; otherwise the bot would panic on a shot. */
  predicate TurnsIndexable(g: Game) {
    forall k :: k in g.duels ==> 0 <= TurnAt(g, k) <= 1
  }

  /** The invariants every transition keeps. */
  ghost predicate Valid(g: Game) {
    && g.duels.Keys == g.turn.Keys
    && (forall k :: k in g.turn ==> 0 <= g.turn[k] <= 1)
    && Total(g.stats, Wins) == Total(g.stats, Losses)
  }

  /** Nobody is challenged by, or in a duel with, themselves. */
  ghost predicate NoSelfPlay(g: Game) {
    && (forall i :: i in g.requests ==> g.requests[i] != i)
    && (forall k :: k in g.duels ==> g.duels[k].first != g.duels[k].second)
  }

  lemma ValidIndexable(g: Game)
    requires Valid(g)
    ensures TurnsIndexable(g)
  {
  }

  lemma EmptyValid()
    ensures Valid(Empty) && NoSelfPlay(Empty)
  {
  }

  /** The user allowed to shoot in a session, if the session is active. */
  predicate MayShoot(g: Game, key: int, user: int)
    requires TurnsIndexable(g)
  {
    key in g.duels && g.duels[key].At(TurnAt(g, key)) == user
  }

  /** Records a challenge; an earlier pending challenge of the same initiator is replaced. */
  function Challenge(g: Game, initiator: int, opponent: int): (r: Game)
    ensures initiator in r.requests && r.requests[initiator] == opponent
    ensures forall i :: i != initiator ==> (i in r.requests <==> i in g.requests)
    ensures forall i :: i in g.requests && i != initiator ==> r.requests[i] == g.requests[i]
    ensures r.duels == g.duels && r.turn == g.turn && r.stats == g.stats
  {
    g.(requests := g.requests[initiator := opponent])
  }

  lemma ChallengeKeepsInvariants(g: Game, initiator: int, opponent: int)
    ensures Valid(g) ==> Valid(Challenge(g, initiator, opponent))
    ensures NoSelfPlay(g) && initiator != opponent ==> NoSelfPlay(Challenge(g, initiator, opponent))
  {
  }

  /**
   The challenged user presses "accept" on the challenge of `initiator` anchored
   at message `key`. Only the user stored as the opponent starts the duel.
   */
  function Accept(g: Game, clicker: int, initiator: int, key: int, coin: Bit): (o: Outcome)
    ensures o.notice.Started? <==> initiator in g.requests && g.requests[initiator] == clicker
    ensures !(initiator in g.requests && g.requests[initiator] == clicker) ==> o == Outcome(g, Silent)
    ensures initiator in g.requests && g.requests[initiator] == clicker ==>
      && o.game.duels.Keys == g.duels.Keys + {key}
      && o.game.duels[key] == Pair(initiator, clicker)
      && key in o.game.turn && o.game.turn[key] == coin
      && o.game.requests.Keys == g.requests.Keys - {initiator}
      && (forall i :: i in o.game.requests ==> o.game.requests[i] == g.requests[i])
      && (forall k :: k in g.duels && k != key ==> o.game.duels[k] == g.duels[k] && TurnAt(o.game, k) == TurnAt(g, k))
      && o.game.stats == g.stats
      && o.notice == Started(initiator, clicker, o.game.duels[key].At(coin))
    ensures Valid(g) ==> Valid(o.game)
    ensures NoSelfPlay(g) ==> NoSelfPlay(o.game)
  {
    if initiator in g.requests && g.requests[initiator] == clicker then
      var p := Pair(initiator, clicker);
      Outcome(Game(g.requests - {initiator}, g.duels[key := p], g.turn[key := coin], g.stats),
              Started(initiator, clicker, p.At(coin)))
    else
      Outcome(g, Silent)
  }

  /** Anyone pressing "reject" withdraws the pending challenge of `initiator`. */
  function Reject(g: Game, initiator: int): (o: Outcome)
    ensures initiator !in o.game.requests
    ensures forall i :: i != initiator ==> (i in o.game.requests <==> i in g.requests)
    ensures forall i :: i in o.game.requests ==> o.game.requests[i] == g.requests[i]
    ensures o.game.duels == g.duels && o.game.turn == g.turn && o.game.stats == g.stats
    ensures o.notice == Declined(initiator)
    ensures Valid(g) ==> Valid(o.game)
    ensures NoSelfPlay(g) ==> NoSelfPlay(o.game)
  {
    Outcome(g.(requests := g.requests - {initiator}), Declined(initiator))
  }

  /**
   `shooter` presses "shoot" in session `key`. Unknown sessions and players
   out of turn change nothing; otherwise coin 0 is a hit, which ends the duel
   and records the result, and coin 1 a miss, which passes the turn.
   */
  function Shoot(g: Game, key: int, shooter: int, coin: Bit): (o: Outcome)
    requires TurnsIndexable(g)
    ensures o.game.requests == g.requests
    ensures !MayShoot(g, key, shooter) ==> o.game == g
    ensures key !in g.duels ==> o.notice == Silent
    ensures key in g.duels && !MayShoot(g, key, shooter) ==> o.notice == NotYourTurn(shooter)
    ensures TurnsIndexable(o.game)
  {
    if key !in g.duels then Outcome(g, Silent)
    else
      var p := g.duels[key];
      var t: Bit := TurnAt(g, key);
      if shooter != p.At(t) then Outcome(g, NotYourTurn(shooter))
      else if coin == 0 then
        var loser := p.At(1 - t);
        Outcome(Game(g.requests, g.duels - {key}, g.turn - {key}, RecordResult(g.stats, shooter, loser)), Won(shooter, loser))
      else
        Outcome(g.(turn := g.turn[key := 1 - t]), NextTurn(p.At(1 - t)))
  }

  /** A hit ends the session and gives the shooter one win and the other player one loss, and nothing else. */
  lemma ShootHit(g: Game, key: int, shooter: int)
    requires TurnsIndexable(g) && MayShoot(g, key, shooter)
    ensures var o := Shoot(g, key, shooter, 0);
      var other := g.duels[key].At(1 - TurnAt(g, key));
      && o.notice == Won(shooter, other)
      && o.game.duels == g.duels - {key}
      && o.game.turn == g.turn - {key}
      && o.game.stats.Keys == g.stats.Keys + {shooter, other}
      && (forall u :: StatOf(o.game.stats, u).wins == StatOf(g.stats, u).wins + (if u == shooter then 1 else 0))
      && (forall u :: StatOf(o.game.stats, u).losses == StatOf(g.stats, u).losses + (if u == other then 1 else 0))
  {
  }

  /** A miss passes the turn, 0 to 1 or 1 to 0, and changes nothing else. */
  lemma ShootMiss(g: Game, key: int, shooter: int)
    requires TurnsIndexable(g) && MayShoot(g, key, shooter)
    ensures var o := Shoot(g, key, shooter, 1);
      && o.game.duels == g.duels
      && o.game.stats == g.stats
      && o.game.turn.Keys == g.turn.Keys + {key}
      && TurnAt(o.game, key) == 1 - TurnAt(g, key)
      && (forall k :: k != key ==> TurnAt(o.game, k) == TurnAt(g, k))
      && o.notice == NextTurn(g.duels[key].At(1 - TurnAt(g, key)))
  {
  }

  /** A shot keeps the invariants: the turn stays in {0, 1} and a hit adds one win and one loss. */
  lemma ShootValid(g: Game, key: int, shooter: int, coin: Bit)
    requires Valid(g)
    ensures TurnsIndexable(g) && Valid(Shoot(g, key, shooter, coin).game)
  {
    if MayShoot(g, key, shooter) && coin == 0 {
      var other := g.duels[key].At(1 - TurnAt(g, key));
      TotalResult(g.stats, shooter, other);
    }
  }

  lemma ShootNoSelfPlay(g: Game, key: int, shooter: int, coin: Bit)
    requires TurnsIndexable(g) && NoSelfPlay(g)
    ensures NoSelfPlay(Shoot(g, key, shooter, coin).game)
  {
  }

  /** At most one user can change a session's state: the one whose turn it is. */
  lemma OnlyOneMayShoot(g: Game, key: int, a: int, b: int, ca: Bit, cb: Bit)
    requires TurnsIndexable(g)
    requires Shoot(g, key, a, ca).game != g && Shoot(g, key, b, cb).game != g
    ensures a == b
  {
  }

  /** After a hit the session is gone: every further shot on it changes nothing. */
  lemma NoShotAfterWin(g: Game, key: int, shooter: int, coin: Bit, next: int, nextCoin: Bit)
    requires TurnsIndexable(g)
    requires Shoot(g, key, shooter, coin).notice.Won?
    ensures var after := Shoot(g, key, shooter, coin).game;
      TurnsIndexable(after) && Shoot(after, key, next, nextCoin) == Outcome(after, Silent)
  {
  }

  /** After a miss the other player, and only they, may shoot. */
  lemma MissPassesTurn(g: Game, key: int, shooter: int)
    requires TurnsIndexable(g) && MayShoot(g, key, shooter)
    ensures var after := Shoot(g, key, shooter, 1).game;
      var p := g.duels[key];
      TurnsIndexable(after) && MayShoot(after, key, p.At(1 - TurnAt(g, key)))
  {
  }
}
