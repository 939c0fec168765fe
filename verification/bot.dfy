/**
 One pass of the bot's update loop: record the sender in the identity
 directory, then route the update to a duel transition. A message can issue
 a challenge, by replying to the opponent's message or by mentioning the
 opponent's handle; a button press carries a payload that accepts, rejects
 or shoots.

 What the bot would send is kept as a list of abstract notices; the text of
 those messages and their delivery are not part of the model.
 */
module Bot {
  import opened Options
  import opened Identity
  import opened Payload
  import opened Duel

  /** A chat user as the transport reports them. */
  datatype User = User(id: int, userName: string, firstName: string)

  /** A text-span annotation of a message, with the text it covers. */
  datatype Mention = Mention(kind: string, text: string)

  datatype Message = Message(
    from: User,
    id: int,                  // message id, later the session key of the duel
    command: Option<string>,  // the command name when the text is a command
    replyTo: Option<User>,    // author of the message replied to
    saysDuel: bool,           // the lower-cased text contains the word for "duel"
    entities: seq<Mention>)

  datatype Event =
    | Incoming(msg: Message)
    | Pressed(who: User, data: string)
    | Other

  /** The bot's own account. */
  datatype BotSelf = BotSelf(id: int, userName: string)

  datatype World = World(dir: Directory, game: Game)

  datatype Reaction = Reaction(world: World, notices: seq<Notice>)

  const Init := World(Identity.Empty, Duel.Empty)

  function ObserveUser(d: Directory, u: User): Directory {
    Observe(d, u.id, DisplayHandle(u.userName, u.firstName))
  }

  function Say(n: Notice): seq<Notice> {
    if n == Silent then [] else [n]
  }

  /**
   A challenge by reply. Challenging the bot or oneself records nothing;
   otherwise the opponent's handle is recorded and so is the challenge.
   */
  function ReplyChallenge(w: World, me: BotSelf, initiator: int, target: User): (r: Reaction)
    ensures target.id == me.id ==> r == Reaction(w, [BotTargeted])
    ensures target.id != me.id && target.id == initiator ==> r == Reaction(w, [SelfTargeted])
    ensures target.id != me.id && target.id != initiator ==>
      && r.world.game.requests == w.game.requests[initiator := target.id]
      && r.world.game.duels == w.game.duels && r.world.game.turn == w.game.turn
      && r.world.game.stats == w.game.stats
      && r.world.dir == ObserveUser(w.dir, target)
      && Resolve(r.world.dir, DisplayHandle(target.userName, target.firstName)) == Some(target.id)
      && NameOf(r.world.dir, target.id) == DisplayHandle(target.userName, target.firstName)
      && r.notices == [Challenged(initiator, target.id)]
    ensures Sound(w) ==> Sound(r.world)
    ensures NoSelfPlay(w.game) ==> NoSelfPlay(r.world.game)
  {
    if target.id == me.id then Reaction(w, [BotTargeted])
    else if target.id == initiator then Reaction(w, [SelfTargeted])
    else
      var w1 := World(ObserveUser(w.dir, target), Challenge(w.game, initiator, target.id));
      Reaction(w1, [Challenged(initiator, target.id)])
  }

  function TrimAt(s: string): string {
    if |s| > 0 && s[0] == '@' then s[1..] else s
  }

  /**
   The user a mention challenges, if any: a `mention` entity that is not the
   bot's own handle and whose handle resolves. With `guardSelf` a mention of
   the initiator is refused as well, as a reply challenge refuses it.
   */
  function MentionTarget(d: Directory, botName: string, initiator: int, m: Mention, guardSelf: bool): Option<int> {
    if m.kind != "mention" || m.text == "@" + botName then None
    else match Resolve(d, TrimAt(m.text))
      case None => None
      case Some(u) => if guardSelf && u == initiator then None else Some(u)
  }

  /** The users challenged by a list of mentions, in order. */
  function Targets(d: Directory, botName: string, initiator: int, ms: seq<Mention>, guardSelf: bool): seq<int> {
    if |ms| == 0 then []
    else
      var mt := MentionTarget(d, botName, initiator, ms[0], guardSelf);
      (if mt.Some? then [mt.value] else []) + Targets(d, botName, initiator, ms[1..], guardSelf)
  }

  /** The loop over the mention entities of one message: each challenged user in turn replaces the pending challenge. */
  function MentionLoop(g: Game, d: Directory, botName: string, initiator: int, ms: seq<Mention>, guardSelf: bool): Game
    decreases |ms|
  {
    if |ms| == 0 then g
    else
      var mt := MentionTarget(d, botName, initiator, ms[0], guardSelf);
      var g1 := if mt.Some? then Challenge(g, initiator, mt.value) else g;
      MentionLoop(g1, d, botName, initiator, ms[1..], guardSelf)
  }

  /** The mention loop touches only the pending challenges. */
  lemma {:induction false} MentionLoopKeepsDuels(g: Game, d: Directory, botName: string, initiator: int, ms: seq<Mention>, guardSelf: bool)
    ensures var r := MentionLoop(g, d, botName, initiator, ms, guardSelf);
      r.duels == g.duels && r.turn == g.turn && r.stats == g.stats
    decreases |ms|
  {
    if |ms| > 0 {
      var mt := MentionTarget(d, botName, initiator, ms[0], guardSelf);
      var g1 := if mt.Some? then Challenge(g, initiator, mt.value) else g;
      MentionLoopKeepsDuels(g1, d, botName, initiator, ms[1..], guardSelf);
    }
  }

  /** The net effect of the mention loop: the last challenged user is the pending opponent. */
  lemma {:induction false} MentionLoopLastWins(g: Game, d: Directory, botName: string, initiator: int, ms: seq<Mention>, guardSelf: bool)
    ensures var t := Targets(d, botName, initiator, ms, guardSelf);
      MentionLoop(g, d, botName, initiator, ms, guardSelf).requests
        == if |t| == 0 then g.requests else g.requests[initiator := t[|t| - 1]]
    decreases |ms|
  {
    if |ms| > 0 {
      var mt := MentionTarget(d, botName, initiator, ms[0], guardSelf);
      var g1 := if mt.Some? then Challenge(g, initiator, mt.value) else g;
      MentionLoopLastWins(g1, d, botName, initiator, ms[1..], guardSelf);
      var t1 := Targets(d, botName, initiator, ms[1..], guardSelf);
      var t := Targets(d, botName, initiator, ms, guardSelf);
      if mt.Some? {
        assert g1.requests == g.requests[initiator := mt.value];
        assert t == [mt.value] + t1;
        if |t1| > 0 {
          assert t[|t| - 1] == t1[|t1| - 1];
          assert g1.requests[initiator := t1[|t1| - 1]] == g.requests[initiator := t1[|t1| - 1]];
        }
      } else {
        assert g1 == g;
        assert t == t1;
      }
    }
  }

  lemma {:induction false} TargetsNotSelf(d: Directory, botName: string, initiator: int, ms: seq<Mention>)
    ensures forall j :: 0 <= j < |Targets(d, botName, initiator, ms, true)| ==> Targets(d, botName, initiator, ms, true)[j] != initiator
    decreases |ms|
  {
    if |ms| > 0 {
      TargetsNotSelf(d, botName, initiator, ms[1..]);
    }
  }

  /** What the bot says for each mention: who is challenged, or which handle it does not know. */
  function MentionNotices(d: Directory, botName: string, initiator: int, ms: seq<Mention>, guardSelf: bool): seq<Notice> {
    if |ms| == 0 then []
    else
      var m := ms[0];
      var here :=
        if m.kind != "mention" || m.text == "@" + botName then []
        else match Resolve(d, TrimAt(m.text))
          case None => [UnknownUser(m.text)]
          case Some(u) => if guardSelf && u == initiator then [SelfTargeted] else [Challenged(initiator, u)];
      here + MentionNotices(d, botName, initiator, ms[1..], guardSelf)
  }

  /** The mention path as written: a user may challenge themselves by mentioning their own handle. */
  function MentionChallengesAsWritten(w: World, me: BotSelf, initiator: int, ms: seq<Mention>): (r: Reaction)
    ensures r.world.dir == w.dir
    ensures var t := Targets(w.dir, me.userName, initiator, ms, false);
      && r.world.game.requests == (if |t| == 0 then w.game.requests else w.game.requests[initiator := t[|t| - 1]])
      && r.world.game.duels == w.game.duels && r.world.game.turn == w.game.turn && r.world.game.stats == w.game.stats
    ensures Valid(w.game) ==> Valid(r.world.game)
  {
    MentionLoopLastWins(w.game, w.dir, me.userName, initiator, ms, false);
    MentionLoopKeepsDuels(w.game, w.dir, me.userName, initiator, ms, false);
    Reaction(w.(game := MentionLoop(w.game, w.dir, me.userName, initiator, ms, false)),
             MentionNotices(w.dir, me.userName, initiator, ms, false))
  }

  /** The mention path with the self-challenge refused, as the reply path refuses it. */
  function MentionChallenges(w: World, me: BotSelf, initiator: int, ms: seq<Mention>): (r: Reaction)
    ensures r.world.dir == w.dir
    ensures var t := Targets(w.dir, me.userName, initiator, ms, true);
      && (forall j :: 0 <= j < |t| ==> t[j] != initiator)
      && r.world.game.requests == (if |t| == 0 then w.game.requests else w.game.requests[initiator := t[|t| - 1]])
      && r.world.game.duels == w.game.duels && r.world.game.turn == w.game.turn && r.world.game.stats == w.game.stats
    ensures NoSelfPlay(w.game) ==> NoSelfPlay(r.world.game)
    ensures Valid(w.game) ==> Valid(r.world.game)
  {
    MentionLoopLastWins(w.game, w.dir, me.userName, initiator, ms, true);
    MentionLoopKeepsDuels(w.game, w.dir, me.userName, initiator, ms, true);
    TargetsNotSelf(w.dir, me.userName, initiator, ms);
    Reaction(w.(game := MentionLoop(w.game, w.dir, me.userName, initiator, ms, true)),
             MentionNotices(w.dir, me.userName, initiator, ms, true))
  }

  /**
   The bot's handling of a message, after the sender has been recorded. With
   `guardSelf` false mentions go through the loop as written, with it true
   through the corrected loop that refuses a self-challenge.
   */
  function HandleMessage(w: World, me: BotSelf, m: Message, guardSelf: bool): (r: Reaction)
    ensures NameOf(r.world.dir, m.from.id) == DisplayHandle(m.from.userName, m.from.firstName)
    ensures r.world.game.duels == w.game.duels && r.world.game.turn == w.game.turn && r.world.game.stats == w.game.stats
    ensures m.command.Some? || !m.saysDuel ==> r.world.game == w.game
    ensures m.command.None? && m.replyTo.None? && m.saysDuel ==>
      var t := Targets(ObserveUser(w.dir, m.from), me.userName, m.from.id, m.entities, guardSelf);
      r.world.game.requests == (if |t| == 0 then w.game.requests else w.game.requests[m.from.id := t[|t| - 1]])
    ensures Sound(w) ==> Sound(r.world)
    ensures guardSelf && NoSelfPlay(w.game) ==> NoSelfPlay(r.world.game)
  {
    var w1 := w.(dir := ObserveUser(w.dir, m.from));
    if m.command.Some? then Reaction(w1, [])
    else if m.replyTo.Some? && m.saysDuel then ReplyChallenge(w1, me, m.from.id, m.replyTo.value)
    else if m.saysDuel && |m.entities| > 0 then
      if guardSelf then MentionChallenges(w1, me, m.from.id, m.entities)
      else MentionChallengesAsWritten(w1, me, m.from.id, m.entities)
    else Reaction(w1, [])
  }

  /** The bot's handling of a button press, after the presser has been recorded. */
  function HandlePress(w: World, who: User, data: string, coin: Bit): (r: Reaction)
    requires TurnsIndexable(w.game)
    ensures r.world.dir == ObserveUser(w.dir, who)
    ensures Resolve(r.world.dir, DisplayHandle(who.userName, who.firstName)) == Some(who.id)
    ensures Decode(data).None? ==> r.world.game == w.game
  {
    var w1 := w.(dir := ObserveUser(w.dir, who));
    match Decode(data)
    case None => Reaction(w1, [])
    case Some(AcceptDuel(initiator, key)) =>
      var o := Accept(w1.game, who.id, initiator, key, coin);
      Reaction(w1.(game := o.game), Say(o.notice))
    case Some(RejectDuel(initiator)) =>
      var o := Reject(w1.game, initiator);
      Reaction(w1.(game := o.game), Say(o.notice))
    case Some(ShootAt(key)) =>
      var o := Shoot(w1.game, key, who.id, coin);
      Reaction(w1.(game := o.game), Say(o.notice))
  }

  /** One update of the loop; `guardSelf` picks the mention path, as in HandleMessage. */
  function Step(w: World, me: BotSelf, e: Event, coin: Bit, guardSelf: bool): Reaction
    requires TurnsIndexable(w.game)
  {
    match e
    case Incoming(m) => HandleMessage(w, me, m, guardSelf)
    case Pressed(who, data) => HandlePress(w, who, data, coin)
    case Other => Reaction(w, [])
  }

  /** The invariants the program as written keeps: duel bookkeeping and a linked directory. */
  ghost predicate Sound(w: World) {
    Valid(w.game) && Linked(w.dir)
  }

  /** Sound, and in addition nobody challenges or duels themselves. */
  ghost predicate Consistent(w: World) {
    Sound(w) && NoSelfPlay(w.game)
  }

  lemma InitConsistent()
    ensures Consistent(Init)
  {
    EmptyValid();
  }

  /** Every update, with either mention path, keeps the invariants of the program as written. */
  lemma StepSound(w: World, me: BotSelf, e: Event, coin: Bit, guardSelf: bool)
    requires Sound(w)
    ensures TurnsIndexable(w.game) && Sound(Step(w, me, e, coin, guardSelf).world)
  {
    ValidIndexable(w.game);
    if e.Pressed? {
      var w1 := w.(dir := ObserveUser(w.dir, e.who));
      var p := Decode(e.data);
      if p.Some? && p.value.ShootAt? {
        ShootValid(w1.game, p.value.key, e.who.id, coin);
      }
    }
  }

  /** With the corrected mention path, every update also keeps self-play out. */
  lemma StepNoSelfPlay(w: World, me: BotSelf, e: Event, coin: Bit)
    requires TurnsIndexable(w.game)
    ensures NoSelfPlay(w.game) ==> NoSelfPlay(Step(w, me, e, coin, true).world.game)
  {
    if e.Pressed? && NoSelfPlay(w.game) {
      var w1 := w.(dir := ObserveUser(w.dir, e.who));
      var p := Decode(e.data);
      if p.Some? && p.value.ShootAt? {
        ShootNoSelfPlay(w1.game, p.value.key, e.who.id, coin);
      }
    }
  }

  /**
   The world after a sequence of updates, each with the coin it may consume.
   The invariants of the program as written hold throughout; with the
   corrected mention path nobody ever plays themselves either.
   */
  function Run(w: World, me: BotSelf, events: seq<(Event, Bit)>, guardSelf: bool): (r: World)
    requires Sound(w)
    ensures Sound(r)
    ensures guardSelf && NoSelfPlay(w.game) ==> NoSelfPlay(r.game)
    decreases |events|
  {
    if |events| == 0 then w
    else
      StepSound(w, me, events[0].0, events[0].1, guardSelf);
      StepNoSelfPlay(w, me, events[0].0, events[0].1);
      Run(Step(w, me, events[0].0, events[0].1, guardSelf).world, me, events[1..], guardSelf)
  }

  /**
   Alice (id 1) replies with a challenge to a message of Bob (id 2); Bob
   presses the accept button of that challenge; the duel starts with the
   coin's player to shoot first.
   */
  lemma ReplyThenAccept(me: BotSelf, coin: Bit)
    requires me.id != 1 && me.id != 2
    ensures var alice := User(1, "alice", "Alice");
      var bob := User(2, "bob", "Bob");
      var m := Message(alice, 100, None, Some(bob), true, []);
      var w1 := Step(Init, me, Incoming(m), 0, false).world;
      && w1.game.requests == map[1 := 2]
      && TurnsIndexable(w1.game)
      && var w2 := Step(w1, me, Pressed(bob, Encode(AcceptDuel(1, 100))), coin, false).world;
        && w2.game.requests == map[]
        && w2.game.duels == map[100 := Pair(1, 2)]
        && w2.game.turn == map[100 := coin]
  {
    DecodeEncode(AcceptDuel(1, 100));
  }

  /** A press by anyone but the challenged user leaves the challenge pending and starts nothing. */
  lemma AcceptByStrangerIgnored(w: World, me: BotSelf, stranger: User, initiator: int, key: int, coin: Bit, guardSelf: bool)
    requires TurnsIndexable(w.game)
    requires initiator in w.game.requests && w.game.requests[initiator] != stranger.id
    ensures Step(w, me, Pressed(stranger, Encode(AcceptDuel(initiator, key))), coin, guardSelf).world.game == w.game
  {
    DecodeEncode(AcceptDuel(initiator, key));
  }

  /**
   The mention path as written accepts a self-challenge: user 1, known as
   "alice", mentions "@alice", and the pending challenge pairs user 1 with
   user 1; accepting it starts a duel of user 1 against user 1.
   */
  lemma SelfChallengeByMention(me: BotSelf)
    requires me.userName != "alice"
    ensures var d := Observe(Identity.Empty, 1, "alice");
      var w := World(d, Duel.Empty);
      var r := MentionChallengesAsWritten(w, me, 1, [Mention("mention", "@alice")]);
      && r.world.game.requests == map[1 := 1]
      && !NoSelfPlay(r.world.game)
      && Accept(r.world.game, 1, 1, 100, 0).game.duels == map[100 := Pair(1, 1)]
  {
    var d := Observe(Identity.Empty, 1, "alice");
    var m := Mention("mention", "@alice");
    assert m.text != "@" + me.userName;
    assert TrimAt(m.text) == "alice";
    assert MentionTarget(d, me.userName, 1, m, false) == Some(1);
  }

  /**
   The same self-challenge through a whole update: Alice's own message
   "дуэль @alice" leaves the request 1 -> 1 pending in the program as
   written, and nothing pending with the corrected mention path.
   */
  lemma SelfMentionStep(me: BotSelf)
    requires me.userName != "alice"
    ensures var m := Message(User(1, "alice", "Alice"), 100, None, None, true, [Mention("mention", "@alice")]);
      && Step(Init, me, Incoming(m), 0, false).world.game.requests == map[1 := 1]
      && Step(Init, me, Incoming(m), 0, true).world.game.requests == map[]
  {
    var alice := User(1, "alice", "Alice");
    var d := ObserveUser(Init.dir, alice);
    var mention := Mention("mention", "@alice");
    assert mention.text != "@" + me.userName;
    assert TrimAt(mention.text) == "alice";
    assert MentionTarget(d, me.userName, 1, mention, false) == Some(1);
    assert MentionTarget(d, me.userName, 1, mention, true) == None;
    assert Targets(d, me.userName, 1, [mention], false) == [1];
    assert Targets(d, me.userName, 1, [mention], true) == [];
  }
}
