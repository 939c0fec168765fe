# Duel bot: a Dafny model of the duel engine

The bot runs a turn-based "duel" game in a Telegram group chat and keeps a
win/loss leaderboard. A user challenges another user, either by replying to
that user's message or by mentioning their handle. The challenged user
accepts or rejects with an inline button. The two players then take turns
pressing "shoot". Each shot is a fair coin: a hit ends the duel and records a
win and a loss, and a miss passes the turn.

The bot keeps all of its state in four process-wide maps: pending challenges
(initiator → opponent), active duels (session key → ordered pair of players),
whose turn it is (session key → 0 or 1), and per-user stats. Next to them it
keeps a handle ↔ id directory. This project models that state as an immutable
record of maps. Every transition of the update loop is a pure function of the
state, and each coin flip (`rand.Intn(2)`) is passed in as a `Bit`.

Modules:

- `Decimal`: `%d` rendering of integers and the parser that reads it back.
- `Identity`: the handle ↔ id directory, `getUserIDByUsername` and `getUsernameByID`.
- `Payload`: the button data strings `accept_duel|<id>|<key>`, `reject_duel|<id>` and `shoot|<key>`.
- `Stats`: `UserStat`, lazy creation and increments, and the sums of wins and of losses.
- `Duel`: the four maps, and the challenge, accept, reject and shoot transitions with their invariants.
- `Leaderboard`: the ordering done by the `/stats` command.
- `Bot`: one pass of the update loop (`Step`), the reply and mention challenge paths, and runs of many updates.

`Bot.Step` takes a flag that selects the mention path: `false` is the loop
as written in main.go, and `true` is the corrected loop that refuses a
self-challenge (see Findings). The invariants kept by every update of the
program as written (`Bot.Sound`) are:

- the active duels and the stored turns have the same keys;
- every turn is 0 or 1;
- total wins equal total losses;
- every directory entry points at an id or handle that has an entry the other way.

With the corrected mention path, every update also keeps the following
(`Bot.Consistent`): nobody is challenged by, or duels, themselves.

## Model

| member | source | states |
|---|---|---|
| Decimal.ParseIntIff | main.go:302 | the `%d` rendering of an id is read back to that id, and only such renderings parse |
| Identity.NameOf | main.go:297-303 | the display name is the last recorded handle, or else the decimal rendering of the id, which parses back to the id |
| Identity.Observe | main.go:59-60 | after observing a user, the handle resolves to the id and the id displays as the handle; other handles and ids are unaffected; the directory stays linked |
| Payload.DecodeEncode | main.go:120-121 | every accept, reject or shoot payload decodes back to the same intent |
| Payload.EncodeDecode | main.go:141-174 | a string that decodes is exactly the encoding of its result |
| Payload.DecodeIff | main.go:141-174 | decoding yields a payload if and only if the string is that payload's encoding |
| Payload.SplitAtSep | main.go:144 | splitting at the first separator succeeds iff there is one, and the two parts rejoin to the input |
| Stats.Record | main.go:267-276 | recording creates the entry when missing and raises exactly one counter of exactly one user by one |
| Stats.TotalRecord | main.go:267-276 | a recorded win raises the total of wins by one and leaves total losses alone, and the same for a loss |
| Stats.RecordResult | main.go:266-276 | a duel result creates the winner's and the loser's entries when missing, gives the winner exactly one more win and the loser exactly one more loss, and changes no other user |
| Stats.TotalResult | main.go:266-276 | a duel result raises total wins and total losses by one each |
| Duel.Challenge | main.go:226 | the initiator's pending opponent becomes the target, replacing any earlier one; other challenges and all duels, turns and stats are unchanged |
| Duel.ChallengeKeepsInvariants | main.go:226 | recording a challenge keeps the duel invariants, and keeps nobody challenged by themselves when the target is not the initiator |
| Duel.Accept | main.go:141-159 | a duel starts iff a challenge by the initiator is pending and the presser is its opponent; it is then the pair (initiator, presser) with the coin's turn and the challenge is gone; otherwise nothing changes |
| Duel.Reject | main.go:160-171 | whoever presses, the initiator's pending challenge is removed and nothing else changes |
| Duel.Shoot | main.go:243-260 | a shot never touches pending challenges; a shot on an unknown session is silent and one by a player out of turn is answered "not your turn", and neither changes anything; every stored turn still indexes its pair afterwards |
| Duel.ShootHit | main.go:263-284 | a hit announces the shooter as winner, removes the session from duels and turns, gives the shooter one win and the other player one loss, and changes no other counter |
| Duel.ShootMiss | main.go:285-288 | a miss flips the session's turn, leaves other turns, duels and stats unchanged, and prompts the other player |
| Duel.ShootValid | main.go:263-288 | a shot keeps turns in {0, 1}, the same keys in duels and turns, and total wins equal to total losses |
| Duel.OnlyOneMayShoot | main.go:249-260 | at most one user can change a session's state with a shot: the one whose turn it is |
| Duel.NoShotAfterWin | main.go:283-284 | after a hit every further shot on that session is silently ignored |
| Duel.MissPassesTurn | main.go:285-288 | after a miss the other player is the one allowed to shoot |
| Duel.ValidIndexable | main.go:249-250 | under the invariants the stored turn always indexes the pair, so the lookup never goes out of range |
| Leaderboard.InsertByWins | main.go:333-335 | inserting a user keeps the list ordered by non-increasing wins and adds exactly that user |
| Leaderboard.Snapshot | main.go:306-335 | the listing names every user with stats exactly once, orders them by non-increasing wins, and shows each user's display name, wins and losses |
| Leaderboard.ThreeUserRanking | main.go:333-335 | stats {A: 3/1, B: 5/0, C: 0/2} can only be listed B, A, C |
| Bot.ReplyChallenge | main.go:183-227 | a reply challenge to the bot or to oneself records nothing; otherwise the target is observed in both directions of the directory and nothing else in it changes, and the challenge replaces any earlier one of the initiator; the invariants are kept |
| Bot.MentionLoopLastWins | main.go:101-128 | after the loop over mentions, the pending opponent is the last mentioned user who resolved, or unchanged when none resolved |
| Bot.MentionLoopKeepsDuels | main.go:101-128 | the loop over mentions changes no duel, turn or stat |
| Bot.MentionChallenges | main.go:101-128 | the mention path, with self-challenges refused, records the last resolvable mention other than the initiator and changes nothing else |
| Bot.MentionChallengesAsWritten | main.go:101-128 | the mention path as written records the last resolvable non-bot mention, the initiator included, and keeps the duel invariants |
| Bot.SelfChallengeByMention | main.go:105-126 | a user known as "alice" who mentions "@alice" gets a challenge against themselves, and accepting it starts a duel of that user against themselves |
| Bot.SelfMentionStep | main.go:53-128 | a whole update on alice's own message mentioning "@alice" leaves the request 1 → 1 pending as written, and nothing pending with the corrected path |
| Bot.HandleMessage | main.go:53-131 | a message records its sender's handle and never touches duels, turns or stats; a command, or a message without the duel word, changes no game state; a non-reply duel message leaves the last resolvable mention pending, as written or with the self-check; the invariants are kept |
| Bot.HandlePress | main.go:61-177 | a button press records the presser in both directions of the directory and changes no game state when its data does not decode |
| Bot.StepSound | main.go:51-179 | every update, with the mention loop as written or corrected, keeps the duel invariants and the linked directory |
| Bot.StepNoSelfPlay | main.go:51-179 | with the corrected mention path, every update keeps anyone from being challenged by, or duelling, themselves |
| Bot.Run | main.go:51-179 | any sequence of updates from a sound state ends in a sound state; with the corrected mention path, self-play never arises either |
| Bot.ReplyThenAccept | main.go:141-158 | alice replies with a challenge to bob, bob accepts, and the duel (alice, bob) starts with the coin's turn and no challenge left pending |
| Bot.AcceptByStrangerIgnored | main.go:147 | an accept press by anyone but the challenged user leaves the whole game state unchanged |

## Left out

- The language-model client in gpt_handler.go is not part of this model. It is HTTP I/O, a wall-clock rate limiter, a mutex-guarded token budget and a sleeping goroutine.
- Telegram transport is not modelled: receiving updates, sending messages, building keyboards and the text of outbound messages. What the bot would send is an abstract `Notice`; the reject notice names the initiator rather than the presser's user name.
- Token loading, bot start-up and `rand.Seed` are left out. Each coin is an input `Bit`, and a hit is coin 0, as `rand.Intn(2) == 0` in the source.
- The mention text is given with each entity. Slicing the text by entity offset and length is left out, because it depends on Telegram's offset units versus Go byte indexing.
- Lower-casing the text and looking for the word "дуэль" is an input flag, `saysDuel`, because Unicode case mapping is not modelled.
- Payload.Decode accepts only the canonical encodings. `fmt.Sscanf` also accepts other numerals (leading zeros, a plus sign) and ignores trailing text. When parsing fails, the source goes on with the numbers read before the failure and zero for the rest; the model ignores such a press. Only this system builds payloads, so these strings arise only from foreign clients.
- Ids and session keys are unbounded integers; the source's `int64` and `int` widths are not modelled. Wins and losses are naturals and never overflow, unlike Go's `int`.
- Leaderboard.Snapshot does not fix an order among users with equal wins. `sort.Slice` is not stable and map iteration order is unspecified, so only non-increasing wins is stated. The rendering of the ranked list and the "stats are empty" message are left out; the listing is empty exactly when no stats exist.
- Duel.Shoot requires that every active duel's turn is 0 or 1. Otherwise the source would panic indexing the pair; the invariants guarantee this never happens (Duel.ValidIndexable).
- The maps are chat-agnostic, as in the source. Session keys are message ids, so a second duel under an existing key replaces the first.
- Commands other than `/stats` are ignored, as in the source.
- main.go:56-60 records the first name whenever the user name is empty, even if the first name is empty too; the model does the same.
- main.go contains only the duel game; no other game is modelled.
- `Bot.Step`, `Bot.HandleMessage` and `Bot.Run` take the mention path as a flag. With `false` they model main.go as written; with `true` they use the corrected `Bot.MentionChallenges` (see Findings). The no-self-play invariant is proved only for `true`, since the code as written breaks it.

## Findings

| source | as written | input that shows it | evidently intended | confidence | as-written member | corrected member |
|---|---|---|---|---|---|---|
| main.go:105-126 | the mention path challenges any resolvable handle except the bot's, the sender's own handle included | user 1, recorded as "alice", sends a duel message mentioning "@alice": the pending challenge is 1 → 1, and pressing accept starts a duel of user 1 against user 1 | refuse a self-challenge, as the reply path does at main.go:203-208 | medium, not executed | Bot.MentionChallengesAsWritten (exhibited by Bot.SelfChallengeByMention and Bot.SelfMentionStep) | Bot.MentionChallenges |
